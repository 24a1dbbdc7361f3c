/** Inputs at which the patch engine and the rewrites do not do what one would expect; the exact
    conditions are the theorems of Hunks, Candidates and PrintExactly. */
module Failures {
  import opened Base
  import opened TextLines
  import opened Strings
  import opened Hunks
  import opened DiffText
  import opened Unified
  import opened RoundTrip
  import opened Candidates
  import opened PrintExactly
  import Patching

  lemma OneDropped()
    ensures Old(["-a"]) == ["a"] && New(["-a"]) == []
  {
    assert ["-a"][..0] == [] && "-a"[1..] == "a";
  }

  lemma OneKept()
    ensures Old([" a"]) == ["a"] && New([" a"]) == ["a"]
  {
    assert [" a"][..0] == [] && " a"[1..] == "a";
  }

  lemma OneLineText()
    ensures SplitLines("a\n") == ["a"] && SplitLines("a") == ["a"]
  {
    assert Unlines(["a"]) == "a" + [NL] + "" == "a\n";
    LinesOfUnlines(["a"]);
    SplitOne("a");
  }

  /** Removing the only line of a file writes one newline, and undoing that does not restore the file. */
  lemma EmptiedIsNotRestored()
    ensures var hunks := [Hunk(1, ["-a"])];
            Written("a\n", hunks) == Ok("\n") && Written("\n", Inverted(hunks, 0, 0)) != Ok("a\n")
  {
    var hunks := [Hunk(1, ["-a"])];
    OneLineText();
    OneDropped();
    OneHunk([], ["-a"], []);
    assert [] + ["a"] + [] == ["a"];
    assert FileText(["a"], []) == "\n";
    assert Clean(hunks);
    Vanishing(hunks);
    InverseRestores("a\n", hunks);
  }

  lemma Vanishing(hunks: seq<Hunk>)
    requires hunks == [Hunk(1, ["-a"])]
    ensures Vanishes(["a"], hunks)
  {
    OneDropped();
    assert hunks[1..] == [];
  }

  /** A last line without its newline gains one from a patch that changes nothing, and undoing that does
      not take it away. */
  lemma UnendedIsNotRestored()
    ensures var hunks := [Hunk(1, [" a"])];
            Written("a", hunks) == Ok("a\n") && Written("a\n", Inverted(hunks, 0, 0)) != Ok("a")
  {
    OneLineText();
    OneKept();
    OneHunk([], [" a"], []);
    assert [] + ["a"] + [] == ["a"];
    assert FileText(["a"], ["a"]) == "a\n";
    assert Clean([Hunk(1, [" a"])]);
    InverseRestores("a", [Hunk(1, [" a"])]);
  }

  /** A removed line that looks like a file header is not removed. */
  lemma HeaderLikeLineIsLost(tree: Patching.Tree, rel: string, diff: string, canon: string -> Option<string>, to: string)
    requires OneLine(rel) && !EndsCR(rel) && canon(PrintedPath(rel)) == Some(to) && to in tree && tree[to] == "-- x\n"
    requires diff == Unlines(DiffLines(rel, 1, ["-- x"], ["y"]))
    ensures Patching.Patched(tree, diff, Standard(canon)) != Some(tree[to := "y\n"])
  {
    assert Unlines(["-- x"]) == "-- x" + [NL] + "" == "-- x\n";
    assert Unlines(["y"]) == "y" + [NL] + "" == "y\n";
    assert "" + Unlines(["-- x"]) + "" == "-- x\n" && "" + Unlines(["y"]) + "" == "y\n";
    assert Around("-- x\n", "y\n", 1, ["-- x"], ["y"], "", "");
    assert "-- x"[..3] == "-- ";
    assert !Survive(["-- x"], ["y"]) by {
      assert "-- " <= ["-- x"][0];
    }
    SurvivesExactly(tree, rel, 1, ["-- x"], ["y"], diff, canon, to, "y\n");
  }

  lemma FoundAtOnce()
    ensures Index("a\n", "a\n") == Some(0) && Terminated("x") == "x\n" && SplitLines("") == []
  {
    assert "a\n"[0..2] == "a\n";
    IndexIs("a\n", "a\n", 0);
    TerminatedIs("x");
    LinesOfUnlines([]);
  }

  /** A new text without a final newline does not arrive as it was given. */
  lemma UnendedTextGrows(tree: Patching.Tree, rel: string, diff: string, canon: string -> Option<string>, to: string)
    requires Printable(rel, Lines("a\n"), Lines("x")) && canon(PrintedPath(rel)) == Some(to) && to in tree && tree[to] == "a\n"
    requires diff == CandidateText(rel, "a\n", 0, "a\n", "x")
    ensures Patching.Patched(tree, diff, Standard(canon)) == Some(tree[to := "x\n"])
  {
    FoundAtOnce();
    assert "a\n"[..0] == "" && "a\n"[0 + |"a\n"|..] == "" && "" + "x\n" + "" == "x\n";
    CandidateOutcome(tree, rel, "a\n", 0, "a\n", "x", diff, canon, to, "", "");
  }

  lemma FirstInSecond()
    ensures Index("xa\n", "a\n") == Some(1)
  {
    var raw := "xa\n";
    assert raw[1..3] == "a\n" && raw[0..2] == "xa";
    assert !OccursAt(raw, "a\n", 0) by {
      assert raw[0..2][0] == 'x';
    }
    IndexIs(raw, "a\n", 1);
  }

  /** A candidate found in the middle of a line is never applied. */
  lemma MidLineIsMissed(tree: Patching.Tree, rel: string, newText: string, diff: string, canon: string -> Option<string>, to: string)
    requires Printable(rel, Lines("a\n"), Lines(newText)) && canon(PrintedPath(rel)) == Some(to) && to in tree && tree[to] == "xa\n"
    requires diff == CandidateText(rel, "xa\n", 1, "a\n", newText)
    ensures Index("xa\n", "a\n") == Some(1) && Patching.Patched(tree, diff, Standard(canon)) == None
  {
    FirstInSecond();
    assert "xa\n"[..1] == "x" && "xa\n"[1 + |"a\n"|..] == "";
    CountOneLine("x");
    CandidateOutcome(tree, rel, "xa\n", 1, "a\n", newText, diff, canon, to, "x", "");
  }
}
