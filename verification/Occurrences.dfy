/** A text found in a file, and the hunk printed for it (internal/rewrite/shop.go, internal/diff/apply.go). */
module Occurrences {
  import opened Base
  import opened Totals
  import opened TextLines
  import opened Hunks
  import opened Unified
  import opened RoundTrip

  lemma CountWhole(pre: string)
    requires Whole(pre)
    ensures Count(pre) == |SplitLines(pre)|
  {
    var a := WholeLines(pre);
    CountUnlines(a);
  }

  lemma WrittenFrom(text: string, orig: seq<string>, hunks: seq<Hunk>, out: seq<string>)
    requires SplitLines(text) == orig && Outcome(orig, hunks, 0) == Ok(out) && AllLines(out) && out != []
    ensures Written(text, hunks) == Ok(Unlines(out))
  {
    WrittenReadsBack(orig, out);
  }

  lemma WrittenBlocks(text: string, a: seq<string>, olds: seq<string>, news: seq<string>, b: seq<string>, start: nat)
    requires SplitLines(text) == a + olds + b && start == |a| + 1
    requires AllLines(a) && AllLines(news) && AllLines(b) && news != []
    ensures Written(text, [Hunk(start, Replacing(olds, news))]) == Ok(Unlines(a + news + b))
  {
    ReplacesLines(a, olds, news, b);
    WrittenFrom(text, a + olds + b, [Hunk(start, Replacing(olds, news))], a + news + b);
  }

  /** The text up to the last newline, and the line begun after it. */
  lemma {:induction false} LastLine(s: string) returns (a: string, u: string)
    ensures s == a + u && Whole(a) && OneLine(u) && (u == "" <==> Whole(s))
  {
    if Whole(s) {
      a, u := s, "";
    } else {
      var n := |s| - 1;
      var v;
      a, v := LastLine(s[..n]);
      u := v + [s[n]];
      assert s == s[..n] + [s[n]];
    }
  }

  lemma {:induction false} SplitUnlines(ls: seq<string>, rest: string)
    requires AllLines(ls)
    ensures Split(Unlines(ls) + rest) == ls + Split(rest)
  {
    if ls == [] {
      assert Unlines(ls) + rest == rest;
    } else {
      SplitUnlines(ls[1..], rest);
      SplitLine(ls[0], Unlines(ls[1..]) + rest);
      assert Unlines(ls) + rest == ls[0] + [NL] + (Unlines(ls[1..]) + rest);
      assert ls == [ls[0]] + ls[1..];
    }
  }

  lemma ChompTail(a: string, rest: string)
    requires rest != ""
    ensures SplitLines(a + rest) == Split(a + Chomp(rest))
  {
    assert Chomp(a + rest) == a + Chomp(rest);
  }

  /** A text that breaks off in a line: its whole lines, counted, and the line begun. */
  lemma Begun(s: string) returns (a: string, u: string)
    requires !Whole(s)
    ensures s == a + u && Whole(a) && OneLine(u) && u != "" && Count(s) == |SplitLines(a)|
  {
    a, u := LastLine(s);
    CountConcat(a, u);
    CountWhole(a);
    CountOneLine(u);
  }

  /** Whole lines in front of a text stay in front of its lines. */
  lemma LinesAfter(a: seq<string>, rest: string)
    requires AllLines(a)
    ensures SplitLines(Unlines(a) + rest) == a + SplitLines(rest)
  {
    if rest == "" {
      assert Unlines(a) + rest == Unlines(a) && a + [] == a;
      LinesOfUnlines(a);
    } else {
      ChompTail(Unlines(a), rest);
      SplitUnlines(a, Chomp(rest));
    }
  }

  lemma TwoAfter(a: seq<string>, b: seq<string>, rest: string)
    requires AllLines(a) && AllLines(b)
    ensures SplitLines(Unlines(a) + Unlines(b) + rest) == a + b + SplitLines(rest)
  {
    UnlinesConcat(a, b);
    LinesAfter(a + b, rest);
  }

  /** Two lists of lines where the last line of one runs on into the first of the other. */
  function Seam(a: seq<string>, b: seq<string>): seq<string>
    requires a != [] && b != []
  {
    a[..|a| - 1] + [a[|a| - 1] + b[0]] + b[1..]
  }

  lemma SeamCons(a: seq<string>, b: seq<string>)
    requires |a| > 1 && b != []
    ensures Seam(a, b) == [a[0]] + Seam(a[1..], b)
  {
  }

  lemma JoinCons(l: string, ls: seq<string>)
    ensures Join([l] + ls) == if ls == [] then l else l + [NL] + Join(ls)
  {
    assert ([l] + ls)[1..] == ls;
  }

  lemma JoinSeamOne(l: string, b: seq<string>)
    requires b != []
    ensures Join(Seam([l], b)) == Join([l]) + Join(b)
  {
    assert Seam([l], b) == [l + b[0]] + b[1..] && b == [b[0]] + b[1..];
    JoinCons(l + b[0], b[1..]);
    JoinCons(b[0], b[1..]);
    JoinCons(l, []);
    assert [l] + [] == [l];
  }

  lemma JoinSeamMore(a: seq<string>, b: seq<string>)
    requires |a| > 1 && b != [] && Join(Seam(a[1..], b)) == Join(a[1..]) + Join(b)
    ensures Join(Seam(a, b)) == Join(a) + Join(b)
  {
    SeamCons(a, b);
    JoinCons(a[0], Seam(a[1..], b));
    assert a == [a[0]] + a[1..];
    JoinCons(a[0], a[1..]);
    Regroup(a[0] + [NL], Join(a[1..]), Join(b));
  }

  lemma {:induction false} JoinSeam(a: seq<string>, b: seq<string>)
    requires a != [] && b != []
    ensures Join(Seam(a, b)) == Join(a) + Join(b)
  {
    if |a| == 1 {
      JoinSeamOne(a[0], b);
      assert a == [a[0]];
    } else {
      JoinSeam(a[1..], b);
      JoinSeamMore(a, b);
    }
  }

  lemma SeamLines(a: seq<string>, b: seq<string>)
    requires a != [] && b != [] && AllLines(a) && AllLines(b)
    ensures AllLines(Seam(a, b))
  {
  }

  /** The lines a text joins are the lines it splits into. */
  lemma SplitIs(text: string, ls: seq<string>)
    requires ls != [] && AllLines(ls) && text == Join(ls)
    ensures Split(text) == ls
  {
    SplitJoin(ls);
  }

  /** Splitting a text splits each part, but for the line the parts share. */
  lemma SplitSeam(s: string, t: string)
    ensures Split(s + t) == Seam(Split(s), Split(t))
  {
    var a, b := Split(s), Split(t);
    JoinSplit(s);
    JoinSplit(t);
    JoinSeam(a, b);
    SeamLines(a, b);
    SplitIs(s + t, Seam(a, b));
  }

  // Where the printed hunk fits.

  /** The text begins a line and ends one, in a file that has lines. */
  predicate OnLines(pre: string, oldText: string, post: string) {
    pre + oldText + post != "" && Whole(pre) && (EndsLine(oldText) || post == "" || post[0] == NL)
  }

  /** What follows the lines of the text. */
  function After(oldText: string, post: string): string {
    if EndsLine(oldText) || post == "" then post else post[1..]
  }

  lemma EndedFits(a: seq<string>, oldText: string, post: string, raw: string)
    requires AllLines(a) && EndsLine(oldText) && raw == Unlines(a) + oldText + post
    ensures SplitLines(raw) == a + Lines(oldText) + SplitLines(post)
  {
    TerminatedIs(oldText);
    TwoAfter(a, Lines(oldText), post);
  }

  lemma Borrowed(a: string, text: string, post: string)
    requires post != "" && post[0] == NL
    ensures a + text + post == a + (text + [NL]) + post[1..]
  {
    assert post == [NL] + post[1..];
  }

  lemma BrokenFits(a: seq<string>, oldText: string, post: string, raw: string)
    requires AllLines(a) && !EndsLine(oldText) && post != "" && post[0] == NL && raw == Unlines(a) + oldText + post
    ensures SplitLines(raw) == a + Lines(oldText) + SplitLines(post[1..])
  {
    TerminatedIs(oldText);
    Borrowed(Unlines(a), oldText, post);
    TwoAfter(a, Lines(oldText), post[1..]);
  }

  lemma LastFits(a: seq<string>, oldText: string, raw: string)
    requires AllLines(a) && !EndsLine(oldText) && oldText != "" && raw == Unlines(a) + oldText
    ensures SplitLines(raw) == a + Lines(oldText)
  {
    LinesAfter(a, oldText);
  }

  lemma NothingAfter(s: string, ls: seq<string>)
    ensures s + "" == s && ls + SplitLines("") == ls
  {
  }

  lemma FitLines(pre: string, oldText: string, post: string, raw: string)
    requires OnLines(pre, oldText, post) && (oldText == "" ==> pre == "") && raw == pre + oldText + post
    ensures SplitLines(raw) == SplitLines(pre) + Lines(oldText) + SplitLines(After(oldText, post))
  {
    var a := WholeLines(pre);
    if EndsLine(oldText) {
      EndedFits(a, oldText, post, raw);
    } else if post != "" {
      BrokenFits(a, oldText, post, raw);
    } else {
      NothingAfter(pre + oldText, a + Lines(oldText));
      LastFits(a, oldText, raw);
    }
  }

  /** A hunk does not apply where a line of the file is longer than the one it expects. */
  lemma Mismatches(orig: seq<string>, k: nat, olds: seq<string>, news: seq<string>, m: nat)
    requires k <= |orig| && m < |olds| && (k + m < |orig| ==> |orig[k + m]| > |olds[m]|)
    ensures Outcome(orig, [Hunk(1 + k, Replacing(olds, news))], 0) == Err(Mismatch)
  {
    ReplacingSides(olds, news);
    LongerNotFound(orig, k, olds, m);
  }

  lemma LongerNotFound(orig: seq<string>, k: nat, olds: seq<string>, m: nat)
    requires k <= |orig| && m < |olds| && (k + m < |orig| ==> |orig[k + m]| > |olds[m]|)
    ensures !Found(orig, k, olds)
  {
    assert k + |olds| <= |orig| ==> orig[k..k + |olds|][m] == orig[k + m];
  }

  lemma LongerFirst(u: string, oldText: string, post: string)
    requires OneLine(u) && u != ""
    ensures var ls := SplitLines(u + oldText + post); |ls| > 0 && |ls[0]| > |Lines(oldText)[0]|
  {
    var text := u + oldText + post;
    var tail := if post != "" then (if EndsLine(oldText) then [NL] + Chomp(post) else Chomp(post)) else "";
    assert Chomp(text) == u + (Chomp(oldText) + tail);
    SplitOne(u);
    SplitSeam(u, Chomp(oldText) + tail);
    SplitSeam(Chomp(oldText), tail);
  }

  lemma LongerLast(oldText: string, post: string)
    requires !EndsLine(oldText) && post != "" && post[0] != NL
    ensures var ls, m := SplitLines(oldText + post), |Lines(oldText)| - 1; |ls| > m && |ls[m]| > |Lines(oldText)[m]|
  {
    var c := Chomp(post);
    ChompTail(oldText, post);
    SplitSeam(oldText, c);
    assert c != "" && c[0] == post[0];
    assert Split(c)[0] != "";
  }

  lemma FourParts(a: string, u: string, oldText: string, post: string)
    ensures a + u + oldText + post == a + (u + oldText + post) && u + oldText + post == u + (oldText + post)
  {
    Regroup(a, u, oldText);
    Regroup(a, u + oldText, post);
    Regroup(u, oldText, post);
  }

  lemma Shifted(la: seq<string>, ls: seq<string>, m: nat)
    requires m < |ls|
    ensures |la + ls| > |la| + m && (la + ls)[|la| + m] == ls[m]
  {
  }

  lemma AfterWhole(a: string, rest: string)
    requires Whole(a)
    ensures SplitLines(a + rest) == SplitLines(a) + SplitLines(rest)
  {
    var la := WholeLines(a);
    LinesAfter(la, rest);
  }

  lemma LongerMisses(a: string, rest: string, olds: seq<string>, news: seq<string>, m: nat, start: nat)
    requires Whole(a) && start == 1 + |SplitLines(a)| && m < |olds| && m < |SplitLines(rest)| && |SplitLines(rest)[m]| > |olds[m]|
    ensures Written(a + rest, [Hunk(start, Replacing(olds, news))]) == Err(Mismatch)
  {
    AfterWhole(a, rest);
    LongerAfter(a + rest, SplitLines(a), SplitLines(rest), olds, news, m);
  }

  lemma LongerAfter(text: string, la: seq<string>, ls: seq<string>, olds: seq<string>, news: seq<string>, m: nat)
    requires SplitLines(text) == la + ls && m < |olds| && m < |ls| && |ls[m]| > |olds[m]|
    ensures Written(text, [Hunk(1 + |la|, Replacing(olds, news))]) == Err(Mismatch)
  {
    Shifted(la, ls, m);
    Mismatches(la + ls, |la|, olds, news, m);
  }

  lemma BegunMisses(pre: string, oldText: string, newText: string, post: string)
    requires !Whole(pre)
    ensures Written(pre + oldText + post, [Hunk(1 + Count(pre), Replacing(Lines(oldText), Lines(newText)))]) == Err(Mismatch)
  {
    var a, u := Begun(pre);
    BegunMissesAt(a, u, oldText, newText, post, 1 + Count(pre));
  }

  lemma BegunMissesAt(a: string, u: string, oldText: string, newText: string, post: string, start: nat)
    requires Whole(a) && OneLine(u) && u != "" && start == 1 + |SplitLines(a)|
    ensures Written(a + u + oldText + post, [Hunk(start, Replacing(Lines(oldText), Lines(newText)))]) == Err(Mismatch)
  {
    LongerFirst(u, oldText, post);
    LongerMisses(a, u + oldText + post, Lines(oldText), Lines(newText), 0, start);
    FourParts(a, u, oldText, post);
  }

  lemma UnendedMisses(pre: string, oldText: string, newText: string, post: string)
    requires Whole(pre) && !EndsLine(oldText) && post != "" && post[0] != NL
    ensures Written(pre + oldText + post, [Hunk(1 + Count(pre), Replacing(Lines(oldText), Lines(newText)))]) == Err(Mismatch)
  {
    CountWhole(pre);
    LongerLast(oldText, post);
    LongerMisses(pre, oldText + post, Lines(oldText), Lines(newText), |Lines(oldText)| - 1, 1 + Count(pre));
    Regroup(pre, oldText, post);
  }

  lemma EmptyMisses(oldText: string, newText: string)
    ensures Written("", [Hunk(1, Replacing(Lines(oldText), Lines(newText)))]) == Err(Mismatch)
  {
    Mismatches([], 0, Lines(oldText), Lines(newText), 0);
  }

  lemma ThreeBlocks(a: seq<string>, b: seq<string>, c: seq<string>)
    ensures Unlines(a + b + c) == Unlines(a) + Unlines(b) + Unlines(c)
  {
    UnlinesConcat(a, b);
    UnlinesConcat(a + b, c);
  }

  lemma WrittenText(text: string, pre: string, olds: seq<string>, news: seq<string>, b: seq<string>)
    requires Whole(pre) && SplitLines(text) == SplitLines(pre) + olds + b && AllLines(news) && AllLines(b) && news != []
    ensures Written(text, [Hunk(1 + Count(pre), Replacing(olds, news))]) == Ok(pre + Unlines(news) + Unlines(b))
  {
    var a := WholeLines(pre);
    CountWhole(pre);
    WrittenBlocks(text, a, olds, news, b, 1 + Count(pre));
    ThreeBlocks(a, news, b);
  }

  lemma FitWritten(pre: string, oldText: string, newText: string, post: string, raw: string)
    requires OnLines(pre, oldText, post) && (oldText == "" ==> pre == "") && raw == pre + oldText + post
    ensures Written(raw, [Hunk(1 + Count(pre), Replacing(Lines(oldText), Lines(newText)))]) ==
            Ok(pre + Terminated(newText) + Unlines(SplitLines(After(oldText, post))))
  {
    FitLines(pre, oldText, post, raw);
    WrittenText(raw, pre, Lines(oldText), Lines(newText), SplitLines(After(oldText, post)));
  }

  /** The hunk printed for a text found in a file replaces its lines if the text begins a line and ends
      one, and in every other case does not apply. */
  lemma WrittenAtText(pre: string, oldText: string, newText: string, post: string, raw: string)
    requires (oldText == "" ==> pre == "") && raw == pre + oldText + post
    ensures Written(raw, [Hunk(1 + Count(pre), Replacing(Lines(oldText), Lines(newText)))]) ==
            if OnLines(pre, oldText, post) then Ok(pre + Terminated(newText) + Unlines(SplitLines(After(oldText, post))))
            else Err(Mismatch)
  {
    if OnLines(pre, oldText, post) {
      FitWritten(pre, oldText, newText, post, raw);
    } else if raw == "" {
      EmptyMisses(oldText, newText);
    } else if !Whole(pre) {
      BegunMisses(pre, oldText, newText, post);
    } else {
      UnendedMisses(pre, oldText, newText, post);
    }
  }
}
