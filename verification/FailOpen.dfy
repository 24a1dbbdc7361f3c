/** A diff that lists a path twice, the second time past the cap on findings, and is validated although
    its last entry is not analysed. */
module FailOpen {
  import opened EvidenceTypes
  import opened Text
  import opened Sorting
  import opened Impact
  import opened FailClosed
  import Validate
  import ValidationPolicy

  const P_NODE := FileNode("p", "P")
  const Q_NODE := FileNode("q", "Q")
  const F_FUNC := FuncNode("f", "f", "P", 1, 1)
  const G_FUNC := FuncNode("g", "g", "Q", 1, 1)
  const H_FUNC := FuncNode("h", "h", "Q", 2, 2)

  function TwoFiles(): Index {
    Index(map["P" := P_NODE, "Q" := Q_NODE], map["P" := [F_FUNC], "Q" := [G_FUNC, H_FUNC]])
  }

  function Crowd(m: nat): (r: seq<ChangedFile>)
    ensures |r| == m && forall i :: 0 <= i < m ==> r[i].path == "Q"
  {
    if m == 0 then [] else Crowd(m - 1) + [ChangedFile("Q", false, [1, 2])]
  }

  /** One analysed line of P, then enough findings about Q to reach the cap, then a line of P outside
      every function. */
  function Crowded(): seq<ChangedFile> {
    [ChangedFile("P", false, [1])] + Crowd(250) + [ChangedFile("P", false, [5])]
  }

  lemma FindingsOfFirst()
    ensures FindingsOf(TwoFiles(), ChangedFile("P", false, [1])) == [HitFinding(Hit(F_FUNC, 1))]
  {
    var funcs := FuncsOf(TwoFiles(), "P");
    assert InSpan(funcs, 0, 1);
    assert [1][..0] == [];
    assert Hits(funcs, []) == [] && Hits(funcs, [1]) == [Hit(F_FUNC, 1)];
  }

  lemma FindingsOfCrowd()
    ensures FindingsOf(TwoFiles(), ChangedFile("Q", false, [1, 2])) == [HitFinding(Hit(G_FUNC, 1)), HitFinding(Hit(H_FUNC, 2))]
  {
    var funcs := FuncsOf(TwoFiles(), "Q");
    assert InSpan(funcs, 0, 1) && !InSpan(funcs, 0, 2) && InSpan(funcs, 1, 2);
    assert [1, 2][..1] == [1] && [1][..0] == [];
    assert Hits(funcs, [1]) == [Hit(G_FUNC, 1)];
    assert FirstSpan(funcs, 2, 0) == FirstSpan(funcs, 2, 1) == 1;
    assert Hits(funcs, [1, 2]) == [Hit(G_FUNC, 1), Hit(H_FUNC, 2)];
  }

  predicate AboutQ(fs: seq<Finding>) {
    forall i :: 0 <= i < |fs| ==> fs[i].file == "Q" && Binds(fs[i])
  }

  lemma AboutQGrows(a: seq<Finding>, b: seq<Finding>)
    requires AboutQ(a) && AboutQ(b)
    ensures AboutQ(a + b)
  {
  }

  lemma CrowdGrows(m: nat, g: ChangedFile -> seq<Finding>)
    requires m > 0
    ensures Gather(Crowd(m), g) == Gather(Crowd(m - 1), g) + g(ChangedFile("Q", false, [1, 2]))
  {
    assert Crowd(m)[..m - 1] == Crowd(m - 1);
  }

  lemma {:induction false} CrowdFindings(m: nat, g: ChangedFile -> seq<Finding>)
    requires var own := g(ChangedFile("Q", false, [1, 2])); |own| == 2 && AboutQ(own)
    ensures var all := Gather(Crowd(m), g); |all| == 2 * m && AboutQ(all)
  {
    if m > 0 {
      CrowdFindings(m - 1, g);
      CrowdGrows(m, g);
      AboutQGrows(Gather(Crowd(m - 1), g), g(ChangedFile("Q", false, [1, 2])));
    }
  }

  lemma LineFiveOutside()
    ensures !FullyAnalyzed(TwoFiles(), ChangedFile("P", false, [5]))
  {
    var funcs := FuncsOf(TwoFiles(), "P");
    assert funcs == [F_FUNC];
    assert !InSpan(funcs, 0, 5);
    assert !Inside(funcs, [5][0]);
  }

  /** What is found before the last entry: the line of P, then the lines of Q. */
  predicate Crowding(before: seq<Finding>) {
    |before| == 501 && before[0] == HitFinding(Hit(F_FUNC, 1)) && AboutQ(before[1..])
  }

  lemma CrowdedBefore(files: seq<ChangedFile>)
    requires files == Crowded()
    ensures |files| == 252 && Crowding(Gather(files[..251], Findings(TwoFiles())))
  {
    var idx := TwoFiles();
    var first := [ChangedFile("P", false, [1])];
    assert files[..251] == first + Crowd(250);
    GatherConcat(first, Crowd(250), Findings(idx));
    assert first[..0] == [];
    FindingsOfFirst();
    FindingsOfCrowd();
    CrowdFindings(250, Findings(idx));
  }

  lemma KeptAt(before: seq<Finding>, kept: seq<Finding>, i: nat)
    requires Crowding(before) && kept == Capped(before) && i < |kept|
    ensures kept[0] == HitFinding(Hit(F_FUNC, 1)) && (i > 0 ==> kept[i].file == "Q" && Binds(kept[i]))
  {
    assert i > 0 ==> kept[i] == before[1..][i - 1];
  }

  /** The findings that are kept analyse both files. */
  lemma KeptAnalyses(before: seq<Finding>, kept: seq<Finding>)
    requires Crowding(before) && kept == Capped(before)
    ensures |kept| == MAX_FINDINGS && kept[0] == HitFinding(Hit(F_FUNC, 1)) && Analyzed(kept, "P") && Analyzed(kept, "Q")
  {
    forall i: nat | i < |kept|
      ensures Binds(kept[i]) && (i > 0 ==> kept[i].file == "Q")
    {
      KeptAt(before, kept, i);
    }
    assert kept[0].file == "P" && kept[1].file == "Q";
  }

  lemma CrowdedMasked(files: seq<ChangedFile>)
    requires files == Crowded() && |files| == 252 && files[251].path == "P"
    ensures Masked(TwoFiles(), files, 251)
  {
    CrowdedBefore(files);
    var before := Gather(files[..251], Findings(TwoFiles()));
    KeptAnalyses(before, Capped(before));
  }

  /** The last entry changes a line outside every function, and no report mentions it. */
  lemma RepeatPastCap()
    ensures var idx, files := TwoFiles(), Crowded();
            Filed(idx) && |files| == 252 && !FullyAnalyzed(idx, files[251]) && Masked(idx, files, 251)
  {
    var files := Crowded();
    assert files[251] == ChangedFile("P", false, [5]);
    LineFiveOutside();
    CrowdedMasked(files);
  }

  lemma CrowdedKept(files: seq<ChangedFile>)
    requires files == Crowded()
    ensures var kept := Capped(Gather(files, Findings(TwoFiles())));
            |kept| == MAX_FINDINGS && kept[0] == HitFinding(Hit(F_FUNC, 1)) && Analyzed(kept, "P") && Analyzed(kept, "Q")
  {
    CrowdedBefore(files);
    var before := Gather(files[..251], Findings(TwoFiles()));
    KeptAnalyses(before, Capped(before));
    KeptBefore(TwoFiles(), files, 251);
  }

  lemma CrowdedPaths(files: seq<ChangedFile>, i: nat)
    requires files == Crowded() && i < |files|
    ensures files[i].path == "P" || files[i].path == "Q"
  {
    assert 0 < i < 251 ==> files[i] == Crowd(250)[i - 1];
  }

  function NothingInert(): string -> bool {
    (p: string) => false
  }

  /** The classification finds nothing unanalysed, and a bound function. */
  lemma CrowdedChanges(files: seq<ChangedFile>, kept: seq<Finding>, c: Changes)
    requires files == Crowded() && kept == Capped(Gather(files, Findings(TwoFiles()))) && Classified(NothingInert(), files, kept, c)
    ensures c.unanalyzed == [] && c.bound != []
  {
    CrowdedKept(files);
    var paths :| Listed(paths, files) && ClassifiedBy(NothingInert(), paths, kept, c);
    assert files[0].path == "P" && Bound(NothingInert(), paths, kept, kept[0].sourceId);
    if c.unanalyzed != [] {
      var p := c.unanalyzed[0];
      assert p in c.unanalyzed;
      var i: nat :| i < |files| && files[i].path == p;
      CrowdedPaths(files, i);
    }
  }

  // Evidence with nothing else to object to.

  const BEHAVIOR := StepResult("b", KIND_BEHAVIOR, VERDICT_MATCH, [], [Delta("GET", "/r", 200, 200, [])])
  const ENV := StepResult("e", KIND_ENV, VERDICT_PREPARED, [], [])
  const LATENCY := StepResult("l", KIND_LATENCY, VERDICT_SAMPLES, [StepLatency("GET", "/r", Summary(20, 1), Summary(20, 1))], [])
  const CONCURRENCY := StepResult("c", KIND_CONCURRENCY, VERDICT_MATCH, [], [])

  function Literal(): Validate.Lib {
    Validate.Lib((s: string) => s, (s: string) => s, (route: string, r: Request) => r.path == route)
  }

  function Spotless(c: Changes): Input {
    Input([], Revision("a", false, SOURCE_BUILT), Revision("b", false, SOURCE_BUILT), "u", "v", [],
          Evidence(VERDICT_MATCH, [ENV, BEHAVIOR, LATENCY, CONCURRENCY]), ["/r"], [Request("GET", "/r")], c)
  }

  lemma StepsPass(results: seq<StepResult>)
    requires results == [ENV, BEHAVIOR, LATENCY, CONCURRENCY]
    ensures ValidationPolicy.AllProven(Literal(), Validate.CORE_KINDS, results) && ValidationPolicy.OncePerKind([], results)
  {
    assert ValidationPolicy.SoundLatency(LATENCY.latency);
    assert forall i :: 0 <= i < 4 ==> ValidationPolicy.Passes(Literal(), results[i]);
    assert results[0].kind == KIND_ENV && results[1].kind == KIND_BEHAVIOR && results[2].kind == KIND_LATENCY &&
           results[3].kind == KIND_CONCURRENCY;
    assert |KIND_ENV| == 3 && |KIND_BEHAVIOR| == 8 && |KIND_LATENCY| == 7 && |KIND_CONCURRENCY| == 11;
  }

  lemma RouteAnswered(c: Changes)
    ensures ValidationPolicy.RoutesCovered(Literal(), Spotless(c))
  {
    var res, work := Spotless(c).result, Spotless(c).workload;
    assert res.steps[1] == BEHAVIOR && Validate.Answers(BEHAVIOR.deltas[0], "GET" + " " + "/r");
    assert Validate.Answered(res, work[0].verb + " " + work[0].path);
    assert Validate.RouteCovered(Literal(), "/r", work, res);
  }

  lemma SpotlessPolicy(c: Changes)
    requires c.unanalyzed == [] && c.bound != []
    ensures ValidationPolicy.Policy(Literal(), Spotless(c))
  {
    StepsPass(Spotless(c).result.steps);
    RouteAnswered(c);
    assert "a"[0] != "b"[0] && "u"[0] != "v"[0] && !IsSpace("u"[0]) && !IsSpace("v"[0]);
  }

  /** The decision on this diff validates it, although its last entry changes a line of P outside every
      function. */
  method RepeatPastCapFailsOpen() returns (d: Decision)
    ensures d.validated && !FullyAnalyzed(TwoFiles(), Crowded()[251]) && Crowded()[251].path == "P"
  {
    RepeatPastCap();
    var c;
    c, d := AnalyzeAndDecide(Literal(), NothingInert(), TwoFiles(), Crowded(), Spotless(Changes([], [])));
    CrowdedChanges(Crowded(), Capped(Gather(Crowded(), Findings(TwoFiles()))), c);
    SpotlessPolicy(c);
  }
}
