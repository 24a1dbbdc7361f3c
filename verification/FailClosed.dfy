/** From changed lines to the verdict: when a validated change is a fully analysed one, and when not. */
module FailClosed {
  import opened EvidenceTypes
  import opened Sorting
  import opened Impact
  import Validate
  import ValidationPolicy

  /** The file is in the source graph, is text, has changed lines, and all of them lie in functions. */
  predicate FullyAnalyzed(idx: Index, f: ChangedFile) {
    f.path in idx.files && !f.binary && f.lines != [] && AllInside(FuncsOf(idx, f.path), f.lines)
  }

  lemma FindingsStayHome(idx: Index, f: ChangedFile, i: nat)
    requires Filed(idx) && i < |FindingsOf(idx, f)|
    ensures FindingsOf(idx, f)[i].file == f.path
  {
    var funcs := FuncsOf(idx, f.path);
    var hits := Hits(funcs, f.lines);
    forall k | 0 <= k < |hits|
      ensures hits[k].fn.file == f.path
    {
      assert hits[k] in hits;
    }
  }

  /** The first finding of a file tells whether the file is fully analysed. */
  lemma FirstFindingDecides(idx: Index, f: ChangedFile)
    requires FindingsOf(idx, f) != [] && Binds(FindingsOf(idx, f)[0])
    ensures FullyAnalyzed(idx, f)
  {
    HitsNeedLines(FuncsOf(idx, f.path), f.lines);
  }

  /** The findings before, of and after one file. */
  lemma GatherSplit(idx: Index, files: seq<ChangedFile>, n: nat)
    requires n < |files|
    ensures Gather(files, Findings(idx)) ==
              Gather(files[..n], Findings(idx)) + FindingsOf(idx, files[n]) + Gather(files[n + 1..], Findings(idx))
  {
    GatherAt(files, n, Findings(idx));
  }

  lemma {:induction false} GatherFrom(idx: Index, files: seq<ChangedFile>, x: Finding)
    requires x in Gather(files, Findings(idx))
    ensures exists k :: 0 <= k < |files| && x in FindingsOf(idx, files[k])
  {
    var last := |files| - 1;
    if x !in FindingsOf(idx, files[last]) {
      GatherFrom(idx, files[..last], x);
      var k :| 0 <= k < last && x in FindingsOf(idx, files[..last][k]);
      assert files[k] == files[..last][k];
    }
  }

  lemma HomeOf(idx: Index, f: ChangedFile, x: Finding)
    requires Filed(idx) && x in FindingsOf(idx, f)
    ensures x.file == f.path
  {
    var i :| 0 <= i < |FindingsOf(idx, f)| && FindingsOf(idx, f)[i] == x;
    FindingsStayHome(idx, f, i);
  }

  lemma FoundMeansKnown(idx: Index, files: seq<ChangedFile>, n: nat, x: Finding)
    requires Filed(idx) && n < |files| && x in Gather(files, Findings(idx)) && x.file == files[n].path
    ensures files[n].path in idx.files && FindingsOf(idx, files[n]) != []
  {
    GatherFrom(idx, files, x);
    var k :| 0 <= k < |files| && x in FindingsOf(idx, files[k]);
    HomeOf(idx, files[k], x);
  }

  /** The cap was reached before entry n, and what it kept of the earlier entries analyses n's path. */
  predicate Masked(idx: Index, files: seq<ChangedFile>, n: nat)
    requires n < |files|
  {
    var before := Gather(files[..n], Findings(idx));
    |before| >= MAX_FINDINGS && Analyzed(Capped(before), files[n].path)
  }

  lemma KeptBefore(idx: Index, files: seq<ChangedFile>, n: nat)
    requires n < |files| && |Gather(files[..n], Findings(idx))| >= MAX_FINDINGS
    ensures Capped(Gather(files, Findings(idx))) == Capped(Gather(files[..n], Findings(idx)))
  {
    GatherSplit(idx, files, n);
  }

  lemma FirstKept(a: seq<Finding>, b: seq<Finding>, c: seq<Finding>)
    requires |a| < MAX_FINDINGS && b != []
    ensures b[0] in Capped(a + b + c)
  {
    assert Capped(a + b + c)[|a|] == b[0];
  }

  lemma KeptFirst(idx: Index, files: seq<ChangedFile>, n: nat)
    requires n < |files| && |Gather(files[..n], Findings(idx))| < MAX_FINDINGS && FindingsOf(idx, files[n]) != []
    ensures FindingsOf(idx, files[n])[0] in Capped(Gather(files, Findings(idx)))
  {
    GatherSplit(idx, files, n);
    FirstKept(Gather(files[..n], Findings(idx)), FindingsOf(idx, files[n]), Gather(files[n + 1..], Findings(idx)));
  }

  lemma AnalyzedFileIsFull(idx: Index, files: seq<ChangedFile>, n: nat)
    requires Filed(idx) && n < |files| && |Gather(files[..n], Findings(idx))| < MAX_FINDINGS
    requires Analyzed(Capped(Gather(files, Findings(idx))), files[n].path)
    ensures FullyAnalyzed(idx, files[n])
  {
    var direct := Capped(Gather(files, Findings(idx)));
    var i :| 0 <= i < |direct| && direct[i].file == files[n].path;
    FoundMeansKnown(idx, files, n, direct[i]);
    KeptFirst(idx, files, n);
    var k :| 0 <= k < |direct| && direct[k] == FindingsOf(idx, files[n])[0];
    FindingsStayHome(idx, files[n], 0);
    assert Binds(direct[k]);
    FirstFindingDecides(idx, files[n]);
  }

  /** An entry that is not fully analysed passes for analysed exactly when it is masked. */
  lemma UnreportedIffMasked(idx: Index, files: seq<ChangedFile>, n: nat)
    requires Filed(idx) && n < |files| && !FullyAnalyzed(idx, files[n])
    ensures Analyzed(Capped(Gather(files, Findings(idx))), files[n].path) <==> Masked(idx, files, n)
  {
    if |Gather(files[..n], Findings(idx))| >= MAX_FINDINGS {
      KeptBefore(idx, files, n);
    } else if Analyzed(Capped(Gather(files, Findings(idx))), files[n].path) {
      AnalyzedFileIsFull(idx, files, n);
    }
  }

  /** No entry that comes after the cap was reached repeats an earlier path. */
  predicate NoRepeatPastCap(idx: Index, files: seq<ChangedFile>) {
    forall n, k :: 0 <= k < n < |files| && |Gather(files[..n], Findings(idx))| >= MAX_FINDINGS ==> files[k].path != files[n].path
  }

  /** Only a repeated path can be masked. */
  lemma MaskedRepeats(idx: Index, files: seq<ChangedFile>, n: nat)
    requires Filed(idx) && n < |files| && Masked(idx, files, n)
    ensures exists k :: 0 <= k < n && files[k].path == files[n].path
  {
    var before := Gather(files[..n], Findings(idx));
    var i :| 0 <= i < |Capped(before)| && Capped(before)[i].file == files[n].path;
    assert before[i] == Capped(before)[i];
    GatherFrom(idx, files[..n], before[i]);
    var k :| 0 <= k < n && before[i] in FindingsOf(idx, files[..n][k]);
    HomeOf(idx, files[k], before[i]);
  }

  lemma AnalyzedShuffled(a: seq<Finding>, b: seq<Finding>, p: string)
    requires multiset(a) == multiset(b)
    ensures Analyzed(a, p) ==> Analyzed(b, p)
  {
    if Analyzed(a, p) {
      var i :| 0 <= i < |a| && a[i].file == p;
      ValidationPolicy.MembersAt(a, b, i);
      forall k | 0 <= k < |b| && b[k].file == p
        ensures Binds(b[k])
      {
        ValidationPolicy.MembersAt(b, a, k);
      }
    }
  }

  lemma PolicyLeavesNothing(lib: Validate.Lib, input: Input)
    requires ValidationPolicy.Policy(lib, input)
    ensures input.changes.unanalyzed == []
  {
  }

  /** A change that is not fully analysed is missing from the report exactly when its path is inert or
      its entry is masked. */
  lemma MissingIffMasked(inert: string -> bool, idx: Index, files: seq<ChangedFile>, paths: seq<string>, direct: seq<Finding>, n: nat)
    requires Filed(idx) && n < |files| && !FullyAnalyzed(idx, files[n])
    requires Listed(paths, files) && multiset(direct) == multiset(Capped(Gather(files, Findings(idx))))
    ensures !Unknown(inert, paths, direct, files[n].path) <==> inert(files[n].path) || Masked(idx, files, n)
  {
    var kept := Capped(Gather(files, Findings(idx)));
    AnalyzedShuffled(direct, kept, files[n].path);
    AnalyzedShuffled(kept, direct, files[n].path);
    UnreportedIffMasked(idx, files, n);
  }

  /** The changes as the kept findings classify the paths of the files. */
  ghost predicate Classified(inert: string -> bool, files: seq<ChangedFile>, kept: seq<Finding>, c: Changes) {
    exists paths :: Listed(paths, files) && ClassifiedBy(inert, paths, kept, c)
  }

  ghost predicate ClassifiedBy(inert: string -> bool, paths: seq<string>, kept: seq<Finding>, c: Changes) {
    (forall p :: p in c.unanalyzed <==> Unknown(inert, paths, kept, p)) && (forall id :: id in c.bound <==> Bound(inert, paths, kept, id))
  }

  /** Analysis, classification and decision, run one after the other: if the policy validates, every
      changed file that is not on the inert list is known, not binary, has changed lines, and all of
      them lie inside functions, unless its entry is masked; so without exception where no entry past
      the cap repeats an earlier path. */
  method AnalyzeAndDecide(lib: Validate.Lib, inert: string -> bool, idx: Index, files: seq<ChangedFile>, evidence: Input)
    returns (c: Changes, d: Decision)
    requires Filed(idx)
    ensures Classified(inert, files, Capped(Gather(files, Findings(idx))), c)
    ensures forall n :: 0 <= n < |files| && !FullyAnalyzed(idx, files[n]) ==>
              (files[n].path !in c.unanalyzed <==> inert(files[n].path) || Masked(idx, files, n))
    ensures d.validated <==> ValidationPolicy.Policy(lib, evidence.(changes := c))
    ensures d.validated ==> forall n :: 0 <= n < |files| && !inert(files[n].path) ==> FullyAnalyzed(idx, files[n]) || Masked(idx, files, n)
    ensures d.validated && NoRepeatPastCap(idx, files) ==>
              forall n :: 0 <= n < |files| && !inert(files[n].path) ==> FullyAnalyzed(idx, files[n])
  {
    var paths, direct := Direct(idx, files);
    c := Classify(inert, paths, direct);
    assert ClassifiedBy(inert, paths, direct, c);
    forall n | 0 <= n < |files| && !FullyAnalyzed(idx, files[n])
      ensures files[n].path !in c.unanalyzed <==> inert(files[n].path) || Masked(idx, files, n)
    {
      MissingIffMasked(inert, idx, files, paths, direct, n);
    }
    var input := evidence.(changes := c);
    d := Validate.Evaluate(lib, input);
    ValidationPolicy.ValidatedIffPolicy(lib, input);
    if d.validated {
      PolicyLeavesNothing(lib, input);
      forall n | 0 <= n < |files| && Masked(idx, files, n)
        ensures !NoRepeatPastCap(idx, files)
      {
        MaskedRepeats(idx, files, n);
      }
    }
  }
}
