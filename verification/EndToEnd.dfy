/** From the text of a diff to the verdict and to the patched files: parsing, analysis and decision on
    one side, applying on the other. */
module EndToEnd {
  import opened Base
  import opened EvidenceTypes
  import opened TextLines
  import opened Hunks
  import opened LineNumbers
  import opened DiffText
  import opened Impact
  import opened FailClosed
  import DiffParse
  import DiffApply
  import DiffAgreement
  import Patching
  import Validate

  // Parsing, analysing and deciding.

  /** What the analysis is told of a parsed file. */
  function AsChanged(f: DiffParse.File): ChangedFile {
    ChangedFile(f.path, f.binary, f.lines)
  }

  function AllChanged(fs: seq<DiffParse.File>): (r: seq<ChangedFile>)
    ensures |r| == |fs| && forall i :: 0 <= i < |fs| ==> r[i] == AsChanged(fs[i])
  {
    seq(|fs|, i requires 0 <= i < |fs| => AsChanged(fs[i]))
  }

  predicate Parses(text: string, rd: Reader) {
    DiffParse.Sound(Close(Read(Scan(text))), rd)
  }

  /** The files of a diff as the analysis sees them, and as they are applied. */
  function Reported(text: string, rd: Reader): (r: seq<ChangedFile>)
    requires Parses(text, rd)
    ensures |r| == |Patches(Scan(text))|
  {
    AllChanged(DiffParse.ParsedAll(Patches(Scan(text)), rd))
  }

  function Applicable(text: string, rd: Reader): (r: seq<DiffApply.ApplyFile>)
    requires Parses(text, rd)
    ensures |r| == |Patches(Scan(text))|
  {
    DiffAgreement.AllCollected(Patches(Scan(text)), rd);
    DiffApply.CollectedAll(Patches(Scan(text)), rd)
  }

  /** The numbered hunks of the i-th file. */
  function HunksOf(text: string, rd: Reader, i: nat): seq<Numbered>
    requires i < |Patches(Scan(text))|
  {
    DiffAgreement.NumberedHunks(Patches(Scan(text))[i].hunks, rd)
  }

  /** Fails exactly when the diff does not parse. A validated diff has every file outside the inert list
      fully analysed, unless its entry is masked. */
  method Judge(lib: Validate.Lib, inert: string -> bool, idx: Index, text: string, rd: Reader, evidence: Input)
    returns (r: Result<Decision, DiffParse.ParseError>)
    requires Filed(idx)
    ensures r.Ok? <==> Parses(text, rd)
    ensures r.Ok? && r.value.validated ==> Vouched(inert, idx, Reported(text, rd))
  {
    var files := DiffParse.Parse(Scan(text), rd);
    if files.Err? {
      return Err(files.error);
    }
    var c, d := AnalyzeAndDecide(lib, inert, idx, AllChanged(files.value), evidence);
    r := Ok(d);
  }

  predicate Vouched(inert: string -> bool, idx: Index, files: seq<ChangedFile>) {
    forall n :: 0 <= n < |files| && !inert(files[n].path) ==> FullyAnalyzed(idx, files[n]) || Masked(idx, files, n)
  }

  // The lines of a document.

  predicate OneLineHunks(f: FilePatch) {
    forall i :: 0 <= i < |f.hunks| ==> AllLines(f.hunks[i].lines)
  }

  predicate OneLineDoc(d: Doc) {
    OneLineHunks(Current(d)) && forall i :: 0 <= i < |d.done| ==> OneLineHunks(d.done[i])
  }

  lemma BodyOneLine(f: FilePatch, line: string)
    requires OneLineHunks(f) && OneLine(line)
    ensures OneLineHunks(f.(hunks := WithBody(f.hunks, line)))
  {
  }

  lemma NextOneLine(d: Doc, line: string, kind: Line)
    requires OneLineDoc(d) && OneLine(line)
    ensures OneLineDoc(Stepped(d, line, kind))
  {
    if kind.Body? {
      BodyOneLine(Current(d), line);
    }
  }

  lemma {:induction false} ReadOneLine(lines: seq<string>)
    requires AllLines(lines)
    ensures OneLineDoc(Read(lines))
  {
    if lines != [] {
      var init, line := lines[..|lines| - 1], lines[|lines| - 1];
      ReadOneLine(init);
      var e := AtLine(Read(init), line);
      NextOneLine(e, line, LineOf(line, e.cur.Some?, Current(e).binary, e.inHunk));
    }
  }

  lemma ScanOneLine(text: string)
    ensures AllLines(Scan(text))
  {
  }

  lemma PatchesOneLine(text: string, i: nat)
    requires i < |Patches(Scan(text))|
    ensures OneLineHunks(Patches(Scan(text))[i])
  {
    ScanOneLine(text);
    ReadOneLine(Scan(text));
  }

  // Added lines.

  /** Every added line of the hunks stands in the text at its reported number, inside a function. */
  ghost predicate AddedInside(funcs: seq<FuncNode>, hunks: seq<Numbered>, text: string) {
    forall j: nat, k: nat :: j < |hunks| && k < |hunks[j].hunk.lines| && OpOf(hunks[j].hunk.lines[k]).Insert? ==>
      AddedAt(funcs, hunks, text, j, k)
  }

  predicate AddedAt(funcs: seq<FuncNode>, hunks: seq<Numbered>, text: string, j: nat, k: nat)
    requires j < |hunks| && k < |hunks[j].hunk.lines| && OpOf(hunks[j].hunk.lines[k]).Insert?
  {
    var n := NumberAt(hunks[j], k);
    1 <= n <= |SplitLines(text)| && SplitLines(text)[n - 1] == OpOf(hunks[j].hunk.lines[k]).text && Inside(funcs, n)
  }

  lemma ReportedInside(funcs: seq<FuncNode>, lines: seq<int>, n: int)
    requires AllInside(funcs, lines) && n in lines
    ensures Inside(funcs, n)
  {
    var i :| 0 <= i < |lines| && lines[i] == n;
  }

  /** One file, whatever it held before, after its hunks were applied and written. */
  lemma WrittenInside(idx: Index, p: DiffParse.File, c: DiffApply.ApplyFile, hunks: seq<Numbered>, orig: seq<string>, out: seq<string>)
    requires DiffAgreement.Agree(p, c, hunks) && Consistent(hunks, 0, 0) && Outcome(orig, c.hunks, 0) == Ok(out)
    requires AllLines(out) && FullyAnalyzed(idx, AsChanged(p))
    ensures AddedInside(FuncsOf(idx, p.path), hunks, FileText(orig, out))
  {
    DiffAgreement.ReportedLinesAreRight(p, c, hunks, orig, out);
    WrittenReadsBack(orig, out);
    forall j: nat, k: nat | j < |hunks| && k < |hunks[j].hunk.lines| && OpOf(hunks[j].hunk.lines[k]).Insert?
      ensures AddedAt(FuncsOf(idx, p.path), hunks, FileText(orig, out), j, k)
    {
      ReportedInside(FuncsOf(idx, p.path), p.lines, NumberAt(hunks[j], k));
    }
  }

  lemma FileInside(idx: Index, p: DiffParse.File, c: DiffApply.ApplyFile, hunks: seq<Numbered>, was: Option<string>)
    requires DiffAgreement.Agree(p, c, hunks) && Consistent(hunks, 0, 0) && Clean(c.hunks) && FullyAnalyzed(idx, AsChanged(p))
    requires var r := Patching.FileResult(was, c); r.Ok? && r.value.Some?
    ensures AddedInside(FuncsOf(idx, p.path), hunks, Patching.FileResult(was, c).value.value)
  {
    var orig := if c.status == Add then [] else SplitLines(was.value);
    OutcomeAreLines(orig, c.hunks, 0);
    WrittenInside(idx, p, c, hunks, orig, Outcome(orig, c.hunks, 0).value);
  }

  lemma PlainClean(f: FilePatch, rd: Reader)
    requires OneLineHunks(f)
    ensures Clean(DiffApply.PlainHunks(f.hunks, rd))
  {
  }

  lemma ApplicableClean(text: string, rd: Reader, i: nat)
    requires Parses(text, rd) && i < |Applicable(text, rd)|
    ensures Clean(Applicable(text, rd)[i].hunks)
  {
    var fs := Patches(Scan(text));
    DiffAgreement.AllCollected(fs, rd);
    PatchesOneLine(text, i);
    PlainClean(fs[i], rd);
    assert Applicable(text, rd)[i] == DiffApply.Collected(fs[i], rd)[0];
  }

  /** The i-th file of a diff both readers accept, applied to whatever stands at its path. */
  lemma AppliedInside(idx: Index, text: string, rd: Reader, i: nat, was: Option<string>)
    requires Patching.Accepted(Scan(text), rd) && i < |Patches(Scan(text))|
    requires Consistent(HunksOf(text, rd, i), 0, 0) && FullyAnalyzed(idx, Reported(text, rd)[i])
    requires var r := Patching.FileResult(was, Applicable(text, rd)[i]); r.Ok? && r.value.Some?
    ensures AddedInside(FuncsOf(idx, Reported(text, rd)[i].path), HunksOf(text, rd, i),
                        Patching.FileResult(was, Applicable(text, rd)[i]).value.value)
  {
    DiffAgreement.ReadersAgree(Scan(text), rd);
    ApplicableClean(text, rd, i);
    FileInside(idx, DiffParse.ParsedAll(Patches(Scan(text)), rd)[i], Applicable(text, rd)[i], HunksOf(text, rd, i), was);
  }

  // The patched tree.

  lemma DistinctUnmasked(idx: Index, text: string, rd: Reader, i: nat)
    requires Filed(idx) && Patching.Accepted(Scan(text), rd) && Patching.DistinctPaths(Applicable(text, rd))
    requires i < |Reported(text, rd)|
    ensures !Masked(idx, Reported(text, rd), i)
  {
    DiffAgreement.ReadersAgree(Scan(text), rd);
    if Masked(idx, Reported(text, rd), i) {
      MaskedRepeats(idx, Reported(text, rd), i);
    }
  }

  /** A validated diff with distinct paths and consistent headers, applied to a tree: in every file that
      is left, outside the inert list, each added line stands at its reported number in the patched
      file, and inside a function. */
  lemma ValidatedLinesAreInside(inert: string -> bool, idx: Index, text: string, rd: Reader, tree: Patching.Tree, i: nat)
    requires Filed(idx) && Patching.Patched(tree, text, rd).Some? && Patching.DistinctPaths(Applicable(text, rd))
    requires Vouched(inert, idx, Reported(text, rd))
    requires i < |Patches(Scan(text))| && Consistent(HunksOf(text, rd, i), 0, 0)
    requires !inert(Reported(text, rd)[i].path) && Reported(text, rd)[i].path in Patching.Patched(tree, text, rd).value
    ensures var path := Reported(text, rd)[i].path;
            AddedInside(FuncsOf(idx, path), HunksOf(text, rd, i), Patching.Patched(tree, text, rd).value[path])
  {
    var c := Applicable(text, rd)[i];
    DistinctUnmasked(idx, text, rd, i);
    DiffAgreement.ReadersAgree(Scan(text), rd);
    Patching.DistinctPathsAlone(tree, Applicable(text, rd), i);
    AppliedInside(idx, text, rd, i, Patching.At(tree, c.path));
  }
}
