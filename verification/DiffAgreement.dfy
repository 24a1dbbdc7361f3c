/** Parse and the collector read the same diff the same way (internal/diff/parse.go, internal/diff/apply.go). */
module DiffAgreement {
  import opened Base
  import opened Hunks
  import opened LineNumbers
  import opened DiffText
  import DiffParse
  import DiffApply

  /** The hunks of a file with both starts of their headers. */
  function NumberedHunks(hunks: seq<RawHunk>, rd: Reader): (r: seq<Numbered>)
    ensures |r| == |hunks|
  {
    seq(|hunks|, i requires 0 <= i < |hunks| => Numbered(DiffApply.PlainHunk(hunks[i], rd), DiffParse.NewLine(hunks[i], rd)))
  }

  lemma {:induction false} NumbersAgree(hunks: seq<RawHunk>, rd: Reader)
    ensures AllNumbers(NumberedHunks(hunks, rd)) == DiffParse.FileNumbers(hunks, rd)
    ensures Plain(NumberedHunks(hunks, rd)) == DiffApply.PlainHunks(hunks, rd)
  {
    if hunks != [] {
      var n := |hunks| - 1;
      NumbersAgree(hunks[..n], rd);
      assert NumberedHunks(hunks, rd)[..n] == NumberedHunks(hunks[..n], rd);
    }
  }

  lemma {:induction false} AllCollected(fs: seq<FilePatch>, rd: Reader)
    requires forall i :: 0 <= i < |fs| ==> Named(fs[i], rd)
    ensures |DiffApply.CollectedAll(fs, rd)| == |fs|
    ensures forall i :: 0 <= i < |fs| ==> [DiffApply.CollectedAll(fs, rd)[i]] == DiffApply.Collected(fs[i], rd)
  {
    if fs != [] {
      var n := |fs| - 1;
      AllCollected(fs[..n], rd);
      assert forall i :: 0 <= i < n ==> fs[..n][i] == fs[i];
    }
  }

  /** What Parse and the collector say of one file: the same path, status and hunks, and as changed
      lines the numbers of those hunks. */
  predicate Agree(p: DiffParse.File, c: DiffApply.ApplyFile, hunks: seq<Numbered>) {
    && p.path == c.path && p.status == c.status && p.binary == c.binary
    && c.hunks == Plain(hunks) && p.lines == Changed(AllNumbers(hunks))
  }

  /** Whenever both accept a diff, they list the same files and agree on each. */
  lemma ReadersAgree(lines: seq<string>, rd: Reader)
    requires DiffParse.Sound(Close(Read(lines)), rd) && DiffApply.Usable(Read(lines), rd)
    ensures var fs := Patches(lines);
            var ps, cs := DiffParse.ParsedAll(fs, rd), DiffApply.CollectedAll(fs, rd);
            |ps| == |cs| == |fs| &&
            forall i :: 0 <= i < |fs| ==> Agree(ps[i], cs[i], NumberedHunks(fs[i].hunks, rd))
  {
    var fs := Patches(lines);
    var ps, cs := DiffParse.ParsedAll(fs, rd), DiffApply.CollectedAll(fs, rd);
    AllCollected(fs, rd);
    forall i | 0 <= i < |fs|
      ensures Agree(ps[i], cs[i], NumberedHunks(fs[i].hunks, rd))
    {
      NumbersAgree(fs[i].hunks, rd);
      assert cs[i] == DiffApply.Collected(fs[i], rd)[0];
    }
  }

  /** The lines Parse reports for a file, against the file the collected hunks make of it: under
      consistent headers every unreported position holds a kept line, in order, and every added line
      is reported at its position. */
  lemma ReportedLinesAreRight(p: DiffParse.File, c: DiffApply.ApplyFile, hunks: seq<Numbered>, orig: seq<string>, out: seq<string>)
    requires Agree(p, c, hunks) && Consistent(hunks, 0, 0) && Outcome(orig, c.hunks, 0) == Ok(out)
    ensures var sources := Sources(|orig|, c.hunks, 0);
            Explains(sources, out, orig) &&
            forall q :: 0 <= q < |out| && q + 1 !in p.lines ==> sources[q].FromOld?
    ensures forall i: nat, k: nat :: i < |hunks| && k < |hunks[i].hunk.lines| && OpOf(hunks[i].hunk.lines[k]).Insert? ==>
              var n := NumberAt(hunks[i], k);
              n in p.lines && 1 <= n <= |out| && out[n - 1] == OpOf(hunks[i].hunk.lines[k]).text
  {
    UnrecordedAreKept(orig, hunks, out);
    AdditionsAreRight(orig, hunks, out);
    forall i: nat, k: nat | i < |hunks| && k < |hunks[i].hunk.lines| && OpOf(hunks[i].hunk.lines[k]).Insert?
      ensures var n := NumberAt(hunks[i], k);
              n in p.lines && 1 <= n <= |out| && out[n - 1] == OpOf(hunks[i].hunk.lines[k]).text
    {
      assert AdditionRight(hunks, out, i, k);
    }
  }
}
