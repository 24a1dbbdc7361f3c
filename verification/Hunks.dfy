/** Applying the hunks of a patch to the lines of a file (internal/diff/apply.go). */
module Hunks {
  import opened Base
  import opened Totals
  import opened TextLines

  /** A hunk: the line where it begins in the old file (0 counts as 1), and its body. */
  datatype Hunk = Hunk(oldStart: nat, lines: seq<string>)

  datatype ApplyError = OutOfOrder | PastEnd | Mismatch

  datatype Op = Keep(text: string) | Drop(text: string) | Insert(text: string) | Ignore

  function OpOf(line: string): Op {
    if line == "" then Keep("")
    else if line[0] == ' ' || line[0] == '\t' then Keep(line[1..])
    else if line[0] == '-' then Drop(line[1..])
    else if line[0] == '+' then Insert(line[1..])
    else Ignore
  }

  /** The lines a body expects to find. */
  function Old(lines: seq<string>): seq<string> {
    if lines == [] then []
    else
      var init := Old(lines[..|lines| - 1]);
      match OpOf(lines[|lines| - 1])
      case Keep(text) => init + [text]
      case Drop(text) => init + [text]
      case _ => init
  }

  /** The lines a body leaves behind. */
  function New(lines: seq<string>): seq<string> {
    if lines == [] then []
    else
      var init := New(lines[..|lines| - 1]);
      match OpOf(lines[|lines| - 1])
      case Keep(text) => init + [text]
      case Insert(text) => init + [text]
      case _ => init
  }

  /** How many old lines precede the hunk. */
  function Start(h: Hunk): nat {
    if h.oldStart == 0 then 0 else h.oldStart - 1
  }

  predicate Found(orig: seq<string>, at: nat, block: seq<string>) {
    at + |block| <= |orig| && orig[at..at + |block|] == block
  }

  /** The lines from position oi on after the hunks are applied, or why they cannot be. */
  function Outcome(orig: seq<string>, hunks: seq<Hunk>, oi: nat): Result<seq<string>, ApplyError>
    requires oi <= |orig|
  {
    if hunks == [] then Ok(orig[oi..])
    else
      var h := hunks[0];
      if Start(h) < oi then Err(OutOfOrder)
      else if Start(h) > |orig| then Err(PastEnd)
      else if !Found(orig, Start(h), Old(h.lines)) then Err(Mismatch)
      else
        match Outcome(orig, hunks[1..], Start(h) + |Old(h.lines)|)
        case Err(e) => Err(e)
        case Ok(rest) => Ok(orig[oi..Start(h)] + New(h.lines) + rest)
  }

  /** The text written for the patched lines. */
  function FileText(orig: seq<string>, out: seq<string>): string {
    Join(out) + (if |orig| > 0 || |out| > 0 then [NL] else "")
  }

  /** One hunk body against the file, line by line. */
  method ApplyBody(orig: seq<string>, at: nat, lines: seq<string>) returns (ok: bool, oi: nat, out: seq<string>)
    requires at <= |orig|
    ensures ok <==> Found(orig, at, Old(lines))
    ensures ok ==> oi == at + |Old(lines)| && out == New(lines)
  {
    oi, out := at, [];
    for k := 0 to |lines|
      invariant Found(orig, at, Old(lines[..k]))
      invariant oi == at + |Old(lines[..k])| && out == New(lines[..k])
    {
      assert lines[..k + 1][..k] == lines[..k];
      var ln := lines[k];
      if ln == "" {
        ln := " ";
      }
      if ln[0] == ' ' || ln[0] == '\t' || ln[0] == '-' {
        if oi >= |orig| || orig[oi] != ln[1..] {
          NotFound(orig, at, lines, k);
          return false, oi, out;
        }
        if ln[0] != '-' {
          out := out + [orig[oi]];
        }
        oi := oi + 1;
        assert orig[at..oi] == orig[at..oi - 1] + [orig[oi - 1]];
      } else if ln[0] == '+' {
        out := out + [ln[1..]];
      }
    }
    assert lines[..|lines|] == lines;
    ok := true;
  }

  lemma {:induction false} OldGrows(lines: seq<string>, k: nat)
    requires k <= |lines|
    ensures Old(lines[..k]) <= Old(lines)
    decreases |lines|
  {
    if k < |lines| {
      OldGrows(lines[..|lines| - 1], k);
      assert lines[..|lines| - 1][..k] == lines[..k];
    } else {
      assert lines[..k] == lines;
    }
  }

  lemma NotFound(orig: seq<string>, at: nat, lines: seq<string>, k: nat)
    requires at <= |orig| && k < |lines|
    requires OpOf(lines[k]).Keep? || OpOf(lines[k]).Drop?
    requires var oi := at + |Old(lines[..k])|; oi >= |orig| || orig[oi] != OpOf(lines[k]).text
    ensures !Found(orig, at, Old(lines))
  {
    assert lines[..k + 1][..k] == lines[..k];
    OldGrows(lines, k + 1);
    var n := |Old(lines[..k])|;
    assert Old(lines)[n] == OpOf(lines[k]).text;
    assert at + |Old(lines)| <= |orig| ==> orig[at..at + |Old(lines)|][n] == orig[at + n];
  }

  /** Succeeds with the patched lines, or fails with the first reason met. */
  method ApplyToLines(orig: seq<string>, hunks: seq<Hunk>) returns (r: Result<string, ApplyError>)
    ensures var w := Outcome(orig, hunks, 0);
            r == if w.Ok? then Ok(FileText(orig, w.value)) else Err(w.error)
  {
    var out: seq<string> := [];
    var cursor, oi := 1, 0;
    assert hunks[0..] == hunks && Prefixed([], Outcome(orig, hunks, 0)) == Outcome(orig, hunks, 0) by {
      assert Outcome(orig, hunks, 0).Ok? ==> [] + Outcome(orig, hunks, 0).value == Outcome(orig, hunks, 0).value;
    }
    for i := 0 to |hunks|
      invariant cursor == oi + 1 && 0 <= oi <= |orig|
      invariant Outcome(orig, hunks, 0) == Prefixed(out, Outcome(orig, hunks[i..], oi))
    {
      var h := hunks[i];
      ghost var from := oi;
      assert hunks[i..][0] == h && hunks[i..][1..] == hunks[i + 1..];
      var start := if h.oldStart == 0 then 1 else h.oldStart;
      if start < cursor {
        return Err(OutOfOrder);
      }
      ghost var copied: seq<string> := [];
      ghost var before := out;
      while cursor < start
        invariant cursor == oi + 1 && from <= oi <= |orig| && cursor <= start
        invariant copied == orig[from..oi] && out == before + copied
      {
        if oi >= |orig| {
          return Err(PastEnd);
        }
        out := out + [orig[oi]];
        oi := oi + 1;
        cursor := cursor + 1;
        copied := orig[from..oi];
      }
      assert oi == Start(h);
      var ok, next, more := ApplyBody(orig, oi, h.lines);
      if !ok {
        return Err(Mismatch);
      }
      out := out + more;
      cursor := cursor + (next - oi);
      oi := next;
      PrefixedStep(orig, hunks[i..], from, before, out);
    }
    assert hunks[|hunks|..] == [];
    var rest := Rest(orig, oi);
    out := out + rest;
    r := Ok(FileText(orig, out));
  }

  function Prefixed(out: seq<string>, r: Result<seq<string>, ApplyError>): Result<seq<string>, ApplyError> {
    match r
    case Err(e) => Err(e)
    case Ok(rest) => Ok(out + rest)
  }

  lemma PrefixedStep(orig: seq<string>, hunks: seq<Hunk>, oi: nat, before: seq<string>, out: seq<string>)
    requires oi <= |orig| && hunks != [] && oi <= Start(hunks[0]) <= |orig| && Found(orig, Start(hunks[0]), Old(hunks[0].lines))
    requires out == before + orig[oi..Start(hunks[0])] + New(hunks[0].lines)
    ensures Prefixed(before, Outcome(orig, hunks, oi)) ==
              Prefixed(out, Outcome(orig, hunks[1..], Start(hunks[0]) + |Old(hunks[0].lines)|))
  {
    var rest := Outcome(orig, hunks[1..], Start(hunks[0]) + |Old(hunks[0].lines)|);
    if rest.Ok? {
      assert out + rest.value == before + (orig[oi..Start(hunks[0])] + New(hunks[0].lines) + rest.value);
    }
  }

  method Rest(orig: seq<string>, from: nat) returns (out: seq<string>)
    requires from <= |orig|
    ensures out == orig[from..]
  {
    out := [];
    var oi := from;
    while oi < |orig|
      invariant from <= oi <= |orig| && out == orig[from..oi]
    {
      out := out + [orig[oi]];
      oi := oi + 1;
    }
  }

  // When hunks apply.

  /** Kept stretches alternating with the old lines of the hunks. */
  function WeaveOld(kept: seq<seq<string>>, hunks: seq<Hunk>): seq<string>
    requires |kept| == |hunks| + 1
  {
    if hunks == [] then kept[0] else kept[0] + Old(hunks[0].lines) + WeaveOld(kept[1..], hunks[1..])
  }

  /** The same stretches alternating with the new lines of the hunks. */
  function WeaveNew(kept: seq<seq<string>>, hunks: seq<Hunk>): seq<string>
    requires |kept| == |hunks| + 1
  {
    if hunks == [] then kept[0] else kept[0] + New(hunks[0].lines) + WeaveNew(kept[1..], hunks[1..])
  }

  /** Every hunk's old lines stand where its header says. */
  predicate Positioned(kept: seq<seq<string>>, hunks: seq<Hunk>, at: nat)
    requires |kept| == |hunks| + 1
  {
    hunks == [] ||
    (at + |kept[0]| == Start(hunks[0]) &&
     Positioned(kept[1..], hunks[1..], at + |kept[0]| + |Old(hunks[0].lines)|))
  }

  predicate Splits(orig: seq<string>, hunks: seq<Hunk>, kept: seq<seq<string>>, oi: nat)
    requires oi <= |orig|
  {
    |kept| == |hunks| + 1 && orig[oi..] == WeaveOld(kept, hunks) && Positioned(kept, hunks, oi)
  }

  lemma Sliced(orig: seq<string>, oi: nat, x: seq<string>, y: seq<string>, z: seq<string>)
    requires oi <= |orig| && orig[oi..] == x + y + z
    ensures var s, e := oi + |x|, oi + |x| + |y|;
            e <= |orig| && orig[oi..s] == x && orig[s..e] == y && orig[e..] == z
  {
    var tail := orig[oi..];
    assert |tail| == |x| + |y| + |z|;
    assert tail[..|x|] == x && tail[|x|..|x| + |y|] == y && tail[|x| + |y|..] == z;
  }

  lemma {:induction false} SplitApplies(orig: seq<string>, hunks: seq<Hunk>, kept: seq<seq<string>>, oi: nat)
    requires oi <= |orig| && Splits(orig, hunks, kept, oi)
    ensures Outcome(orig, hunks, oi) == Ok(WeaveNew(kept, hunks))
    decreases |hunks|
  {
    if hunks != [] {
      var h := hunks[0];
      var s, e := Start(h), Start(h) + |Old(h.lines)|;
      Sliced(orig, oi, kept[0], Old(h.lines), WeaveOld(kept[1..], hunks[1..]));
      SplitApplies(orig, hunks[1..], kept[1..], e);
    }
  }

  lemma {:induction false} OutcomeSplits(orig: seq<string>, hunks: seq<Hunk>, oi: nat) returns (kept: seq<seq<string>>)
    requires oi <= |orig| && Outcome(orig, hunks, oi).Ok?
    ensures Splits(orig, hunks, kept, oi)
    decreases |hunks|
  {
    if hunks == [] {
      kept := [orig[oi..]];
    } else {
      var h := hunks[0];
      var s, e := Start(h), Start(h) + |Old(h.lines)|;
      var rest := OutcomeSplits(orig, hunks[1..], e);
      kept := [orig[oi..s]] + rest;
      assert kept[1..] == rest;
      assert orig[oi..] == orig[oi..s] + orig[s..e] + orig[e..];
    }
  }

  /** Hunks apply exactly when the file splits into kept stretches and the hunks' old lines at the
      stated positions; the result is the same split with the new lines substituted. */
  lemma AppliesIffSplits(orig: seq<string>, hunks: seq<Hunk>)
    ensures Outcome(orig, hunks, 0).Ok? <==> exists kept :: Splits(orig, hunks, kept, 0)
    ensures forall kept :: Splits(orig, hunks, kept, 0) ==> Outcome(orig, hunks, 0) == Ok(WeaveNew(kept, hunks))
  {
    forall kept | Splits(orig, hunks, kept, 0)
      ensures Outcome(orig, hunks, 0) == Ok(WeaveNew(kept, hunks))
    {
      SplitApplies(orig, hunks, kept, 0);
    }
    if Outcome(orig, hunks, 0).Ok? {
      var kept := OutcomeSplits(orig, hunks, 0);
    }
  }

  // Undoing a patch.

  function SwapLine(line: string): string {
    if line == "" then line
    else if line[0] == '-' then "+" + line[1..]
    else if line[0] == '+' then "-" + line[1..]
    else line
  }

  function Swap(lines: seq<string>): seq<string> {
    if lines == [] then [] else Swap(lines[..|lines| - 1]) + [SwapLine(lines[|lines| - 1])]
  }

  lemma {:induction false} SwapSwapsSides(lines: seq<string>)
    ensures Old(Swap(lines)) == New(lines) && New(Swap(lines)) == Old(lines)
  {
    if lines != [] {
      var init := lines[..|lines| - 1];
      SwapSwapsSides(init);
      assert Swap(lines)[..|Swap(lines)| - 1] == Swap(init);
    }
  }

  /** The hunks with additions and removals exchanged, and each start moved to where the hunk's lines
      are in the patched file; oi and at are the old and new lines that precede. */
  function Inverted(hunks: seq<Hunk>, oi: nat, at: nat): (r: seq<Hunk>)
    ensures |r| == |hunks|
  {
    if hunks == [] then []
    else
      var h := hunks[0];
      var gap := if Start(h) >= oi then Start(h) - oi else 0;
      [Hunk(at + gap + 1, Swap(h.lines))]
      + Inverted(hunks[1..], Start(h) + |Old(h.lines)|, at + gap + |New(h.lines)|)
  }

  lemma WeaveFirst(kept: seq<seq<string>>, h: Hunk, rest: seq<Hunk>, at: nat)
    requires |kept| == |rest| + 2
    ensures WeaveOld(kept, [h] + rest) == kept[0] + Old(h.lines) + WeaveOld(kept[1..], rest)
    ensures WeaveNew(kept, [h] + rest) == kept[0] + New(h.lines) + WeaveNew(kept[1..], rest)
    ensures Positioned(kept, [h] + rest, at) <==>
            at + |kept[0]| == Start(h) && Positioned(kept[1..], rest, at + |kept[0]| + |Old(h.lines)|)
  {
    assert ([h] + rest)[1..] == rest;
  }

  lemma InvertedFirst(kept: seq<seq<string>>, hunks: seq<Hunk>, oi: nat, at: nat)
    requires |kept| == |hunks| + 1 && hunks != [] && Positioned(kept, hunks, oi)
    ensures var h := hunks[0];
            Inverted(hunks, oi, at) == [Hunk(at + |kept[0]| + 1, Swap(h.lines))]
              + Inverted(hunks[1..], Start(h) + |Old(h.lines)|, at + |kept[0]| + |New(h.lines)|)
  {
  }

  lemma InvertedStep(kept: seq<seq<string>>, h: Hunk, hunks: seq<Hunk>, rest: seq<Hunk>, at: nat)
    requires |kept| == |hunks| + 2 == |rest| + 2
    requires WeaveOld(kept[1..], rest) == WeaveNew(kept[1..], hunks) && WeaveNew(kept[1..], rest) == WeaveOld(kept[1..], hunks)
    requires Positioned(kept[1..], rest, at + |kept[0]| + |New(h.lines)|)
    ensures var inv := [Hunk(at + |kept[0]| + 1, Swap(h.lines))] + rest;
            WeaveOld(kept, inv) == WeaveNew(kept, [h] + hunks) && WeaveNew(kept, inv) == WeaveOld(kept, [h] + hunks) &&
            Positioned(kept, inv, at)
  {
    SwapSwapsSides(h.lines);
    WeaveFirst(kept, Hunk(at + |kept[0]| + 1, Swap(h.lines)), rest, at);
    WeaveFirst(kept, h, hunks, at);
  }

  lemma {:induction false} InvertedSplits(kept: seq<seq<string>>, hunks: seq<Hunk>, oi: nat, at: nat, inv: seq<Hunk>)
    requires |kept| == |hunks| + 1 && Positioned(kept, hunks, oi) && inv == Inverted(hunks, oi, at)
    ensures WeaveOld(kept, inv) == WeaveNew(kept, hunks)
    ensures WeaveNew(kept, inv) == WeaveOld(kept, hunks)
    ensures Positioned(kept, inv, at)
    decreases |hunks|
  {
    if hunks != [] {
      var h := hunks[0];
      InvertedFirst(kept, hunks, oi, at);
      var rest := Inverted(hunks[1..], Start(h) + |Old(h.lines)|, at + |kept[0]| + |New(h.lines)|);
      InvertedSplits(kept[1..], hunks[1..], Start(h) + |Old(h.lines)|, at + |kept[0]| + |New(h.lines)|, rest);
      assert hunks == [h] + hunks[1..];
      InvertedStep(kept, h, hunks[1..], rest, at);
    }
  }

  /** Applying the inverted hunks to the patched lines gives the original lines back. */
  lemma InverseUndoes(orig: seq<string>, hunks: seq<Hunk>)
    requires Outcome(orig, hunks, 0).Ok?
    ensures Outcome(Outcome(orig, hunks, 0).value, Inverted(hunks, 0, 0), 0) == Ok(orig)
  {
    var kept := OutcomeSplits(orig, hunks, 0);
    SplitApplies(orig, hunks, kept, 0);
    var out := Outcome(orig, hunks, 0).value;
    InvertedSplits(kept, hunks, 0, 0, Inverted(hunks, 0, 0));
    assert out[0..] == out && orig[0..] == orig;
    SplitApplies(out, Inverted(hunks, 0, 0), kept, 0);
  }

  // What is written.

  predicate Clean(hunks: seq<Hunk>) {
    forall i :: 0 <= i < |hunks| ==> AllLines(hunks[i].lines)
  }

  lemma {:induction false} NewAreLines(lines: seq<string>)
    requires AllLines(lines)
    ensures AllLines(New(lines))
  {
    if lines != [] {
      NewAreLines(lines[..|lines| - 1]);
    }
  }

  lemma {:induction false} OutcomeAreLines(orig: seq<string>, hunks: seq<Hunk>, oi: nat)
    requires oi <= |orig| && AllLines(orig) && Clean(hunks) && Outcome(orig, hunks, oi).Ok?
    ensures AllLines(Outcome(orig, hunks, oi).value)
    decreases |hunks|
  {
    if hunks != [] {
      NewAreLines(hunks[0].lines);
      OutcomeAreLines(orig, hunks[1..], Start(hunks[0]) + |Old(hunks[0].lines)|);
    }
  }

  /** The written file reads back as the patched lines, except when every line was removed: then it
      holds one empty line instead of none. */
  lemma WrittenReadsBack(orig: seq<string>, out: seq<string>)
    requires AllLines(out)
    ensures SplitLines(FileText(orig, out)) == out <==> out != [] || orig == []
    ensures out != [] ==> FileText(orig, out) == Unlines(out)
    ensures out == [] && orig != [] ==> FileText(orig, out) == [NL] && SplitLines(FileText(orig, out)) == [""]
  {
    if out != [] {
      JoinIsUnlines(out);
      LinesOfUnlines(out);
    } else if orig != [] {
      assert Join(out) == "" && Chomp([NL]) == "";
    }
  }

  // Undoing what was written.

  function OldCount(hunks: seq<Hunk>): nat {
    if hunks == [] then 0 else |Old(hunks[0].lines)| + OldCount(hunks[1..])
  }

  function NewCount(hunks: seq<Hunk>): nat {
    if hunks == [] then 0 else |New(hunks[0].lines)| + NewCount(hunks[1..])
  }

  /** No line is lost or made up: the patched file has the hunks' new lines in place of their old ones. */
  lemma {:induction false} LinesConserved(orig: seq<string>, hunks: seq<Hunk>, oi: nat)
    requires oi <= |orig| && Outcome(orig, hunks, oi).Ok?
    ensures |Outcome(orig, hunks, oi).value| + OldCount(hunks) == |orig| - oi + NewCount(hunks)
    decreases |hunks|
  {
    if hunks != [] {
      LinesConserved(orig, hunks[1..], Start(hunks[0]) + |Old(hunks[0].lines)|);
    }
  }

  lemma BeforeTail(orig: seq<string>, tail: seq<string>, i: nat, k: nat)
    requires i <= k <= |orig|
    ensures (orig + tail)[i..k] == orig[i..k]
  {
  }

  /** Lines appended to the file do not disturb the patch. */
  lemma {:induction false} TailKept(orig: seq<string>, hunks: seq<Hunk>, oi: nat, tail: seq<string>)
    requires oi <= |orig| && Outcome(orig, hunks, oi).Ok?
    ensures Outcome(orig + tail, hunks, oi) == Ok(Outcome(orig, hunks, oi).value + tail)
    decreases |hunks|
  {
    if hunks == [] {
      assert (orig + tail)[oi..] == orig[oi..] + tail;
    } else {
      var h := hunks[0];
      var s, e := Start(h), Start(h) + |Old(h.lines)|;
      TailKept(orig, hunks[1..], e, tail);
      BeforeTail(orig, tail, s, e);
      BeforeTail(orig, tail, oi, s);
      Regroup(orig[oi..s] + New(h.lines), Outcome(orig, hunks[1..], e).value, tail);
    }
  }

  /** The file has lines on one side of the patch and none on the other. */
  predicate Vanishes(orig: seq<string>, hunks: seq<Hunk>) {
    orig == [] <==> |orig| + NewCount(hunks) != OldCount(hunks)
  }

  /** The file a patch leaves behind. */
  function Written(text: string, hunks: seq<Hunk>): Result<string, ApplyError> {
    match Outcome(SplitLines(text), hunks, 0)
    case Err(e) => Err(e)
    case Ok(out) => Ok(FileText(SplitLines(text), out))
  }

  lemma InverseOfEmptied(orig: seq<string>, hunks: seq<Hunk>)
    requires Clean(hunks) && Outcome(orig, hunks, 0) == Ok([])
    ensures Outcome([""], Inverted(hunks, 0, 0), 0) == Ok(orig + [""])
  {
    InverseUndoes(orig, hunks);
    assert [] + [""] == [""];
    TailKept([], Inverted(hunks, 0, 0), 0, [""]);
  }

  /** Reading back what was written and applying the inverted hunks gives the old lines, with an empty
      line at the end if the patch left none. */
  lemma InverseOfWritten(orig: seq<string>, hunks: seq<Hunk>, out: seq<string>)
    requires AllLines(orig) && Clean(hunks) && Outcome(orig, hunks, 0) == Ok(out)
    ensures Outcome(SplitLines(FileText(orig, out)), Inverted(hunks, 0, 0), 0) ==
            Ok(if out == [] && orig != [] then orig + [""] else orig)
  {
    OutcomeAreLines(orig, hunks, 0);
    WrittenReadsBack(orig, out);
    if out == [] && orig != [] {
      InverseOfEmptied(orig, hunks);
    } else {
      InverseUndoes(orig, hunks);
    }
  }

  lemma RestoredText(text: string, orig: seq<string>, out: seq<string>)
    requires (text == "" || EndsLine(text)) && orig == SplitLines(text) && out != []
    ensures FileText(out, orig) == text <==> orig != []
  {
    UnlinesOfLines(text);
    WrittenReadsBack(out, orig);
  }

  lemma LengthenedText(text: string, orig: seq<string>)
    requires (text == "" || EndsLine(text)) && orig == SplitLines(text)
    ensures FileText([""], orig + [""]) != text
  {
    UnlinesOfLines(text);
    WrittenReadsBack([""], orig + [""]);
    UnlinesConcat(orig, [""]);
    assert |Unlines([""])| == 1;
  }

  lemma FileTextEnds(orig: seq<string>, out: seq<string>)
    ensures FileText(orig, out) == "" || EndsLine(FileText(orig, out))
  {
  }

  lemma RestoresWhole(text: string, hunks: seq<Hunk>)
    requires (text == "" || EndsLine(text)) && Clean(hunks) && Written(text, hunks).Ok?
    ensures var back := Written(Written(text, hunks).value, Inverted(hunks, 0, 0));
            back.Ok? && (back.value == text <==> !Vanishes(SplitLines(text), hunks))
  {
    var orig := SplitLines(text);
    var out := Outcome(orig, hunks, 0).value;
    InverseOfWritten(orig, hunks, out);
    OutcomeAreLines(orig, hunks, 0);
    WrittenReadsBack(orig, out);
    LinesConserved(orig, hunks, 0);
    if out != [] {
      RestoredText(text, orig, out);
    } else if orig != [] {
      LengthenedText(text, orig);
    }
  }

  lemma RestoresEnded(text: string, hunks: seq<Hunk>)
    requires Clean(hunks) && Written(text, hunks).Ok?
    ensures var back := Written(Written(text, hunks).value, Inverted(hunks, 0, 0));
            back.Ok? && (back.value == "" || EndsLine(back.value))
  {
    var orig := SplitLines(text);
    var out := Outcome(orig, hunks, 0).value;
    InverseOfWritten(orig, hunks, out);
    var now := SplitLines(FileText(orig, out));
    FileTextEnds(now, Outcome(now, Inverted(hunks, 0, 0), 0).value);
  }

  /** The inverted hunks always apply to what was written. They give the old text back exactly when it
      was empty or ended a line, and the patch neither empties the file nor fills an empty one: a file
      is written with a final newline, and an emptied one as a newline alone. */
  lemma InverseRestores(text: string, hunks: seq<Hunk>)
    requires Clean(hunks) && Written(text, hunks).Ok?
    ensures var back := Written(Written(text, hunks).value, Inverted(hunks, 0, 0));
            back.Ok? && (back.value == text <==> (text == "" || EndsLine(text)) && !Vanishes(SplitLines(text), hunks))
  {
    RestoresEnded(text, hunks);
    if text == "" || EndsLine(text) {
      RestoresWhole(text, hunks);
    }
  }
}
