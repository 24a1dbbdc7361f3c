/** The line numbers recorded for a hunk, against where its lines end up (internal/diff/parse.go). */
module LineNumbers {
  import opened Base
  import opened Hunks
  import Sorting
  import Totals

  /** A hunk with both starts of its header. */
  datatype Numbered = Numbered(hunk: Hunk, newStart: nat)

  function Plain(hunks: seq<Numbered>): (r: seq<Hunk>)
    ensures |r| == |hunks|
  {
    seq(|hunks|, i requires 0 <= i < |hunks| => hunks[i].hunk)
  }

  /** The numbers recorded for the changed lines of one body. */
  function Numbers(lines: seq<string>, start: nat): seq<int> {
    if lines == [] then []
    else
      var init := lines[..|lines| - 1];
      var op := OpOf(lines[|lines| - 1]);
      Numbers(init, start) + (if op.Insert? || op.Drop? then [start + |New(init)|] else [])
  }

  function AllNumbers(hunks: seq<Numbered>): seq<int> {
    if hunks == [] then []
    else AllNumbers(hunks[..|hunks| - 1]) + Numbers(hunks[|hunks| - 1].hunk.lines, hunks[|hunks| - 1].newStart)
  }

  // Where the lines of a patched file come from.

  datatype Source = FromOld(index: nat) | Added

  function Range(lo: nat, hi: nat): (r: seq<Source>)
    ensures |r| == if lo <= hi then hi - lo else 0
    ensures forall p :: 0 <= p < |r| ==> r[p] == FromOld(lo + p)
  {
    if lo >= hi then [] else Range(lo, hi - 1) + [FromOld(hi - 1)]
  }

  function BodySources(lines: seq<string>, at: nat): (r: seq<Source>)
    ensures |r| == |New(lines)|
  {
    if lines == [] then []
    else
      var init := lines[..|lines| - 1];
      match OpOf(lines[|lines| - 1])
      case Keep(_) => BodySources(init, at) + [FromOld(at + |Old(init)|)]
      case Insert(_) => BodySources(init, at) + [Added]
      case _ => BodySources(init, at)
  }

  /** For each line of the patched file, the old line it is or that it was added; n lines in all. */
  function Sources(n: nat, hunks: seq<Hunk>, oi: nat): seq<Source> {
    if hunks == [] then Range(oi, n)
    else
      var s := Start(hunks[0]);
      Range(oi, s) + BodySources(hunks[0].lines, s) + Sources(n, hunks[1..], s + |Old(hunks[0].lines)|)
  }

  /** The old lines come from lo up to hi, in their old order. */
  predicate Ordered(sources: seq<Source>, lo: nat, hi: nat) {
    && lo <= hi
    && (forall p :: 0 <= p < |sources| && sources[p].FromOld? ==> lo <= sources[p].index < hi)
    && (forall p, q :: 0 <= p < q < |sources| && sources[p].FromOld? && sources[q].FromOld? ==>
          sources[p].index < sources[q].index)
  }

  /** The lines that come from the old file are its lines. */
  predicate Copied(sources: seq<Source>, out: seq<string>, orig: seq<string>) {
    |sources| == |out| &&
    forall p :: 0 <= p < |out| && sources[p].FromOld? ==> sources[p].index < |orig| && out[p] == orig[sources[p].index]
  }

  predicate Explains(sources: seq<Source>, out: seq<string>, orig: seq<string>) {
    Ordered(sources, 0, |orig|) && Copied(sources, out, orig)
  }

  lemma OrderedConcat(s: seq<Source>, t: seq<Source>, lo: nat, mid: nat, hi: nat)
    requires Ordered(s, lo, mid) && Ordered(t, mid, hi)
    ensures Ordered(s + t, lo, hi)
  {
  }

  lemma CopiedConcat(s: seq<Source>, a: seq<string>, t: seq<Source>, b: seq<string>, orig: seq<string>)
    requires Copied(s, a, orig) && Copied(t, b, orig)
    ensures Copied(s + t, a + b, orig)
  {
  }

  lemma {:induction false} BodyOrdered(lines: seq<string>, at: nat)
    ensures Ordered(BodySources(lines, at), at, at + |Old(lines)|)
  {
    if lines != [] {
      BodyOrdered(lines[..|lines| - 1], at);
    }
  }

  lemma FoundBefore(orig: seq<string>, at: nat, block: seq<string>, n: nat)
    requires Found(orig, at, block) && n < |block|
    ensures Found(orig, at, block[..n]) && orig[at + n] == block[n]
  {
    assert orig[at..at + n] == orig[at..at + |block|][..n];
    assert orig[at + n] == orig[at..at + |block|][n];
  }

  lemma FoundInit(orig: seq<string>, at: nat, lines: seq<string>)
    requires lines != [] && Found(orig, at, Old(lines))
    ensures var init, op := lines[..|lines| - 1], OpOf(lines[|lines| - 1]);
            Found(orig, at, Old(init)) &&
            (op.Keep? || op.Drop? ==> at + |Old(init)| < |orig| && orig[at + |Old(init)|] == op.text)
  {
    var n := |Old(lines[..|lines| - 1])|;
    if |Old(lines)| > n {
      FoundBefore(orig, at, Old(lines), n);
      assert Old(lines)[..n] == Old(lines[..|lines| - 1]);
    }
  }

  lemma {:induction false} BodyCopied(orig: seq<string>, at: nat, lines: seq<string>)
    requires Found(orig, at, Old(lines))
    ensures Copied(BodySources(lines, at), New(lines), orig)
  {
    if lines != [] {
      FoundInit(orig, at, lines);
      BodyCopied(orig, at, lines[..|lines| - 1]);
    }
  }

  lemma {:induction false} SourcesOrdered(orig: seq<string>, hunks: seq<Hunk>, oi: nat)
    requires oi <= |orig| && Outcome(orig, hunks, oi).Ok?
    ensures Ordered(Sources(|orig|, hunks, oi), oi, |orig|)
    decreases |hunks|
  {
    if hunks != [] {
      var s, e := Start(hunks[0]), Start(hunks[0]) + |Old(hunks[0].lines)|;
      SourcesOrdered(orig, hunks[1..], e);
      BodyOrdered(hunks[0].lines, s);
      OrderedConcat(Range(oi, s), BodySources(hunks[0].lines, s), oi, s, e);
      OrderedConcat(Range(oi, s) + BodySources(hunks[0].lines, s), Sources(|orig|, hunks[1..], e), oi, e, |orig|);
    }
  }

  lemma CopiedFirst(orig: seq<string>, oi: nat, h: Hunk, sources: seq<Source>, out: seq<string>)
    requires oi <= Start(h) <= |orig| && Found(orig, Start(h), Old(h.lines)) && Copied(sources, out, orig)
    ensures Copied(Range(oi, Start(h)) + BodySources(h.lines, Start(h)) + sources, orig[oi..Start(h)] + New(h.lines) + out, orig)
  {
    var s := Start(h);
    BodyCopied(orig, s, h.lines);
    CopiedConcat(Range(oi, s), orig[oi..s], BodySources(h.lines, s), New(h.lines), orig);
    CopiedConcat(Range(oi, s) + BodySources(h.lines, s), orig[oi..s] + New(h.lines), sources, out, orig);
  }

  lemma {:induction false} SourcesCopied(orig: seq<string>, hunks: seq<Hunk>, oi: nat)
    requires oi <= |orig| && Outcome(orig, hunks, oi).Ok?
    ensures Copied(Sources(|orig|, hunks, oi), Outcome(orig, hunks, oi).value, orig)
    decreases |hunks|
  {
    if hunks != [] {
      var h := hunks[0];
      var s, e := Start(h), Start(h) + |Old(h.lines)|;
      SourcesCopied(orig, hunks[1..], e);
      CopiedFirst(orig, oi, h, Sources(|orig|, hunks[1..], e), Outcome(orig, hunks[1..], e).value);
    }
  }

  /** Every line not added is an old line, and the old lines that stay keep their order. */
  lemma SourcesExplain(orig: seq<string>, hunks: seq<Hunk>)
    requires Outcome(orig, hunks, 0).Ok?
    ensures Explains(Sources(|orig|, hunks, 0), Outcome(orig, hunks, 0).value, orig)
  {
    SourcesOrdered(orig, hunks, 0);
    SourcesCopied(orig, hunks, 0);
  }

  // Headers that say where the new lines go.

  /** Each header's second start is the line at which the hunk's new lines begin in the patched file;
      a hunk that leaves no line may say anything. */
  predicate Consistent(hunks: seq<Numbered>, oi: nat, at: nat) {
    hunks == [] ||
    (var h := hunks[0].hunk;
     Start(h) >= oi &&
     var pos := at + Start(h) - oi;
     (New(h.lines) == [] || hunks[0].newStart == pos + 1) &&
     Consistent(hunks[1..], Start(h) + |Old(h.lines)|, pos + |New(h.lines)|))
  }

  /** The number recorded for line k of a body. */
  function NumberAt(h: Numbered, k: nat): nat
    requires k < |h.hunk.lines|
  {
    h.newStart + |New(h.hunk.lines[..k])|
  }

  lemma {:induction false} InsertedAt(lines: seq<string>, k: nat, at: nat, start: nat)
    requires k < |lines| && OpOf(lines[k]).Insert?
    ensures var m := |New(lines[..k])|;
            m < |New(lines)| && New(lines)[m] == OpOf(lines[k]).text && BodySources(lines, at)[m] == Added &&
            start + m in Numbers(lines, start)
    decreases |lines|
  {
    var n := |lines| - 1;
    if k < n {
      InsertedAt(lines[..n], k, at, start);
      assert lines[..n][..k] == lines[..k];
    }
  }

  lemma {:induction false} AddedNumbered(lines: seq<string>, m: nat, at: nat, start: nat)
    requires m < |New(lines)| && BodySources(lines, at)[m] == Added
    ensures start + m in Numbers(lines, start)
  {
    var init := lines[..|lines| - 1];
    if m < |New(init)| {
      AddedNumbered(init, m, at, start);
    }
  }

  lemma {:induction false} NumbersIn(hunks: seq<Numbered>, i: nat)
    requires i < |hunks|
    ensures forall x :: x in Numbers(hunks[i].hunk.lines, hunks[i].newStart) ==> x in AllNumbers(hunks)
    decreases |hunks|
  {
    if i < |hunks| - 1 {
      NumbersIn(hunks[..|hunks| - 1], i);
    }
  }

  /** Line k of a body is an addition, and its number is where its text stands. */
  predicate Placed(h: Numbered, k: nat, out: seq<string>, sources: seq<Source>, at: nat)
    requires k < |h.hunk.lines|
  {
    var op, n := OpOf(h.hunk.lines[k]), NumberAt(h, k);
    op.Insert? ==> at < n <= at + |out| && n - at <= |sources| && out[n - at - 1] == op.text && sources[n - at - 1] == Added
  }

  predicate AllPlaced(h: Numbered, out: seq<string>, sources: seq<Source>, at: nat) {
    forall k: nat :: k < |h.hunk.lines| ==> Placed(h, k, out, sources, at)
  }

  lemma FirstPlaced(h: Numbered, a: seq<string>, s: seq<Source>, oi: nat, b: seq<string>, t: seq<Source>, at: nat)
    requires |a| == |s| && h.newStart == at + |a| + 1
    ensures AllPlaced(h, a + New(h.hunk.lines) + b, s + BodySources(h.hunk.lines, oi) + t, at)
  {
    forall k: nat | k < |h.hunk.lines|
      ensures Placed(h, k, a + New(h.hunk.lines) + b, s + BodySources(h.hunk.lines, oi) + t, at)
    {
      if OpOf(h.hunk.lines[k]).Insert? {
        InsertedAt(h.hunk.lines, k, oi, h.newStart);
      }
    }
  }

  lemma LaterPlaced(h: Numbered, a: seq<string>, s: seq<Source>, b: seq<string>, t: seq<Source>, at: nat)
    requires |a| == |s| && AllPlaced(h, b, t, at + |a|)
    ensures AllPlaced(h, a + b, s + t, at)
  {
    forall k: nat | k < |h.hunk.lines|
      ensures Placed(h, k, a + b, s + t, at)
    {
      assert Placed(h, k, b, t, at + |a|);
    }
  }

  lemma NothingInserted(h: Numbered, out: seq<string>, sources: seq<Source>, at: nat)
    requires New(h.hunk.lines) == []
    ensures AllPlaced(h, out, sources, at)
  {
    forall k: nat | k < |h.hunk.lines|
      ensures Placed(h, k, out, sources, at)
    {
      if OpOf(h.hunk.lines[k]).Insert? {
        InsertedAt(h.hunk.lines, k, 0, 0);
      }
    }
  }

  predicate RecordedIn(h: Numbered, x: int) {
    x in Numbers(h.hunk.lines, h.newStart)
  }

  lemma RestPlaced(hunks: seq<Numbered>, a: seq<string>, s: seq<Source>, b: seq<string>, t: seq<Source>, at: nat)
    requires |a| == |s| && forall i :: 0 <= i < |hunks| ==> AllPlaced(hunks[i], b, t, at + |a|)
    ensures forall i :: 0 <= i < |hunks| ==> AllPlaced(hunks[i], a + b, s + t, at)
  {
    forall i | 0 <= i < |hunks|
      ensures AllPlaced(hunks[i], a + b, s + t, at)
    {
      LaterPlaced(hunks[i], a, s, b, t, at);
    }
  }

  lemma PlacedStep(first: Numbered, later: seq<Numbered>, a: seq<string>, u: seq<Source>, s: nat, b: seq<string>, v: seq<Source>, at: nat,
                   out: seq<string>, sources: seq<Source>)
    requires |a| == |u| && (New(first.hunk.lines) == [] || first.newStart == at + |a| + 1)
    requires out == a + New(first.hunk.lines) + b && sources == u + BodySources(first.hunk.lines, s) + v
    requires |New(first.hunk.lines)| == |BodySources(first.hunk.lines, s)|
    requires forall i :: 0 <= i < |later| ==> AllPlaced(later[i], b, v, at + |a| + |New(first.hunk.lines)|)
    ensures AllPlaced(first, out, sources, at) && forall i :: 0 <= i < |later| ==> AllPlaced(later[i], out, sources, at)
  {
    if New(first.hunk.lines) == [] {
      NothingInserted(first, out, sources, at);
    } else {
      FirstPlaced(first, a, u, s, b, v, at);
    }
    RestPlaced(later, a + New(first.hunk.lines), u + BodySources(first.hunk.lines, s), b, v, at);
  }

  lemma {:induction false} AdditionsPlaced(orig: seq<string>, hunks: seq<Numbered>, oi: nat, at: nat)
    requires oi <= |orig| && Outcome(orig, Plain(hunks), oi).Ok? && Consistent(hunks, oi, at)
    ensures forall i :: 0 <= i < |hunks| ==>
              AllPlaced(hunks[i], Outcome(orig, Plain(hunks), oi).value, Sources(|orig|, Plain(hunks), oi), at)
    decreases |hunks|
  {
    if hunks != [] {
      var h := hunks[0].hunk;
      var s, e := Start(h), Start(h) + |Old(h.lines)|;
      assert Plain(hunks)[1..] == Plain(hunks[1..]);
      var a, b := orig[oi..s], Outcome(orig, Plain(hunks[1..]), e).value;
      var u, v := Range(oi, s), Sources(|orig|, Plain(hunks[1..]), e);
      var out, sources := Outcome(orig, Plain(hunks), oi).value, Sources(|orig|, Plain(hunks), oi);
      assert out == a + New(h.lines) + b && sources == u + BodySources(h.lines, s) + v;
      AdditionsPlaced(orig, hunks[1..], e, at + |a| + |New(h.lines)|);
      PlacedStep(hunks[0], hunks[1..], a, u, s, b, v, at, out, sources);
    }
  }

  lemma SourcesFirst(n: nat, hunks: seq<Numbered>, oi: nat)
    requires hunks != []
    ensures var h := hunks[0].hunk;
            Sources(n, Plain(hunks), oi) ==
              Range(oi, Start(h)) + BodySources(h.lines, Start(h))
              + Sources(n, Plain(hunks[1..]), Start(h) + |Old(h.lines)|)
  {
    assert Plain(hunks)[1..] == Plain(hunks[1..]);
  }

  lemma PieceOrRest(h: Numbered, oi: nat, at: nat, u: seq<Source>, v: seq<Source>, w: seq<Source>, p: nat, x: int)
    requires u == Range(oi, Start(h.hunk)) && v == BodySources(h.hunk.lines, Start(h.hunk)) && Start(h.hunk) >= oi
    requires New(h.hunk.lines) == [] || h.newStart == at + Start(h.hunk) - oi + 1
    requires p < |u + v + w| && (u + v + w)[p] == Added && x == at + p + 1
    ensures var m := |u| + |v|; if p < m then RecordedIn(h, x) else p - m < |w| && w[p - m] == Added
  {
    if p < |u| + |v| {
      RecordedFirst(h, oi, at, u, v, w, p, x);
    }
  }

  /** An added line is recorded by the first hunk or comes from the rest. */
  lemma FirstOrRest(n: nat, hunks: seq<Numbered>, oi: nat, at: nat, sources: seq<Source>, p: nat, x: int)
      returns (m: nat, e: nat, rest: seq<Source>)
    requires hunks != [] && Consistent(hunks, oi, at) && sources == Sources(n, Plain(hunks), oi)
    requires p < |sources| && sources[p] == Added && x == at + p + 1
    ensures rest == Sources(n, Plain(hunks[1..]), e) && Consistent(hunks[1..], e, at + m)
    ensures if p < m then RecordedIn(hunks[0], x) else p - m < |rest| && rest[p - m] == Added
  {
    SourcesFirst(n, hunks, oi);
    ConsistentFirst(hunks, oi, at);
    var h := hunks[0].hunk;
    e := Start(h) + |Old(h.lines)|;
    var u, v := Range(oi, Start(h)), BodySources(h.lines, Start(h));
    rest := Sources(n, Plain(hunks[1..]), e);
    m := |u| + |v|;
    PieceOrRest(hunks[0], oi, at, u, v, rest, p, x);
  }

  lemma {:induction false} AdditionsRecorded(n: nat, hunks: seq<Numbered>, oi: nat, at: nat, sources: seq<Source>, p: nat, x: int)
      returns (i: nat, h: Numbered)
    requires Consistent(hunks, oi, at) && sources == Sources(n, Plain(hunks), oi)
    requires p < |sources| && sources[p] == Added && x == at + p + 1
    ensures i < |hunks| && h == hunks[i] && RecordedIn(h, x)
    decreases |hunks|
  {
    NeverAdded(n, hunks, oi);
    var m, e, rest := FirstOrRest(n, hunks, oi, at, sources, p, x);
    if p < m {
      i, h := 0, hunks[0];
    } else {
      i, h := AdditionsRecorded(n, hunks[1..], e, at + m, rest, p - m, x);
      i := i + 1;
    }
  }

  lemma NeverAdded(n: nat, hunks: seq<Numbered>, oi: nat)
    ensures hunks == [] ==> forall p :: 0 <= p < |Sources(n, Plain(hunks), oi)| ==> Sources(n, Plain(hunks), oi)[p] != Added
  {
  }

  lemma RecordedHere(h: Numbered, pos: nat, v: seq<Source>, q: nat)
    requires v == BodySources(h.hunk.lines, Start(h.hunk)) && q < |v| && v[q] == Added
    requires New(h.hunk.lines) == [] || h.newStart == pos + 1
    ensures RecordedIn(h, pos + q + 1)
  {
    AddedNumbered(h.hunk.lines, q, Start(h.hunk), h.newStart);
  }

  lemma ThreeAt<T>(u: seq<T>, v: seq<T>, w: seq<T>, p: nat)
    requires p < |u| + |v| + |w|
    ensures (u + v + w)[p] == if p < |u| then u[p] else if p < |u| + |v| then v[p - |u|] else w[p - |u| - |v|]
  {
  }

  lemma RecordedFirst(h: Numbered, oi: nat, at: nat, u: seq<Source>, v: seq<Source>, w: seq<Source>, p: nat, x: int)
    requires u == Range(oi, Start(h.hunk)) && v == BodySources(h.hunk.lines, Start(h.hunk)) && Start(h.hunk) >= oi
    requires New(h.hunk.lines) == [] || h.newStart == at + Start(h.hunk) - oi + 1
    requires p < |u| + |v| && (u + v + w)[p] == Added && x == at + p + 1
    ensures RecordedIn(h, x)
  {
    ThreeAt(u, v, w, p);
    RecordedHere(h, at + |u|, v, p - |u|);
  }

  lemma ConsistentFirst(hunks: seq<Numbered>, oi: nat, at: nat)
    requires hunks != [] && Consistent(hunks, oi, at)
    ensures var h := hunks[0].hunk;
            Start(h) >= oi && (New(h.lines) == [] || hunks[0].newStart == at + Start(h) - oi + 1) &&
            Consistent(hunks[1..], Start(h) + |Old(h.lines)|, at + Start(h) - oi + |New(h.lines)|) &&
            |Range(oi, Start(h))| == Start(h) - oi && |BodySources(h.lines, Start(h))| == |New(h.lines)|
  {
  }

  lemma AddedReported(n: nat, hunks: seq<Numbered>, sources: seq<Source>, p: nat)
    requires Consistent(hunks, 0, 0) && sources == Sources(n, Plain(hunks), 0)
    requires p < |sources| && sources[p] == Added
    ensures p + 1 in Changed(AllNumbers(hunks))
  {
    var i, h := AdditionsRecorded(n, hunks, 0, 0, sources, p, p + 1);
    Reported(hunks, i, p + 1);
  }

  lemma Reported(hunks: seq<Numbered>, i: nat, x: int)
    requires i < |hunks| && RecordedIn(hunks[i], x) && x > 0
    ensures x in Changed(AllNumbers(hunks))
  {
    NumbersIn(hunks, i);
    ChangedAre(AllNumbers(hunks));
  }

  /** Line k of hunk i adds a line that stands in the patched file at the number recorded for it. */
  predicate AdditionRight(hunks: seq<Numbered>, out: seq<string>, i: nat, k: nat)
    requires i < |hunks| && k < |hunks[i].hunk.lines|
  {
    var op, n := OpOf(hunks[i].hunk.lines[k]), NumberAt(hunks[i], k);
    op.Insert? ==> 1 <= n <= |out| && out[n - 1] == op.text && n in Changed(AllNumbers(hunks))
  }

  /** For hunks that apply under consistent headers, the number recorded for an added line is the
      line's position in the patched file. */
  lemma AdditionsAreRight(orig: seq<string>, hunks: seq<Numbered>, out: seq<string>)
    requires Outcome(orig, Plain(hunks), 0) == Ok(out) && Consistent(hunks, 0, 0)
    ensures forall i: nat, k: nat :: i < |hunks| && k < |hunks[i].hunk.lines| ==> AdditionRight(hunks, out, i, k)
  {
    AdditionsPlaced(orig, hunks, 0, 0);
    forall i: nat, k: nat | i < |hunks| && k < |hunks[i].hunk.lines|
      ensures AdditionRight(hunks, out, i, k)
    {
      assert Placed(hunks[i], k, out, Sources(|orig|, Plain(hunks), 0), 0);
      if OpOf(hunks[i].hunk.lines[k]).Insert? {
        InsertedAt(hunks[i].hunk.lines, k, 0, hunks[i].newStart);
        NumbersIn(hunks, i);
        ChangedAre(AllNumbers(hunks));
      }
    }
  }

  /** For the same hunks, every position of the patched file that is not recorded holds a line of the
      old file, and those lines keep their order. */
  lemma UnrecordedAreKept(orig: seq<string>, hunks: seq<Numbered>, out: seq<string>)
    requires Outcome(orig, Plain(hunks), 0) == Ok(out) && Consistent(hunks, 0, 0)
    ensures var sources := Sources(|orig|, Plain(hunks), 0);
            Explains(sources, out, orig) &&
            forall p :: 0 <= p < |out| && p + 1 !in Changed(AllNumbers(hunks)) ==> sources[p].FromOld?
  {
    SourcesExplain(orig, Plain(hunks));
    var sources := Sources(|orig|, Plain(hunks), 0);
    forall p | 0 <= p < |out| && sources[p] == Added
      ensures p + 1 in Changed(AllNumbers(hunks))
    {
      AddedReported(|orig|, hunks, sources, p);
    }
  }

  // The recorded numbers, as reported.

  /** The positive numbers, each where it first occurs. */
  function Firsts(xs: seq<int>): seq<int> {
    if xs == [] then []
    else
      var init, x := Firsts(xs[..|xs| - 1]), xs[|xs| - 1];
      if x <= 0 || x in init then init else init + [x]
  }

  function Changed(xs: seq<int>): seq<int> {
    Sorting.Sort(Firsts(xs), (a: int, b: int) => a <= b)
  }

  lemma {:induction false} FirstsAre(xs: seq<int>)
    ensures forall x :: x in Firsts(xs) <==> x in xs && x > 0
    ensures forall x :: multiset(Firsts(xs))[x] <= 1
  {
    if xs != [] {
      var init, x := xs[..|xs| - 1], xs[|xs| - 1];
      FirstsAre(init);
      assert xs == init + [x];
      assert multiset(Firsts(init))[x] == 0 || x in Firsts(init);
    }
  }

  /** The reported numbers are the positive ones, strictly ascending. */
  lemma ChangedAre(xs: seq<int>)
    ensures forall x :: x in Changed(xs) <==> x in xs && x > 0
    ensures forall i, k :: 0 <= i < k < |Changed(xs)| ==> Changed(xs)[i] < Changed(xs)[k]
  {
    var le := (a: int, b: int) => a <= b;
    FirstsAre(xs);
    Sorting.SortAscending(Firsts(xs), le);
    var r := Changed(xs);
    assert multiset(r) == multiset(Firsts(xs));
    forall x
      ensures x in r <==> x in Firsts(xs)
    {
      assert x in multiset(r) <==> x in multiset(Firsts(xs));
    }
    forall i, k | 0 <= i < k < |r|
      ensures r[i] < r[k]
    {
      assert le(r[i], r[k]);
      Totals.Twice(r, i, k);
    }
  }

  method UniqueInts(xs: seq<int>) returns (out: seq<int>)
    ensures out == Changed(xs)
    ensures forall x :: x in out <==> x in xs && x > 0
    ensures forall i, k :: 0 <= i < k < |out| ==> out[i] < out[k]
  {
    ChangedAre(xs);
    if |xs| == 0 {
      return [];
    }
    var seen: set<int> := {};
    out := [];
    for i := 0 to |xs|
      invariant out == Firsts(xs[..i]) && forall x :: x in seen <==> x in out
    {
      assert xs[..i + 1][..i] == xs[..i];
      var n := xs[i];
      if n <= 0 {
        continue;
      }
      if n in seen {
        continue;
      }
      seen := seen + {n};
      out := out + [n];
    }
    assert xs[..|xs|] == xs;
    out := Sorting.Sort(out, (a: int, b: int) => a <= b);
  }
}
