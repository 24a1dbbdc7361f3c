/** Selecting a window from a window (internal/ingest/window.go). */
module WindowAgain {
  import opened Sorting
  import opened Totals
  import opened Spans
  import opened Text
  import opened Strings
  import opened TraceWindow

  lemma {:induction false} OfConcat(a: seq<Span>, b: seq<Span>, id: string)
    ensures Of(a + b, id) == Of(a, id) + Of(b, id)
    decreases |b|
  {
    if b == [] {
      assert a + b == a;
    } else {
      OfConcat(a, b[..|b| - 1], id);
      assert (a + b)[..|a + b| - 1] == a + b[..|b| - 1];
    }
  }

  predicate Owned(parts: seq<seq<Span>>, ids: seq<string>) {
    |parts| == |ids| && forall i :: 0 <= i < |ids| ==> OwnedBy(parts[i], ids[i])
  }

  lemma {:induction false} OfPart(part: seq<Span>, own: string, id: string)
    requires OwnedBy(part, own)
    ensures Of(part, id) == if id == own then part else []
  {
    if part != [] {
      var init := part[..|part| - 1];
      assert part == init + [part[|part| - 1]];
      OfPart(init, own, id);
    }
  }

  lemma WholeTracesOwned(parts: seq<seq<Span>>, ids: seq<string>, spans: seq<Span>)
    requires WholeTraces(parts, ids, spans)
    ensures Owned(parts, ids)
  {
    forall i | 0 <= i < |ids|
      ensures OwnedBy(parts[i], ids[i])
    {
      SameMembers(parts[i], Of(spans, ids[i]));
      OfIn(spans, ids[i]);
    }
  }

  lemma OfLastPart(parts: seq<seq<Span>>, last: seq<Span>, own: string, id: string)
    requires OwnedBy(last, own)
    ensures Of(Flat(parts + [last]), id) == Of(Flat(parts), id) + if id == own then last else []
  {
    assert (parts + [last])[..|parts|] == parts;
    OfPart(last, own, id);
    OfConcat(Flat(parts), last, id);
  }

  lemma {:induction false} OfOthers(parts: seq<seq<Span>>, ids: seq<string>, id: string)
    requires Owned(parts, ids) && id !in ids
    ensures Of(Flat(parts), id) == []
    decreases |ids|
  {
    if ids != [] {
      var n := |ids| - 1;
      assert parts == parts[..n] + [parts[n]];
      OfLastPart(parts[..n], parts[n], ids[n], id);
      OfOthers(parts[..n], ids[..n], id);
    }
  }

  /** Each chosen trace is found again, whole, among the spans of the window. */
  lemma {:induction false} OfFlat(parts: seq<seq<Span>>, ids: seq<string>, i: nat)
    requires Owned(parts, ids) && NoDuplicates(ids) && i < |ids|
    ensures Of(Flat(parts), ids[i]) == parts[i]
    decreases |ids|
  {
    var n := |ids| - 1;
    assert parts == parts[..n] + [parts[n]];
    OfLastPart(parts[..n], parts[n], ids[n], ids[i]);
    if i == n {
      OfOthers(parts[..n], ids[..n], ids[n]);
    } else {
      OfFlat(parts[..n], ids[..n], i);
    }
  }

  /** The parts that are left when the spans are cut after the first m. */
  function CutParts(parts: seq<seq<Span>>, m: nat): seq<seq<Span>> {
    if |Flat(parts)| <= m then parts
    else
      var init, last := parts[..|parts| - 1], parts[|parts| - 1];
      if |Flat(init)| >= m then CutParts(init, m) else init + [last[..m - |Flat(init)|]]
  }

  predicate NonEmpty(parts: seq<seq<Span>>) {
    forall i :: 0 <= i < |parts| ==> parts[i] != []
  }

  /** All parts are whole, but for the last of which only a beginning may be left. */
  predicate Begins(cut: seq<seq<Span>>, parts: seq<seq<Span>>) {
    && |cut| <= |parts|
    && (forall i :: 0 <= i < |cut| - 1 ==> cut[i] == parts[i])
    && (cut != [] ==> cut[|cut| - 1] <= parts[|cut| - 1])
  }

  lemma CutInside(init: seq<seq<Span>>, last: seq<Span>, k: nat)
    requires NonEmpty(init) && 0 < k <= |last|
    ensures var cut := init + [last[..k]];
            Flat(cut) == Flat(init) + last[..k] && NonEmpty(cut) && Begins(cut, init + [last])
  {
    assert (init + [last[..k]])[..|init|] == init;
  }

  lemma {:induction false} CutIs(parts: seq<seq<Span>>, m: nat)
    requires NonEmpty(parts)
    ensures var cut := CutParts(parts, m);
            Flat(cut) == First(Flat(parts), m) && NonEmpty(cut) && Begins(cut, parts)
    decreases |parts|
  {
    if |Flat(parts)| > m {
      var init, last := parts[..|parts| - 1], parts[|parts| - 1];
      assert parts == init + [last];
      if |Flat(init)| >= m {
        CutIs(init, m);
      } else {
        CutInside(init, last, m - |Flat(init)|);
      }
    }
  }

  lemma BeginsAt(cut: seq<seq<Span>>, parts: seq<seq<Span>>, i: nat)
    requires Begins(cut, parts) && i < |cut|
    ensures cut[i] <= parts[i] && (i < |cut| - 1 ==> cut[i] == parts[i])
  {
  }

  lemma PrefixOwned(a: seq<Span>, b: seq<Span>, id: string)
    requires a <= b && OwnedBy(b, id)
    ensures OwnedBy(a, id)
  {
    assert forall s :: s in a ==> s in b;
  }

  lemma CutOwned(cut: seq<seq<Span>>, parts: seq<seq<Span>>, ids: seq<string>, spans: seq<Span>)
    requires WholeTraces(parts, ids, spans) && Begins(cut, parts)
    ensures Owned(cut, ids[..|cut|])
  {
    WholeTracesOwned(parts, ids, spans);
    forall i: nat | i < |cut|
      ensures OwnedBy(cut[i], ids[i])
    {
      BeginsAt(cut, parts, i);
      PrefixOwned(cut[i], parts[i], ids[i]);
    }
  }

  /** What remains of a trace is its part. */
  lemma CutOf(cut: seq<seq<Span>>, parts: seq<seq<Span>>, ids: seq<string>, spans: seq<Span>, i: nat)
    requires WholeTraces(parts, ids, spans) && NoDuplicates(ids) && Begins(cut, parts) && i < |cut|
    ensures Of(Flat(cut), ids[i]) == cut[i]
  {
    CutOwned(cut, parts, ids, spans);
    OfFlat(cut, ids[..|cut|], i);
  }

  lemma PrefixAscends(a: seq<Span>, b: seq<Span>)
    requires a <= b && Ascending(b, Earlier)
    ensures Ascending(a, Earlier)
  {
  }

  lemma PrefixMax(a: seq<Span>, b: seq<Span>)
    requires a <= b && a != []
    ensures Max(a) <= Max(b)
  {
    MaxIs(a);
    MaxIs(b);
    assert forall s :: s in a ==> s in b;
  }

  lemma PartMax(a: seq<Span>, b: seq<Span>)
    requires multiset(a) == multiset(b)
    ensures (a == [] <==> b == []) && (a != [] ==> Max(a) == Max(b))
  {
    SameMembers(a, b);
    if a != [] {
      MaxIs(a);
      MaxIs(b);
    }
  }

  lemma CutLast(cut: seq<seq<Span>>, parts: seq<seq<Span>>, ids: seq<string>, spans: seq<Span>, i: nat)
    requires WholeTraces(parts, ids, spans) && NoDuplicates(ids) && Begins(cut, parts) && NonEmpty(cut) && i < |cut|
    ensures Last(Flat(cut), ids[i]) <= Last(spans, ids[i])
    ensures i < |cut| - 1 ==> Last(Flat(cut), ids[i]) == Last(spans, ids[i])
  {
    CutOf(cut, parts, ids, spans, i);
    BeginsAt(cut, parts, i);
    PrefixMax(cut[i], parts[i]);
    PartMax(parts[i], Of(spans, ids[i]));
  }

  /** The traces of a cut window keep their order: only the last of them can look older than it is. */
  lemma CutKeepsOrder(cut: seq<seq<Span>>, parts: seq<seq<Span>>, ids: seq<string>, spans: seq<Span>, i: nat, k: nat)
    requires WholeTraces(parts, ids, spans) && NoDuplicates(ids) && Begins(cut, parts) && NonEmpty(cut)
    requires i < k < |cut| && Newer(spans, ids[i], ids[k])
    ensures Newer(Flat(cut), ids[i], ids[k])
  {
    CutLast(cut, parts, ids, spans, i);
    CutLast(cut, parts, ids, spans, k);
  }

  lemma IdsOfFlat(parts: seq<seq<Span>>, ids: seq<string>)
    requires Owned(parts, ids) && NoDuplicates(ids) && NonEmpty(parts) && "" !in ids
    ensures multiset(Ids(Flat(parts))) == multiset(ids)
  {
    forall id
      ensures multiset(Ids(Flat(parts)))[id] == multiset(ids)[id]
    {
      IdsCount(Flat(parts), id);
      NoDuplicatesCount(ids, id);
      if id in ids {
        var i :| 0 <= i < |ids| && ids[i] == id;
        OfFlat(parts, ids, i);
      } else {
        OfOthers(parts, ids, id);
      }
    }
  }

  lemma CutRanked(cut: seq<seq<Span>>, parts: seq<seq<Span>>, ids: seq<string>, spans: seq<Span>)
    requires WholeTraces(parts, ids, spans) && NewestFirst(ids, spans) && Begins(cut, parts) && NonEmpty(cut) && "" !in ids
    ensures Ranked(Flat(cut)) == ids[..|cut|]
  {
    CutOwned(cut, parts, ids, spans);
    IdsOfFlat(cut, ids[..|cut|]);
    forall i: nat, k: nat | i < k < |cut|
      ensures Newer(Flat(cut), ids[i], ids[k])
    {
      CutKeepsOrder(cut, parts, ids, spans, i, k);
    }
    RankedIs(Flat(cut), ids[..|cut|]);
  }

  lemma {:induction false} FilterAll(ids: seq<string>, spans: seq<Span>, w: Wanted)
    requires forall i :: 0 <= i < |ids| ==> Eligible(Of(spans, ids[i]), w)
    ensures Filter(ids, spans, w) == ids
  {
    if ids != [] {
      FilterAll(ids[..|ids| - 1], spans, w);
    }
  }

  lemma CutSorted(cut: seq<seq<Span>>, parts: seq<seq<Span>>, ids: seq<string>, spans: seq<Span>, i: nat)
    requires WholeTraces(parts, ids, spans) && NoDuplicates(ids) && Begins(cut, parts) && i < |cut|
    ensures SortedOf(cut[i], Of(Flat(cut), ids[i]))
  {
    CutOf(cut, parts, ids, spans, i);
    BeginsAt(cut, parts, i);
    PrefixAscends(cut[i], parts[i]);
  }

  lemma CutWhole(cut: seq<seq<Span>>, parts: seq<seq<Span>>, ids: seq<string>, spans: seq<Span>)
    requires WholeTraces(parts, ids, spans) && NoDuplicates(ids) && Begins(cut, parts)
    ensures WholeTraces(cut, ids[..|cut|], Flat(cut))
  {
    forall i: nat | i < |cut|
      ensures SortedOf(cut[i], Of(Flat(cut), ids[i]))
    {
      CutSorted(cut, parts, ids, spans, i);
    }
  }

  /** What remains of every trace of a window is eligible. */
  predicate StillEligible(out: seq<Span>, w: Wanted) {
    forall id :: id in Ranked(out) ==> Eligible(Of(out, id), w)
  }

  /** The parts of a window, cut or not. */
  lemma WindowParts(out: seq<Span>, spans: seq<Span>, n: nat, w: Wanted) returns (cut: seq<seq<Span>>)
    requires IsWindow(out, spans, n, w)
    ensures out == Flat(cut) && |cut| <= n && |out| <= MAX_WINDOW_SPANS
    ensures WholeTraces(cut, Ranked(out), out)
  {
    var ids := Chosen(spans, n, w);
    ChosenAreNewest(spans, n, w);
    var parts :| WholeTraces(parts, ids, spans) && out == First(Flat(parts), MAX_WINDOW_SPANS);
    forall i | 0 <= i < |ids|
      ensures parts[i] != []
    {
      assert ids[i] in ids;
      PartMax(parts[i], Of(spans, ids[i]));
    }
    cut := CutParts(parts, MAX_WINDOW_SPANS);
    CutIs(parts, MAX_WINDOW_SPANS);
    CutRanked(cut, parts, ids, spans);
    CutWhole(cut, parts, ids, spans);
  }

  lemma ChosenFromEligible(out: seq<Span>, n: nat, w: Wanted)
    requires StillEligible(out, w) && |Ranked(out)| <= n
    ensures Chosen(out, n, w) == Ranked(out)
  {
    FilterAll(Ranked(out), out, w);
  }

  /** A trace that is no longer eligible is missing from the second window. */
  lemma IneligibleLost(out: seq<Span>, n: nat, w: Wanted, again: seq<Span>, id: string)
    requires IsWindow(again, out, n, w) && id in Ranked(out) && !Eligible(Of(out, id), w)
    ensures !Alike(out, again)
  {
    RankedNewestFirst(out);
    ChosenAreNewest(out, n, w);
    var ids := Chosen(out, n, w);
    var q :| WholeTraces(q, ids, out) && again == First(Flat(q), MAX_WINDOW_SPANS);
    WholeTracesOwned(q, ids, out);
    OfOthers(q, ids, id);
    OfIn(Flat(q), id);
    OfIn(out, id);
    assert Of(out, id)[0] in Of(out, id);
    var i :| 0 <= i < |out| && out[i].traceId == id;
    forall s | s in again
      ensures s.traceId != id
    {
      assert s in Flat(q);
    }
    assert i < |again| ==> again[i] in again;
  }

  /** Selecting from a window gives the same traces, starts and span ids in the same places if and only
      if what remains of each trace is still eligible; it gives the same spans where start and id tell
      the spans of a trace apart. */
  lemma Idempotent(spans: seq<Span>, n: nat, w: Wanted, out: seq<Span>, again: seq<Span>)
    requires IsWindow(out, spans, n, w) && IsWindow(again, out, n, w)
    ensures Alike(out, again) <==> StillEligible(out, w)
    ensures StillEligible(out, w) && AllTold(Ranked(out), out) ==> again == out
  {
    if StillEligible(out, w) {
      var cut := WindowParts(out, spans, n, w);
      ChosenFromEligible(out, n, w);
      var ids := Ranked(out);
      var q :| WholeTraces(q, ids, out) && again == First(Flat(q), MAX_WINDOW_SPANS);
      PartsAlike(cut, out, q, out, ids);
    } else {
      var id :| id in Ranked(out) && !Eligible(Of(out, id), w);
      IneligibleLost(out, n, w, again, id);
    }
  }

  /** How many spans the chosen traces have in all. */
  function Size(ids: seq<string>, spans: seq<Span>): nat {
    if ids == [] then 0 else Size(ids[..|ids| - 1], spans) + |Of(spans, ids[|ids| - 1])|
  }

  lemma {:induction false} FlatSize(parts: seq<seq<Span>>, ids: seq<string>, spans: seq<Span>)
    requires WholeTraces(parts, ids, spans)
    ensures |Flat(parts)| == Size(ids, spans)
    decreases |ids|
  {
    if ids != [] {
      var n := |ids| - 1;
      FlatSize(parts[..n], ids[..n], spans);
      SameMembers(parts[n], Of(spans, ids[n]));
    }
  }

  lemma UncutTrace(parts: seq<seq<Span>>, ids: seq<string>, spans: seq<Span>, id: string)
    requires WholeTraces(parts, ids, spans) && Owned(parts, ids) && NoDuplicates(ids) && Of(Flat(parts), id) != []
    ensures id in ids && multiset(Of(Flat(parts), id)) == multiset(Of(spans, id))
  {
    if id !in ids {
      OfOthers(parts, ids, id);
    }
    var i :| 0 <= i < |ids| && ids[i] == id;
    OfFlat(parts, ids, i);
  }

  /** A window that was not cut holds whole traces, so each is still eligible. */
  lemma UncutStillEligible(spans: seq<Span>, n: nat, w: Wanted, out: seq<Span>)
    requires IsWindow(out, spans, n, w) && Size(Chosen(spans, n, w), spans) <= MAX_WINDOW_SPANS
    ensures StillEligible(out, w)
  {
    var ids := Chosen(spans, n, w);
    ChosenAreNewest(spans, n, w);
    var parts :| WholeTraces(parts, ids, spans) && out == First(Flat(parts), MAX_WINDOW_SPANS);
    FlatSize(parts, ids, spans);
    WholeTracesOwned(parts, ids, spans);
    RankedNewestFirst(out);
    forall id | id in Ranked(out)
      ensures Eligible(Of(out, id), w)
    {
      UncutTrace(parts, ids, spans, id);
      SameTrace(out, spans, id, id, w);
    }
  }

  // A cut window need not select itself.

  /** One trace of health checks, as many as a window holds, and then one other request. */
  function LateTrace(): (r: seq<Span>)
    ensures |r| == MAX_WINDOW_SPANS + 1 && r[MAX_WINDOW_SPANS] == Request("GET /x", "/x", MAX_WINDOW_SPANS)
    ensures forall i :: 0 <= i < MAX_WINDOW_SPANS ==> r[i] == Request("GET /healthz", "/healthz", i)
  {
    seq(MAX_WINDOW_SPANS, i requires 0 <= i < MAX_WINDOW_SPANS => Request("GET /healthz", "/healthz", i))
      + [Request("GET /x", "/x", MAX_WINDOW_SPANS)]
  }

  function Request(name: string, route: string, i: nat): Span {
    Span("t", Decimal(i), "", "svc", name, "server", "GET", route, i)
  }

  lemma LateTraceOrdered()
    ensures Ascending(LateTrace(), Earlier) && OwnedBy(LateTrace(), "t")
  {
    var spans := LateTrace();
    forall i | 0 <= i < |spans|
      ensures spans[i].traceId == "t" && spans[i].start == i
    {
    }
  }

  /** No two of its spans share an id. */
  lemma LateTraceTold()
    ensures forall i, k :: 0 <= i < k < |LateTrace()| ==> LateTrace()[i].spanId != LateTrace()[k].spanId
  {
    forall i: nat, k: nat | i < k < |LateTrace()|
      ensures LateTrace()[i].spanId != LateTrace()[k].spanId
    {
      assert LateTrace()[i].spanId == Decimal(i) && LateTrace()[k].spanId == Decimal(k);
      ValueOfDecimal(i);
      ValueOfDecimal(k);
    }
  }

  /** Lower-casing as far as these two requests need it. */
  predicate Lowers(lower: string -> string) {
    lower("/healthz") == "/healthz" && lower("/x") == "/x" && lower("GET /x") == "get /x"
  }

  lemma OnlyLastIsNoProbe(lower: string -> string, i: nat)
    requires Lowers(lower) && i <= MAX_WINDOW_SPANS
    ensures ProbeRoute(lower)(LateTrace()[i]) <==> i < MAX_WINDOW_SPANS
  {
    NothingToTrim("/healthz");
    NothingToTrim("/x");
    NothingToTrim("GET /x");
    assert PROBE_ROUTES[0] == "/healthz";
    assert forall k :: 0 <= k < |PROBE_ROUTES| ==> |PROBE_ROUTES[k]| > |"/x"|;
    assert forall k :: 0 <= k < |PROBE_NAMES| ==> |PROBE_NAMES[k]| > |"get /x"|;
  }

  lemma OneTrace(spans: seq<Span>)
    requires spans != [] && OwnedBy(spans, "t")
    ensures Of(spans, "t") == spans && Ranked(spans) == ["t"]
  {
    OfPart(spans, "t", "t");
    IdsOfFlat([spans], ["t"]);
    assert [spans][..0] == [] && Flat([spans]) == spans;
    RankedIs(spans, ["t"]);
  }

  lemma OneTraceChosen(spans: seq<Span>, n: nat, w: Wanted)
    requires spans != [] && OwnedBy(spans, "t") && Eligible(spans, w) && n > 0
    ensures Of(spans, "t") == spans && Chosen(spans, n, w) == ["t"]
  {
    OneTrace(spans);
    FilterAll(["t"], spans, w);
  }

  lemma WindowOfParts(parts: seq<seq<Span>>, ids: seq<string>, spans: seq<Span>, n: nat, w: Wanted)
    requires ids == Chosen(spans, n, w) && WholeTraces(parts, ids, spans)
    ensures IsWindow(First(Flat(parts), MAX_WINDOW_SPANS), spans, n, w)
  {
  }

  lemma OneTraceWindow(spans: seq<Span>, n: nat, w: Wanted)
    requires spans != [] && OwnedBy(spans, "t") && Ascending(spans, Earlier) && Eligible(spans, w) && n > 0
    ensures IsWindow(First(spans, MAX_WINDOW_SPANS), spans, n, w)
  {
    OneTraceChosen(spans, n, w);
    WindowOfParts([spans], ["t"], spans, n, w);
    assert [spans][..0] == [] && Flat([spans]) == spans;
  }

  lemma ProbesLost(out: seq<Span>, w: Wanted)
    requires out != [] && OwnedBy(out, "t") && forall i :: 0 <= i < |out| ==> w.probe(out[i])
    ensures !StillEligible(out, w)
  {
    OneTrace(out);
    assert "t" in Ranked(out);
  }

  /** The window of that trace holds health checks alone, so the next selection drops it. */
  lemma CutWindowLosesTrace(n: nat, lower: string -> string)
    requires n > 0 && Lowers(lower)
    ensures var w, out := Wanted(ProbeRoute(lower), ""), First(LateTrace(), MAX_WINDOW_SPANS);
            IsWindow(out, LateTrace(), n, w) && !StillEligible(out, w)
  {
    var spans, w := LateTrace(), Wanted(ProbeRoute(lower), "");
    LateTraceOrdered();
    OnlyLastIsNoProbe(lower, MAX_WINDOW_SPANS);
    OneTraceWindow(spans, n, w);
    var out := First(spans, MAX_WINDOW_SPANS);
    forall i: nat | i < |out|
      ensures w.probe(out[i])
    {
      OnlyLastIsNoProbe(lower, i);
    }
    ProbesLost(out, w);
  }
}
