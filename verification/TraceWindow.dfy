/** The window of newest traces (internal/ingest/window.go). */
module TraceWindow {
  import opened Base
  import opened Text
  import opened Strings
  import opened Spans
  import opened Sorting
  import opened Totals

  const DEFAULT_TRACE_WINDOW := 50
  const MAX_TRACE_WINDOW := 200
  const MAX_WINDOW_SPANS := 10000

  /** What makes a trace eligible: some span is not a probe and, if a service is asked for, some span
      is of that service. */
  datatype Wanted = Wanted(probe: Span -> bool, service: string)

  // Probes.

  const PROBE_ROUTES := ["/healthz", "/livez", "/readyz", "/health"]
  const PROBE_NAMES := ["get /healthz", "head /healthz", "/healthz", "get /readyz", "get /livez"]

  /** A span of a health check, by its route or its name, whatever their case and surrounding spaces. */
  function ProbeRoute(lower: string -> string): Span -> bool {
    (s: Span) => lower(TrimSpace(s.route)) in PROBE_ROUTES || lower(TrimSpace(s.name)) in PROBE_NAMES
  }

  // Traces.

  function Of(spans: seq<Span>, id: string): seq<Span> {
    if spans == [] then []
    else
      var init, s := Of(spans[..|spans| - 1], id), spans[|spans| - 1];
      if s.traceId == id then init + [s] else init
  }

  function Max(spans: seq<Span>): int
    requires spans != []
  {
    var s := spans[|spans| - 1].start;
    if |spans| == 1 then s
    else
      var m := Max(spans[..|spans| - 1]);
      if s > m then s else m
  }

  /** When a trace was last seen to begin a span. */
  function Last(spans: seq<Span>, id: string): int {
    if Of(spans, id) == [] then 0 else Max(Of(spans, id))
  }

  function Ids(spans: seq<Span>): seq<string> {
    if spans == [] then []
    else
      var init, id := Ids(spans[..|spans| - 1]), spans[|spans| - 1].traceId;
      if id == "" || id in init then init else init + [id]
  }

  predicate Newer(spans: seq<Span>, a: string, b: string) {
    Last(spans, a) > Last(spans, b) || (Last(spans, a) == Last(spans, b) && AtMost(b, a))
  }

  function Rank(spans: seq<Span>): (string, string) -> bool {
    (a, b) => Newer(spans, a, b)
  }

  /** The traces, newest first. */
  function Ranked(spans: seq<Span>): seq<string> {
    Sort(Ids(spans), Rank(spans))
  }

  predicate Eligible(spans: seq<Span>, w: Wanted) {
    (exists i :: 0 <= i < |spans| && !w.probe(spans[i])) &&
    (w.service == "" || exists i :: 0 <= i < |spans| && spans[i].service == w.service)
  }

  function Filter(ids: seq<string>, spans: seq<Span>, w: Wanted): seq<string> {
    if ids == [] then []
    else
      var init, id := Filter(ids[..|ids| - 1], spans, w), ids[|ids| - 1];
      if Eligible(Of(spans, id), w) then init + [id] else init
  }

  function First<T>(xs: seq<T>, n: nat): seq<T> {
    if |xs| <= n then xs else xs[..n]
  }

  /** The n newest eligible traces. */
  function Chosen(spans: seq<Span>, n: nat, w: Wanted): seq<string> {
    First(Filter(Ranked(spans), spans, w), n)
  }

  // Spans of a trace, by start and span id.

  predicate Earlier(a: Span, b: Span) {
    a.start < b.start || (a.start == b.start && AtMost(a.spanId, b.spanId))
  }

  predicate SortedOf(part: seq<Span>, spans: seq<Span>) {
    multiset(part) == multiset(spans) && Ascending(part, Earlier)
  }

  function Flat(parts: seq<seq<Span>>): seq<Span> {
    if parts == [] then [] else Flat(parts[..|parts| - 1]) + parts[|parts| - 1]
  }

  /** One part for each chosen trace, holding all its spans in order. */
  predicate WholeTraces(parts: seq<seq<Span>>, ids: seq<string>, spans: seq<Span>) {
    |parts| == |ids| && forall i :: 0 <= i < |ids| ==> SortedOf(parts[i], Of(spans, ids[i]))
  }

  /** The spans of the n newest eligible traces, whole, newest trace first, up to the cap on spans. */
  ghost predicate IsWindow(out: seq<Span>, spans: seq<Span>, n: nat, w: Wanted) {
    exists parts :: WholeTraces(parts, Chosen(spans, n, w), spans) && out == First(Flat(parts), MAX_WINDOW_SPANS)
  }

  // Orders.

  lemma RankIsTotal(spans: seq<Span>)
    ensures TotalOrder(Rank(spans))
  {
    var le := Rank(spans);
    forall a, b
      ensures le(a, b) || le(b, a)
      ensures le(a, b) && le(b, a) ==> a == b
    {
      AtMostOrder(a, b);
    }
    forall a, b, c | le(a, b) && le(b, c)
      ensures le(a, c)
    {
      if AtMost(c, b) && AtMost(b, a) {
        AtMostTransitive(c, b, a);
      }
    }
  }

  lemma EarlierIsPreorder()
    ensures Preorder(Earlier)
  {
    forall a: Span, b: Span
      ensures Earlier(a, b) || Earlier(b, a)
    {
      AtMostOrder(a.spanId, b.spanId);
    }
    forall a: Span, b: Span, c: Span | Earlier(a, b) && Earlier(b, c)
      ensures Earlier(a, c)
    {
      if AtMost(a.spanId, b.spanId) && AtMost(b.spanId, c.spanId) {
        AtMostTransitive(a.spanId, b.spanId, c.spanId);
      }
    }
  }

  // What depends only on which spans there are.

  lemma {:induction false} OfCounts(spans: seq<Span>, id: string, x: Span)
    ensures multiset(Of(spans, id))[x] == if x.traceId == id then multiset(spans)[x] else 0
  {
    if spans != [] {
      var init, s := spans[..|spans| - 1], spans[|spans| - 1];
      OfCounts(init, id, x);
      assert spans == init + [s];
    }
  }

  lemma OfPermute(a: seq<Span>, b: seq<Span>, id: string)
    requires multiset(a) == multiset(b)
    ensures multiset(Of(a, id)) == multiset(Of(b, id))
  {
    forall x
      ensures multiset(Of(a, id))[x] == multiset(Of(b, id))[x]
    {
      OfCounts(a, id, x);
      OfCounts(b, id, x);
    }
  }

  lemma {:induction false} MaxIs(spans: seq<Span>)
    requires spans != []
    ensures forall s :: s in spans ==> s.start <= Max(spans)
    ensures exists s :: s in spans && s.start == Max(spans)
  {
    var init, s := spans[..|spans| - 1], spans[|spans| - 1];
    assert spans == init + [s];
    if init != [] {
      MaxIs(init);
    }
    assert s in spans;
  }

  /** Traces with the same spans are last seen at the same time and are eligible together. */
  lemma SameTrace(a: seq<Span>, b: seq<Span>, i: string, k: string, w: Wanted)
    requires multiset(Of(a, i)) == multiset(Of(b, k))
    ensures Last(a, i) == Last(b, k) && (Eligible(Of(a, i), w) <==> Eligible(Of(b, k), w))
  {
    var x, y := Of(a, i), Of(b, k);
    SameMembers(x, y);
    if x != [] {
      MaxIs(x);
      MaxIs(y);
    }
    EligibleIn(x, w);
    EligibleIn(y, w);
  }

  lemma EligibleIn(spans: seq<Span>, w: Wanted)
    ensures Eligible(spans, w) <==>
            (exists s :: s in spans && !w.probe(s)) && (w.service == "" || exists s :: s in spans && s.service == w.service)
  {
  }

  lemma {:induction false} IdsCount(spans: seq<Span>, id: string)
    ensures multiset(Ids(spans))[id] == if id != "" && Of(spans, id) != [] then 1 else 0
  {
    if spans != [] {
      IdsCount(spans[..|spans| - 1], id);
      var init := Ids(spans[..|spans| - 1]);
      assert id in init <==> id in multiset(init);
    }
  }

  lemma IdsPermute(a: seq<Span>, b: seq<Span>)
    requires multiset(a) == multiset(b)
    ensures multiset(Ids(a)) == multiset(Ids(b)) && forall id :: Last(a, id) == Last(b, id)
  {
    var none := Wanted(_ => false, "");
    forall id
      ensures multiset(Ids(a))[id] == multiset(Ids(b))[id] && Last(a, id) == Last(b, id)
    {
      OfPermute(a, b, id);
      SameTrace(a, b, id, id, none);
      IdsCount(a, id);
      IdsCount(b, id);
      SameMembers(Of(a, id), Of(b, id));
    }
  }

  /** A list of traces in order is the ranking of any spans that have just those traces. */
  lemma RankedIs(spans: seq<Span>, ids: seq<string>)
    requires multiset(Ids(spans)) == multiset(ids)
    requires forall i, k :: 0 <= i < k < |ids| ==> Newer(spans, ids[i], ids[k])
    ensures Ranked(spans) == ids
  {
    var le := Rank(spans);
    RankIsTotal(spans);
    SortAscending(Ids(spans), le);
    assert Ascending(ids, le);
    AscendingUnique(Ranked(spans), ids, le);
  }

  lemma RankedAscends(spans: seq<Span>)
    ensures var r := Ranked(spans);
            multiset(r) == multiset(Ids(spans)) && forall i, k :: 0 <= i < k < |r| ==> Newer(spans, r[i], r[k])
  {
    RankIsTotal(spans);
    SortAscending(Ids(spans), Rank(spans));
    var r := Ranked(spans);
    forall i, k | 0 <= i < k < |r|
      ensures Newer(spans, r[i], r[k])
    {
      assert Rank(spans)(r[i], r[k]);
    }
  }

  lemma RankedPermute(a: seq<Span>, b: seq<Span>)
    requires multiset(a) == multiset(b)
    ensures Ranked(a) == Ranked(b)
  {
    IdsPermute(a, b);
    RankedAscends(b);
    RankedIs(a, Ranked(b));
  }

  lemma {:induction false} FilterSame(ids: seq<string>, a: seq<Span>, b: seq<Span>, w: Wanted)
    requires forall id :: id in ids ==> (Eligible(Of(a, id), w) <==> Eligible(Of(b, id), w))
    ensures Filter(ids, a, w) == Filter(ids, b, w)
  {
    if ids != [] {
      var init := ids[..|ids| - 1];
      assert ids == init + [ids[|ids| - 1]];
      FilterSame(init, a, b, w);
    }
  }

  lemma ChosenPermute(a: seq<Span>, b: seq<Span>, n: nat, w: Wanted)
    requires multiset(a) == multiset(b)
    ensures Chosen(a, n, w) == Chosen(b, n, w)
  {
    RankedPermute(a, b);
    forall id
      ensures Eligible(Of(a, id), w) <==> Eligible(Of(b, id), w)
    {
      OfPermute(a, b, id);
      SameTrace(a, b, id, id, w);
    }
    FilterSame(Ranked(a), a, b, w);
  }

  // Two orders of the same spans.

  /** Of the spans of one trace, no two share start and id without being equal. */
  predicate Told(spans: seq<Span>) {
    forall s, t :: s in spans && t in spans && s.start == t.start && s.spanId == t.spanId ==> s == t
  }

  predicate AllTold(ids: seq<string>, spans: seq<Span>) {
    forall i :: 0 <= i < |ids| ==> Told(Of(spans, ids[i]))
  }

  /** Place by place, spans of the same trace with the same start and id. */
  predicate Alike(xs: seq<Span>, ys: seq<Span>) {
    |xs| == |ys| && forall i :: 0 <= i < |xs| ==>
      xs[i].traceId == ys[i].traceId && xs[i].start == ys[i].start && xs[i].spanId == ys[i].spanId
  }

  predicate OwnedBy(part: seq<Span>, id: string) {
    forall s :: s in part ==> s.traceId == id
  }

  predicate KeyAtMost(a: (int, string), b: (int, string)) {
    a.0 < b.0 || (a.0 == b.0 && AtMost(a.1, b.1))
  }

  function Keys(spans: seq<Span>): (r: seq<(int, string)>)
    ensures |r| == |spans| && forall i :: 0 <= i < |spans| ==> r[i] == (spans[i].start, spans[i].spanId)
  {
    seq(|spans|, i requires 0 <= i < |spans| => (spans[i].start, spans[i].spanId))
  }

  lemma KeyAtMostIsTotal()
    ensures TotalOrder(KeyAtMost)
  {
    forall a: (int, string), b: (int, string)
      ensures KeyAtMost(a, b) || KeyAtMost(b, a)
      ensures KeyAtMost(a, b) && KeyAtMost(b, a) ==> a == b
    {
      AtMostOrder(a.1, b.1);
    }
    forall a: (int, string), b: (int, string), c: (int, string) | KeyAtMost(a, b) && KeyAtMost(b, c)
      ensures KeyAtMost(a, c)
    {
      if AtMost(a.1, b.1) && AtMost(b.1, c.1) {
        AtMostTransitive(a.1, b.1, c.1);
      }
    }
  }

  lemma {:induction false} KeysGathered(spans: seq<Span>, g: Span -> seq<(int, string)>)
    requires forall x: Span :: g(x) == [(x.start, x.spanId)]
    ensures Gather(spans, g) == Keys(spans)
  {
    if spans != [] {
      KeysGathered(spans[..|spans| - 1], g);
    }
  }

  lemma KeysPermute(xs: seq<Span>, ys: seq<Span>)
    requires multiset(xs) == multiset(ys)
    ensures multiset(Keys(xs)) == multiset(Keys(ys))
  {
    var g := (x: Span) => [(x.start, x.spanId)];
    KeysGathered(xs, g);
    KeysGathered(ys, g);
    GatherPermute(xs, ys, g);
  }

  lemma KeysAscend(xs: seq<Span>)
    requires Ascending(xs, Earlier)
    ensures Ascending(Keys(xs), KeyAtMost)
  {
    forall i, k | 0 <= i < k < |xs|
      ensures KeyAtMost(Keys(xs)[i], Keys(xs)[k])
    {
      assert Earlier(xs[i], xs[k]);
    }
  }

  /** Two orders of the same spans by start and id agree on both, place by place, and are the same
      where those tell the spans apart. */
  lemma SortedAlike(xs: seq<Span>, ys: seq<Span>, id: string)
    requires Ascending(xs, Earlier) && Ascending(ys, Earlier) && multiset(xs) == multiset(ys) && OwnedBy(xs, id)
    ensures Alike(xs, ys) && (Told(xs) ==> xs == ys)
  {
    SameMembers(xs, ys);
    KeyAtMostIsTotal();
    KeysPermute(xs, ys);
    KeysAscend(xs);
    KeysAscend(ys);
    AscendingUnique(Keys(xs), Keys(ys), KeyAtMost);
    forall i | 0 <= i < |xs|
      ensures xs[i].start == ys[i].start && xs[i].spanId == ys[i].spanId && xs[i] in xs && ys[i] in xs
    {
      assert Keys(xs)[i] == Keys(ys)[i] && ys[i] in ys;
    }
  }

  lemma {:induction false} OfIn(spans: seq<Span>, id: string)
    ensures forall s :: s in Of(spans, id) <==> s in spans && s.traceId == id
  {
    if spans != [] {
      OfIn(spans[..|spans| - 1], id);
      assert spans == spans[..|spans| - 1] + [spans[|spans| - 1]];
    }
  }

  predicate SameTraces(ids: seq<string>, a: seq<Span>, b: seq<Span>) {
    forall i :: 0 <= i < |ids| ==> multiset(Of(a, ids[i])) == multiset(Of(b, ids[i]))
  }

  lemma PartAlike(p: seq<Span>, a: seq<Span>, q: seq<Span>, b: seq<Span>, id: string)
    requires SortedOf(p, Of(a, id)) && SortedOf(q, Of(b, id)) && multiset(Of(a, id)) == multiset(Of(b, id))
    ensures Alike(p, q) && (Told(Of(a, id)) ==> p == q)
  {
    SameMembers(p, Of(a, id));
    OfIn(a, id);
    SortedAlike(p, q, id);
  }

  lemma AlikeConcat(a: seq<Span>, b: seq<Span>, c: seq<Span>, d: seq<Span>)
    requires Alike(a, b) && Alike(c, d)
    ensures Alike(a + c, b + d)
  {
  }

  lemma OneMorePart(p: seq<seq<Span>>, x: seq<Span>, q: seq<seq<Span>>, y: seq<Span>, p': seq<seq<Span>>, q': seq<seq<Span>>)
    requires p' == p + [x] && q' == q + [y] && Alike(Flat(p), Flat(q)) && Alike(x, y)
    ensures Alike(Flat(p'), Flat(q')) && (Flat(p) == Flat(q) && x == y ==> Flat(p') == Flat(q'))
  {
    assert p'[..|p|] == p && q'[..|q|] == q;
    AlikeConcat(Flat(p), Flat(q), x, y);
  }

  lemma ToldBefore(ids: seq<string>, n: nat, spans: seq<Span>)
    requires n < |ids|
    ensures AllTold(ids, spans) ==> AllTold(ids[..n], spans) && Told(Of(spans, ids[n]))
  {
  }

  lemma LastPart(p: seq<seq<Span>>, spans: seq<Span>, ids: seq<string>)
    requires ids != [] && WholeTraces(p, ids, spans)
    ensures var n := |ids| - 1;
            p == p[..n] + [p[n]] && WholeTraces(p[..n], ids[..n], spans) && SortedOf(p[n], Of(spans, ids[n]))
  {
  }

  lemma {:induction false} PartsAlike(p: seq<seq<Span>>, a: seq<Span>, q: seq<seq<Span>>, b: seq<Span>, ids: seq<string>)
    requires WholeTraces(p, ids, a) && WholeTraces(q, ids, b) && SameTraces(ids, a, b)
    ensures Alike(Flat(p), Flat(q)) && (AllTold(ids, a) ==> Flat(p) == Flat(q))
    decreases |ids|
  {
    if ids != [] {
      var n := |ids| - 1;
      LastPart(p, a, ids);
      LastPart(q, b, ids);
      PartsAlike(p[..n], a, q[..n], b, ids[..n]);
      PartAlike(p[n], a, q[n], b, ids[n]);
      OneMorePart(p[..n], p[n], q[..n], q[n], p, q);
      ToldBefore(ids, n, a);
    }
  }

  /** The window shows the same traces, starts and span ids in the same places whatever the order of
      the spans, and the same spans where start and id tell the spans of a chosen trace apart. */
  lemma OrderIrrelevant(a: seq<Span>, b: seq<Span>, n: nat, w: Wanted, x: seq<Span>, y: seq<Span>)
    requires multiset(a) == multiset(b) && IsWindow(x, a, n, w) && IsWindow(y, b, n, w)
    ensures Alike(x, y) && (AllTold(Chosen(a, n, w), a) ==> x == y)
  {
    ChosenPermute(a, b, n, w);
    var ids := Chosen(a, n, w);
    var p :| WholeTraces(p, ids, a) && x == First(Flat(p), MAX_WINDOW_SPANS);
    var q :| WholeTraces(q, ids, b) && y == First(Flat(q), MAX_WINDOW_SPANS);
    forall i | 0 <= i < |ids|
      ensures multiset(Of(a, ids[i])) == multiset(Of(b, ids[i]))
    {
      OfPermute(a, b, ids[i]);
    }
    PartsAlike(p, a, q, b, ids);
  }

  // Which traces are chosen.

  predicate NewestFirst(ids: seq<string>, spans: seq<Span>) {
    NoDuplicates(ids) && forall i, k :: 0 <= i < k < |ids| ==> Newer(spans, ids[i], ids[k])
  }

  lemma OncePerId(ids: seq<string>)
    requires forall id :: multiset(ids)[id] <= 1
    ensures NoDuplicates(ids)
  {
    forall i, k | 0 <= i < k < |ids|
      ensures ids[i] != ids[k]
    {
      Twice(ids, i, k);
    }
  }

  lemma RankedNewestFirst(spans: seq<Span>)
    ensures NewestFirst(Ranked(spans), spans)
    ensures forall id :: id in Ranked(spans) <==> id != "" && Of(spans, id) != []
  {
    RankedAscends(spans);
    var r := Ranked(spans);
    forall id
      ensures multiset(r)[id] <= 1 && (id in r <==> id != "" && Of(spans, id) != [])
    {
      IdsCount(spans, id);
      assert id in r <==> id in multiset(r);
    }
    OncePerId(r);
  }

  lemma {:induction false} FilterKeeps(ids: seq<string>, spans: seq<Span>, w: Wanted)
    requires NewestFirst(ids, spans)
    ensures NewestFirst(Filter(ids, spans, w), spans)
    ensures forall id :: id in Filter(ids, spans, w) <==> id in ids && Eligible(Of(spans, id), w)
  {
    if ids != [] {
      var init, last := ids[..|ids| - 1], ids[|ids| - 1];
      assert ids == init + [last];
      FilterKeeps(init, spans, w);
      var f := Filter(init, spans, w);
      forall i | 0 <= i < |f|
        ensures f[i] != last && Newer(spans, f[i], last)
      {
        assert f[i] in init;
      }
    }
  }

  /** Exactly the n newest of the eligible traces are chosen: each is named and eligible, none twice,
      and an eligible trace is left out only when n newer ones were chosen. */
  lemma ChosenAreNewest(spans: seq<Span>, n: nat, w: Wanted)
    ensures var ids := Chosen(spans, n, w);
            |ids| <= n && NewestFirst(ids, spans) &&
            (forall id :: id in ids ==> id != "" && Eligible(Of(spans, id), w)) &&
            (forall id :: id != "" && Eligible(Of(spans, id), w) && id !in ids ==>
               |ids| == n && forall i :: 0 <= i < n ==> Newer(spans, ids[i], id))
  {
    RankedNewestFirst(spans);
    FilterKeeps(Ranked(spans), spans, w);
    var all, ids := Filter(Ranked(spans), spans, w), Chosen(spans, n, w);
    forall id | id in ids
      ensures id in all
    {
    }
    forall id | id != "" && Eligible(Of(spans, id), w) && id !in ids
      ensures |ids| == n && forall i :: 0 <= i < n ==> Newer(spans, ids[i], id)
    {
      assert id in all;
      var p :| 0 <= p < |all| && all[p] == id;
      assert forall q :: 0 <= q < |ids| ==> ids[q] == all[q];
    }
  }

  // Grouping and selecting.

  datatype Info = Info(id: string, last: int, spans: seq<Span>)

  function InfoOf(spans: seq<Span>, id: string): Info {
    Info(id, Last(spans, id), Of(spans, id))
  }

  predicate NewerInfo(a: Info, b: Info) {
    a.last > b.last || (a.last == b.last && AtMost(b.id, a.id))
  }

  lemma NewerInfoIsPreorder()
    ensures Preorder(NewerInfo)
  {
    forall a: Info, b: Info
      ensures NewerInfo(a, b) || NewerInfo(b, a)
    {
      AtMostOrder(a.id, b.id);
    }
    forall a: Info, b: Info, c: Info | NewerInfo(a, b) && NewerInfo(b, c)
      ensures NewerInfo(a, c)
    {
      if AtMost(c.id, b.id) && AtMost(b.id, a.id) {
        AtMostTransitive(c.id, b.id, a.id);
      }
    }
  }

  /** Every named trace of the spans, with its latest start and its spans. */
  ghost predicate Collects(byId: map<string, Info>, spans: seq<Span>) {
    && (forall id :: id in byId <==> id != "" && Of(spans, id) != [])
    && (forall id :: id in byId ==> byId[id] == InfoOf(spans, id))
  }

  /** What a trace is known by once one more of its spans is seen. */
  function Joined(byId: map<string, Info>, s: Span): Info {
    if s.traceId in byId then
      var t := byId[s.traceId];
      Info(t.id, if s.start > t.last then s.start else t.last, t.spans + [s])
    else Info(s.traceId, s.start, [s])
  }

  lemma OfMore(spans: seq<Span>, s: Span, id: string)
    ensures Of(spans + [s], id) == if s.traceId == id then Of(spans, id) + [s] else Of(spans, id)
  {
    assert (spans + [s])[..|spans|] == spans;
  }

  lemma InfoMore(spans: seq<Span>, s: Span)
    ensures var id, of := s.traceId, Of(spans, s.traceId);
            InfoOf(spans + [s], id) ==
              Info(id, if of == [] || s.start > Last(spans, id) then s.start else Last(spans, id), of + [s])
  {
    var of := Of(spans, s.traceId);
    OfMore(spans, s, s.traceId);
    assert (of + [s])[..|of|] == of;
  }

  lemma CollectsMore(byId: map<string, Info>, spans: seq<Span>, s: Span)
    requires Collects(byId, spans)
    ensures Collects(if s.traceId == "" then byId else byId[s.traceId := Joined(byId, s)], spans + [s])
  {
    InfoMore(spans, s);
    forall id
      ensures Of(spans + [s], id) == if s.traceId == id then Of(spans, id) + [s] else Of(spans, id)
    {
      OfMore(spans, s, id);
    }
  }

  method CollectTraces(spans: seq<Span>) returns (byId: map<string, Info>)
    ensures Collects(byId, spans)
  {
    byId := map[];
    for i := 0 to |spans|
      invariant Collects(byId, spans[..i])
    {
      var s := spans[i];
      assert spans[..i + 1] == spans[..i] + [s];
      CollectsMore(byId, spans[..i], s);
      if s.traceId == "" {
        continue;
      }
      var t := if s.traceId in byId then byId[s.traceId] else Info(s.traceId, s.start, []);
      t := t.(spans := t.spans + [s]);
      if s.start > t.last {
        t := t.(last := s.start);
      }
      byId := byId[s.traceId := t];
    }
    assert spans[..|spans|] == spans;
  }

  /** The traces, newest first, each with its spans. */
  method GroupTraces(spans: seq<Span>) returns (infos: seq<Info>)
    ensures |infos| == |Ranked(spans)| && forall i :: 0 <= i < |infos| ==> infos[i] == InfoOf(spans, Ranked(spans)[i])
  {
    var byId := CollectTraces(spans);
    var todo := byId.Keys;
    var list: seq<Info> := [];
    ghost var ids: seq<string> := [];
    while todo != {}
      invariant todo <= byId.Keys && NoDuplicates(ids) && |ids| == |list|
      invariant forall id :: id in ids <==> id in byId && id !in todo
      invariant forall i :: 0 <= i < |ids| ==> list[i] == InfoOf(spans, ids[i])
    {
      var id :| id in todo;
      list, ids := list + [byId[id]], ids + [id];
      todo := todo - {id};
    }
    infos := Sort(list, NewerInfo);
    SortedInfos(spans, list, ids, infos);
  }

  function IdsOf(infos: seq<Info>): (r: seq<string>)
    ensures |r| == |infos| && forall i :: 0 <= i < |infos| ==> r[i] == infos[i].id
  {
    seq(|infos|, i requires 0 <= i < |infos| => infos[i].id)
  }

  lemma SortedInfos(spans: seq<Span>, list: seq<Info>, ids: seq<string>, infos: seq<Info>)
    requires |list| == |ids| && NoDuplicates(ids) && (forall id :: id in ids <==> id != "" && Of(spans, id) != [])
    requires forall i :: 0 <= i < |ids| ==> list[i] == InfoOf(spans, ids[i])
    requires infos == Sort(list, NewerInfo)
    ensures |infos| == |Ranked(spans)| && forall i :: 0 <= i < |infos| ==> infos[i] == InfoOf(spans, Ranked(spans)[i])
  {
    NewerInfoIsPreorder();
    SortAscending(list, NewerInfo);
    SameMembers(infos, list);
    assert IdsOf(list) == ids;
    IdsPermuted(infos, list);
    var sorted := IdsOf(infos);
    forall i | 0 <= i < |infos|
      ensures infos[i] == InfoOf(spans, sorted[i])
    {
      assert infos[i] in list;
    }
    forall id
      ensures multiset(Ids(spans))[id] == multiset(ids)[id]
    {
      IdsCount(spans, id);
      NoDuplicatesCount(ids, id);
    }
    RankedIs(spans, sorted);
  }

  lemma {:induction false} IdsGathered(infos: seq<Info>, g: Info -> seq<string>)
    requires forall x: Info :: g(x) == [x.id]
    ensures Gather(infos, g) == IdsOf(infos)
  {
    if infos != [] {
      IdsGathered(infos[..|infos| - 1], g);
    }
  }

  lemma IdsPermuted(a: seq<Info>, b: seq<Info>)
    requires multiset(a) == multiset(b)
    ensures multiset(IdsOf(a)) == multiset(IdsOf(b))
  {
    var g := (x: Info) => [x.id];
    IdsGathered(a, g);
    IdsGathered(b, g);
    GatherPermute(a, b, g);
  }

  method ProbeOnly(spans: seq<Span>, probe: Span -> bool) returns (r: bool)
    ensures r <==> forall i :: 0 <= i < |spans| ==> probe(spans[i])
  {
    for i := 0 to |spans|
      invariant forall k :: 0 <= k < i ==> probe(spans[k])
    {
      if !probe(spans[i]) {
        return false;
      }
    }
    r := true;
  }

  method TraceTouches(spans: seq<Span>, service: string) returns (r: bool)
    ensures r <==> service == "" || exists i :: 0 <= i < |spans| && spans[i].service == service
  {
    if service == "" {
      return true;
    }
    for i := 0 to |spans|
      invariant forall k :: 0 <= k < i ==> spans[k].service != service
    {
      if spans[i].service == service {
        return true;
      }
    }
    r := false;
  }

  function NormalizeTraceWindow(n: int): (r: nat)
    ensures 1 <= r <= MAX_TRACE_WINDOW && (1 <= n <= MAX_TRACE_WINDOW ==> r == n)
  {
    if n <= 0 then DEFAULT_TRACE_WINDOW else if n > MAX_TRACE_WINDOW then MAX_TRACE_WINDOW else n
  }

  /** The spans of a trace in order, if the trace is eligible. */
  method EligiblePart(spans: seq<Span>, w: Wanted) returns (r: Option<seq<Span>>)
    ensures r.Some? <==> Eligible(spans, w)
    ensures r.Some? ==> SortedOf(r.value, spans)
  {
    var probes := ProbeOnly(spans, w.probe);
    if probes {
      return None;
    }
    var touches := TraceTouches(spans, w.service);
    if !touches {
      return None;
    }
    EarlierIsPreorder();
    SortAscending(spans, Earlier);
    r := Some(Sort(spans, Earlier));
  }

  lemma OneMore(parts: seq<seq<Span>>, ids: seq<string>, i: nat, spans: seq<Span>, w: Wanted)
    requires i < |ids| && WholeTraces(parts, Filter(ids[..i], spans, w), spans)
    ensures !Eligible(Of(spans, ids[i]), w) ==> WholeTraces(parts, Filter(ids[..i + 1], spans, w), spans)
    ensures forall part :: Eligible(Of(spans, ids[i]), w) && SortedOf(part, Of(spans, ids[i])) ==>
              WholeTraces(parts + [part], Filter(ids[..i + 1], spans, w), spans) && Flat(parts + [part]) == Flat(parts) + part
  {
    assert ids[..i + 1][..i] == ids[..i];
    forall part | Eligible(Of(spans, ids[i]), w) && SortedOf(part, Of(spans, ids[i]))
      ensures WholeTraces(parts + [part], Filter(ids[..i + 1], spans, w), spans) && Flat(parts + [part]) == Flat(parts) + part
    {
      assert (parts + [part])[..|parts|] == parts;
    }
  }

  method SelectWindow(spans: seq<Span>, maxTraces: int, w: Wanted) returns (out: seq<Span>)
    ensures IsWindow(out, spans, NormalizeTraceWindow(maxTraces), w)
  {
    var n := NormalizeTraceWindow(maxTraces);
    var infos := GroupTraces(spans);
    ghost var ids := Ranked(spans);
    out := [];
    var kept := 0;
    ghost var parts: seq<seq<Span>> := [];
    var i := 0;
    while i < |infos| && kept < n && |out| < MAX_WINDOW_SPANS
      invariant 0 <= i <= |infos| && kept == |parts| <= n
      invariant WholeTraces(parts, Filter(ids[..i], spans, w), spans) && out == Flat(parts)
    {
      var part := EligiblePart(infos[i].spans, w);
      OneMore(parts, ids, i, spans, w);
      i := i + 1;
      if part.None? {
        continue;
      }
      out := out + part.value;
      parts := parts + [part.value];
      kept := kept + 1;
    }
    Completed(spans, n, w, parts, i);
    if |out| > MAX_WINDOW_SPANS {
      out := out[..MAX_WINDOW_SPANS];
    }
  }

  /** Stopping at n traces, at the end, or once the cap on spans is reached leaves the same window. */
  lemma Completed(spans: seq<Span>, n: nat, w: Wanted, parts: seq<seq<Span>>, i: nat)
    requires i <= |Ranked(spans)| && WholeTraces(parts, Filter(Ranked(spans)[..i], spans, w), spans) && |parts| <= n
    requires i == |Ranked(spans)| || |parts| == n || |Flat(parts)| >= MAX_WINDOW_SPANS
    ensures IsWindow(First(Flat(parts), MAX_WINDOW_SPANS), spans, n, w)
  {
    var ids := Chosen(spans, n, w);
    FilterPrefix(Ranked(spans), i, spans, w);
    var some := Filter(Ranked(spans)[..i], spans, w);
    assert Ranked(spans)[..|Ranked(spans)|] == Ranked(spans);
    assert some <= ids;
    var all := Extended(parts, ids, spans);
    assert First(Flat(all), MAX_WINDOW_SPANS) == First(Flat(parts), MAX_WINDOW_SPANS);
  }

  lemma {:induction false} FilterPrefix(ids: seq<string>, i: nat, spans: seq<Span>, w: Wanted)
    requires i <= |ids|
    ensures Filter(ids[..i], spans, w) <= Filter(ids, spans, w)
    decreases |ids|
  {
    if i < |ids| {
      FilterPrefix(ids[..|ids| - 1], i, spans, w);
      assert ids[..|ids| - 1][..i] == ids[..i];
    } else {
      assert ids[..i] == ids;
    }
  }

  lemma {:induction false} Extended(parts: seq<seq<Span>>, ids: seq<string>, spans: seq<Span>) returns (all: seq<seq<Span>>)
    requires |parts| <= |ids| && WholeTraces(parts, ids[..|parts|], spans)
    ensures WholeTraces(all, ids, spans) && Flat(parts) <= Flat(all) && (|parts| == |ids| ==> all == parts)
    decreases |ids| - |parts|
  {
    all := parts;
    if |parts| < |ids| {
      var id := ids[|parts|];
      var part := Sort(Of(spans, id), Earlier);
      EarlierIsPreorder();
      SortAscending(Of(spans, id), Earlier);
      var more := parts + [part];
      assert more[..|parts|] == parts;
      all := Extended(more, ids, spans);
    }
  }
}
