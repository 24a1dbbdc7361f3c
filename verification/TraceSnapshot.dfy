/** The derived view of a batch of spans (internal/graph/graph.go): grouping into traces, entry routes
    and service paths. */
module TraceSnapshot {
  import opened Base
  import opened Spans
  import opened TraceGraph
  import opened TracePaths

  predicate Named(s: Span) {
    s.traceId != "" && s.spanId != ""
  }

  function TraceOf(traces: map<string, Trace>, traceId: string): Trace {
    if traceId in traces then traces[traceId] else map[]
  }

  function Add(traces: map<string, Trace>, s: Span): map<string, Trace> {
    if Named(s) then traces[s.traceId := TraceOf(traces, s.traceId)[s.spanId := s]] else traces
  }

  function Group(spans: seq<Span>): map<string, Trace> {
    if spans == [] then map[] else Add(Group(spans[..|spans| - 1]), spans[|spans| - 1])
  }

  predicate IsSpan(s: Span, traceId: string, spanId: string) {
    Named(s) && s.traceId == traceId && s.spanId == spanId
  }

  function Lookup(traces: map<string, Trace>, traceId: string, spanId: string): Option<Span> {
    if traceId in traces && spanId in traces[traceId] then Some(traces[traceId][spanId]) else None
  }

  /** The last of the spans with these ids. */
  function LastSpan(spans: seq<Span>, traceId: string, spanId: string): Option<Span> {
    if spans == [] then None
    else if IsSpan(spans[|spans| - 1], traceId, spanId) then Some(spans[|spans| - 1])
    else LastSpan(spans[..|spans| - 1], traceId, spanId)
  }

  /** A batch is grouped by trace and span id; of several spans with the same ids the last one counts. */
  lemma {:induction false} LastSpanCounts(spans: seq<Span>, traceId: string, spanId: string)
    ensures Lookup(Group(spans), traceId, spanId) == LastSpan(spans, traceId, spanId)
  {
    if spans != [] {
      LastSpanCounts(spans[..|spans| - 1], traceId, spanId);
    }
  }

  lemma {:induction false} GroupedKeysNamed(spans: seq<Span>)
    ensures forall tr :: tr in Group(spans) ==> "" !in Group(spans)[tr]
  {
    if spans != [] {
      GroupedKeysNamed(spans[..|spans| - 1]);
    }
  }

  method GroupSpans(spans: seq<Span>) returns (traces: map<string, Trace>)
    ensures traces == Group(spans)
  {
    traces := map[];
    for i := 0 to |spans|
      invariant traces == Group(spans[..i])
    {
      assert spans[..i + 1][..i] == spans[..i];
      var s := spans[i];
      if s.traceId == "" || s.spanId == "" {
        continue;
      }
      var byID := if s.traceId in traces then traces[s.traceId] else map[];
      traces := traces[s.traceId := byID[s.spanId := s]];
    }
    assert spans[..|spans|] == spans;
  }

  ghost predicate EntryIn(server: ServerKind, traces: map<string, Trace>, key: (string, string), e: EntryRoute) {
    key.0 in traces && IsEntry(server, traces[key.0], key.0, key.1, e)
  }

  /** Entry routes by trace and span, and the service paths with the traces that show them. */
  method Build(server: ServerKind, spans: seq<Span>) returns (entries: map<(string, string), EntryRoute>, rec: Recorded)
    ensures forall key, e :: (key in entries && entries[key] == e) <==> EntryIn(server, Group(spans), key, e)
    ensures forall path, tr :: Shows(rec, path, tr) <==> tr in Group(spans) && OnFullPath(Group(spans)[tr], path)
  {
    var traces := GroupSpans(spans);
    GroupedKeysNamed(spans);
    entries, rec := map[], map[];
    var todo := traces.Keys;
    while todo != {}
      invariant todo <= traces.Keys
      invariant forall key, e :: (key in entries && entries[key] == e) <==> (key.0 !in todo && EntryIn(server, traces, key, e))
      invariant forall key :: key in entries ==> key.0 !in todo
      invariant forall path, tr :: Shows(rec, path, tr) <==> tr in traces && tr !in todo && OnFullPath(traces[tr], path)
    {
      var tr :| tr in todo;
      var found := TraceEntries(server, traces[tr], tr);
      ghost var before := entries;
      entries := Joined(entries, tr, found);
      JoinedIn(server, traces, before, tr, found);
      ghost var fired;
      rec, fired := TraceServicePaths(traces[tr], tr, rec);
      todo := todo - {tr};
    }
  }

  function Joined(entries: map<(string, string), EntryRoute>, tr: string, found: map<string, EntryRoute>): map<(string, string), EntryRoute> {
    entries + map id | id in found :: (tr, id) := found[id]
  }

  lemma JoinedIn(server: ServerKind, traces: map<string, Trace>, before: map<(string, string), EntryRoute>, tr: string, found: map<string, EntryRoute>)
    requires tr in traces
    requires forall id, e :: (id in found && found[id] == e) <==> IsEntry(server, traces[tr], tr, id, e)
    requires forall key :: key in before ==> key.0 != tr
    ensures var after := Joined(before, tr, found);
            forall key, e :: (key in after && after[key] == e) <==>
              (key in before && before[key] == e) || (key.0 == tr && EntryIn(server, traces, key, e))
  {
    var after := Joined(before, tr, found);
    forall key, e
      ensures (key in after && after[key] == e) <==>
                (key in before && before[key] == e) || (key.0 == tr && EntryIn(server, traces, key, e))
    {
      if key.0 == tr {
        assert key == (tr, key.1);
        assert key in after <==> key.1 in found;
      }
    }
  }
}
