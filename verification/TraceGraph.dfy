/** Spans of a trace and their parent links (internal/graph/graph.go). Links may dangle or form cycles. */
module TraceGraph {
  import opened Base
  import opened Text
  import opened Spans

  /** The spans of one trace by span id. */
  type Trace = map<string, Span>

  datatype EntryRoute = EntryRoute(traceId: string, spanId: string, verb: string, route: string)

  // Chains of parents.

  predicate Walk(t: Trace, c: seq<string>) {
    && (forall i :: 0 <= i < |c| ==> c[i] in t)
    && (forall i :: 0 <= i < |c| - 1 ==> t[c[i]].parent == c[i + 1])
  }

  /** A walk from a span along parents to a span without a parent. */
  predicate CompleteChain(t: Trace, c: seq<string>) {
    c != [] && Walk(t, c) && t[c[|c| - 1]].parent == ""
  }

  predicate ChainFrom(t: Trace, id: string, c: seq<string>) {
    CompleteChain(t, c) && c[0] == id
  }

  ghost predicate Complete(t: Trace, id: string) {
    exists c :: ChainFrom(t, id, c)
  }

  /** A span has at most one complete chain. */
  lemma {:induction false} ChainUnique(t: Trace, id: string, c: seq<string>, d: seq<string>)
    requires "" !in t && ChainFrom(t, id, c) && ChainFrom(t, id, d)
    ensures c == d
    decreases |c|
  {
    assert |c| > 1 ==> t[c[0]].parent == c[1] && c[1] in t;
    assert |d| > 1 ==> t[d[0]].parent == d[1] && d[1] in t;
    if |c| > 1 {
      assert t[c[0]].parent == c[1] && t[d[0]].parent == d[1];
      ChainUnique(t, c[1], c[1..], d[1..]);
      assert c == [c[0]] + c[1..] && d == [d[0]] + d[1..];
    }
  }

  /** The chain of a span follows every walk from it. */
  lemma {:induction false} ChainFollowsWalk(t: Trace, w: seq<string>, c: seq<string>)
    requires "" !in t && w != [] && Walk(t, w) && ChainFrom(t, w[0], c)
    ensures |c| >= |w| && ChainFrom(t, w[|w| - 1], c[|w| - 1..])
    decreases |w|
  {
    if |w| > 1 {
      assert t[w[0]].parent == w[1] && w[1] in t;
      assert |c| > 1 && c[1] == w[1];
      ChainFollowsWalk(t, w[1..], c[1..]);
      assert c[1..][|w| - 2..] == c[|w| - 1..];
    }
  }

  /** A span on a cycle has no complete chain. */
  lemma CycleIncomplete(t: Trace, w: seq<string>)
    requires "" !in t && |w| > 1 && Walk(t, w) && w[0] == w[|w| - 1]
    ensures !Complete(t, w[0])
  {
    if c :| ChainFrom(t, w[0], c) {
      ChainFollowsWalk(t, w, c);
      ChainUnique(t, w[0], c, c[|w| - 1..]);
    }
  }

  // Entry routes.

  /** Whether a span's kind names a server. */
  type ServerKind = string -> bool

  predicate Routed(server: ServerKind, s: Span) {
    server(s.kind) && !Blank(s.verb) && !Blank(s.route)
  }

  function EntryOf(t: Trace, traceId: string, id: string): EntryRoute
    requires id in t
  {
    EntryRoute(traceId, id, t[id].verb, t[id].route)
  }

  /** c[i] is the routed server nearest to the root of the chain. */
  predicate RootMost(server: ServerKind, t: Trace, c: seq<string>, i: int) {
    && 0 <= i < |c| && c[i] in t && Routed(server, t[c[i]])
    && forall k :: i < k < |c| && c[k] in t ==> !Routed(server, t[c[k]])
  }

  /** e is the entry route of the span: the root-most routed server on its complete chain of parents. */
  ghost predicate IsEntry(server: ServerKind, t: Trace, traceId: string, id: string, e: EntryRoute) {
    exists c, i :: ChainFrom(t, id, c) && RootMost(server, t, c, i) && e == EntryOf(t, traceId, c[i])
  }

  /** What is known of a span: whether its chain is complete, and the entry found on it. */
  datatype Ancestry = Ancestry(complete: bool, entry: Option<EntryRoute>)

  const UNRESOLVED := Ancestry(false, None)

  ghost predicate EntryFits(server: ServerKind, t: Trace, traceId: string, c: seq<string>, entry: Option<EntryRoute>) {
    match entry
    case None => forall k :: 0 <= k < |c| && c[k] in t ==> !Routed(server, t[c[k]])
    case Some(e) => exists i :: RootMost(server, t, c, i) && e == EntryOf(t, traceId, c[i])
  }

  ghost predicate Correct(server: ServerKind, t: Trace, traceId: string, id: string, a: Ancestry) {
    && (a.complete <==> Complete(t, id))
    && (!a.complete ==> a.entry.None?)
    && (forall c :: ChainFrom(t, id, c) ==> EntryFits(server, t, traceId, c, a.entry))
  }

  /** The same for a parent reference, which may be empty or dangle. */
  ghost predicate CorrectAt(server: ServerKind, t: Trace, traceId: string, p: string, a: Ancestry) {
    if p == "" then a == Ancestry(true, None)
    else if p in t then Correct(server, t, traceId, p, a)
    else a == UNRESOLVED
  }

  /** Everything remembered is right. */
  ghost predicate Memo(server: ServerKind, t: Trace, traceId: string, resolved: map<string, Ancestry>) {
    forall k :: k in resolved ==> k in t && Correct(server, t, traceId, k, resolved[k])
  }

  function Extended(server: ServerKind, t: Trace, traceId: string, id: string, a: Ancestry): Ancestry
    requires id in t
  {
    if a.complete && a.entry.None? && Routed(server, t[id]) then a.(entry := Some(EntryOf(t, traceId, id))) else a
  }

  lemma RootIsAlone(t: Trace, id: string, c: seq<string>)
    requires "" !in t && id in t && t[id].parent == "" && ChainFrom(t, id, c)
    ensures c == [id]
  {
    ChainUnique(t, id, c, [id]);
  }

  lemma ExtendedIsCorrect(server: ServerKind, t: Trace, traceId: string, id: string, a: Ancestry)
    requires "" !in t && id in t && CorrectAt(server, t, traceId, t[id].parent, a)
    ensures Correct(server, t, traceId, id, Extended(server, t, traceId, id, a))
  {
    var p := t[id].parent;
    var a' := Extended(server, t, traceId, id, a);
    if p == "" {
      assert ChainFrom(t, id, [id]);
    } else if c :| ChainFrom(t, p, c) {
      assert ChainFrom(t, id, [id] + c);
    }
    forall c | ChainFrom(t, id, c)
      ensures a'.complete && EntryFits(server, t, traceId, c, a'.entry)
    {
      if p == "" {
        RootIsAlone(t, id, c);
        assert a'.entry.Some? ==> RootMost(server, t, c, 0);
      } else {
        assert |c| > 1;
        assert ChainFrom(t, p, c[1..]);
        EntryExtends(server, t, traceId, c, a, a');
      }
    }
  }

  lemma EntryExtends(server: ServerKind, t: Trace, traceId: string, c: seq<string>, a: Ancestry, a': Ancestry)
    requires |c| > 1 && CompleteChain(t, c) && a.complete && EntryFits(server, t, traceId, c[1..], a.entry)
    requires a' == Extended(server, t, traceId, c[0], a)
    ensures EntryFits(server, t, traceId, c, a'.entry)
  {
    assert forall k :: 1 <= k < |c| ==> c[k] == c[1..][k - 1];
    match a.entry
    case None =>
      if a'.entry.Some? {
        assert RootMost(server, t, c, 0);
      }
    case Some(e) =>
      var i :| RootMost(server, t, c[1..], i) && e == EntryOf(t, traceId, c[1..][i]);
      assert RootMost(server, t, c, i + 1);
  }

  /** Walks up from a span until something is known: a resolved span, a root, a dangling reference or
      a span seen before. Terminates because every step visits a new span. */
  method Climb(server: ServerKind, t: Trace, traceId: string, id: string, resolved: map<string, Ancestry>)
    returns (chain: seq<string>, parent: Ancestry)
    requires "" !in t && id in t
    requires Memo(server, t, traceId, resolved)
    ensures Walk(t, chain)
    ensures chain == [] ==> id in resolved
    ensures chain != [] ==> chain[0] == id && CorrectAt(server, t, traceId, t[chain[|chain| - 1]].parent, parent)
  {
    chain := [];
    parent := UNRESOLVED;
    var seen: set<string> := {};
    var cursor := id;
    while true
      invariant Walk(t, chain) && seen == set k | k in chain
      invariant cursor != "" && parent == UNRESOLVED
      invariant chain == [] ==> cursor == id
      invariant chain != [] ==> chain[0] == id && cursor == t[chain[|chain| - 1]].parent
      decreases t.Keys - seen
    {
      if cursor in resolved {
        parent := resolved[cursor];
        return;
      }
      if cursor !in t {
        return;
      }
      if cursor in seen {
        Looped(t, chain, cursor);
        return;
      }
      seen := seen + {cursor};
      chain := chain + [cursor];
      if t[cursor].parent == "" {
        parent := parent.(complete := true);
        return;
      }
      cursor := t[cursor].parent;
    }
  }

  lemma Looped(t: Trace, chain: seq<string>, cursor: string)
    requires "" !in t && chain != [] && Walk(t, chain) && cursor in chain && t[chain[|chain| - 1]].parent == cursor
    ensures !Complete(t, cursor)
  {
    var k :| 0 <= k < |chain| && chain[k] == cursor;
    CycleIncomplete(t, chain[k..] + [cursor]);
  }

  /** One span further down the chain: its own answer, and that of the span above the next one. */
  lemma OneDown(server: ServerKind, t: Trace, traceId: string, chain: seq<string>, i: nat, a: Ancestry, resolved: map<string, Ancestry>)
    requires "" !in t && Walk(t, chain) && i < |chain| && CorrectAt(server, t, traceId, t[chain[i]].parent, a)
    requires Memo(server, t, traceId, resolved)
    ensures var a' := Extended(server, t, traceId, chain[i], a);
            Memo(server, t, traceId, resolved[chain[i] := a']) &&
            (i > 0 ==> CorrectAt(server, t, traceId, t[chain[i - 1]].parent, a'))
    ensures chain[i..] == [chain[i]] + chain[i + 1..]
  {
    ExtendedIsCorrect(server, t, traceId, chain[i], a);
    assert i > 0 ==> t[chain[i - 1]].parent == chain[i];
  }

  /** Resolves a chain from its top down, remembering every span on it. */
  method Descend(server: ServerKind, t: Trace, traceId: string, chain: seq<string>, top: Ancestry, resolved0: map<string, Ancestry>)
    returns (resolved: map<string, Ancestry>)
    requires "" !in t && Walk(t, chain)
    requires chain != [] ==> CorrectAt(server, t, traceId, t[chain[|chain| - 1]].parent, top)
    requires Memo(server, t, traceId, resolved0)
    ensures Memo(server, t, traceId, resolved)
    ensures forall k :: k in resolved <==> k in resolved0 || k in chain
  {
    resolved := resolved0;
    var parent := top;
    var i := |chain|;
    while i > 0
      invariant 0 <= i <= |chain|
      invariant i > 0 ==> CorrectAt(server, t, traceId, t[chain[i - 1]].parent, parent)
      invariant Memo(server, t, traceId, resolved)
      invariant forall k :: k in resolved <==> k in resolved0 || k in chain[i..]
    {
      i := i - 1;
      var id := chain[i];
      OneDown(server, t, traceId, chain, i, parent, resolved);
      if parent.complete && parent.entry.None? && Routed(server, t[id]) {
        parent := parent.(entry := Some(EntryRoute(traceId, id, t[id].verb, t[id].route)));
      }
      resolved := resolved[id := parent];
    }
    assert chain[0..] == chain;
  }

  /** The entry route of every span that has one, whatever order the map yields its keys in. */
  method TraceEntries(server: ServerKind, t: Trace, traceId: string) returns (entries: map<string, EntryRoute>)
    requires "" !in t
    ensures forall id, e :: (id in entries && entries[id] == e) <==> IsEntry(server, t, traceId, id, e)
  {
    var resolved: map<string, Ancestry> := map[];
    var todo := t.Keys;
    while todo != {}
      invariant todo <= t.Keys
      invariant Memo(server, t, traceId, resolved)
      invariant forall k :: k in t && k !in todo ==> k in resolved
    {
      var id :| id in todo;
      var chain, parent := Climb(server, t, traceId, id, resolved);
      resolved := Descend(server, t, traceId, chain, parent, resolved);
      todo := todo - {id};
    }
    entries := Collect(server, t, traceId, resolved);
  }

  method Collect(server: ServerKind, t: Trace, traceId: string, resolved: map<string, Ancestry>) returns (entries: map<string, EntryRoute>)
    requires Memo(server, t, traceId, resolved) && resolved.Keys == t.Keys
    ensures forall id, e :: (id in entries && entries[id] == e) <==> IsEntry(server, t, traceId, id, e)
  {
    entries := map id | id in resolved && resolved[id].complete && resolved[id].entry.Some? :: resolved[id].entry.value;
    forall id, e
      ensures (id in entries && entries[id] == e) <==> IsEntry(server, t, traceId, id, e)
    {
      if id in t {
        ResolvedEntry(server, t, traceId, id, resolved[id], e);
      }
    }
  }

  lemma ResolvedEntry(server: ServerKind, t: Trace, traceId: string, id: string, a: Ancestry, e: EntryRoute)
    requires Correct(server, t, traceId, id, a)
    ensures (a.complete && a.entry == Some(e)) <==> IsEntry(server, t, traceId, id, e)
  {
    if a.complete && a.entry == Some(e) {
      var c :| ChainFrom(t, id, c);
      assert EntryFits(server, t, traceId, c, a.entry);
    }
    if IsEntry(server, t, traceId, id, e) {
      var c, i :| ChainFrom(t, id, c) && RootMost(server, t, c, i) && e == EntryOf(t, traceId, c[i]);
      assert EntryFits(server, t, traceId, c, a.entry);
    }
  }
}
