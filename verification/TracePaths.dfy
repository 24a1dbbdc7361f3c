/** Service paths from the roots of a trace to its leaves (internal/graph/graph.go). */
module TracePaths {
  import opened Totals
  import opened TraceGraph

  /** Which traces show a path of services. */
  type Recorded = map<seq<string>, set<string>>

  predicate Shows(rec: Recorded, key: seq<string>, traceId: string) {
    key in rec && traceId in rec[key]
  }

  // Paths of children.

  predicate Root(t: Trace, id: string) {
    id in t && (t[id].parent == "" || t[id].parent !in t)
  }

  predicate Leaf(t: Trace, id: string) {
    forall k :: k in t ==> t[k].parent != id
  }

  /** Each span is the parent of the next. */
  predicate DownPath(t: Trace, q: seq<string>) {
    && q != []
    && (forall i :: 0 <= i < |q| ==> q[i] in t)
    && (forall i :: 0 < i < |q| ==> t[q[i]].parent == q[i - 1])
  }

  /** From a root to a leaf. */
  predicate FullPath(t: Trace, q: seq<string>) {
    DownPath(t, q) && Root(t, q[0]) && Leaf(t, q[|q| - 1])
  }

  function Step(services: seq<string>, name: string): seq<string> {
    if name == "" || (services != [] && services[|services| - 1] == name) then services else services + [name]
  }

  /** The services along a path, empty names dropped and repetitions collapsed. */
  function Collapse(t: Trace, services: seq<string>, q: seq<string>): seq<string>
    requires forall i :: 0 <= i < |q| ==> q[i] in t
    decreases |q|
  {
    if q == [] then services else Collapse(t, Step(services, t[q[0]].service), q[1..])
  }

  lemma OnlyFirstIsRoot(t: Trace, q: seq<string>)
    requires "" !in t && DownPath(t, q)
    ensures forall k :: 0 < k < |q| ==> !Root(t, q[k])
  {
    forall k | 0 < k < |q|
      ensures !Root(t, q[k])
    {
      assert t[q[k]].parent == q[k - 1] && q[k - 1] in t;
    }
  }

  lemma OnlyLastIsLeaf(t: Trace, q: seq<string>)
    requires DownPath(t, q)
    ensures forall k :: 0 <= k < |q| - 1 ==> !Leaf(t, q[k])
  {
    forall k | 0 <= k < |q| - 1
      ensures !Leaf(t, q[k])
    {
      assert t[q[k + 1]].parent == q[k];
    }
  }

  /** Path positions below a root are fixed by the distance to it. */
  lemma {:induction false} RootPathsAgree(t: Trace, q: seq<string>, i: nat, k: nat)
    requires "" !in t && DownPath(t, q) && Root(t, q[0]) && i <= k < |q| && q[i] == q[k]
    ensures i == k
    decreases i
  {
    OnlyFirstIsRoot(t, q);
    if i > 0 {
      assert t[q[i]].parent == q[i - 1] && t[q[k]].parent == q[k - 1];
      RootPathsAgree(t, q, i - 1, k - 1);
    }
  }

  /** From a root no span is ever met twice. */
  lemma RootPathsNeverRepeat(t: Trace, q: seq<string>)
    requires "" !in t && DownPath(t, q) && Root(t, q[0])
    ensures NoDuplicates(q)
  {
    forall i, k | 0 <= i < k < |q|
      ensures q[i] != q[k]
    {
      if q[i] == q[k] {
        RootPathsAgree(t, q, i, k);
      }
    }
  }

  /** A walk along parents from a span on such a path ends at the path's root. */
  lemma {:induction false} WalksEndAtRoot(t: Trace, q: seq<string>, i: nat, w: seq<string>)
    requires "" !in t && DownPath(t, q) && Root(t, q[0]) && i < |q|
    requires w != [] && Walk(t, w) && w[0] == q[i]
    ensures |w| <= i + 1
    decreases i
  {
    if |w| > 1 {
      assert t[w[0]].parent == w[1] && w[1] in t;
      if i > 0 {
        WalksEndAtRoot(t, q, i - 1, w[1..]);
      }
    }
  }

  /** A span whose parents run into a cycle, be it on the cycle or below it, is on no path: its walk
      along parents can be made longer than any path. */
  lemma CyclesOffPaths(t: Trace, q: seq<string>, i: nat, w: seq<string>, a: nat, b: nat)
    requires "" !in t && FullPath(t, q) && i < |q|
    requires w != [] && Walk(t, w) && a < b < |w| && w[a] == w[b]
    ensures q[i] != w[0]
  {
    if q[i] == w[0] {
      WalksEndAtRoot(t, q, i, w);
      PathFollowsWalk(t, q, i, w, a);
      PathFollowsWalk(t, q, i, w, b);
      RootPathsNeverRepeat(t, q);
    }
  }

  lemma {:induction false} PathFollowsWalk(t: Trace, q: seq<string>, i: nat, w: seq<string>, k: nat)
    requires DownPath(t, q) && i < |q| && w != [] && Walk(t, w) && w[0] == q[i] && |w| <= i + 1 && k < |w|
    ensures w[k] == q[i - k]
    decreases k
  {
    if k > 0 {
      PathFollowsWalk(t, q, i, w, k - 1);
      assert t[w[k - 1]].parent == w[k] && t[q[i - k + 1]].parent == q[i - k];
    }
  }

  // Children.

  ghost predicate ChildrenOf(t: Trace, children: map<string, seq<string>>) {
    && children.Keys == t.Keys
    && forall p :: p in t ==> forall c :: c in children[p] <==> c in t && t[c].parent == p
  }

  method Children(t: Trace) returns (children: map<string, seq<string>>)
    requires "" !in t
    ensures ChildrenOf(t, children)
  {
    children := map id | id in t :: [];
    var todo := t.Keys;
    while todo != {}
      invariant todo <= t.Keys && children.Keys == t.Keys
      invariant forall p :: p in t ==> forall c :: c in children[p] <==> c in t && c !in todo && t[c].parent == p
    {
      var id :| id in todo;
      todo := todo - {id};
      var pid := t[id].parent;
      if pid == "" || pid !in t {
        continue;
      }
      children := children[pid := children[pid] + [id]];
    }
  }

  // The walk.

  /** A path from id to a leaf that repeats nothing and avoids the spans being visited. */
  predicate OpenPath(t: Trace, id: string, visiting: set<string>, q: seq<string>) {
    DownPath(t, q) && q[0] == id && NoDuplicates(q) && (forall i :: 0 <= i < |q| ==> q[i] !in visiting) && Leaf(t, q[|q| - 1])
  }

  ghost predicate Reaches(t: Trace, id: string, services: seq<string>, visiting: set<string>, key: seq<string>) {
    key != [] && exists q :: OpenPath(t, id, visiting, q) && Collapse(t, services, q) == key
  }

  lemma LeafReaches(t: Trace, id: string, services: seq<string>, visiting: set<string>)
    requires id in t && id !in visiting && Leaf(t, id)
    ensures forall key :: Reaches(t, id, services, visiting, key) <==> key != [] && key == Step(services, t[id].service)
  {
    var name := t[id].service;
    assert OpenPath(t, id, visiting, [id]) && Collapse(t, services, [id]) == Collapse(t, Step(services, name), []);
    forall q | OpenPath(t, id, visiting, q)
      ensures q == [id]
    {
      OnlyLastIsLeaf(t, q);
    }
  }

  lemma ReachesDown(t: Trace, id: string, services: seq<string>, visiting: set<string>, kids: seq<string>, key: seq<string>)
    requires id in t && kids != [] && forall c :: c in kids <==> c in t && t[c].parent == id
    requires Reaches(t, id, services, visiting, key)
    ensures exists c :: c in kids && Reaches(t, c, Step(services, t[id].service), visiting + {id}, key)
  {
    var q :| OpenPath(t, id, visiting, q) && Collapse(t, services, q) == key;
    assert kids[0] in kids;
    assert !Leaf(t, id);
    assert t[q[1]].parent == q[0];
    assert OpenPath(t, q[1], visiting + {id}, q[1..]);
    assert q[1] in kids && Reaches(t, q[1], Step(services, t[id].service), visiting + {id}, key);
  }

  lemma ReachesUp(t: Trace, id: string, services: seq<string>, visiting: set<string>, c: string, key: seq<string>)
    requires id in t && id !in visiting && c in t && t[c].parent == id
    requires Reaches(t, c, Step(services, t[id].service), visiting + {id}, key)
    ensures Reaches(t, id, services, visiting, key)
  {
    var q :| OpenPath(t, c, visiting + {id}, q) && Collapse(t, Step(services, t[id].service), q) == key;
    var p := [id] + q;
    assert p[1..] == q;
    assert OpenPath(t, id, visiting, p);
  }

  lemma InnerReaches(t: Trace, id: string, services: seq<string>, visiting: set<string>, kids: seq<string>, key: seq<string>)
    requires id in t && id !in visiting && kids != [] && forall c :: c in kids <==> c in t && t[c].parent == id
    ensures Reaches(t, id, services, visiting, key) <==>
              exists c :: c in kids && Reaches(t, c, Step(services, t[id].service), visiting + {id}, key)
  {
    if Reaches(t, id, services, visiting, key) {
      ReachesDown(t, id, services, visiting, kids, key);
    }
    if c :| c in kids && Reaches(t, c, Step(services, t[id].service), visiting + {id}, key) {
      ReachesUp(t, id, services, visiting, c, key);
    }
  }

  // The guard against cycles.

  /** Some path down from id comes back to a span being visited or to itself. */
  ghost predicate Blocked(t: Trace, id: string, visiting: set<string>) {
    exists q :: DownPath(t, q) && q[0] == id && (q[|q| - 1] in visiting || !NoDuplicates(q))
  }

  lemma VisitingBlocks(t: Trace, id: string, visiting: set<string>)
    requires id in t && id in visiting
    ensures Blocked(t, id, visiting)
  {
    assert DownPath(t, [id]);
  }

  lemma BlockedUp(t: Trace, id: string, visiting: set<string>, c: string)
    requires id in t && c in t && t[c].parent == id && Blocked(t, c, visiting + {id})
    ensures Blocked(t, id, visiting)
  {
    var q :| DownPath(t, q) && q[0] == c && (q[|q| - 1] in visiting + {id} || !NoDuplicates(q));
    var p := [id] + q;
    assert p[1..] == q;
    assert DownPath(t, p);
    if q[|q| - 1] == id {
      assert p[0] == p[|q|];
    } else if !NoDuplicates(q) {
      var i, k :| 0 <= i < k < |q| && q[i] == q[k];
      assert p[i + 1] == p[k + 1];
    }
  }

  lemma BlockedDown(t: Trace, id: string, visiting: set<string>) returns (c: string)
    requires id in t && id !in visiting && Blocked(t, id, visiting)
    ensures c in t && t[c].parent == id && Blocked(t, c, visiting + {id})
  {
    var q :| DownPath(t, q) && q[0] == id && (q[|q| - 1] in visiting || !NoDuplicates(q));
    c := q[1];
    if NoDuplicates(q) {
      assert DownPath(t, q[1..]);
    } else {
      var i, k :| 0 <= i < k < |q| && q[i] == q[k];
      if i == 0 {
        assert DownPath(t, q[1..k + 1]);
      } else {
        var r := q[1..];
        assert DownPath(t, r) && r[i - 1] == r[k - 1];
      }
    }
  }

  lemma InnerBlocked(t: Trace, id: string, visiting: set<string>, kids: seq<string>)
    requires id in t && id !in visiting && forall c :: c in kids <==> c in t && t[c].parent == id
    ensures Blocked(t, id, visiting) <==> exists c :: c in kids && Blocked(t, c, visiting + {id})
  {
    if Blocked(t, id, visiting) {
      var c := BlockedDown(t, id, visiting);
      assert c in kids;
    }
    if c :| c in kids && Blocked(t, c, visiting + {id}) {
      BlockedUp(t, id, visiting, c);
    }
  }

  lemma RootsUnblocked(t: Trace, id: string)
    requires "" !in t && Root(t, id)
    ensures !Blocked(t, id, {})
  {
    forall q | DownPath(t, q) && q[0] == id
      ensures NoDuplicates(q)
    {
      RootPathsNeverRepeat(t, q);
    }
  }

  lemma ChildlessIsLeaf(t: Trace, id: string, services: seq<string>, visiting: set<string>)
    requires id in t && id !in visiting && forall c :: c in t ==> t[c].parent != id
    ensures forall key :: Reaches(t, id, services, visiting, key) <==> key != [] && key == Step(services, t[id].service)
    ensures !Blocked(t, id, visiting)
  {
    LeafReaches(t, id, services, visiting);
    InnerBlocked(t, id, visiting, []);
  }

  ghost predicate AnyReaches(t: Trace, kids: seq<string>, services: seq<string>, visiting: set<string>, key: seq<string>) {
    exists c :: c in kids && Reaches(t, c, services, visiting, key)
  }

  ghost predicate AnyBlocked(t: Trace, kids: seq<string>, visiting: set<string>) {
    exists c :: c in kids && Blocked(t, c, visiting)
  }

  lemma OneMoreChild(t: Trace, kids: seq<string>, i: nat, services: seq<string>, visiting: set<string>)
    requires i < |kids|
    ensures forall key :: AnyReaches(t, kids[..i + 1], services, visiting, key) <==>
              AnyReaches(t, kids[..i], services, visiting, key) || Reaches(t, kids[i], services, visiting, key)
    ensures AnyBlocked(t, kids[..i + 1], visiting) <==> AnyBlocked(t, kids[..i], visiting) || Blocked(t, kids[i], visiting)
  {
    assert kids[..i + 1] == kids[..i] + [kids[i]];
  }

  lemma AllChildren(t: Trace, id: string, services: seq<string>, visiting: set<string>, kids: seq<string>)
    requires id in t && id !in visiting && kids != [] && forall c :: c in kids <==> c in t && t[c].parent == id
    ensures forall key :: Reaches(t, id, services, visiting, key) <==>
              AnyReaches(t, kids[..|kids|], Step(services, t[id].service), visiting + {id}, key)
    ensures Blocked(t, id, visiting) <==> AnyBlocked(t, kids[..|kids|], visiting + {id})
  {
    assert kids[..|kids|] == kids;
    forall key
      ensures Reaches(t, id, services, visiting, key) <==> AnyReaches(t, kids, Step(services, t[id].service), visiting + {id}, key)
    {
      InnerReaches(t, id, services, visiting, kids, key);
    }
    InnerBlocked(t, id, visiting, kids);
  }

  /** Records the services of every path from id to a leaf that avoids the spans being visited; the
      guard fires exactly when some path from id comes back on itself or on those spans. */
  method WalkPaths(t: Trace, children: map<string, seq<string>>, traceId: string, id: string, services: seq<string>,
                   visiting: set<string>, rec0: Recorded) returns (rec: Recorded, ghost fired: bool)
    requires "" !in t && ChildrenOf(t, children)
    ensures forall key, tr :: Shows(rec, key, tr) <==>
              (Shows(rec0, key, tr) || (tr == traceId && id in t && Reaches(t, id, services, visiting, key)))
    ensures fired <==> id in t && Blocked(t, id, visiting)
    decreases t.Keys - visiting
  {
    rec, fired := rec0, false;
    if id !in t {
      return;
    }
    if id in visiting {
      assert forall q :: !OpenPath(t, id, visiting, q);
      VisitingBlocks(t, id, visiting);
      fired := true;
      return;
    }
    var next := services;
    var name := t[id].service;
    if name != "" {
      if |next| == 0 || next[|next| - 1] != name {
        next := services + [name];
      }
    }
    var kids := children[id];
    if |kids| == 0 {
      assert forall c :: c in t && t[c].parent == id ==> c in kids;
      ChildlessIsLeaf(t, id, services, visiting);
      if |next| != 0 {
        rec := rec[next := (if next in rec then rec[next] else {}) + {traceId}];
      }
      return;
    }
    for i := 0 to |kids|
      invariant forall key, tr :: Shows(rec, key, tr) <==>
                  (Shows(rec0, key, tr) || (tr == traceId && AnyReaches(t, kids[..i], next, visiting + {id}, key)))
      invariant fired <==> AnyBlocked(t, kids[..i], visiting + {id})
    {
      assert kids[i] in t;
      OneMoreChild(t, kids, i, next, visiting + {id});
      ghost var below;
      rec, below := WalkPaths(t, children, traceId, kids[i], next, visiting + {id}, rec);
      fired := fired || below;
    }
    AllChildren(t, id, services, visiting, kids);
  }

  ghost predicate OnFullPath(t: Trace, key: seq<string>) {
    key != [] && exists q :: FullPath(t, q) && Collapse(t, [], q) == key
  }

  /** From all roots together: exactly the collapsed service sequences of root-to-leaf paths, and the
      guard against cycles never fires. */
  method TraceServicePaths(t: Trace, traceId: string, rec0: Recorded) returns (rec: Recorded, ghost fired: bool)
    requires "" !in t
    ensures !fired
    ensures forall key, tr :: Shows(rec, key, tr) <==> (Shows(rec0, key, tr) || (tr == traceId && OnFullPath(t, key)))
  {
    var children := Children(t);
    rec, fired := rec0, false;
    var todo := t.Keys;
    while todo != {}
      invariant todo <= t.Keys && !fired
      invariant forall key, tr :: Shows(rec, key, tr) <==>
                  (Shows(rec0, key, tr) || (tr == traceId && exists id :: id in t && id !in todo && Root(t, id) && Reaches(t, id, [], {}, key)))
    {
      var id :| id in todo;
      todo := todo - {id};
      var pid := t[id].parent;
      if pid != "" && pid in t {
        continue;
      }
      RootsUnblocked(t, id);
      ghost var below;
      rec, below := WalkPaths(t, children, traceId, id, [], {}, rec);
      fired := fired || below;
    }
    forall key
      ensures OnFullPath(t, key) <==> exists id :: id in t && Root(t, id) && Reaches(t, id, [], {}, key)
    {
      RootsReach(t, key);
    }
  }

  lemma RootsReach(t: Trace, key: seq<string>)
    requires "" !in t
    ensures OnFullPath(t, key) <==> exists id :: id in t && Root(t, id) && Reaches(t, id, [], {}, key)
  {
    if OnFullPath(t, key) {
      var q :| FullPath(t, q) && Collapse(t, [], q) == key;
      RootPathsNeverRepeat(t, q);
      assert OpenPath(t, q[0], {}, q);
      assert Reaches(t, q[0], [], {}, key);
    }
  }
}
