/** Which plans can be run to the end (internal/jobs/enqueue.go, internal/plan/plan.go): a plan makes
    progress from every reachable state exactly when its dependencies are closed and acyclic. */
module Progress {
  import opened EvidenceTypes
  import opened JobTypes
  import opened Scheduling
  import opened JobInvariants

  function Upto(n: nat): (s: set<nat>)
    ensures forall i :: i in s <==> 0 <= i < n
    ensures |s| == n
  {
    if n == 0 then {} else Upto(n - 1) + {n - 1}
  }

  function StepIds(plan: seq<PlanStep>): seq<string> {
    seq(|plan|, i requires 0 <= i < |plan| => plan[i].id)
  }

  /** The tasks of a job are the steps of its plan. */
  predicate FollowsPlan(j: Job) {
    && |j.tasks| == |j.plan|
    && forall i :: 0 <= i < |j.plan| ==>
         && j.tasks[i].planId == j.plan[i].id
         && j.tasks[i].operator == j.plan[i].operator
         && j.tasks[i].dependsOn == j.plan[i].dependsOn
  }

  predicate Awaits(plan: seq<PlanStep>, c: nat, C: set<nat>)
    requires c < |plan|
  {
    exists d :: d in plan[c].dependsOn && (var k := Provider(StepIds(plan), d); k < 0 || k in C)
  }

  /** Executable steps each of which waits for a step that does not exist or for another of them. */
  ghost predicate Stuck(plan: seq<PlanStep>, C: set<nat>) {
    forall c :: c in C ==> c < |plan| && !plan[c].operator && Awaits(plan, c, C)
  }

  predicate Waits(s: TaskState, canceled: bool) {
    s.Pending? || s.Failed? || (canceled && s.Skipped?)
  }

  ghost predicate Unstarted(j: Job, C: set<nat>) {
    forall c :: c in C ==> c < |j.tasks| && Waits(j.tasks[c].state, j.canceled)
  }

  ghost predicate StuckNeverStart(j: Job) {
    forall C :: Stuck(j.plan, C) ==> Unstarted(j, C)
  }

  lemma StuckKept(j: Job, j': Job)
    requires FollowsPlan(j) && StuckNeverStart(j) && Evolves(j, j')
    ensures FollowsPlan(j') && StuckNeverStart(j')
  {
    assert forall i :: 0 <= i < |j.tasks| ==> TaskMoves(j.tasks[i], j'.tasks[i], j'.canceled);
    forall C | Stuck(j'.plan, C)
      ensures Unstarted(j', C)
    {
      forall c | c in C
        ensures c < |j'.tasks| && Waits(j'.tasks[c].state, j'.canceled)
      {
        StuckMemberKept(j, j', C, c);
      }
    }
  }

  lemma StuckMemberKept(j: Job, j': Job, C: set<nat>, c: nat)
    requires FollowsPlan(j) && Evolves(j, j') && Stuck(j.plan, C) && Unstarted(j, C) && c in C
    ensures c < |j'.tasks| && Waits(j'.tasks[c].state, j'.canceled)
  {
    assert TaskMoves(j.tasks[c], j'.tasks[c], j'.canceled);
    if j.tasks[c].state.Pending? && !j'.canceled {
      assert PlanIds(j'.tasks) == StepIds(j.plan);
      var d :| d in j.plan[c].dependsOn && (var k := Provider(StepIds(j.plan), d); k < 0 || k in C);
      var k := Provider(StepIds(j.plan), d);
      if k >= 0 {
        assert TaskMoves(j.tasks[k], j'.tasks[k], j'.canceled);
      }
      assert !Satisfied(j'.tasks, d);
    }
  }

  lemma PendingWaitsForPending(ts: seq<Task>, c: nat) returns (d: string)
    requires Settled(ts) == ts && StatusOf(ts).StatusPending?
    requires c < |ts| && ts[c].state.Pending?
    ensures !ts[c].operator && d in ts[c].dependsOn
    ensures var k := Provider(PlanIds(ts), d); k < 0 || ts[k].state.Pending?
  {
    assert SettledTask(ts, ts[c]) == Settled(ts)[c];
    d :| d in ts[c].dependsOn && !(var k := Provider(PlanIds(ts), d); k >= 0 && Settling(ts[k]));
    var k := Provider(PlanIds(ts), d);
    if k >= 0 {
      assert Has(ts, ts[k].state);
    }
  }

  function PendingSet(ts: seq<Task>): set<nat> {
    set i | i in Upto(|ts|) && ts[i].state.Pending?
  }

  lemma PendingAwaits(j: Job, c: nat, C: set<nat>)
    requires Settled(j.tasks) == j.tasks && StatusOf(j.tasks).StatusPending? && FollowsPlan(j)
    requires C == PendingSet(j.tasks) && c in C
    ensures !j.plan[c].operator && Awaits(j.plan, c, C)
  {
    assert PlanIds(j.tasks) == StepIds(j.plan);
    var d := PendingWaitsForPending(j.tasks, c);
    var k := Provider(StepIds(j.plan), d);
    assert k < 0 || k in C;
  }

  /** A job that is waiting with nothing ready or leased is waiting on a stuck set. */
  lemma DeadlockIsStuck(j: Job)
    requires Settled(j.tasks) == j.tasks && StatusOf(j.tasks).StatusPending? && FollowsPlan(j)
    ensures PendingSet(j.tasks) != {} && Stuck(j.plan, PendingSet(j.tasks))
  {
    var C := PendingSet(j.tasks);
    forall c | c in C
      ensures !j.plan[c].operator && Awaits(j.plan, c, C)
    {
      PendingAwaits(j, c, C);
    }
    SomePending(j.tasks);
  }

  lemma SomePending(ts: seq<Task>)
    requires StatusOf(ts).StatusPending?
    ensures PendingSet(ts) != {}
  {
    var w :| 0 <= w < |ts| && ts[w].state == Pending;
    assert w in PendingSet(ts);
  }

  /** A job whose plan has a stuck step is never complete. */
  lemma StuckNeverCompletes(policy: Policy, j: Job, C: set<nat>, c: nat)
    requires JobOK(policy, j) && FollowsPlan(j) && StuckNeverStart(j)
    requires Stuck(j.plan, C) && c in C
    ensures !j.status.StatusComplete?
    ensures !j.tasks[c].state.Leased? && !j.tasks[c].state.Ready? && !j.tasks[c].state.Succeeded?
  {
    assert Unstarted(j, C);
    if !j.canceled {
      assert Has(j.tasks, j.tasks[c].state);
    }
  }

  // Closed and acyclic dependencies.

  /** A topological order: every dependency of an executable step is a step of lower rank. */
  ghost predicate RankedBy(plan: seq<PlanStep>, rank: seq<nat>) {
    && |rank| == |plan|
    && forall i, d :: 0 <= i < |plan| && !plan[i].operator && d in plan[i].dependsOn ==>
         var k := Provider(StepIds(plan), d); k >= 0 && (plan[k].operator || rank[k] < rank[i])
  }

  lemma {:induction false} RankedHasNoStuck(plan: seq<PlanStep>, rank: seq<nat>, C: set<nat>, c: nat)
    requires RankedBy(plan, rank) && Stuck(plan, C) && c in C
    ensures false
    decreases if c < |rank| then rank[c] else 0
  {
    var d :| d in plan[c].dependsOn && (var k := Provider(StepIds(plan), d); k < 0 || k in C);
    RankedHasNoStuck(plan, rank, C, Provider(StepIds(plan), d));
  }

  /** The steps that can have run after n rounds. */
  ghost function Layer(plan: seq<PlanStep>, n: nat): (L: set<nat>)
    ensures forall i :: i in L ==> i < |plan|
  {
    if n == 0 then set i | i in Upto(|plan|) && plan[i].operator
    else
      var L := Layer(plan, n - 1);
      set i | i in Upto(|plan|) && Fed(plan, i, L)
  }

  ghost predicate Fed(plan: seq<PlanStep>, i: nat, L: set<nat>)
    requires i < |plan|
  {
    plan[i].operator || i in L || forall d :: d in plan[i].dependsOn ==> Provider(StepIds(plan), d) in L
  }

  lemma LayersGrow(plan: seq<PlanStep>, m: nat, n: nat)
    requires m <= n
    ensures Layer(plan, m) <= Layer(plan, n)
    decreases n
  {
    if m < n {
      LayersGrow(plan, m, n - 1);
    }
  }

  /** A layer that feeds no further step is the whole plan. */
  lemma FixedLayerIsAll(plan: seq<PlanStep>, L: set<nat>)
    requires NothingStuck(plan)
    requires forall c :: c in Upto(|plan|) && c !in L ==> !Fed(plan, c, L)
    ensures Upto(|plan|) <= L
  {
    var C := Upto(|plan|) - L;
    forall c | c in C
      ensures !plan[c].operator && Awaits(plan, c, C)
    {
      assert !Fed(plan, c, L);
      var d :| d in plan[c].dependsOn && Provider(StepIds(plan), d) !in L;
    }
    assert Stuck(plan, C);
  }

  lemma NothingFed(plan: seq<PlanStep>, n: nat)
    requires n > 0 && Layer(plan, n) == Layer(plan, n - 1)
    ensures forall c :: c in Upto(|plan|) && c !in Layer(plan, n - 1) ==> !Fed(plan, c, Layer(plan, n - 1))
  {
    forall c | c in Upto(|plan|) && c !in Layer(plan, n - 1)
      ensures !Fed(plan, c, Layer(plan, n - 1))
    {
      assert c !in Layer(plan, n);
    }
  }

  lemma UptoHolds(L: set<nat>, n: nat)
    requires Upto(n) <= L && forall i :: i in L ==> i < n
    ensures L == Upto(n)
  {
    forall i | i in L
      ensures i in Upto(n)
    {
    }
  }

  ghost predicate NothingStuck(plan: seq<PlanStep>) {
    forall C :: Stuck(plan, C) ==> C == {}
  }

  lemma LayerStops(plan: seq<PlanStep>, n: nat)
    requires NothingStuck(plan) && Layer(plan, n + 1) == Layer(plan, n)
    ensures Layer(plan, n) == Upto(|plan|)
  {
    NothingFed(plan, n + 1);
    FixedLayerIsAll(plan, Layer(plan, n));
    UptoHolds(Layer(plan, n), |plan|);
  }

  /** A layer is followed by a larger one unless it is everything. */
  lemma LayerStep(plan: seq<PlanStep>, n: nat)
    requires NothingStuck(plan)
    ensures Layer(plan, n + 1) == Upto(|plan|) || |Layer(plan, n)| < |Layer(plan, n + 1)|
  {
    if Layer(plan, n + 1) == Layer(plan, n) {
      LayerStops(plan, n);
    } else {
      LayersGrow(plan, n, n + 1);
      CardinalityGrows(Layer(plan, n), Layer(plan, n + 1));
    }
  }

  lemma {:induction false} LayersFill(plan: seq<PlanStep>, n: nat)
    requires NothingStuck(plan)
    ensures |Layer(plan, n)| >= n || |Layer(plan, n)| >= |plan|
  {
    if n > 0 {
      LayersFill(plan, n - 1);
      LayerStep(plan, n - 1);
    }
  }

  lemma LayerFull(plan: seq<PlanStep>)
    requires NothingStuck(plan)
    ensures Layer(plan, |plan| + 1) == Upto(|plan|)
  {
    LayersFill(plan, |plan| + 1);
    UptoIs(Layer(plan, |plan| + 1), |plan|);
  }

  lemma UptoIs(L: set<nat>, n: nat)
    requires |L| >= n && forall i :: i in L ==> i < n
    ensures L == Upto(n)
  {
    assert L <= Upto(n);
    if L != Upto(n) {
      CardinalityGrows(L, Upto(n));
    }
  }

  lemma CardinalityGrows(a: set<nat>, b: set<nat>)
    requires a <= b && a != b
    ensures |a| < |b|
  {
    assert b == a + (b - a);
    assert b - a != {};
  }

  ghost function FirstLayer(plan: seq<PlanStep>, i: nat, n: nat): (r: nat)
    requires i in Layer(plan, n)
    ensures i in Layer(plan, r) && forall m :: 0 <= m < r ==> i !in Layer(plan, m)
    decreases n
  {
    if n == 0 then 0
    else if i in Layer(plan, n - 1) then FirstLayer(plan, i, n - 1)
    else
      (forall m: nat | m < n ensures i !in Layer(plan, m) { LayersGrow(plan, m, n - 1); }
       n)
  }

  /** Closed, acyclic plans are exactly the plans without a stuck set. */
  lemma AcyclicIffNothingStuck(plan: seq<PlanStep>)
    ensures (exists rank :: RankedBy(plan, rank)) <==> (forall C :: Stuck(plan, C) ==> C == {})
  {
    if rank :| RankedBy(plan, rank) {
      forall C | Stuck(plan, C)
        ensures C == {}
      {
        if C != {} {
          var c :| c in C;
          RankedHasNoStuck(plan, rank, C, c);
        }
      }
    }
    if forall C :: Stuck(plan, C) ==> C == {} {
      var rank := RankFromLayers(plan);
    }
  }

  lemma DependencyRanked(plan: seq<PlanStep>, i: nat, d: string, n: nat)
    requires i < |plan| && !plan[i].operator && d in plan[i].dependsOn && Layer(plan, n) == Upto(|plan|)
    ensures var k := Provider(StepIds(plan), d);
            0 <= k < |plan| && FirstLayer(plan, k, n) < FirstLayer(plan, i, n)
  {
    DependencyEarlier(plan, i, d, FirstLayer(plan, i, n));
  }

  lemma RankFromLayers(plan: seq<PlanStep>) returns (rank: seq<nat>)
    requires NothingStuck(plan)
    ensures RankedBy(plan, rank)
  {
    var n := |plan| + 1;
    LayerFull(plan);
    rank := seq(|plan|, i requires 0 <= i < |plan| => FirstLayer(plan, i, n));
    forall i, d | 0 <= i < |plan| && !plan[i].operator && d in plan[i].dependsOn
      ensures var k := Provider(StepIds(plan), d); k >= 0 && (plan[k].operator || rank[k] < rank[i])
    {
      DependencyRanked(plan, i, d, n);
    }
  }

  lemma DependencyEarlier(plan: seq<PlanStep>, i: nat, d: string, r: nat)
    requires i < |plan| && !plan[i].operator && d in plan[i].dependsOn
    requires i in Layer(plan, r) && forall m :: 0 <= m < r ==> i !in Layer(plan, m)
    ensures r > 0 && Provider(StepIds(plan), d) in Layer(plan, r - 1)
  {
    assert r > 0 ==> i !in Layer(plan, r - 1);
  }

  /** In every state of a job on a closed, acyclic plan that is not finished, some task can be
      leased or already is. */
  lemma NoDeadlock(policy: Policy, j: Job, rank: seq<nat>)
    requires JobOK(policy, j) && FollowsPlan(j) && RankedBy(j.plan, rank)
    requires !j.status.StatusComplete? && !j.status.StatusFailed? && !j.status.StatusCanceled?
    ensures Has(j.tasks, Ready) || Has(j.tasks, Leased)
  {
    if j.status.StatusPending? {
      DeadlockIsStuck(j);
      AcyclicIffNothingStuck(j.plan);
    }
  }

  predicate DependsDirectly(plan: seq<PlanStep>, a: nat, b: nat) {
    a < |plan| && b < |plan| && plan[b].id in plan[a].dependsOn && Provider(StepIds(plan), plan[b].id) == b
  }

  function NextOn(cycle: seq<nat>, i: nat): nat
    requires i < |cycle|
  {
    if i + 1 < |cycle| then cycle[i + 1] else cycle[0]
  }

  /** The steps of a dependency cycle are stuck. */
  lemma CycleIsStuck(plan: seq<PlanStep>, cycle: seq<nat>)
    requires forall i :: 0 <= i < |cycle| ==> cycle[i] < |plan| && !plan[cycle[i]].operator
    requires forall i :: 0 <= i < |cycle| ==> DependsDirectly(plan, cycle[i], NextOn(cycle, i))
    ensures Stuck(plan, set i | 0 <= i < |cycle| :: cycle[i])
  {
    var C := set i | 0 <= i < |cycle| :: cycle[i];
    forall c | c in C
      ensures Awaits(plan, c, C)
    {
      var i :| 0 <= i < |cycle| && c == cycle[i];
      var next := NextOn(cycle, i);
      assert DependsDirectly(plan, c, next);
      assert next in C;
    }
  }
}
