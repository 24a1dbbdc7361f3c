/** Every job that can still complete can be brought to completion by leases and commits. */
module Completion {
  import opened Base
  import opened JobTypes
  import opened Scheduling
  import opened JobOps
  import opened JobInvariants
  import opened Progress
  import opened Totals
  import opened Admission
  import opened StoreModel
  import opened RowInvariants
  import opened StoreInvariants
  import opened TaskIds
  import opened Text
  import opened Runs
  import opened PlanFromImpact

  // How much is left to do.

  function OpenUnit(): Task -> nat {
    (t: Task) => if Open(t.state) then 1 else 0
  }

  function OpenLoad(): Job -> nat {
    (j: Job) => Total(j.tasks, OpenUnit())
  }

  /** The tasks of the store that are pending, ready or leased. */
  function OpenTasks(w: World): nat {
    Total(Jobs(w), OpenLoad())
  }

  predicate IdleRow(r: Row) {
    forall k :: 0 <= k < |r.job.tasks| ==> !r.job.tasks[k].state.Leased?
  }

  /** Nothing is leased. */
  predicate Idle(w: World) {
    forall i :: 0 <= i < |w.rows| ==> IdleRow(w.rows[i])
  }

  lemma EvolvesOpensNothing(j: Job, j': Job)
    requires Evolves(j, j')
    ensures OpenLoad()(j') <= OpenLoad()(j)
    ensures forall k :: 0 <= k < |j.tasks| && Open(j.tasks[k].state) && !Open(j'.tasks[k].state) ==> OpenLoad()(j') < OpenLoad()(j)
  {
    var f := OpenUnit();
    forall i | 0 <= i < |j.tasks|
      ensures f(j'.tasks[i]) <= f(j.tasks[i])
    {
      assert TaskMoves(j.tasks[i], j'.tasks[i], j'.canceled);
    }
    TotalMono(j'.tasks, j.tasks, f);
    forall k | 0 <= k < |j.tasks| && Open(j.tasks[k].state) && !Open(j'.tasks[k].state)
      ensures OpenLoad()(j') < OpenLoad()(j)
    {
      TotalFalls(j'.tasks, j.tasks, f, k);
    }
  }

  // Jobs that can still complete.

  /** Neither failed nor canceled. */
  predicate Going(j: Job) {
    !j.status.StatusFailed? && !j.status.StatusCanceled?
  }

  predicate BeforeDeadline(j: Job, now: int) {
    EffectiveDeadline(j).Some? ==> now <= EffectiveDeadline(j).value
  }

  lemma GoingHasNoFailure(policy: Policy, j: Job)
    requires JobOK(policy, j) && Going(j)
    ensures !j.canceled && !Has(j.tasks, Failed)
  {
  }

  lemma CommitKeepsGoing(policy: Policy, j: Job, ti: nat)
    requires JobOK(policy, j) && Going(j) && ti < |j.tasks|
    ensures Going(Committed(policy, j, ti, EMPTY_RESULT, ""))
  {
    GoingHasNoFailure(policy, j);
    var ts := j.tasks[ti := CommittedTask(j.tasks[ti], EMPTY_RESULT, "")];
    assert forall i :: 0 <= i < |ts| ==> !ts[i].state.Failed?;
    var settled := Settled(ts);
    forall i | 0 <= i < |settled|
      ensures !settled[i].state.Failed?
    {
      assert settled[i] == SettledTask(ts, ts[i]);
    }
  }

  // Committing what is leased.

  function CommitOf(t: Task): Event {
    CommitEvent(t.id, t.attempt, EMPTY_RESULT, "")
  }

  lemma LocateIs(cfg: Config, w: World, a: nat, b: nat)
    requires RowsOK(cfg.policy, w) && DistinctPrefixes(w) && TaskAt(w, a, b)
    ensures Locate(w, TaskOf(w, a, b).id) == Some((a, b))
  {
    var tid := TaskOf(w, a, b).id;
    assert IsAt(w, tid, a, b);
    var (x, y) := Locate(w, tid).value;
    TaskIdUnique(cfg, w, tid, a, b, x, y);
  }

  lemma CommitStepIs(cfg: Config, w: World, a: nat, b: nat)
    requires Shape(w) && TaskAt(w, a, b) && TaskOf(w, a, b).state.Leased? && Locate(w, TaskOf(w, a, b).id) == Some((a, b))
    ensures Step(cfg, w, CommitOf(TaskOf(w, a, b))) ==
            w.(rows := w.rows[a := CommitRow(cfg.policy, w.rows[a], b, TaskOf(w, a, b).attempt, EMPTY_RESULT, "")])
  {
  }

  lemma JobsUpdated(w: World, a: nat, r: Row, issued: set<Id>)
    requires a < |w.rows|
    ensures Jobs(w.(rows := w.rows[a := r], issued := issued)) == Jobs(w)[a := r.job]
  {
  }

  lemma CommitServes(cfg: Config, w: World, a: nat, b: nat, ji: nat)
    requires Shape(w) && WorldOK(cfg, w) && TaskAt(w, a, b) && TaskOf(w, a, b).state.Leased?
    requires ji < |w.rows| && Going(w.rows[ji].job)
    ensures var w' := Step(cfg, w, CommitOf(TaskOf(w, a, b)));
            OpenTasks(w') < OpenTasks(w) && |w'.rows| == |w.rows| && Going(w'.rows[ji].job)
  {
    LocateIs(cfg, w, a, b);
    CommitStepIs(cfg, w, a, b);
    var j := w.rows[a].job;
    var j' := Committed(cfg.policy, j, b, EMPTY_RESULT, "");
    CommitKeeps(cfg.policy, j, b, EMPTY_RESULT, "");
    CommittedTaskAt(cfg.policy, j, b, EMPTY_RESULT, "", b);
    EvolvesOpensNothing(j, j');
    JobsUpdated(w, a, CommitRow(cfg.policy, w.rows[a], b, TaskOf(w, a, b).attempt, EMPTY_RESULT, ""), w.issued);
    TotalUpdate(Jobs(w), a, j', OpenLoad());
    if a == ji {
      CommitKeepsGoing(cfg.policy, j, b);
    }
  }

  // Leasing when nothing is leased.

  function LeaseOf(j: Job, attempt: Id, now: int): Event {
    LeaseEvent(Worker("w", 1, OnlyJob(j.id)), attempt, now)
  }

  lemma {:induction false} NoneLeased(ts: seq<Task>, worker: string)
    requires forall k :: 0 <= k < |ts| ==> !ts[k].state.Leased?
    ensures Total(ts, LeasedUnit()) == 0 && Total(ts, WorkerUnit(worker)) == 0
  {
    if ts != [] {
      NoneLeased(ts[..|ts| - 1], worker);
    }
  }

  lemma {:induction false} IdleLoads(js: seq<Job>, service: string, worker: string)
    requires forall i, k :: 0 <= i < |js| && 0 <= k < |js[i].tasks| ==> !js[i].tasks[k].state.Leased?
    ensures ServiceLeases(js, service) == 0 && WorkerLeases(js, worker) == 0
  {
    if js != [] {
      IdleLoads(js[..|js| - 1], service, worker);
      NoneLeased(js[|js| - 1].tasks, worker);
    }
  }

  lemma EarlyUnswept(policy: Policy, r: Row, now: int)
    requires RowShape(r) && IdleRow(r) && BeforeDeadline(r.job, now)
    ensures SweepRow(policy, r, now) == r
  {
    assert Swept(policy, r.job, now) == r.job;
    forall i | 0 <= i < |r.trail|
      ensures SweepRow(policy, r, now).trail[i] == r.trail[i]
    {
      assert SweepEntry(r.job.tasks[i], r.job.tasks[i]) == [];
      assert r.trail[i] + [] == r.trail[i];
    }
  }

  lemma StaysIdle(policy: Policy, r: Row, now: int)
    requires RowShape(r) && IdleRow(r)
    ensures IdleRow(SweepRow(policy, r, now))
  {
    forall k | 0 <= k < |r.job.tasks|
      ensures !SweepRow(policy, r, now).job.tasks[k].state.Leased?
    {
      SweptTask(policy, r.job, now, k);
    }
  }

  lemma SweepOpensNothing(policy: Policy, r: Row, now: int)
    requires RowOK(policy, r)
    ensures OpenLoad()(SweepRow(policy, r, now).job) <= OpenLoad()(r.job)
  {
    SweepRowKeeps(policy, r, now);
    EvolvesOpensNothing(r.job, SweepRow(policy, r, now).job);
  }

  lemma IdleSweep(cfg: Config, w: World, now: int)
    requires Shape(w) && WorldOK(cfg, w) && Idle(w)
    ensures var w' := SweepWorld(cfg, w, now);
            Idle(w') && OpenTasks(w') <= OpenTasks(w) && forall i :: 0 <= i < |w.rows| && BeforeDeadline(w.rows[i].job, now) ==> w'.rows[i] == w.rows[i]
  {
    var w' := SweepWorld(cfg, w, now);
    forall i | 0 <= i < |w.rows|
      ensures IdleRow(w'.rows[i]) && OpenLoad()(Jobs(w')[i]) <= OpenLoad()(Jobs(w)[i])
      ensures BeforeDeadline(w.rows[i].job, now) ==> w'.rows[i] == w.rows[i]
    {
      StaysIdle(cfg.policy, w.rows[i], now);
      SweepOpensNothing(cfg.policy, w.rows[i], now);
      if BeforeDeadline(w.rows[i].job, now) {
        EarlyUnswept(cfg.policy, w.rows[i], now);
      }
    }
    TotalMono(Jobs(w'), Jobs(w), OpenLoad());
  }

  lemma FirstReady(ts: seq<Task>) returns (ti: nat)
    requires Has(ts, Ready)
    ensures ti < |ts| && ts[ti].state.Ready? && forall k :: 0 <= k < ti ==> !ts[k].state.Ready?
  {
    var k: nat :| k < |ts| && ts[k].state.Ready?;
    ti := 0;
    while !ts[ti].state.Ready?
      invariant ti <= k && forall m :: 0 <= m < ti ==> !ts[m].state.Ready?
      decreases k - ti
    {
      ti := ti + 1;
    }
  }

  lemma PickIs(js: seq<Job>, q: Quota, ji: nat, ti: nat)
    requires ji < |js| && ti < |js[ji].tasks| && Leasable(js[ji].tasks[ti]) && forall k :: 0 <= k < ti ==> !js[ji].tasks[k].state.Ready?
    requires !js[ji].canceled && !js[ji].status.StatusCanceled? && ServiceLeases(js, js[ji].service) == 0
    requires forall i :: 0 <= i < |js| && i != ji ==> js[i].id != js[ji].id
    ensures IsPick(js, OnlyJob(js[ji].id), q, ji, ti)
  {
  }

  /** With nothing leased and a ready task, a lease of that very job is granted. */
  lemma ChoiceIs(cfg: Config, w: World, ji: nat, ti: nat)
    requires Shape(w) && DistinctPrefixes(w) && Idle(w) && ji < |w.rows|
    requires var j := w.rows[ji].job; ti < |j.tasks| && Leasable(j.tasks[ti]) && (forall k :: 0 <= k < ti ==> !j.tasks[k].state.Ready?)
    requires !w.rows[ji].job.canceled && !w.rows[ji].job.status.StatusCanceled?
    ensures LeaseChoice(w, Worker("w", 1, OnlyJob(w.rows[ji].job.id))) == Pick(ji, ti)
  {
    var js, id := Jobs(w), w.rows[ji].job.id;
    var worker := Worker("w", 1, OnlyJob(id));
    forall i, k | 0 <= i < |js| && 0 <= k < |js[i].tasks|
      ensures !js[i].tasks[k].state.Leased?
    {
      assert IdleRow(w.rows[i]);
    }
    IdleLoads(js, js[ji].service, "w");
    forall i | 0 <= i < |js| && i != ji
      ensures js[i].id != js[ji].id
    {
      assert Prefix(w.rows[i].job.id) != Prefix(w.rows[ji].job.id);
    }
    PickIs(js, w.quota, ji, ti);
    assert IsPick(js, worker.want, w.quota, ji, ti);
    var c := LeaseChoice(w, worker);
    PickUnique(js, worker.want, w.quota, ji, ti, c.ji, c.ti);
  }

  lemma LeaseStepIs(cfg: Config, w: World, ji: nat, ti: nat, attempt: Id, now: int)
    requires Shape(w) && ji < |w.rows| && ti < |w.rows[ji].job.tasks|
    requires var w1 := SweepWorld(cfg, w, now);
             w1.rows[ji] == w.rows[ji] && LeaseChoice(w1, Worker("w", 1, OnlyJob(w.rows[ji].job.id))) == Pick(ji, ti)
    ensures var w1 := SweepWorld(cfg, w, now);
            Step(cfg, w, LeaseOf(w.rows[ji].job, attempt, now)) ==
              w1.(rows := w1.rows[ji := GrantRow(w.rows[ji], ti, attempt, "w", now)], issued := w1.issued + {attempt})
  {
    assert !Blank("w") by {
      assert !IsSpace("w"[0]);
    }
  }

  lemma GrantOpensNothing(j: Job, ti: nat, attempt: Id, worker: string, now: int)
    requires ti < |j.tasks| && j.tasks[ti].state.Ready?
    ensures OpenLoad()(Granted(j, ti, attempt, worker, now)) == OpenLoad()(j)
  {
    TotalUpdate(j.tasks, ti, GrantedTask(j.tasks[ti], attempt, worker, now), OpenUnit());
  }

  lemma GrantKeepsGoing(policy: Policy, j: Job, ti: nat, attempt: Id, worker: string, now: int)
    requires JobOK(policy, j) && Going(j) && ti < |j.tasks| && j.tasks[ti].state.Ready?
    ensures Going(Granted(j, ti, attempt, worker, now))
  {
    GoingHasNoFailure(policy, j);
    var ts := Granted(j, ti, attempt, worker, now).tasks;
    assert forall i :: 0 <= i < |ts| ==> !ts[i].state.Failed?;
  }

  lemma ReadyTask(policy: Policy, r: Row, rank: seq<nat>) returns (ti: nat)
    requires RowOK(policy, r) && IdleRow(r) && RankedBy(r.job.plan, rank) && Going(r.job) && !r.job.status.StatusComplete?
    ensures ti < |r.job.tasks| && Leasable(r.job.tasks[ti]) && forall k :: 0 <= k < ti ==> !r.job.tasks[k].state.Ready?
  {
    NoDeadlock(policy, r.job, rank);
    ti := FirstReady(r.job.tasks);
    assert TaskOK(r.job.tasks[ti]);
  }

  lemma GrantedServes(cfg: Config, w1: World, ji: nat, ti: nat, attempt: Id, now: int)
    requires Shape(w1) && ji < |w1.rows| && JobOK(cfg.policy, w1.rows[ji].job) && Going(w1.rows[ji].job)
    requires ti < |w1.rows[ji].job.tasks| && w1.rows[ji].job.tasks[ti].state.Ready?
    ensures var w' := w1.(rows := w1.rows[ji := GrantRow(w1.rows[ji], ti, attempt, "w", now)], issued := w1.issued + {attempt});
            OpenTasks(w') == OpenTasks(w1) && !Idle(w') && Going(w'.rows[ji].job)
  {
    var j, r := w1.rows[ji].job, GrantRow(w1.rows[ji], ti, attempt, "w", now);
    JobsUpdated(w1, ji, r, w1.issued + {attempt});
    GrantOpensNothing(j, ti, attempt, "w", now);
    TotalUpdate(Jobs(w1), ji, r.job, OpenLoad());
    GrantKeepsGoing(cfg.policy, j, ti, attempt, "w", now);
    var w' := w1.(rows := w1.rows[ji := r], issued := w1.issued + {attempt});
    assert w'.rows[ji].job.tasks[ti].state.Leased?;
    assert !IdleRow(w'.rows[ji]);
  }

  /** A lease of an unfinished job, when nothing is leased and the job is in time, opens no task and
      leaves one leased. */
  lemma LeaseServes(cfg: Config, w: World, ji: nat, rank: seq<nat>, attempt: Id, now: int)
    requires Shape(w) && WorldOK(cfg, w) && Idle(w) && ji < |w.rows| && RankedBy(w.rows[ji].job.plan, rank)
    requires Going(w.rows[ji].job) && !w.rows[ji].job.status.StatusComplete? && BeforeDeadline(w.rows[ji].job, now)
    ensures var w' := Step(cfg, w, LeaseOf(w.rows[ji].job, attempt, now));
            OpenTasks(w') <= OpenTasks(w) && !Idle(w') && |w'.rows| == |w.rows| && Going(w'.rows[ji].job)
  {
    var ti := ReadyTask(cfg.policy, w.rows[ji], rank);
    GoingHasNoFailure(cfg.policy, w.rows[ji].job);
    IdleSweep(cfg, w, now);
    SweptPrefixes(cfg, w, now);
    LeaseTaken(cfg, w, ji, ti, attempt, now);
  }

  lemma LeaseTaken(cfg: Config, w: World, ji: nat, ti: nat, attempt: Id, now: int)
    requires Shape(w) && ji < |w.rows| && JobOK(cfg.policy, w.rows[ji].job) && Going(w.rows[ji].job) && !w.rows[ji].job.canceled
    requires var w1 := SweepWorld(cfg, w, now); Idle(w1) && DistinctPrefixes(w1) && w1.rows[ji] == w.rows[ji]
    requires var ts := w.rows[ji].job.tasks; ti < |ts| && Leasable(ts[ti]) && forall k :: 0 <= k < ti ==> !ts[k].state.Ready?
    ensures var w' := Step(cfg, w, LeaseOf(w.rows[ji].job, attempt, now));
            OpenTasks(w') == OpenTasks(SweepWorld(cfg, w, now)) && !Idle(w') && |w'.rows| == |w.rows| && Going(w'.rows[ji].job)
  {
    var w1 := SweepWorld(cfg, w, now);
    ChoiceIs(cfg, w1, ji, ti);
    LeaseStepIs(cfg, w, ji, ti, attempt, now);
    GrantedServes(cfg, w1, ji, ti, attempt, now);
  }

  lemma SweptPrefixes(cfg: Config, w: World, now: int)
    requires Shape(w) && DistinctPrefixes(w)
    ensures DistinctPrefixes(SweepWorld(cfg, w, now))
  {
    var w' := SweepWorld(cfg, w, now);
    assert forall i :: 0 <= i < |w.rows| ==> w'.rows[i].job.id == w.rows[i].job.id;
  }

  // Ids never run out.

  lemma {:induction false} LongerThanAll(ids: set<Id>) returns (n: nat)
    ensures forall id :: id in ids ==> |id| <= n
  {
    if ids == {} {
      n := 0;
    } else {
      var id :| id in ids;
      var m := LongerThanAll(ids - {id});
      n := if |id| > m then |id| else m;
      forall x | x in ids
        ensures |x| <= n
      {
        assert x == id || x in ids - {id};
      }
    }
  }

  lemma UnusedId(ids: set<Id>) returns (id: Id)
    ensures id != "" && id !in ids
  {
    var n := LongerThanAll(ids);
    id := seq(n + 1, i => 'a');
  }

  // The continuation.

  /** A lease at the given time, or a commit. */
  predicate Serves(e: Event, now: int) {
    e.CommitEvent? || (e.LeaseEvent? && e.now == now)
  }

  /** The second run continues the first by leases at the given time and by commits. */
  predicate Continues(ws: seq<World>, es: seq<Event>, ws': seq<World>, es': seq<Event>, now: int) {
    ws <= ws' && es <= es' && forall i :: |es| <= i < |es'| ==> Serves(es'[i], now)
  }

  lemma ContinuesOn(ws: seq<World>, es: seq<Event>, w: World, e: Event, ws': seq<World>, es': seq<Event>, now: int)
    requires Serves(e, now) && Continues(ws + [w], es + [e], ws', es', now)
    ensures Continues(ws, es, ws', es', now)
  {
    assert ws <= ws + [w] && es <= es + [e];
    assert es'[|es|] == e;
  }

  /** In every run, a job on a closed, acyclic plan that has neither failed nor been canceled, at a time
      within its deadline, is brought to completion by some leases at that time and commits. */
  lemma {:induction false} CanComplete(cfg: Config, ws: seq<World>, es: seq<Event>, ji: nat, rank: seq<nat>, now: int)
      returns (ws': seq<World>, es': seq<Event>)
    requires Run(cfg, ws, es) && ji < |ws[|es|].rows|
    requires var j := ws[|es|].rows[ji].job; RankedBy(j.plan, rank) && Going(j) && BeforeDeadline(j, now)
    ensures Run(cfg, ws', es') && Continues(ws, es, ws', es', now)
    ensures ji < |ws'[|es'|].rows| && ws'[|es'|].rows[ji].job.status.StatusComplete?
    decreases OpenTasks(ws[|es|]), Idle(ws[|es|])
  {
    var w := ws[|es|];
    RunOK(cfg, ws, es, |es|);
    if w.rows[ji].job.status.StatusComplete? {
      return ws, es;
    }
    var e := NextMove(cfg, w, ji, rank, now);
    var w' := Step(cfg, w, e);
    RunGrows(cfg, ws, es, e, w');
    RunLater(cfg, ws + [w'], es + [e], |es|, |es| + 1);
    SameTerms(w, w', ji, now);
    ws', es' := CanComplete(cfg, ws + [w'], es + [e], ji, rank, now);
    ContinuesOn(ws, es, w', e, ws', es', now);
  }

  /** In particular every job on a generated plan can be completed. */
  lemma GeneratedPlansComplete(cfg: Config, ws: seq<World>, es: seq<Event>, ji: nat, rep: ReportSize, now: int)
      returns (ws': seq<World>, es': seq<Event>)
    requires Run(cfg, ws, es) && ji < |ws[|es|].rows| && FromImpact(rep).Ok?
    requires var j := ws[|es|].rows[ji].job; j.plan == FromImpact(rep).value && Going(j) && BeforeDeadline(j, now)
    ensures Run(cfg, ws', es') && Continues(ws, es, ws', es', now)
    ensures ji < |ws'[|es'|].rows| && ws'[|es'|].rows[ji].job.status.StatusComplete?
  {
    GeneratedPlansRun(rep);
    var plan := FromImpact(rep).value;
    ws', es' := CanComplete(cfg, ws, es, ji, seq(|plan|, i => if i == 0 then 0 else 1), now);
  }

  lemma SameTerms(w: World, w': World, ji: nat, now: int)
    requires Later(w, w') && ji < |w.rows|
    ensures w'.rows[ji].job.plan == w.rows[ji].job.plan && (BeforeDeadline(w'.rows[ji].job, now) <==> BeforeDeadline(w.rows[ji].job, now))
  {
    assert RowLater(w.rows[ji], w'.rows[ji]);
  }

  /** The next event on the way: a commit of something leased, or a lease of the job. */
  lemma NextMove(cfg: Config, w: World, ji: nat, rank: seq<nat>, now: int) returns (e: Event)
    requires Shape(w) && WorldOK(cfg, w) && ji < |w.rows| && RankedBy(w.rows[ji].job.plan, rank)
    requires Going(w.rows[ji].job) && !w.rows[ji].job.status.StatusComplete? && BeforeDeadline(w.rows[ji].job, now)
    ensures Fresh(w, e) && Serves(e, now)
    ensures var w' := Step(cfg, w, e);
            |w'.rows| == |w.rows| && Going(w'.rows[ji].job) &&
            (OpenTasks(w') < OpenTasks(w) || (OpenTasks(w') == OpenTasks(w) && Idle(w) && !Idle(w')))
  {
    if Idle(w) {
      var attempt := UnusedId(w.issued);
      e := LeaseOf(w.rows[ji].job, attempt, now);
      LeaseServes(cfg, w, ji, rank, attempt, now);
    } else {
      var a, b := SomeLeased(w);
      e := CommitOf(TaskOf(w, a, b));
      CommitServes(cfg, w, a, b, ji);
    }
  }

  lemma SomeLeased(w: World) returns (a: nat, b: nat)
    requires Shape(w) && !Idle(w)
    ensures TaskAt(w, a, b) && TaskOf(w, a, b).state.Leased?
  {
    a :| a < |w.rows| && !IdleRow(w.rows[a]);
    b :| b < |w.rows[a].job.tasks| && w.rows[a].job.tasks[b].state.Leased?;
    assert RowShape(w.rows[a]);
  }
}
