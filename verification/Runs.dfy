/** Theorems about whole runs of the job store: any interleaving of its operations, by any workers,
    at any times. */
module Runs {
  import opened EvidenceTypes
  import opened JobTypes
  import opened Scheduling
  import opened JobOps
  import opened JobInvariants
  import opened Progress
  import opened Admission
  import opened LeaseProtocol
  import opened StoreModel
  import opened RowInvariants
  import opened StoreInvariants
  import opened TaskIds

  ghost predicate Follows(cfg: Config, w: World, e: Event, w': World) {
    Shape(w) && Fresh(w, e) && w' == Step(cfg, w, e)
  }

  ghost predicate StepAt(cfg: Config, ws: seq<World>, es: seq<Event>, i: nat) {
    i < |es| && i + 1 < |ws| && Follows(cfg, ws[i], es[i], ws[i + 1])
  }

  /** ws[i] is the store after the first i events, starting empty with some quota. */
  ghost predicate Run(cfg: Config, ws: seq<World>, es: seq<Event>) {
    && |ws| == |es| + 1
    && ws[0] == Initial(ws[0].quota)
    && forall i: nat :: i < |es| ==> StepAt(cfg, ws, es, i)
  }

  /** A run goes on with any step that follows its last world. */
  lemma RunGrows(cfg: Config, ws: seq<World>, es: seq<Event>, e: Event, w': World)
    requires Run(cfg, ws, es) && Follows(cfg, ws[|es|], e, w')
    ensures Run(cfg, ws + [w'], es + [e])
  {
    var ws', es' := ws + [w'], es + [e];
    forall i: nat | i < |es'|
      ensures StepAt(cfg, ws', es', i)
    {
      if i < |es| {
        assert StepAt(cfg, ws, es, i);
      }
    }
  }

  lemma {:induction false} RunOK(cfg: Config, ws: seq<World>, es: seq<Event>, n: nat)
    requires Run(cfg, ws, es) && n < |ws|
    ensures Shape(ws[n]) && WorldOK(cfg, ws[n])
  {
    if n == 0 {
      InitialOK(cfg, ws[0].quota);
    } else {
      RunOK(cfg, ws, es, n - 1);
      assert StepAt(cfg, ws, es, n - 1);
      StepKeeps(cfg, ws[n - 1], es[n - 1]);
    }
    OKHasShape(cfg, ws[n]);
  }

  lemma {:induction false} RunLater(cfg: Config, ws: seq<World>, es: seq<Event>, m: nat, n: nat)
    requires Run(cfg, ws, es) && m <= n < |ws|
    ensures Later(ws[m], ws[n])
    decreases n
  {
    if m == n {
      RunOK(cfg, ws, es, n);
      LaterSelf(ws[n]);
    } else {
      RunLater(cfg, ws, es, m, n - 1);
      RunOK(cfg, ws, es, n - 1);
      assert StepAt(cfg, ws, es, n - 1);
      StepKeeps(cfg, ws[n - 1], es[n - 1]);
      LaterTransitive(ws[m], ws[n - 1], ws[n]);
    }
  }

  predicate TaskAt(w: World, ji: nat, ti: nat) {
    ji < |w.rows| && ti < |w.rows[ji].job.tasks| && ti < |w.rows[ji].trail|
  }

  function TaskOf(w: World, ji: nat, ti: nat): Task
    requires TaskAt(w, ji, ti)
  {
    w.rows[ji].job.tasks[ti]
  }

  function TrailOf(w: World, ji: nat, ti: nat): Trail
    requires TaskAt(w, ji, ti)
  {
    w.rows[ji].trail[ti]
  }

  lemma RunFits(cfg: Config, ws: seq<World>, es: seq<Event>, n: nat, ji: nat, ti: nat)
    requires Run(cfg, ws, es) && n < |ws| && TaskAt(ws[n], ji, ti)
    ensures TrailFits(TaskOf(ws[n], ji, ti), TrailOf(ws[n], ji, ti))
    ensures RowOK(cfg.policy, ws[n].rows[ji])
  {
    RunOK(cfg, ws, es, n);
  }

  lemma RunTaskLater(cfg: Config, ws: seq<World>, es: seq<Event>, m: nat, n: nat, ji: nat, ti: nat)
    requires Run(cfg, ws, es) && m <= n < |ws| && TaskAt(ws[m], ji, ti)
    ensures TaskAt(ws[n], ji, ti) && TrailOf(ws[m], ji, ti) <= TrailOf(ws[n], ji, ti)
    ensures TaskLater(TaskOf(ws[m], ji, ti), TaskOf(ws[n], ji, ti))
    ensures !Open(TaskOf(ws[m], ji, ti).state) ==> TrailOf(ws[n], ji, ti) == TrailOf(ws[m], ji, ti)
  {
    RunLater(cfg, ws, es, m, n);
    assert RowLater(ws[m].rows[ji], ws[n].rows[ji]);
  }

  // Fencing.

  lemma RowTaskId(policy: Policy, r: Row, ti: nat)
    requires RowOK(policy, r) && ti < |r.job.tasks|
    ensures r.job.tasks[ti].id == TaskId(r.job.id, ti)
  {
  }

  /** No two tasks in the store share an id. */
  lemma TaskIdUnique(cfg: Config, w: World, tid: Id, ji: nat, ti: nat, a: nat, b: nat)
    requires RowsOK(cfg.policy, w) && DistinctPrefixes(w) && IsAt(w, tid, ji, ti) && IsAt(w, tid, a, b)
    ensures a == ji && b == ti
  {
    RowTaskId(cfg.policy, w.rows[ji], ti);
    RowTaskId(cfg.policy, w.rows[a], b);
    TaskIdsDistinct(w.rows[ji].job.id, ti, w.rows[a].job.id, b);
  }

  /** Every task of every run has at most one accepted commit, it presents the attempt of the latest
      grant, and nothing happens to the task afterwards. */
  lemma AtMostOneCommit(cfg: Config, ws: seq<World>, es: seq<Event>, n: nat, ji: nat, ti: nat)
    requires Run(cfg, ws, es) && n < |ws| && TaskAt(ws[n], ji, ti)
    ensures var h := TrailOf(ws[n], ji, ti);
            && Commits(h) <= 1
            && forall k :: 0 <= k < |h| && h[k].DidCommit? ==>
                 k == |h| - 1 && k > 0 && h[k - 1] == DidGrant(h[k].attempt)
  {
    RunFits(cfg, ws, es, n, ji, ti);
    var h := TrailOf(ws[n], ji, ti);
    LeasesConserved(h);
    forall k | 0 <= k < |h| && h[k].DidCommit?
      ensures k == |h| - 1 && k > 0 && h[k - 1] == DidGrant(h[k].attempt)
    {
      ReleaseFollowsItsGrant(h, k);
    }
  }

  ghost predicate Accepted(w: World, e: Event, tid: Id) {
    e.CommitEvent? && e.task == tid && CommitOutcome(w, tid, e.attempt, e.result, e.fail).None?
  }

  /** The task is there and is finished. */
  predicate ClosedAt(w: World, tid: Id, ji: nat, ti: nat) {
    TaskAt(w, ji, ti) && TaskOf(w, ji, ti).id == tid && Stage(TaskOf(w, ji, ti).state) == 1
  }

  lemma CommitCloses(cfg: Config, w: World, e: Event, w': World, tid: Id) returns (ji: nat, ti: nat)
    requires Follows(cfg, w, e, w') && Accepted(w, e, tid)
    ensures ClosedAt(w', tid, ji, ti)
  {
    var at := Locate(w, tid).value;
    ji, ti := at.0, at.1;
    CommittedTaskAt(cfg.policy, w.rows[ji].job, ti, e.result, e.fail, ti);
    assert RowShape(w.rows[ji]);
  }

  lemma ClosedRefusesCommits(cfg: Config, w: World, e: Event, tid: Id, ji: nat, ti: nat)
    requires WorldOK(cfg, w) && ClosedAt(w, tid, ji, ti)
    ensures !Accepted(w, e, tid)
  {
    assert IsAt(w, tid, ji, ti);
    var (a, b) := Locate(w, tid).value;
    TaskIdUnique(cfg, w, tid, ji, ti, a, b);
  }

  lemma StaysClosed(cfg: Config, ws: seq<World>, es: seq<Event>, m: nat, n: nat, tid: Id, ji: nat, ti: nat)
    requires Run(cfg, ws, es) && m <= n < |ws| && ClosedAt(ws[m], tid, ji, ti)
    ensures ClosedAt(ws[n], tid, ji, ti)
  {
    RunTaskLater(cfg, ws, es, m, n, ji, ti);
  }

  lemma ClosedFromThenOn(cfg: Config, ws: seq<World>, es: seq<Event>, m: nat, n: nat, tid: Id) returns (ji: nat, ti: nat)
    requires Run(cfg, ws, es) && m < n < |ws| && Accepted(ws[m], es[m], tid)
    ensures ClosedAt(ws[n], tid, ji, ti)
  {
    assert StepAt(cfg, ws, es, m);
    ji, ti := CommitCloses(cfg, ws[m], es[m], ws[m + 1], tid);
    StaysClosed(cfg, ws, es, m + 1, n, tid, ji, ti);
  }

  /** In no run are two commits for one task accepted. */
  lemma NoSecondCommit(cfg: Config, ws: seq<World>, es: seq<Event>, m: nat, n: nat, tid: Id)
    requires Run(cfg, ws, es) && m < n < |es|
    ensures !(Accepted(ws[m], es[m], tid) && Accepted(ws[n], es[n], tid))
  {
    if Accepted(ws[m], es[m], tid) {
      var ji, ti := ClosedFromThenOn(cfg, ws, es, m, n, tid);
      RunOK(cfg, ws, es, n);
      ClosedRefusesCommits(cfg, ws[n], es[n], tid, ji, ti);
    }
  }

  /** Once the lease of an attempt has ended, by expiry, deadline or commit, that attempt is refused
      at every later point of the run, whatever it presents. */
  lemma EndedAttemptRefused(cfg: Config, ws: seq<World>, es: seq<Event>, m: nat, n: nat, ji: nat, ti: nat, k: nat,
                            result: StepResult, fail: string, worker: string)
    requires Run(cfg, ws, es) && m <= n < |ws| && TaskAt(ws[m], ji, ti)
    requires k < |TrailOf(ws[m], ji, ti)| && !TrailOf(ws[m], ji, ti)[k].DidGrant?
    ensures var tid, a := TaskOf(ws[m], ji, ti).id, TrailOf(ws[m], ji, ti)[k].attempt;
            && CommitOutcome(ws[n], tid, a, result, fail).Some?
            && HeartbeatOutcome(ws[n], tid, a, worker).Some?
  {
    RunTaskLater(cfg, ws, es, m, n, ji, ti);
    RunFits(cfg, ws, es, n, ji, ti);
    RunOK(cfg, ws, es, n);
    var tid := TaskOf(ws[n], ji, ti).id;
    EndedAttemptNotHeld(TrailOf(ws[n], ji, ti), k);
    assert IsAt(ws[n], tid, ji, ti);
    var (a, b) := Locate(ws[n], tid).value;
    TaskIdUnique(cfg, ws[n], tid, ji, ti, a, b);
  }

  // Conservation of leases.

  /** The fence of a task counts its grants, and every grant was committed, expired, killed by the
      deadline, or is held now; so a task is leased at most once more than its leases expire. */
  lemma FenceConserved(cfg: Config, ws: seq<World>, es: seq<Event>, n: nat, ji: nat, ti: nat)
    requires Run(cfg, ws, es) && n < |ws| && TaskAt(ws[n], ji, ti)
    ensures var t, h := TaskOf(ws[n], ji, ti), TrailOf(ws[n], ji, ti);
            && t.fence == Commits(h) + Expiries(h) + Kills(h) + (if t.state.Leased? then 1 else 0)
            && t.fence <= 1 + Expiries(h)
  {
    RunFits(cfg, ws, es, n, ji, ti);
    LeasesConserved(TrailOf(ws[n], ji, ti));
  }

  function Weight(s: TaskState): int {
    match s
    case Pending => 3
    case Ready => 2
    case Leased => 1
    case _ => 0
  }

  /** Between expiries a task only moves forward: over any stretch of a run its weight plus the leases
      it was granted is at most its former weight plus the leases it lost. */
  lemma WeightFalls(cfg: Config, ws: seq<World>, es: seq<Event>, m: nat, n: nat, ji: nat, ti: nat)
    requires Run(cfg, ws, es) && m <= n < |ws| && TaskAt(ws[m], ji, ti)
    ensures TaskAt(ws[n], ji, ti)
    ensures var h, h' := TrailOf(ws[m], ji, ti), TrailOf(ws[n], ji, ti);
            Weight(TaskOf(ws[n], ji, ti).state) + Grants(h') - Grants(h)
              <= Weight(TaskOf(ws[m], ji, ti).state) + Expiries(h') - Expiries(h)
  {
    RunTaskLater(cfg, ws, es, m, n, ji, ti);
    RunFits(cfg, ws, es, m, ji, ti);
    RunFits(cfg, ws, es, n, ji, ti);
    Balance(TaskOf(ws[m], ji, ti), TrailOf(ws[m], ji, ti));
    Balance(TaskOf(ws[n], ji, ti), TrailOf(ws[n], ji, ti));
  }

  function Level(s: TaskState, ended: nat): nat {
    match s
    case Pending => 3
    case Ready => 2
    case Leased => 2
    case Succeeded => 1
    case Skipped => 0
    case Failed => ended
  }

  lemma Balance(t: Task, h: Trail)
    requires TrailFits(t, h)
    ensures Weight(t.state) + Grants(h) - Expiries(h) == Level(t.state, Commits(h) + Kills(h))
    ensures Commits(h) + Kills(h) <= 1
  {
    LeasesConserved(h);
  }

  // Admission.

  /** In every reachable state the unfinished jobs drive pairwise disjoint gateways, and no service
      and no worker exceeds its limit. */
  lemma Admitted(cfg: Config, ws: seq<World>, es: seq<Event>, n: nat)
    requires Run(cfg, ws, es) && n < |ws|
    ensures forall i, k :: 0 <= i < k < |ws[n].rows| && Occupies(ws[n].rows[i].job) && Occupies(ws[n].rows[k].job) ==>
              !Clash(cfg.key, ws[n].rows[k].job, ws[n].rows[i].job)
    ensures forall s :: ActiveJobs(Jobs(ws[n]), s) <= ws[n].peak.activeJobs
    ensures forall s :: ServiceLeases(Jobs(ws[n]), s) <= ws[n].peak.leasedTasks
    ensures forall worker :: WorkerLeases(Jobs(ws[n]), worker) <= MAX_SLOTS
  {
    RunOK(cfg, ws, es, n);
    forall i, k | 0 <= i < k < |ws[n].rows| && Occupies(ws[n].rows[i].job) && Occupies(ws[n].rows[k].job)
      ensures !Clash(cfg.key, ws[n].rows[k].job, ws[n].rows[i].job)
    {
      assert Jobs(ws[n])[i] == ws[n].rows[i].job && Jobs(ws[n])[k] == ws[n].rows[k].job;
    }
  }

  // The step does not depend on the recorded peak.

  function WithPeak(w: World, p: Quota): World {
    w.(peak := p)
  }

  lemma ChoiceIgnoresPeak(w: World, p: Quota, worker: Worker)
    ensures LeaseChoice(WithPeak(w, p), worker) == LeaseChoice(w, worker)
  {
    var a, b := LeaseChoice(WithPeak(w, p), worker), LeaseChoice(w, worker);
    assert Jobs(WithPeak(w, p)) == Jobs(w);
    if a.Pick? && b.Pick? {
      PickUnique(Jobs(w), worker.want, w.quota, a.ji, a.ti, b.ji, b.ti);
    }
  }

  lemma LocateIgnoresPeak(cfg: Config, w: World, p: Quota, tid: Id)
    requires RowsOK(cfg.policy, w) && DistinctPrefixes(w)
    ensures Locate(WithPeak(w, p), tid) == Locate(w, tid)
  {
    var a, b := Locate(WithPeak(w, p), tid), Locate(w, tid);
    assert forall ji: nat, ti: nat :: IsAt(WithPeak(w, p), tid, ji, ti) <==> IsAt(w, tid, ji, ti);
    if b.Some? {
      assert IsAt(WithPeak(w, p), tid, b.value.0, b.value.1);
      TaskIdUnique(cfg, w, tid, a.value.0, a.value.1, b.value.0, b.value.1);
    }
  }

  lemma RowIgnoresPeak(w: World, p: Quota, id: Id)
    requires DistinctPrefixes(w)
    ensures RowOf(WithPeak(w, p), id) == RowOf(w, id)
  {
    var a, b := RowOf(WithPeak(w, p), id), RowOf(w, id);
    assert a.Some? <==> b.Some?;
    assert a.Some? ==> Prefix(w.rows[a.value].job.id) == Prefix(w.rows[b.value].job.id);
  }

  lemma SweepIgnoresPeak(cfg: Config, w: World, p: Quota, now: int)
    requires Shape(w)
    ensures SweepWorld(cfg, WithPeak(w, p), now) == WithPeak(SweepWorld(cfg, w, now), p)
  {
  }

  lemma CreateIgnoresPeak(cfg: Config, w: World, p: Quota, e: Event)
    requires Shape(w) && e.CreateEvent?
    ensures Step(cfg, WithPeak(w, p), e) == WithPeak(Step(cfg, w, e), p)
  {
    SweepIgnoresPeak(cfg, w, p, e.now);
    var w1 := SweepWorld(cfg, w, e.now);
    assert Jobs(WithPeak(w1, p)) == Jobs(w1);
  }

  lemma LeaseIgnoresPeak(cfg: Config, w: World, p: Quota, e: Event)
    requires Shape(w) && e.LeaseEvent?
    ensures Step(cfg, WithPeak(w, p), e) == WithPeak(Step(cfg, w, e), p)
  {
    SweepIgnoresPeak(cfg, w, p, e.now);
    ChoiceIgnoresPeak(SweepWorld(cfg, w, e.now), p, e.worker);
  }

  lemma ReportIgnoresPeak(cfg: Config, w: World, p: Quota, e: Event)
    requires Shape(w) && RowsOK(cfg.policy, w) && DistinctPrefixes(w) && (e.HeartbeatEvent? || e.CommitEvent?)
    ensures Step(cfg, WithPeak(w, p), e) == WithPeak(Step(cfg, w, e), p)
  {
    LocateIgnoresPeak(cfg, w, p, e.task);
  }

  lemma StepIgnoresPeak(cfg: Config, w: World, e: Event, p: Quota)
    requires Shape(w) && RowsOK(cfg.policy, w) && DistinctPrefixes(w) && !e.QuotaEvent?
    ensures Step(cfg, WithPeak(w, p), e) == WithPeak(Step(cfg, w, e), p)
  {
    match e {
      case CreateEvent(_, _, _, _, _) => CreateIgnoresPeak(cfg, w, p, e);
      case LeaseEvent(_, _, _) => LeaseIgnoresPeak(cfg, w, p, e);
      case HeartbeatEvent(_, _, _, _) => ReportIgnoresPeak(cfg, w, p, e);
      case CommitEvent(_, _, _, _) => ReportIgnoresPeak(cfg, w, p, e);
      case SweepEvent(now) => SweepIgnoresPeak(cfg, w, p, now);
      case CancelEvent(id) => RowIgnoresPeak(w, p, id);
    }
  }

  lemma PeakLowered(cfg: Config, w: World, q: Quota)
    requires Shape(w) && WorldOK(cfg, w) && w.quota == q && WithinLimits(Jobs(w), Normalized(q))
    ensures WorldOK(cfg, WithPeak(w, Normalized(q)))
  {
    assert Jobs(WithPeak(w, Normalized(q))) == Jobs(w);
  }

  lemma StepKeepsQuota(cfg: Config, w: World, e: Event)
    requires Shape(w) && !e.QuotaEvent?
    ensures Step(cfg, w, e).quota == w.quota && Step(cfg, w, e).peak == w.peak
  {
  }

  ghost predicate UnderQuota(w: World, q: Quota) {
    w.quota == q && WithinLimits(Jobs(w), Normalized(q))
  }

  lemma StepStaysUnder(cfg: Config, w: World, e: Event, w': World, q: Quota)
    requires Shape(w) && WorldOK(cfg, w) && Follows(cfg, w, e, w') && !e.QuotaEvent? && UnderQuota(w, q)
    ensures UnderQuota(w', q)
  {
    var limit := Normalized(q);
    StepKeepsQuota(cfg, w, e);
    PeakLowered(cfg, w, q);
    StepIgnoresPeak(cfg, w, e, limit);
    StepKeeps(cfg, WithPeak(w, limit), e);
    assert Jobs(Step(cfg, WithPeak(w, limit), e)) == Jobs(Step(cfg, w, e));
  }

  lemma RunStaysUnder(cfg: Config, ws: seq<World>, es: seq<Event>, n: nat, w: World, q: Quota)
    requires Run(cfg, ws, es) && n < |es| && w == ws[n] && !es[n].QuotaEvent? && UnderQuota(w, q)
    ensures UnderQuota(ws[n + 1], q)
  {
    RunOK(cfg, ws, es, n);
    assert StepAt(cfg, ws, es, n);
    StepStaysUnder(cfg, w, es[n], ws[n + 1], q);
  }

  /** Once the store is within a quota it stays within it until the quota is changed. */
  lemma {:induction false} StaysWithinQuota(cfg: Config, ws: seq<World>, es: seq<Event>, m: nat, n: nat)
    requires Run(cfg, ws, es) && m <= n < |ws| && UnderQuota(ws[m], ws[m].quota)
    requires forall i :: m <= i < n ==> !es[i].QuotaEvent?
    ensures UnderQuota(ws[n], ws[m].quota)
    decreases n
  {
    if m < n {
      StaysWithinQuota(cfg, ws, es, m, n - 1);
      RunStaysUnder(cfg, ws, es, n - 1, ws[n - 1], ws[m].quota);
    }
  }

  /** A quota set on an empty store is kept from then on, whatever it was before. */
  lemma QuotaSetFirst(cfg: Config, ws: seq<World>, es: seq<Event>, m: nat, n: nat)
    requires Run(cfg, ws, es) && m <= n < |ws| && ws[m].rows == [] && forall i :: m <= i < n ==> !es[i].QuotaEvent?
    ensures WithinLimits(Jobs(ws[n]), Normalized(ws[m].quota))
  {
    assert Jobs(ws[m]) == [];
    StaysWithinQuota(cfg, ws, es, m, n);
  }

  /** complete, failed and canceled are final. */
  lemma FinishedStaysFinished(cfg: Config, ws: seq<World>, es: seq<Event>, m: nat, n: nat, ji: nat)
    requires Run(cfg, ws, es) && m <= n < |ws| && ji < |ws[m].rows| && Terminal(ws[m].rows[ji].job.status)
    ensures ji < |ws[n].rows| && ws[n].rows[ji].job.status == ws[m].rows[ji].job.status
  {
    RunLater(cfg, ws, es, m, n);
  }

  // Dependencies and progress.

  /** In every reachable state a task that is ready, leased or succeeded has all its dependencies
      succeeded or skipped, and the cached fields of its job are what a refresh would compute. */
  lemma DependenciesFirst(cfg: Config, ws: seq<World>, es: seq<Event>, n: nat, ji: nat, ti: nat)
    requires Run(cfg, ws, es) && n < |ws| && TaskAt(ws[n], ji, ti)
    ensures var j := ws[n].rows[ji].job;
            && (Started(j.tasks[ti].state) ==> DepsMet(j.tasks, j.tasks[ti]))
            && (j.tasks[ti].operator ==> j.tasks[ti].state.Skipped?)
            && Refresh(cfg.policy, j) == j
  {
    RunFits(cfg, ws, es, n, ji, ti);
  }

  /** No step of a dependency cycle is ever readied, leased or completed, and its job never
      completes. */
  lemma CyclesNeverRun(cfg: Config, ws: seq<World>, es: seq<Event>, n: nat, ji: nat, cycle: seq<nat>, i: nat)
    requires Run(cfg, ws, es) && n < |ws| && ji < |ws[n].rows|
    requires forall k :: 0 <= k < |cycle| ==> cycle[k] < |ws[n].rows[ji].job.plan| && !ws[n].rows[ji].job.plan[cycle[k]].operator
    requires forall k :: 0 <= k < |cycle| ==> DependsDirectly(ws[n].rows[ji].job.plan, cycle[k], NextOn(cycle, k))
    requires i < |cycle|
    ensures var j := ws[n].rows[ji].job;
            && cycle[i] < |j.tasks| && !Started(j.tasks[cycle[i]].state)
            && !j.status.StatusComplete?
  {
    RunOK(cfg, ws, es, n);
    var j := ws[n].rows[ji].job;
    assert RowOK(cfg.policy, ws[n].rows[ji]);
    CycleIsStuck(j.plan, cycle);
    StuckNeverCompletes(cfg.policy, j, set k | 0 <= k < |cycle| :: cycle[k], cycle[i]);
  }

  /** On a closed, acyclic plan every reachable unfinished job has a task that is ready or leased. */
  lemma NeverDeadlocked(cfg: Config, ws: seq<World>, es: seq<Event>, n: nat, ji: nat, rank: seq<nat>)
    requires Run(cfg, ws, es) && n < |ws| && ji < |ws[n].rows|
    requires RankedBy(ws[n].rows[ji].job.plan, rank)
    requires !Terminal(ws[n].rows[ji].job.status)
    ensures Has(ws[n].rows[ji].job.tasks, Ready) || Has(ws[n].rows[ji].job.tasks, Leased)
  {
    RunOK(cfg, ws, es, n);
    assert RowOK(cfg.policy, ws[n].rows[ji]);
    NoDeadlock(cfg.policy, ws[n].rows[ji].job, rank);
  }
}
