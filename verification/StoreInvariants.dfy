/** What every operation keeps of the whole store. */
module StoreInvariants {
  import opened EvidenceTypes
  import opened JobTypes
  import opened Scheduling
  import opened JobOps
  import opened JobInvariants
  import opened Admission
  import opened Totals
  import opened StoreModel
  import opened RowInvariants
  import opened TaskIds
  import opened Text

  ghost predicate RowsOK(policy: Policy, w: World) {
    forall i :: 0 <= i < |w.rows| ==> RowOK(policy, w.rows[i])
  }

  predicate DistinctPrefixes(w: World) {
    forall i, k :: 0 <= i < k < |w.rows| ==> Prefix(w.rows[i].job.id) != Prefix(w.rows[k].job.id)
  }

  predicate AllIssued(w: World) {
    forall i :: 0 <= i < |w.rows| ==> IssuedFrom(w.rows[i], w.issued)
  }

  /** No two unfinished jobs drive a common gateway. */
  ghost predicate Exclusive(key: string -> string, js: seq<Job>) {
    forall i, k :: 0 <= i < k < |js| && Occupies(js[i]) && Occupies(js[k]) ==> !Clash(key, js[k], js[i])
  }

  ghost predicate WithinLimits(js: seq<Job>, limit: Quota) {
    && (forall s :: ActiveJobs(js, s) <= limit.activeJobs)
    && (forall s :: ServiceLeases(js, s) <= limit.leasedTasks)
    && (forall worker :: WorkerLeases(js, worker) <= MAX_SLOTS)
  }

  predicate PeakCovers(w: World) {
    Normalized(w.quota).activeJobs <= w.peak.activeJobs && Normalized(w.quota).leasedTasks <= w.peak.leasedTasks
  }

  ghost predicate WorldOK(cfg: Config, w: World) {
    && RowsOK(cfg.policy, w)
    && DistinctPrefixes(w)
    && AllIssued(w)
    && Exclusive(cfg.key, Jobs(w))
    && WithinLimits(Jobs(w), w.peak)
    && PeakCovers(w)
  }

  // How a world may change.

  predicate Terminal(s: JobStatus) {
    s.StatusComplete? || s.StatusFailed? || s.StatusCanceled?
  }

  /** How far a task still has to go; expiry of a lease is the only way back, from leased to ready. */
  function Stage(s: TaskState): nat {
    match s
    case Pending => 3
    case Ready => 2
    case Leased => 2
    case _ => 1
  }

  predicate TaskLater(t: Task, t': Task) {
    SameTask(t, t') && Stage(t'.state) <= Stage(t.state) && (Stage(t.state) == 1 ==> t'.state == t.state)
  }

  predicate RowLater(r: Row, r': Row) {
    && SameJob(r.job, r'.job)
    && |r'.job.tasks| == |r.job.tasks|
    && (forall i :: 0 <= i < |r.job.tasks| ==> TaskLater(r.job.tasks[i], r'.job.tasks[i]))
    && TrailsGrow(r, r')
    && (Terminal(r.job.status) ==> r'.job.status == r.job.status)
  }

  /** Jobs are only ever added; what identifies them stays, trails only grow, tasks only advance, and
      a finished job keeps its status. */
  predicate Later(w: World, w': World) {
    |w.rows| <= |w'.rows| && forall i :: 0 <= i < |w.rows| ==> RowLater(w.rows[i], w'.rows[i])
  }

  lemma LaterTransitive(a: World, b: World, c: World)
    requires Later(a, b) && Later(b, c)
    ensures Later(a, c)
  {
    forall i | 0 <= i < |a.rows|
      ensures RowLater(a.rows[i], c.rows[i])
    {
      RowLaterTransitive(a.rows[i], b.rows[i], c.rows[i]);
    }
  }

  lemma RowLaterTransitive(a: Row, b: Row, c: Row)
    requires RowLater(a, b) && RowLater(b, c)
    ensures RowLater(a, c)
  {
    forall i | 0 <= i < |a.trail|
      ensures a.trail[i] <= c.trail[i] && (!Open(a.job.tasks[i].state) ==> c.trail[i] == a.trail[i])
    {
      assert a.trail[i] <= b.trail[i] <= c.trail[i];
      assert TaskLater(a.job.tasks[i], b.job.tasks[i]);
    }
  }

  lemma RowStepIsLater(policy: Policy, r: Row, r': Row)
    requires RowOK(policy, r) && RowStep(policy, r, r')
    ensures RowLater(r, r')
  {
    if Terminal(r.job.status) {
      TerminalStatusAbsorbing(policy, r.job, r'.job);
    }
    assert forall i :: 0 <= i < |r.job.tasks| ==> TaskMoves(r.job.tasks[i], r'.job.tasks[i], r'.job.canceled);
  }

  /** Nobody gains a lease. */
  predicate Lighter(j: Job, j': Job) {
    && |j'.tasks| == |j.tasks|
    && forall i :: 0 <= i < |j.tasks| && j'.tasks[i].state.Leased? ==>
         j.tasks[i].state.Leased? && j'.tasks[i].worker == j.tasks[i].worker
  }

  lemma LighterLoads(policy: Policy, j: Job, j': Job)
    requires JobOK(policy, j) && JobOK(policy, j') && Evolves(j, j') && Lighter(j, j')
    ensures forall s :: ActiveUnit(s)(j') <= ActiveUnit(s)(j)
    ensures forall s :: ServiceLoad(s)(j') <= ServiceLoad(s)(j)
    ensures forall worker :: WorkerLoad(worker)(j') <= WorkerLoad(worker)(j)
    ensures Occupies(j') ==> Occupies(j)
  {
    TotalMono(j'.tasks, j.tasks, LeasedUnit());
    forall worker
      ensures WorkerLoad(worker)(j') <= WorkerLoad(worker)(j)
    {
      TotalMono(j'.tasks, j.tasks, WorkerUnit(worker));
    }
    if Terminal(j.status) {
      TerminalStatusAbsorbing(policy, j, j');
    }
  }

  lemma LimitsMono(js: seq<Job>, js': seq<Job>, limit: Quota)
    requires WithinLimits(js, limit) && |js| == |js'|
    requires forall i, s :: 0 <= i < |js| ==> ActiveUnit(s)(js'[i]) <= ActiveUnit(s)(js[i])
    requires forall i, s :: 0 <= i < |js| ==> ServiceLoad(s)(js'[i]) <= ServiceLoad(s)(js[i])
    requires forall i, s :: 0 <= i < |js| ==> WorkerLoad(s)(js'[i]) <= WorkerLoad(s)(js[i])
    ensures WithinLimits(js', limit)
  {
    forall s
      ensures ActiveJobs(js', s) <= limit.activeJobs
      ensures ServiceLeases(js', s) <= limit.leasedTasks
      ensures WorkerLeases(js', s) <= MAX_SLOTS
    {
      TotalMono(js', js, ActiveUnit(s));
      TotalMono(js', js, ServiceLoad(s));
      TotalMono(js', js, WorkerLoad(s));
      assert ActiveJobs(js, s) <= limit.activeJobs && ServiceLeases(js, s) <= limit.leasedTasks && WorkerLeases(js, s) <= MAX_SLOTS;
    }
  }

  /** An operation after which no job holds more leases than before. */
  ghost predicate Relaxes(policy: Policy, w: World, w': World) {
    && |w'.rows| == |w.rows| && w'.quota == w.quota && w'.peak == w.peak && w'.issued == w.issued
    && forall i :: 0 <= i < |w.rows| ==>
         && RowStep(policy, w.rows[i], w'.rows[i])
         && Lighter(w.rows[i].job, w'.rows[i].job)
         && (IssuedFrom(w.rows[i], w.issued) ==> IssuedFrom(w'.rows[i], w.issued))
  }

  lemma RelaxKeeps(cfg: Config, w: World, w': World)
    requires WorldOK(cfg, w) && Relaxes(cfg.policy, w, w')
    ensures WorldOK(cfg, w') && Later(w, w')
  {
    var js, js' := Jobs(w), Jobs(w');
    forall i | 0 <= i < |w.rows|
      ensures RowLater(w.rows[i], w'.rows[i])
      ensures forall s :: ActiveUnit(s)(js'[i]) <= ActiveUnit(s)(js[i])
      ensures forall s :: ServiceLoad(s)(js'[i]) <= ServiceLoad(s)(js[i])
      ensures forall s :: WorkerLoad(s)(js'[i]) <= WorkerLoad(s)(js[i])
      ensures Occupies(js'[i]) ==> Occupies(js[i])
    {
      assert RowStep(cfg.policy, w.rows[i], w'.rows[i]);
      RowStepIsLater(cfg.policy, w.rows[i], w'.rows[i]);
      LighterLoads(cfg.policy, js[i], js'[i]);
    }
    LimitsMono(js, js', w.peak);
    ExclusiveKept(cfg.key, js, js');
  }

  lemma ExclusiveKept(key: string -> string, js: seq<Job>, js': seq<Job>)
    requires Exclusive(key, js) && |js'| == |js|
    requires forall i :: 0 <= i < |js| ==> (Occupies(js'[i]) ==> Occupies(js[i])) && SameJob(js[i], js'[i])
    ensures Exclusive(key, js')
  {
    forall i, k | 0 <= i < k < |js'| && Occupies(js'[i]) && Occupies(js'[k])
      ensures !Clash(key, js'[k], js'[i])
    {
      assert !Clash(key, js[k], js[i]);
      assert Keys(key, js'[k]) == Keys(key, js[k]) && Keys(key, js'[i]) == Keys(key, js[i]);
    }
  }

  lemma StayRow(policy: Policy, r: Row)
    requires RowOK(policy, r)
    ensures RowStep(policy, r, r) && Lighter(r.job, r.job)
  {
    StayKeeps(r.job);
  }

  lemma OneRowRelaxes(policy: Policy, w: World, ji: nat, r': Row)
    requires RowsOK(policy, w) && ji < |w.rows|
    requires RowStep(policy, w.rows[ji], r') && Lighter(w.rows[ji].job, r'.job)
    requires forall issued :: IssuedFrom(w.rows[ji], issued) ==> IssuedFrom(r', issued)
    ensures Relaxes(policy, w, w.(rows := w.rows[ji := r']))
  {
    forall i | 0 <= i < |w.rows| && i != ji
      ensures RowStep(policy, w.rows[i], w.rows[i]) && Lighter(w.rows[i].job, w.rows[i].job)
    {
      StayRow(policy, w.rows[i]);
    }
  }

  // The operations.

  lemma SweepWorldKeeps(cfg: Config, w: World, now: int)
    requires WorldOK(cfg, w)
    ensures WorldOK(cfg, SweepWorld(cfg, w, now)) && Later(w, SweepWorld(cfg, w, now))
  {
    var w' := SweepWorld(cfg, w, now);
    forall i | 0 <= i < |w.rows|
      ensures RowStep(cfg.policy, w.rows[i], w'.rows[i]) && Lighter(w.rows[i].job, w'.rows[i].job)
      ensures IssuedFrom(w.rows[i], w.issued) ==> IssuedFrom(w'.rows[i], w.issued)
    {
      SweepRowKeeps(cfg.policy, w.rows[i], now);
      SweepIsLighter(cfg.policy, w.rows[i].job, now);
    }
    RelaxKeeps(cfg, w, w');
  }

  lemma SweepIsLighter(policy: Policy, j: Job, now: int)
    ensures Lighter(j, Swept(policy, j, now))
  {
    forall i | 0 <= i < |j.tasks| && Swept(policy, j, now).tasks[i].state.Leased?
      ensures Swept(policy, j, now).tasks[i] == j.tasks[i]
    {
      SweptTask(policy, j, now, i);
    }
  }

  lemma NewJobLoads(cfg: Config, opts: CreateOpts, id: Id, builtAt: int)
    ensures var j := Built(cfg, opts, id, builtAt);
            (forall s :: ServiceLoad(s)(j) == 0) && (forall s :: WorkerLoad(s)(j) == 0) && j.id == id
  {
    var j := Built(cfg, opts, id, builtAt);
    NewTasks(id, opts.plan);
    SettledIsFixpoint(InitialTasks(id, opts.plan));
    NoLeaseNoLoad(j.tasks, LeasedUnit());
    forall s ensures WorkerLoad(s)(j) == 0 {
      NoLeaseNoLoad(j.tasks, WorkerUnit(s));
    }
  }

  lemma {:induction false} NoLeaseNoLoad(ts: seq<Task>, f: Task -> nat)
    requires forall i :: 0 <= i < |ts| ==> f(ts[i]) == 0
    ensures Total(ts, f) == 0
  {
    if ts != [] {
      NoLeaseNoLoad(ts[..|ts| - 1], f);
    }
  }

  lemma CreateKeeps(cfg: Config, w: World, opts: CreateOpts, id: Id, checkedAt: int, builtAt: int, sweptAt: int)
    requires WorldOK(cfg, w) && FreshJobId(w, id)
    ensures var w' := CreateStep(cfg, w, opts, id, checkedAt, builtAt, sweptAt); WorldOK(cfg, w') && Later(w, w')
  {
    SweepWorldKeeps(cfg, w, sweptAt);
    var w1 := SweepWorld(cfg, w, sweptAt);
    var job := Built(cfg, opts, id, builtAt);
    if ValidOpts(cfg, opts, checkedAt) {
      if CreateError(cfg, w1, job).None? {
        AdmitKeeps(cfg, w1, opts, id, builtAt);
      }
    } else {
      LaterSelf(w);
    }
  }

  lemma LaterSelf(w: World)
    requires Shape(w)
    ensures Later(w, w)
  {
  }

  lemma AdmitKeeps(cfg: Config, w: World, opts: CreateOpts, id: Id, builtAt: int)
    requires WorldOK(cfg, w) && FreshJobId(w, id)
    requires CreateError(cfg, w, Built(cfg, opts, id, builtAt)).None?
    ensures WorldOK(cfg, w.(rows := w.rows + [NewRow(cfg, opts, id, builtAt)]))
  {
    var row := NewRow(cfg, opts, id, builtAt);
    var w' := w.(rows := w.rows + [row]);
    NewRowOK(cfg, opts, id, builtAt);
    NewJobLoads(cfg, opts, id, builtAt);
    AdmitRows(cfg.policy, w, row);
    assert Jobs(w') == Jobs(w) + [row.job];
    AdmitLimits(Jobs(w), row.job, w.quota, w.peak);
    AdmitExclusive(cfg.key, Jobs(w), row.job);
  }

  lemma AdmitRows(policy: Policy, w: World, row: Row)
    requires RowsOK(policy, w) && DistinctPrefixes(w) && AllIssued(w)
    requires RowOK(policy, row) && FreshJobId(w, row.job.id) && IssuedFrom(row, {})
    ensures var w' := w.(rows := w.rows + [row]); RowsOK(policy, w') && DistinctPrefixes(w') && AllIssued(w')
  {
  }

  lemma AdmitExclusive(key: string -> string, js: seq<Job>, job: Job)
    requires Exclusive(key, js) && !Busy(key, js, job)
    ensures Exclusive(key, js + [job])
  {
  }

  lemma AdmitLimits(js: seq<Job>, job: Job, q: Quota, limit: Quota)
    requires WithinLimits(js, limit) && Normalized(q).activeJobs <= limit.activeJobs
    requires (forall s :: ServiceLoad(s)(job) == 0) && (forall s :: WorkerLoad(s)(job) == 0)
    requires ActiveJobs(js, job.service) < Normalized(q).activeJobs
    ensures WithinLimits(js + [job], limit)
  {
    forall s
      ensures ActiveJobs(js + [job], s) <= limit.activeJobs
      ensures ServiceLeases(js + [job], s) <= limit.leasedTasks
      ensures WorkerLeases(js + [job], s) <= MAX_SLOTS
    {
      TotalSnoc(js, job, ActiveUnit(s));
      TotalSnoc(js, job, ServiceLoad(s));
      TotalSnoc(js, job, WorkerLoad(s));
      assert ActiveJobs(js, s) <= limit.activeJobs && ServiceLeases(js, s) <= limit.leasedTasks && WorkerLeases(js, s) <= MAX_SLOTS;
    }
  }

  lemma LeaseKeeps(cfg: Config, w: World, worker: Worker, attempt: Id, now: int)
    requires WorldOK(cfg, w) && FreshAttempt(w, attempt)
    ensures var w' := LeaseStep(cfg, w, worker, attempt, now); WorldOK(cfg, w') && Later(w, w')
  {
    if Blank(worker.id) {
      LaterSelf(w);
    } else {
      SweepWorldKeeps(cfg, w, now);
      var w1 := SweepWorld(cfg, w, now);
      match LeaseChoice(w1, worker)
      case Refuse(_) =>
      case Pick(ji, ti) =>
        GrantWorldKeeps(cfg, w1, worker, ji, ti, attempt, now);
        LaterTransitive(w, w1, LeaseStep(cfg, w, worker, attempt, now));
    }
  }

  lemma GrantWorldKeeps(cfg: Config, w: World, worker: Worker, ji: nat, ti: nat, attempt: Id, now: int)
    requires WorldOK(cfg, w) && FreshAttempt(w, attempt)
    requires WorkerLeases(Jobs(w), worker.id) < Slots(worker)
    requires ji < |w.rows| && ti < |w.rows[ji].job.tasks|
    requires w.rows[ji].job.tasks[ti].state.Ready? && !w.rows[ji].job.canceled
    requires ServiceLeases(Jobs(w), w.rows[ji].job.service) < Normalized(w.quota).leasedTasks
    ensures var w' := w.(rows := w.rows[ji := GrantRow(w.rows[ji], ti, attempt, worker.id, now)], issued := w.issued + {attempt});
            WorldOK(cfg, w') && Later(w, w')
  {
    var r := w.rows[ji];
    var r' := GrantRow(r, ti, attempt, worker.id, now);
    var w' := w.(rows := w.rows[ji := r'], issued := w.issued + {attempt});
    GrantRowKeeps(cfg.policy, r, ti, attempt, worker.id, now, w.issued);
    GrantedRows(cfg.policy, w, ji, r', attempt);
    GrantedLimits(cfg.key, w, worker, ji, ti, attempt, now);
    assert Jobs(w') == Jobs(w)[ji := r'.job];
  }

  lemma GrantedLimits(key: string -> string, w: World, worker: Worker, ji: nat, ti: nat, attempt: Id, now: int)
    requires Exclusive(key, Jobs(w)) && WithinLimits(Jobs(w), w.peak) && PeakCovers(w)
    requires WorkerLeases(Jobs(w), worker.id) < Slots(worker)
    requires ji < |w.rows| && ti < |w.rows[ji].job.tasks| && w.rows[ji].job.tasks[ti].state.Ready?
    requires ServiceLeases(Jobs(w), w.rows[ji].job.service) < Normalized(w.quota).leasedTasks
    requires Granted(w.rows[ji].job, ti, attempt, worker.id, now).status == w.rows[ji].job.status
    ensures var js' := Jobs(w)[ji := Granted(w.rows[ji].job, ti, attempt, worker.id, now)];
            Exclusive(key, js') && WithinLimits(js', w.peak)
  {
    var j := w.rows[ji].job;
    var j' := Granted(j, ti, attempt, worker.id, now);
    GrantLoads(j, ti, attempt, worker.id, now);
    GrantLimits(Jobs(w), ji, j', worker, w.quota, w.peak);
    ExclusiveKept(key, Jobs(w), Jobs(w)[ji := j']);
  }

  lemma GrantedRows(policy: Policy, w: World, ji: nat, r': Row, attempt: Id)
    requires RowsOK(policy, w) && AllIssued(w) && DistinctPrefixes(w) && ji < |w.rows|
    requires RowStep(policy, w.rows[ji], r') && IssuedFrom(r', w.issued + {attempt})
    ensures var w' := w.(rows := w.rows[ji := r'], issued := w.issued + {attempt});
            RowsOK(policy, w') && AllIssued(w') && DistinctPrefixes(w') && Later(w, w')
  {
    RowStepIsLater(policy, w.rows[ji], r');
    ReplacedLater(w, ji, r', w.issued + {attempt});
  }

  lemma ReplacedLater(w: World, ji: nat, r': Row, issued: set<Id>)
    requires ji < |w.rows| && RowLater(w.rows[ji], r') && forall i :: 0 <= i < |w.rows| ==> RowShape(w.rows[i])
    ensures Later(w, w.(rows := w.rows[ji := r'], issued := issued))
  {
    forall i | 0 <= i < |w.rows|
      ensures RowLater(w.rows[i], w.rows[ji := r'][i])
    {
      RowLaterReflexive(w.rows[i]);
    }
  }

  lemma RowLaterReflexive(r: Row)
    requires RowShape(r)
    ensures RowLater(r, r)
  {
  }

  lemma GrantLoads(j: Job, ti: nat, attempt: Id, worker: string, now: int)
    requires ti < |j.tasks| && j.tasks[ti].state.Ready?
    ensures var j' := Granted(j, ti, attempt, worker, now);
            && Total(j'.tasks, LeasedUnit()) == Total(j.tasks, LeasedUnit()) + 1
            && forall s :: WorkerLoad(s)(j') == WorkerLoad(s)(j) + (if s == worker then 1 else 0)
  {
    var t := GrantedTask(j.tasks[ti], attempt, worker, now);
    TotalUpdate(j.tasks, ti, t, LeasedUnit());
    forall s
      ensures WorkerLoad(s)(Granted(j, ti, attempt, worker, now)) == WorkerLoad(s)(j) + (if s == worker then 1 else 0)
    {
      TotalUpdate(j.tasks, ti, t, WorkerUnit(s));
    }
  }

  lemma GrantLimits(js: seq<Job>, ji: nat, j': Job, worker: Worker, q: Quota, limit: Quota)
    requires WithinLimits(js, limit) && ji < |js|
    requires Normalized(q).leasedTasks <= limit.leasedTasks
    requires j'.service == js[ji].service && j'.status == js[ji].status
    requires ServiceLeases(js, js[ji].service) < Normalized(q).leasedTasks
    requires WorkerLeases(js, worker.id) < Slots(worker)
    requires Total(j'.tasks, LeasedUnit()) == Total(js[ji].tasks, LeasedUnit()) + 1
    requires forall s :: WorkerLoad(s)(j') == WorkerLoad(s)(js[ji]) + (if s == worker.id then 1 else 0)
    ensures WithinLimits(js[ji := j'], limit)
  {
    var js' := js[ji := j'];
    forall s
      ensures ActiveJobs(js', s) <= limit.activeJobs
      ensures ServiceLeases(js', s) <= limit.leasedTasks
      ensures WorkerLeases(js', s) <= MAX_SLOTS
    {
      TotalUpdate(js, ji, j', ActiveUnit(s));
      TotalUpdate(js, ji, j', ServiceLoad(s));
      TotalUpdate(js, ji, j', WorkerLoad(s));
      assert ActiveJobs(js, s) <= limit.activeJobs && ServiceLeases(js, s) <= limit.leasedTasks && WorkerLeases(js, s) <= MAX_SLOTS;
    }
  }

  lemma HeartbeatKeeps(cfg: Config, w: World, tid: Id, attempt: Id, worker: string, now: int)
    requires WorldOK(cfg, w)
    ensures var w' := HeartbeatStep(w, tid, attempt, worker, now); WorldOK(cfg, w') && Later(w, w')
  {
    if HeartbeatOutcome(w, tid, attempt, worker).Some? {
      LaterSelf(w);
    } else {
      var (ji, ti) := Locate(w, tid).value;
      ExtendRowKeeps(cfg.policy, w.rows[ji], ti, now);
      OneRowRelaxes(cfg.policy, w, ji, ExtendRow(w.rows[ji], ti, now));
      RelaxKeeps(cfg, w, HeartbeatStep(w, tid, attempt, worker, now));
    }
  }

  lemma CommitStepKeeps(cfg: Config, w: World, tid: Id, attempt: Id, result: StepResult, fail: string)
    requires WorldOK(cfg, w)
    ensures var w' := CommitStep(cfg, w, tid, attempt, result, fail); WorldOK(cfg, w') && Later(w, w')
  {
    if CommitOutcome(w, tid, attempt, result, fail).Some? {
      LaterSelf(w);
    } else {
      var (ji, ti) := Locate(w, tid).value;
      var r' := CommitRow(cfg.policy, w.rows[ji], ti, attempt, result, fail);
      CommitRowKeeps(cfg.policy, w.rows[ji], ti, attempt, result, fail);
      CommitIsLighter(cfg.policy, w.rows[ji].job, ti, result, fail);
      OneRowRelaxes(cfg.policy, w, ji, r');
      RelaxKeeps(cfg, w, CommitStep(cfg, w, tid, attempt, result, fail));
    }
  }

  lemma CommitIsLighter(policy: Policy, j: Job, ti: nat, result: StepResult, fail: string)
    requires ti < |j.tasks| && j.tasks[ti].state.Leased?
    ensures Lighter(j, Committed(policy, j, ti, result, fail))
  {
    forall i | 0 <= i < |j.tasks| && Committed(policy, j, ti, result, fail).tasks[i].state.Leased?
      ensures j.tasks[i].state.Leased? && Committed(policy, j, ti, result, fail).tasks[i].worker == j.tasks[i].worker
    {
      CommittedTaskAt(policy, j, ti, result, fail, i);
    }
  }

  lemma CancelStepKeeps(cfg: Config, w: World, id: Id)
    requires WorldOK(cfg, w)
    ensures var w' := CancelStep(cfg, w, id); WorldOK(cfg, w') && Later(w, w')
  {
    match RowOf(w, id)
    case None => LaterSelf(w);
    case Some(ji) =>
      var r' := CancelRow(cfg.policy, w.rows[ji]);
      CancelRowKeeps(cfg.policy, w.rows[ji]);
      forall i | 0 <= i < |r'.job.tasks|
        ensures r'.job.tasks[i].state.Leased? ==> r'.job.tasks[i] == w.rows[ji].job.tasks[i]
      {
        CanceledTaskAt(cfg.policy, w.rows[ji].job, i);
      }
      OneRowRelaxes(cfg.policy, w, ji, r');
      RelaxKeeps(cfg, w, CancelStep(cfg, w, id));
  }

  lemma QuotaKeeps(cfg: Config, w: World, q: Quota)
    requires WorldOK(cfg, w)
    ensures WorldOK(cfg, QuotaStep(w, q)) && Later(w, QuotaStep(w, q))
  {
    assert Jobs(QuotaStep(w, q)) == Jobs(w);
    forall s
      ensures ActiveJobs(Jobs(w), s) <= w.peak.activeJobs && ServiceLeases(Jobs(w), s) <= w.peak.leasedTasks
    {
    }
  }

  lemma OKHasShape(cfg: Config, w: World)
    requires WorldOK(cfg, w)
    ensures Shape(w)
  {
    forall i | 0 <= i < |w.rows| ensures RowShape(w.rows[i]) {
      assert RowOK(cfg.policy, w.rows[i]);
    }
  }

  /** Every operation, from every well-formed world, leads to a well-formed world that extends it. */
  lemma StepKeeps(cfg: Config, w: World, e: Event)
    requires Shape(w) && WorldOK(cfg, w) && Fresh(w, e)
    ensures WorldOK(cfg, Step(cfg, w, e)) && Later(w, Step(cfg, w, e))
  {
    match e
    case CreateEvent(opts, id, checkedAt, builtAt, now) => CreateKeeps(cfg, w, opts, id, checkedAt, builtAt, now);
    case LeaseEvent(worker, attempt, now) => LeaseKeeps(cfg, w, worker, attempt, now);
    case HeartbeatEvent(task, attempt, workerId, now) => HeartbeatKeeps(cfg, w, task, attempt, workerId, now);
    case CommitEvent(task, attempt, result, fail) => CommitStepKeeps(cfg, w, task, attempt, result, fail);
    case SweepEvent(now) => SweepWorldKeeps(cfg, w, now);
    case CancelEvent(id) => CancelStepKeeps(cfg, w, id);
    case QuotaEvent(q) => QuotaKeeps(cfg, w, q);
  }

  lemma InitialOK(cfg: Config, q: Quota)
    ensures WorldOK(cfg, Initial(q))
  {
  }
}
