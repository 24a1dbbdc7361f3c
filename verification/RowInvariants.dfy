/** What every operation keeps of one job and its lease trails. */
module RowInvariants {
  import opened EvidenceTypes
  import opened JobTypes
  import opened Scheduling
  import opened JobOps
  import opened JobInvariants
  import opened Progress
  import opened LeaseProtocol
  import opened StoreModel

  /** The trail and the stored task agree on who holds the lease, and on how often it was granted. */
  predicate TrailFits(t: Task, h: Trail) {
    && (match t.state
        case Leased => PhaseOf(h) == Held(t.attempt)
        case Succeeded => PhaseOf(h) == Closed
        case Failed => PhaseOf(h) == Idle || PhaseOf(h) == Closed
        case _ => PhaseOf(h) == Idle)
    && t.fence == Grants(h)
    && DistinctGrants(h)
  }

  predicate TrailsFit(r: Row) {
    RowShape(r) && forall i :: 0 <= i < |r.trail| ==> TrailFits(r.job.tasks[i], r.trail[i])
  }

  /** A queued job only ever holds revisions its client declared. */
  predicate Declared(j: Job) {
    j.baselineRev.source == SOURCE_DECLARED && j.patchRev.source == SOURCE_DECLARED
  }

  ghost predicate RowOK(policy: Policy, r: Row) {
    JobOK(policy, r.job) && FollowsPlan(r.job) && StuckNeverStart(r.job) && Declared(r.job) && TrailsFit(r)
  }

  /** Trails only grow, and those of finished tasks are final. */
  predicate TrailsGrow(r: Row, r': Row) {
    && RowShape(r) && |r'.trail| == |r.trail|
    && forall i :: 0 <= i < |r.trail| ==>
         r.trail[i] <= r'.trail[i] && (!Open(r.job.tasks[i].state) ==> r'.trail[i] == r.trail[i])
  }

  predicate IssuedFrom(r: Row, issued: set<Id>) {
    forall i, k :: 0 <= i < |r.trail| && 0 <= k < |r.trail[i]| ==> r.trail[i][k].attempt in issued
  }

  /** What one operation does to a row, apart from adding to the issued attempts. */
  ghost predicate RowStep(policy: Policy, r: Row, r': Row) {
    RowOK(policy, r') && Evolves(r.job, r'.job) && TrailsGrow(r, r')
  }

  lemma EndFits(t: Task, t': Task, h: Trail, e: Entry)
    requires TrailFits(t, h) && t.state.Leased? && !e.DidGrant? && e.attempt == t.attempt
    requires t'.fence == t.fence
    requires if e.DidExpire? then t'.state.Ready? || t'.state.Skipped? else t'.state.Failed? || (e.DidCommit? && t'.state.Succeeded?)
    ensures TrailFits(t', h + [e])
  {
    PhaseAppend(h, e);
  }

  lemma SweptTask(policy: Policy, j: Job, now: int, i: nat)
    requires i < |j.tasks|
    ensures var t, t' := j.tasks[i], Swept(policy, j, now).tasks[i];
            && t'.fence == t.fence
            && (t.state.Leased? ==> t' == t || t'.state.Ready? || t'.state.Skipped? || t'.state.Failed?)
            && (!t.state.Leased? ==> !t'.state.Leased?)
            && (t'.state.Leased? ==> t' == t)
            && (t.state.Succeeded? || t.state.Skipped? || t.state.Failed? ==> t'.state == t.state)
            && (t'.state.Succeeded? ==> t.state.Succeeded?)
  {
    var t, t' := j.tasks[i], Swept(policy, j, now).tasks[i];
    if Overdue(j, now) {
      assert t' == KilledTask(t);
    } else if AnyLeaseOver(j.tasks, now) {
      var e := ExpiredTasks(j.tasks, now, j.canceled);
      assert e[i] == ExpiredTask(t, now, j.canceled);
      assert t' == SettledTask(e, e[i]);
    }
  }

  lemma SweepRowKeeps(policy: Policy, r: Row, now: int)
    requires RowOK(policy, r)
    ensures RowStep(policy, r, SweepRow(policy, r, now))
    ensures forall issued :: IssuedFrom(r, issued) ==> IssuedFrom(SweepRow(policy, r, now), issued)
  {
    var r' := SweepRow(policy, r, now);
    SweepKeeps(policy, r.job, now);
    StuckKept(r.job, r'.job);
    forall i | 0 <= i < |r.trail|
      ensures TrailFits(r'.job.tasks[i], r'.trail[i])
    {
      SweptTask(policy, r.job, now, i);
      var t, t', h := r.job.tasks[i], r'.job.tasks[i], r.trail[i];
      if t.state.Leased? && !t'.state.Leased? {
        EndFits(t, t', h, SweepEntry(t, t')[0]);
      } else {
        assert r'.trail[i] == h;
      }
    }
    SweepAttempts(policy, r, now);
  }

  lemma SweepAttempts(policy: Policy, r: Row, now: int)
    requires TrailsFit(r)
    ensures forall issued :: IssuedFrom(r, issued) ==> IssuedFrom(SweepRow(policy, r, now), issued)
  {
    var r' := SweepRow(policy, r, now);
    forall issued | IssuedFrom(r, issued)
      ensures IssuedFrom(r', issued)
    {
      forall i, k | 0 <= i < |r'.trail| && 0 <= k < |r'.trail[i]|
        ensures r'.trail[i][k].attempt in issued
      {
        var h := r.trail[i];
        assert TrailFits(r.job.tasks[i], h);
        if k >= |h| {
          assert h[|h| - 1] == DidGrant(r.job.tasks[i].attempt);
        } else {
          assert r'.trail[i][k] == h[k];
        }
      }
    }
  }

  lemma GrantRowKeeps(policy: Policy, r: Row, ti: nat, attempt: Id, worker: string, now: int, issued: set<Id>)
    requires RowOK(policy, r) && IssuedFrom(r, issued)
    requires ti < |r.job.tasks| && r.job.tasks[ti].state.Ready? && !r.job.canceled
    requires attempt != "" && attempt !in issued
    ensures var r' := GrantRow(r, ti, attempt, worker, now);
            RowStep(policy, r, r') && IssuedFrom(r', issued + {attempt}) && r'.job.status == r.job.status
  {
    var r' := GrantRow(r, ti, attempt, worker, now);
    GrantKeeps(policy, r.job, ti, attempt, worker, now);
    StuckKept(r.job, r'.job);
    GrantTrails(r, ti, attempt, worker, now, issued);
  }

  lemma GrantTrails(r: Row, ti: nat, attempt: Id, worker: string, now: int, issued: set<Id>)
    requires TrailsFit(r) && IssuedFrom(r, issued)
    requires ti < |r.job.tasks| && r.job.tasks[ti].state.Ready? && attempt !in issued
    ensures var r' := GrantRow(r, ti, attempt, worker, now);
            TrailsFit(r') && TrailsGrow(r, r') && IssuedFrom(r', issued + {attempt})
  {
    var r' := GrantRow(r, ti, attempt, worker, now);
    PhaseAppend(r.trail[ti], DidGrant(attempt));
    forall i | 0 <= i < |r.trail|
      ensures TrailFits(r'.job.tasks[i], r'.trail[i])
    {
      assert i != ti ==> r'.job.tasks[i] == r.job.tasks[i] && r'.trail[i] == r.trail[i];
    }
  }

  lemma ExtendRowKeeps(policy: Policy, r: Row, ti: nat, now: int)
    requires RowOK(policy, r) && ti < |r.job.tasks| && r.job.tasks[ti].state.Leased?
    ensures RowStep(policy, r, ExtendRow(r, ti, now))
  {
    ExtendKeeps(policy, r.job, ti, now);
    StuckKept(r.job, ExtendRow(r, ti, now).job);
  }

  lemma CommitRowKeeps(policy: Policy, r: Row, ti: nat, attempt: Id, result: StepResult, fail: string)
    requires RowOK(policy, r) && ti < |r.job.tasks|
    requires CommitError(r.job.tasks[ti], attempt, result, fail).None?
    ensures var r' := CommitRow(policy, r, ti, attempt, result, fail);
            RowStep(policy, r, r') && forall issued :: IssuedFrom(r, issued) ==> IssuedFrom(r', issued)
  {
    CommitKeeps(policy, r.job, ti, result, fail);
    StuckKept(r.job, Committed(policy, r.job, ti, result, fail));
    CommitTrails(policy, r, ti, attempt, result, fail);
  }

  lemma CommitTrails(policy: Policy, r: Row, ti: nat, attempt: Id, result: StepResult, fail: string)
    requires TrailsFit(r) && ti < |r.job.tasks|
    requires r.job.tasks[ti].state.Leased? && r.job.tasks[ti].attempt == attempt
    ensures var r' := CommitRow(policy, r, ti, attempt, result, fail);
            TrailsFit(r') && TrailsGrow(r, r') && forall issued :: IssuedFrom(r, issued) ==> IssuedFrom(r', issued)
  {
    var r' := CommitRow(policy, r, ti, attempt, result, fail);
    forall i | 0 <= i < |r.trail|
      ensures TrailFits(r'.job.tasks[i], r'.trail[i])
    {
      CommittedTaskAt(policy, r.job, ti, result, fail, i);
      if i == ti {
        EndFits(r.job.tasks[i], r'.job.tasks[i], r.trail[i], DidCommit(attempt));
      }
    }
    var h := r.trail[ti];
    assert TrailFits(r.job.tasks[ti], h);
    assert h[|h| - 1] == DidGrant(attempt);
  }

  lemma CommittedTaskAt(policy: Policy, j: Job, ti: nat, result: StepResult, fail: string, i: nat)
    requires i < |j.tasks| && ti < |j.tasks| && j.tasks[ti].state.Leased?
    ensures var t := Committed(policy, j, ti, result, fail).tasks[i];
            if i == ti then t == CommittedTask(j.tasks[ti], result, fail)
            else t.(state := j.tasks[i].state) == j.tasks[i] &&
                 (t.state == j.tasks[i].state || (j.tasks[i].state.Pending? && (t.state.Ready? || t.state.Skipped?)))
  {
  }

  lemma CancelRowKeeps(policy: Policy, r: Row)
    requires RowOK(policy, r)
    ensures RowStep(policy, r, CancelRow(policy, r))
  {
    var r' := CancelRow(policy, r);
    CancelKeeps(policy, r.job);
    StuckKept(r.job, r'.job);
    forall i | 0 <= i < |r.trail|
      ensures TrailFits(r'.job.tasks[i], r'.trail[i])
    {
      CanceledTaskAt(policy, r.job, i);
    }
  }

  lemma CanceledTaskAt(policy: Policy, j: Job, i: nat)
    requires JobOK(policy, j) && i < |j.tasks|
    ensures var t := Canceled(policy, j).tasks[i];
            t == j.tasks[i] || ((j.tasks[i].state.Pending? || j.tasks[i].state.Ready?) && t.state.Skipped? && t.fence == j.tasks[i].fence)
  {
  }

  // A new job.

  lemma NewTasks(id: Id, plan: seq<PlanStep>)
    ensures var ts := Settled(InitialTasks(id, plan));
            forall i :: 0 <= i < |ts| ==>
              && ts[i].state == (if plan[i].operator then Skipped else if Unblocked(InitialTasks(id, plan), InitialTask(id, i, plan[i])) then Ready else Pending)
              && ts[i] == InitialTask(id, i, plan[i]).(state := ts[i].state)
  {
  }

  lemma NewRowOK(cfg: Config, opts: CreateOpts, id: Id, builtAt: int)
    ensures RowOK(cfg.policy, NewRow(cfg, opts, id, builtAt))
    ensures IssuedFrom(NewRow(cfg, opts, id, builtAt), {})
  {
    var r := NewRow(cfg, opts, id, builtAt);
    NewTasks(id, opts.plan);
    SettledIsFixpoint(InitialTasks(id, opts.plan));
    NewJobOK(cfg, opts, id, builtAt);
    NewStuck(r.job, id);
    forall i | 0 <= i < |r.trail|
      ensures TrailFits(r.job.tasks[i], r.trail[i]) && r.trail[i] == []
    {
    }
  }

  lemma NewJobOK(cfg: Config, opts: CreateOpts, id: Id, builtAt: int)
    ensures var j := Built(cfg, opts, id, builtAt);
            JobOK(cfg.policy, j) && FollowsPlan(j) && j.tasks == Settled(InitialTasks(id, opts.plan)) && j.plan == opts.plan
  {
    var ts := Settled(InitialTasks(id, opts.plan));
    NewTasks(id, opts.plan);
    SettledIsFixpoint(InitialTasks(id, opts.plan));
    NewOrder(id, opts.plan);
    assert Built(cfg, opts, id, builtAt).tasks == ts;
  }

  lemma NewOrder(id: Id, plan: seq<PlanStep>)
    ensures DependencyOrder(Settled(InitialTasks(id, plan)))
  {
    var init := InitialTasks(id, plan);
    var ts := Settled(init);
    forall i | 0 <= i < |ts| && Started(ts[i].state)
      ensures DepsMet(ts, ts[i])
    {
      SettledDepsMet(init, i);
    }
  }

  lemma NewStuck(j: Job, id: Id)
    requires j.tasks == Settled(InitialTasks(id, j.plan))
    ensures StuckNeverStart(j)
  {
    forall C | Stuck(j.plan, C)
      ensures Unstarted(j, C)
    {
      forall c | c in C
        ensures c < |j.tasks| && Waits(j.tasks[c].state, j.canceled)
      {
        NewStuckMember(id, j.plan, C, c);
      }
    }
  }

  lemma NewStuckMember(id: Id, plan: seq<PlanStep>, C: set<nat>, c: nat)
    requires Stuck(plan, C) && c in C
    ensures c < |plan| && Settled(InitialTasks(id, plan))[c].state.Pending?
  {
    var init := InitialTasks(id, plan);
    assert PlanIds(init) == StepIds(plan);
    var d :| d in plan[c].dependsOn && (var k := Provider(StepIds(plan), d); k < 0 || k in C);
    assert d in init[c].dependsOn;
    assert !Unblocked(init, init[c]);
  }
}
