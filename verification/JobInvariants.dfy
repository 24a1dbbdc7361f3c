/** What every operation on a job keeps, and how a job may change. */
module JobInvariants {
  import opened EvidenceTypes
  import opened JobTypes
  import opened Scheduling
  import opened JobOps
  import opened TaskIds

  // How a job may change in one operation.

  predicate SameTask(t: Task, t': Task) {
    t'.id == t.id && t'.jobId == t.jobId && t'.planId == t.planId && t'.kind == t.kind &&
    t'.operator == t.operator && t'.required == t.required && t'.dependsOn == t.dependsOn && t'.n == t.n
  }

  predicate StateMoves(s: TaskState, s': TaskState, skippable: bool) {
    match s
    case Pending => s'.Pending? || s'.Ready? || s'.Failed? || (s'.Skipped? && skippable)
    case Ready => s'.Ready? || s'.Leased? || s'.Failed? || (s'.Skipped? && skippable)
    case Leased => !s'.Pending? && (s'.Skipped? ==> skippable)
    case _ => s' == s
  }

  predicate TaskMoves(t: Task, t': Task, canceled: bool) {
    SameTask(t, t') && StateMoves(t.state, t'.state, canceled)
  }

  predicate SameJob(j: Job, j': Job) {
    j' == j.(status := j'.status, canceled := j'.canceled, tasks := j'.tasks, blockers := j'.blockers, validated := j'.validated)
  }

  predicate NoneWaiting(ts: seq<Task>) {
    forall i :: 0 <= i < |ts| ==> !ts[i].state.Pending? && !ts[i].state.Ready?
  }

  predicate Evolves(j: Job, j': Job) {
    && SameJob(j, j')
    && |j'.tasks| == |j.tasks|
    && (forall i :: 0 <= i < |j.tasks| ==> TaskMoves(j.tasks[i], j'.tasks[i], j'.canceled))
    && (forall i :: 0 <= i < |j.tasks| && j.tasks[i].state.Pending? && j'.tasks[i].state.Ready? ==>
          DepsMet(j'.tasks, j'.tasks[i]))
    && (j.canceled ==> j'.canceled)
    && (j'.canceled && !j.canceled ==> Live(j))
    && (j'.canceled ==> NoneWaiting(j'.tasks))
  }

  // What holds of a stored job.

  /** The cached fields are what recomputing them would give. */
  ghost predicate Current(policy: Policy, j: Job) {
    && Settled(j.tasks) == j.tasks
    && j.status == (if j.canceled then StatusCanceled else StatusOf(j.tasks))
    && Judged(policy, j) == j
  }

  predicate TaskOK(t: Task) {
    && (t.operator ==> t.state.Skipped?)
    && (t.state.Leased? <==> t.leaseUntil.Some?)
    && (t.state.Leased? ==> t.attempt != "")
    && (!t.state.Leased? ==> t.worker == "")
  }

  predicate TasksOK(j: Job) {
    forall i :: 0 <= i < |j.tasks| ==>
      j.tasks[i].jobId == j.id && j.tasks[i].id == TaskId(j.id, i) && TaskOK(j.tasks[i])
  }

  predicate Started(s: TaskState) {
    s.Ready? || s.Leased? || s.Succeeded?
  }

  /** No task is ready, leased or succeeded before all its dependencies are done. */
  predicate DependencyOrder(ts: seq<Task>) {
    forall i :: 0 <= i < |ts| && Started(ts[i].state) ==> DepsMet(ts, ts[i])
  }

  ghost predicate JobOK(policy: Policy, j: Job) {
    && j.deadline.Some?
    && Current(policy, j)
    && TasksOK(j)
    && (j.canceled ==> NoneWaiting(j.tasks))
    && DependencyOrder(j.tasks)
  }

  lemma DepsStayMet(ts: seq<Task>, ts': seq<Task>, t: Task, t': Task)
    requires |ts'| == |ts|
    requires forall i :: 0 <= i < |ts| ==> ts'[i].planId == ts[i].planId && (Done(ts[i].state) ==> Done(ts'[i].state))
    requires t'.dependsOn == t.dependsOn
    requires DepsMet(ts, t)
    ensures DepsMet(ts', t')
  {
    assert PlanIds(ts') == PlanIds(ts);
    forall d | d in t'.dependsOn
      ensures Satisfied(ts', d)
    {
      assert Satisfied(ts, d);
    }
  }

  lemma OrderKept(j: Job, j': Job)
    requires DependencyOrder(j.tasks) && Evolves(j, j')
    ensures DependencyOrder(j'.tasks)
  {
    forall i | 0 <= i < |j'.tasks| && Started(j'.tasks[i].state)
      ensures DepsMet(j'.tasks, j'.tasks[i])
    {
      assert TaskMoves(j.tasks[i], j'.tasks[i], j'.canceled);
      if !j.tasks[i].state.Pending? {
        DepsStayMet(j.tasks, j'.tasks, j.tasks[i], j'.tasks[i]);
      }
    }
  }

  lemma RefreshIsCurrent(policy: Policy, j: Job)
    ensures Current(policy, Refresh(policy, j))
  {
    SettledIsFixpoint(j.tasks);
  }

  /** The tasks of a job after an update and before settling: what moved is no longer pending, and
      nothing pending became ready yet. */
  predicate RawUpdate(j: Job, raw: Job) {
    && SameJob(j, raw)
    && |raw.tasks| == |j.tasks|
    && (j.canceled ==> raw.canceled)
    && (raw.canceled && !j.canceled ==> Live(j))
    && (raw.canceled ==> NoneWaiting(raw.tasks))
    && (forall i :: 0 <= i < |j.tasks| ==>
          && TaskMoves(j.tasks[i], raw.tasks[i], raw.canceled)
          && TaskOK(raw.tasks[i])
          && (raw.tasks[i].state.Pending? ==> raw.tasks[i] == j.tasks[i])
          && (j.tasks[i].state.Pending? ==> !raw.tasks[i].state.Ready?))
  }

  lemma SettledDepsMet(ts: seq<Task>, i: nat)
    requires i < |ts| && ts[i].state.Pending? && Settled(ts)[i].state.Ready?
    ensures DepsMet(Settled(ts), Settled(ts)[i])
  {
    forall d | d in ts[i].dependsOn
      ensures Satisfied(Settled(ts), d)
    {
    }
  }

  lemma RefreshKeeps(policy: Policy, j: Job, raw: Job)
    requires JobOK(policy, j) && RawUpdate(j, raw)
    ensures JobOK(policy, Refresh(policy, raw))
    ensures Evolves(j, Refresh(policy, raw))
  {
    var r := Refresh(policy, raw);
    RefreshIsCurrent(policy, raw);
    forall i | 0 <= i < |j.tasks|
      ensures TaskMoves(j.tasks[i], r.tasks[i], r.canceled) && TaskOK(r.tasks[i])
      ensures j.tasks[i].state.Pending? && r.tasks[i].state.Ready? ==> DepsMet(r.tasks, r.tasks[i])
    {
      assert TaskMoves(j.tasks[i], raw.tasks[i], raw.canceled);
      if raw.tasks[i].state.Pending? && r.tasks[i].state.Ready? {
        SettledDepsMet(raw.tasks, i);
      }
    }
    assert Evolves(j, r);
    OrderKept(j, r);
  }

  // Each operation keeps a stored job well formed, and changes it only as Evolves allows.

  lemma StayKeeps(j: Job)
    requires j.canceled ==> NoneWaiting(j.tasks)
    ensures Evolves(j, j)
  {
  }

  lemma ClosedIsSettled(ts: seq<Task>)
    requires forall i :: 0 <= i < |ts| ==> !ts[i].state.Pending?
    ensures Settled(ts) == ts
  {
  }

  lemma KilledIsFailed(ts: seq<Task>)
    requires StatusOf(ts).StatusPending? || StatusOf(ts).StatusRunning?
    ensures StatusOf(KilledTasks(ts)) == StatusFailed
  {
    var i :| 0 <= i < |ts| && Open(ts[i].state);
    assert KilledTasks(ts)[i].state == Failed;
  }

  lemma KillEvolves(policy: Policy, j: Job)
    requires TasksOK(j) && Live(j)
    ensures Evolves(j, Killed(policy, j)) && TasksOK(Killed(policy, j))
  {
    var r := Killed(policy, j);
    forall i | 0 <= i < |j.tasks|
      ensures TaskMoves(j.tasks[i], r.tasks[i], r.canceled) && TaskOK(r.tasks[i])
    {
      assert r.tasks[i] == KilledTask(j.tasks[i]);
    }
  }

  lemma KillKeeps(policy: Policy, j: Job)
    requires JobOK(policy, j) && Live(j)
    ensures JobOK(policy, Killed(policy, j))
    ensures Evolves(j, Killed(policy, j))
  {
    ClosedIsSettled(KilledTasks(j.tasks));
    KilledIsFailed(j.tasks);
    KillEvolves(policy, j);
    OrderKept(j, Killed(policy, j));
  }

  lemma ExpiryIsRaw(j: Job, now: int)
    requires TasksOK(j) && (j.canceled ==> NoneWaiting(j.tasks))
    ensures RawUpdate(j, j.(tasks := ExpiredTasks(j.tasks, now, j.canceled)))
  {
  }

  lemma SweepKeeps(policy: Policy, j: Job, now: int)
    requires JobOK(policy, j)
    ensures JobOK(policy, Swept(policy, j, now))
    ensures Evolves(j, Swept(policy, j, now))
  {
    if Overdue(j, now) {
      KillKeeps(policy, j);
    } else if AnyLeaseOver(j.tasks, now) {
      ExpiryIsRaw(j, now);
      RefreshKeeps(policy, j, j.(tasks := ExpiredTasks(j.tasks, now, j.canceled)));
    } else {
      StayKeeps(j);
    }
  }

  lemma GrantKeepsTasks(j: Job, ti: nat, attempt: Id, worker: string, now: int)
    requires Settled(j.tasks) == j.tasks
    requires ti < |j.tasks| && j.tasks[ti].state.Ready?
    ensures var r := Granted(j, ti, attempt, worker, now);
            Settled(r.tasks) == r.tasks && r.status == StatusOf(j.tasks)
  {
    var r := Granted(j, ti, attempt, worker, now);
    assert PlanIds(r.tasks) == PlanIds(j.tasks);
    forall i | 0 <= i < |r.tasks|
      ensures SettledTask(r.tasks, r.tasks[i]) == r.tasks[i]
    {
      assert SettledTask(j.tasks, j.tasks[i]) == Settled(j.tasks)[i];
      if r.tasks[i].state.Pending? {
        var d :| d in j.tasks[i].dependsOn && !(var k := Provider(PlanIds(j.tasks), d); k >= 0 && Settling(j.tasks[k]));
      }
    }
    SameStatusAfterGrant(j.tasks, r.tasks, ti);
  }

  lemma SameStatusAfterGrant(ts: seq<Task>, ts': seq<Task>, ti: nat)
    requires ti < |ts| == |ts'| && ts[ti].state.Ready? && ts'[ti].state.Leased?
    requires forall i :: 0 <= i < |ts| && i != ti ==> ts'[i] == ts[i]
    ensures StatusOf(ts') == StatusOf(ts)
  {
    assert Has(ts', Leased) && Has(ts, Ready);
    if Has(ts, Failed) {
      var k :| 0 <= k < |ts| && ts[k].state == Failed;
      assert ts'[k].state == Failed;
    }
    if Has(ts', Failed) {
      var k :| 0 <= k < |ts'| && ts'[k].state == Failed;
      assert ts[k].state == Failed;
    }
  }

  /** The short update of a lease leaves nothing stale: a full refresh would change nothing. */
  lemma GrantKeeps(policy: Policy, j: Job, ti: nat, attempt: Id, worker: string, now: int)
    requires JobOK(policy, j)
    requires ti < |j.tasks| && j.tasks[ti].state.Ready? && !j.canceled && attempt != ""
    ensures var r := Granted(j, ti, attempt, worker, now);
            JobOK(policy, r) && Evolves(j, r) && Refresh(policy, r) == r && r.status == j.status
  {
    GrantKeepsTasks(j, ti, attempt, worker, now);
    GrantEvolves(j, ti, attempt, worker, now);
    assert Has(j.tasks, Ready);
    OrderKept(j, Granted(j, ti, attempt, worker, now));
  }

  lemma GrantEvolves(j: Job, ti: nat, attempt: Id, worker: string, now: int)
    requires TasksOK(j) && !j.canceled
    requires ti < |j.tasks| && j.tasks[ti].state.Ready? && attempt != ""
    ensures var r := Granted(j, ti, attempt, worker, now); Evolves(j, r) && TasksOK(r)
  {
  }

  lemma SameStatesSettled(ts: seq<Task>, ts': seq<Task>)
    requires |ts'| == |ts| && Settled(ts) == ts
    requires forall i :: 0 <= i < |ts| ==> SameTask(ts[i], ts'[i]) && ts'[i].state == ts[i].state
    ensures Settled(ts') == ts' && StatusOf(ts') == StatusOf(ts)
  {
    assert PlanIds(ts') == PlanIds(ts);
    forall i | 0 <= i < |ts'|
      ensures SettledTask(ts', ts'[i]) == ts'[i]
    {
      assert SettledTask(ts, ts[i]) == Settled(ts)[i];
      if ts'[i].state.Pending? {
        var d :| d in ts[i].dependsOn && !(var k := Provider(PlanIds(ts), d); k >= 0 && Settling(ts[k]));
      }
    }
    assert forall s :: Has(ts', s) <==> Has(ts, s);
  }

  lemma ExtendKeeps(policy: Policy, j: Job, ti: nat, now: int)
    requires JobOK(policy, j) && ti < |j.tasks| && j.tasks[ti].state.Leased?
    ensures JobOK(policy, Extended(j, ti, now)) && Evolves(j, Extended(j, ti, now))
  {
    var r := Extended(j, ti, now);
    SameStatesSettled(j.tasks, r.tasks);
    assert Has(j.tasks, Leased);
    assert Evolves(j, r);
    OrderKept(j, r);
  }

  lemma CommitIsRaw(j: Job, ti: nat, result: StepResult, fail: string)
    requires TasksOK(j) && (j.canceled ==> NoneWaiting(j.tasks))
    requires ti < |j.tasks| && j.tasks[ti].state.Leased?
    ensures RawUpdate(j, j.(tasks := j.tasks[ti := CommittedTask(j.tasks[ti], result, fail)]))
  {
  }

  lemma CommitKeeps(policy: Policy, j: Job, ti: nat, result: StepResult, fail: string)
    requires JobOK(policy, j) && ti < |j.tasks| && j.tasks[ti].state.Leased?
    ensures JobOK(policy, Committed(policy, j, ti, result, fail))
    ensures Evolves(j, Committed(policy, j, ti, result, fail))
  {
    CommitIsRaw(j, ti, result, fail);
    RefreshKeeps(policy, j, j.(tasks := j.tasks[ti := CommittedTask(j.tasks[ti], result, fail)]));
  }

  lemma CancelIsRaw(j: Job)
    requires TasksOK(j) && Live(j)
    ensures RawUpdate(j, j.(canceled := true, tasks := CanceledTasks(j.tasks)))
  {
    forall i | 0 <= i < |j.tasks|
      ensures var t, t' := j.tasks[i], CanceledTasks(j.tasks)[i];
              TaskMoves(t, t', true) && TaskOK(t') && !t'.state.Pending? && !t'.state.Ready?
    {
    }
  }

  lemma CancelKeeps(policy: Policy, j: Job)
    requires JobOK(policy, j)
    ensures JobOK(policy, Canceled(policy, j))
    ensures Evolves(j, Canceled(policy, j))
  {
    if Live(j) {
      CancelIsRaw(j);
      RefreshKeeps(policy, j, j.(canceled := true, tasks := CanceledTasks(j.tasks)));
    } else {
      StayKeeps(j);
    }
  }

  // Consequences for a whole job.

  /** complete, failed and canceled are absorbing. */
  lemma TerminalStatusAbsorbing(policy: Policy, j: Job, j': Job)
    requires JobOK(policy, j) && JobOK(policy, j') && Evolves(j, j')
    requires j.status.StatusComplete? || j.status.StatusFailed? || j.status.StatusCanceled?
    ensures j'.status == j.status
  {
    if !j.canceled {
      TerminalTasks(j.tasks, j'.tasks, j'.canceled);
    }
  }

  lemma TerminalTasks(ts: seq<Task>, ts': seq<Task>, canceled: bool)
    requires |ts| == |ts'| && forall i :: 0 <= i < |ts| ==> TaskMoves(ts[i], ts'[i], canceled)
    requires StatusOf(ts).StatusComplete? || StatusOf(ts).StatusFailed?
    ensures StatusOf(ts') == StatusOf(ts)
  {
    if StatusOf(ts).StatusFailed? {
      var k :| 0 <= k < |ts| && ts[k].state == Failed;
      assert ts'[k].state == Failed;
    } else {
      forall k | 0 <= k < |ts|
        ensures ts'[k].state == ts[k].state
      {
        assert Has(ts, ts[k].state);
      }
    }
  }
}
