/** What the clock guarantees: how long a worker keeps its lease, and what a sweep leaves behind. */
module Timing {
  import opened Base
  import opened EvidenceTypes
  import opened JobTypes
  import opened Scheduling
  import opened JobOps
  import opened JobInvariants
  import opened Admission
  import opened StoreModel
  import opened RowInvariants
  import opened StoreInvariants
  import opened Runs
  import opened Text

  // Sweeps.

  lemma SweepLeavesNothing(policy: Policy, j: Job, now: int)
    requires JobOK(policy, j)
    ensures var r := Swept(policy, j, now);
            !Overdue(r, now) && !AnyLeaseOver(r.tasks, now) && Swept(policy, r, now) == r
  {
    var r := Swept(policy, j, now);
    SweepKeeps(policy, j, now);
    forall i | 0 <= i < |r.tasks|
      ensures !LeaseOver(r.tasks[i], now)
    {
      SweptTask(policy, j, now, i);
      if LeaseOver(j.tasks[i], now) {
        SweptOver(policy, j, now, i);
      }
    }
    if !Live(j) {
      TerminalStatusAbsorbing(policy, j, r);
    }
  }

  lemma SweptOver(policy: Policy, j: Job, now: int, i: nat)
    requires i < |j.tasks| && LeaseOver(j.tasks[i], now)
    ensures !Swept(policy, j, now).tasks[i].state.Leased?
  {
    if Overdue(j, now) {
      assert Swept(policy, j, now).tasks[i] == KilledTask(j.tasks[i]);
    } else {
      var e := ExpiredTasks(j.tasks, now, j.canceled);
      assert Swept(policy, j, now).tasks[i] == SettledTask(e, e[i]);
    }
  }

  /** After a sweep at now no unfinished job is past its deadline and no lease is past its end; a
      second sweep at the same time changes nothing, not even a trail. */
  lemma SweepIsComplete(cfg: Config, w: World, now: int)
    requires WorldOK(cfg, w)
    ensures Shape(w)
    ensures var w' := SweepWorld(cfg, w, now);
            && (forall i :: 0 <= i < |w'.rows| ==>
                  && (Occupies(w'.rows[i].job) ==> now <= w'.rows[i].job.deadline.value)
                  && !AnyLeaseOver(w'.rows[i].job.tasks, now))
            && SweepWorld(cfg, w', now) == w'
  {
    OKHasShape(cfg, w);
    var w' := SweepWorld(cfg, w, now);
    var w'' := SweepWorld(cfg, w', now);
    forall i | 0 <= i < |w'.rows|
      ensures Occupies(w'.rows[i].job) ==> w'.rows[i].job.deadline.Some? && now <= w'.rows[i].job.deadline.value
      ensures !AnyLeaseOver(w'.rows[i].job.tasks, now)
      ensures w''.rows[i] == w'.rows[i]
    {
      assert RowOK(cfg.policy, w.rows[i]);
      SweepLeavesNothing(cfg.policy, w.rows[i].job, now);
      SweepKeeps(cfg.policy, w.rows[i].job, now);
      SweepRowTwice(cfg.policy, w.rows[i], now);
    }
    assert w''.rows == w'.rows;
  }

  lemma SweepRowTwice(policy: Policy, r: Row, now: int)
    requires RowOK(policy, r)
    ensures SweepRow(policy, SweepRow(policy, r, now), now) == SweepRow(policy, r, now)
  {
    var r' := SweepRow(policy, r, now);
    var r'' := SweepRow(policy, r', now);
    SweepLeavesNothing(policy, r.job, now);
    forall i | 0 <= i < |r'.trail|
      ensures r''.trail[i] == r'.trail[i]
    {
      assert SweepEntry(r'.job.tasks[i], r''.job.tasks[i]) == [];
    }
    assert r''.trail == r'.trail;
  }

  // Leases.

  /** The worker holds the task under this attempt, at least until the given time. */
  predicate Holds(w: World, ji: nat, ti: nat, attempt: Id, holder: string, until: int) {
    && TaskAt(w, ji, ti)
    && TaskOf(w, ji, ti).state.Leased?
    && TaskOf(w, ji, ti).attempt == attempt && TaskOf(w, ji, ti).worker == holder
    && TaskOf(w, ji, ti).leaseUntil.Some?
    && until <= TaskOf(w, ji, ti).leaseUntil.value
  }

  function ClockOf(e: Event): Option<int> {
    match e
    case CreateEvent(_, _, _, _, now) => Some(now)
    case LeaseEvent(_, _, now) => Some(now)
    case HeartbeatEvent(_, _, _, now) => Some(now)
    case SweepEvent(now) => Some(now)
    case _ => None
  }

  /** An event that happens no later than the lease and the job's deadline allow. */
  predicate InTime(w: World, e: Event, ji: nat, since: int)
    requires ji < |w.rows|
  {
    ClockOf(e).Some? ==>
      && since <= ClockOf(e).value <= since + LEASE_TTL
      && (w.rows[ji].job.deadline.Some? ==> ClockOf(e).value <= w.rows[ji].job.deadline.value)
  }

  lemma SweptHolds(policy: Policy, j: Job, now: int, ti: nat)
    requires JobOK(policy, j) && ti < |j.tasks| && j.tasks[ti].state.Leased?
    requires now <= j.tasks[ti].leaseUntil.value && now <= j.deadline.value
    ensures Swept(policy, j, now).tasks[ti] == j.tasks[ti]
  {
    if AnyLeaseOver(j.tasks, now) {
      var e := ExpiredTasks(j.tasks, now, j.canceled);
      assert Swept(policy, j, now).tasks[ti] == SettledTask(e, e[ti]);
    }
  }

  lemma SweepHolds(cfg: Config, w: World, now: int, ji: nat, ti: nat, attempt: Id, holder: string, until: int)
    requires Shape(w) && WorldOK(cfg, w) && Holds(w, ji, ti, attempt, holder, until)
    requires now <= until && now <= w.rows[ji].job.deadline.value
    ensures Holds(SweepWorld(cfg, w, now), ji, ti, attempt, holder, until)
  {
    assert RowOK(cfg.policy, w.rows[ji]);
    SweptHolds(cfg.policy, w.rows[ji].job, now, ti);
    assert SweepWorld(cfg, w, now).rows[ji] == SweepRow(cfg.policy, w.rows[ji], now);
  }

  lemma RowTimes(cfg: Config, w: World, ji: nat)
    requires WorldOK(cfg, w) && ji < |w.rows|
    ensures w.rows[ji].job.deadline.Some? && JobOK(cfg.policy, w.rows[ji].job)
  {
    assert RowOK(cfg.policy, w.rows[ji]);
  }

  lemma GrantHolds(w: World, ja: nat, tb: nat, a: Id, worker: string, now: int,
                   ji: nat, ti: nat, attempt: Id, holder: string, until: int)
    requires Shape(w) && Holds(w, ji, ti, attempt, holder, until) && TaskAt(w, ja, tb) && !TaskOf(w, ja, tb).state.Leased?
    ensures Holds(w.(rows := w.rows[ja := GrantRow(w.rows[ja], tb, a, worker, now)], issued := w.issued + {a}), ji, ti, attempt, holder, until)
  {
  }

  lemma LeaseHolds(cfg: Config, w: World, worker: Worker, a: Id, now: int, ji: nat, ti: nat, attempt: Id, holder: string, until: int)
    requires Shape(w) && Holds(w, ji, ti, attempt, holder, until)
    requires Holds(SweepWorld(cfg, w, now), ji, ti, attempt, holder, until)
    ensures Holds(LeaseStep(cfg, w, worker, a, now), ji, ti, attempt, holder, until)
  {
    if !Blank(worker.id) {
      var w1 := SweepWorld(cfg, w, now);
      var c := LeaseChoice(w1, worker);
      if c.Pick? {
        assert Leasable(Jobs(w1)[c.ji].tasks[c.ti]);
        GrantHolds(w1, c.ji, c.ti, a, worker.id, now, ji, ti, attempt, holder, until);
      }
    }
  }

  lemma HeartbeatHolds(w: World, task: Id, a: Id, worker: string, now: int, ji: nat, ti: nat, attempt: Id, holder: string, until: int)
    requires Shape(w) && Holds(w, ji, ti, attempt, holder, until) && until <= now + LEASE_TTL
    ensures Holds(HeartbeatStep(w, task, a, worker, now), ji, ti, attempt, holder, until)
  {
  }

  lemma CancelHolds(cfg: Config, w: World, id: Id, ji: nat, ti: nat, attempt: Id, holder: string, until: int)
    requires Shape(w) && Holds(w, ji, ti, attempt, holder, until) && JobOK(cfg.policy, w.rows[ji].job)
    ensures Holds(CancelStep(cfg, w, id), ji, ti, attempt, holder, until)
  {
    if RowOf(w, id).Some? && RowOf(w, id).value == ji {
      CanceledTaskAt(cfg.policy, w.rows[ji].job, ti);
    }
  }

  lemma CreateHolds(cfg: Config, w: World, e: Event, ji: nat, ti: nat, attempt: Id, holder: string, until: int)
    requires Shape(w) && e.CreateEvent? && Holds(w, ji, ti, attempt, holder, until)
    requires Holds(SweepWorld(cfg, w, e.now), ji, ti, attempt, holder, until)
    ensures Holds(CreateStep(cfg, w, e.opts, e.id, e.checkedAt, e.builtAt, e.now), ji, ti, attempt, holder, until)
  {
  }

  lemma StepHolds(cfg: Config, w: World, e: Event, ji: nat, ti: nat, attempt: Id, holder: string, since: int)
    requires Shape(w) && WorldOK(cfg, w)
    requires Holds(w, ji, ti, attempt, holder, since + LEASE_TTL) && InTime(w, e, ji, since)
    requires !Accepted(w, e, TaskOf(w, ji, ti).id)
    ensures Holds(Step(cfg, w, e), ji, ti, attempt, holder, since + LEASE_TTL)
  {
    var until := since + LEASE_TTL;
    RowTimes(cfg, w, ji);
    match e
    case CreateEvent(_, _, _, _, now) =>
      SweepHolds(cfg, w, now, ji, ti, attempt, holder, until);
      CreateHolds(cfg, w, e, ji, ti, attempt, holder, until);
    case LeaseEvent(worker, a, now) =>
      SweepHolds(cfg, w, now, ji, ti, attempt, holder, until);
      LeaseHolds(cfg, w, worker, a, now, ji, ti, attempt, holder, until);
    case HeartbeatEvent(task, a, workerId, now) => HeartbeatHolds(w, task, a, workerId, now, ji, ti, attempt, holder, until);
    case CommitEvent(task, a, result, fail) => CommitHolds(cfg, w, task, a, result, fail, ji, ti, attempt, holder, until);
    case SweepEvent(now) => SweepHolds(cfg, w, now, ji, ti, attempt, holder, until);
    case CancelEvent(id) => CancelHolds(cfg, w, id, ji, ti, attempt, holder, until);
    case QuotaEvent(q) =>
  }

  lemma CommitHolds(cfg: Config, w: World, task: Id, a: Id, result: StepResult, fail: string,
                    ji: nat, ti: nat, attempt: Id, holder: string, until: int)
    requires Shape(w) && Holds(w, ji, ti, attempt, holder, until)
    requires !Accepted(w, CommitEvent(task, a, result, fail), TaskOf(w, ji, ti).id)
    ensures Holds(CommitStep(cfg, w, task, a, result, fail), ji, ti, attempt, holder, until)
  {
    if CommitOutcome(w, task, a, result, fail).None? {
      var (ja, tb) := Locate(w, task).value;
      if ja == ji {
        CommittedTaskAt(cfg.policy, w.rows[ji].job, tb, result, fail, ti);
      }
    }
  }

  /** A worker that leased or last heartbeat at time since keeps its attempt through every operation
      of the next fifteen seconds that is not past the job's deadline, unless it commits. */
  lemma {:induction false} LeaseIsKept(cfg: Config, ws: seq<World>, es: seq<Event>, m: nat, n: nat,
                                       ji: nat, ti: nat, attempt: Id, holder: string, since: int)
    requires Run(cfg, ws, es) && m <= n < |ws|
    requires Holds(ws[m], ji, ti, attempt, holder, since + LEASE_TTL)
    requires forall k :: m <= k < n ==> ji < |ws[k].rows| && InTime(ws[k], es[k], ji, since)
    requires forall k :: m <= k < n ==> !Accepted(ws[k], es[k], TaskOf(ws[m], ji, ti).id)
    ensures Holds(ws[n], ji, ti, attempt, holder, since + LEASE_TTL)
    decreases n
  {
    if m < n {
      LeaseIsKept(cfg, ws, es, m, n - 1, ji, ti, attempt, holder, since);
      RunTaskLater(cfg, ws, es, m, n - 1, ji, ti);
      LeaseIsKeptOnce(cfg, ws, es, n - 1, ji, ti, attempt, holder, since);
    }
  }

  lemma LeaseIsKeptOnce(cfg: Config, ws: seq<World>, es: seq<Event>, k: nat, ji: nat, ti: nat, attempt: Id, holder: string, since: int)
    requires Run(cfg, ws, es) && k < |es|
    requires Holds(ws[k], ji, ti, attempt, holder, since + LEASE_TTL) && InTime(ws[k], es[k], ji, since)
    requires !Accepted(ws[k], es[k], TaskOf(ws[k], ji, ti).id)
    ensures Holds(ws[k + 1], ji, ti, attempt, holder, since + LEASE_TTL)
  {
    RunOK(cfg, ws, es, k);
    assert StepAt(cfg, ws, es, k);
    StepHolds(cfg, ws[k], es[k], ji, ti, attempt, holder, since);
  }

  /** Whoever holds a task is heard: the heartbeat is accepted, and so is every commit that claims no
      pass. */
  lemma HolderIsHeard(cfg: Config, w: World, ji: nat, ti: nat, attempt: Id, holder: string, until: int,
                      result: StepResult, fail: string)
    requires WorldOK(cfg, w) && Holds(w, ji, ti, attempt, holder, until)
    ensures HeartbeatOutcome(w, TaskOf(w, ji, ti).id, attempt, holder).None?
    ensures CommitOutcome(w, TaskOf(w, ji, ti).id, attempt, result, fail).None? <==>
              fail != "" || (result.verdict != "pass" && result.verdict != "validated")
  {
    var tid := TaskOf(w, ji, ti).id;
    assert IsAt(w, tid, ji, ti);
    var (a, b) := Locate(w, tid).value;
    TaskIdUnique(cfg, w, tid, ji, ti, a, b);
  }

  /** So the worker's next heartbeat within those fifteen seconds is accepted, and its commit unless it
      claims a pass. */
  lemma LeaseIsHonoured(cfg: Config, ws: seq<World>, es: seq<Event>, m: nat, n: nat, ji: nat, ti: nat, attempt: Id, holder: string,
                        since: int, result: StepResult, fail: string)
    requires Run(cfg, ws, es) && m <= n < |ws|
    requires Holds(ws[m], ji, ti, attempt, holder, since + LEASE_TTL)
    requires forall k :: m <= k < n ==> ji < |ws[k].rows| && InTime(ws[k], es[k], ji, since)
    requires forall k :: m <= k < n ==> !Accepted(ws[k], es[k], TaskOf(ws[m], ji, ti).id)
    ensures var tid := TaskOf(ws[m], ji, ti).id;
            HeartbeatOutcome(ws[n], tid, attempt, holder).None? &&
            (CommitOutcome(ws[n], tid, attempt, result, fail).None? <==>
               fail != "" || (result.verdict != "pass" && result.verdict != "validated"))
  {
    LeaseIsKept(cfg, ws, es, m, n, ji, ti, attempt, holder, since);
    RunTaskLater(cfg, ws, es, m, n, ji, ti);
    RunOK(cfg, ws, es, n);
    HolderIsHeard(cfg, ws[n], ji, ti, attempt, holder, since + LEASE_TTL, result, fail);
  }

  /** A granted lease, and an accepted heartbeat, hold the task for the next fifteen seconds. */
  lemma LeaseBegins(cfg: Config, w: World, worker: Worker, attempt: Id, now: int)
    requires Shape(w) && !Blank(worker.id) && LeaseChoice(SweepWorld(cfg, w, now), worker).Pick?
    ensures var c := LeaseChoice(SweepWorld(cfg, w, now), worker);
            Holds(LeaseStep(cfg, w, worker, attempt, now), c.ji, c.ti, attempt, worker.id, now + LEASE_TTL)
  {
    var w1 := SweepWorld(cfg, w, now);
    var c := LeaseChoice(w1, worker);
    assert RowShape(w1.rows[c.ji]);
  }

  lemma HeartbeatExtends(w: World, tid: Id, attempt: Id, worker: string, now: int)
    requires Shape(w) && HeartbeatOutcome(w, tid, attempt, worker).None?
    ensures var at := Locate(w, tid).value;
            Holds(HeartbeatStep(w, tid, attempt, worker, now), at.0, at.1, attempt, worker, now + LEASE_TTL)
  {
    assert RowShape(w.rows[Locate(w, tid).value.0]);
  }
}
