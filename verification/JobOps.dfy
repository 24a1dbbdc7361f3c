/** The operations on a single job (internal/jobs/enqueue.go, internal/jobs/earned.go): each is
    given as a function of the job, and as the loop or update the source runs, proved equal to it. */
module JobOps {
  import opened Base
  import opened EvidenceTypes
  import opened JobTypes
  import opened Scheduling
  import opened Overall

  /** A job that can still be cancelled or run past its deadline. */
  predicate Live(j: Job) {
    !j.canceled && (j.status.StatusPending? || j.status.StatusRunning?)
  }

  /** The result a task contributes to the evidence; unfinished tasks count as incomplete. */
  function TaskEvidence(t: Task): StepResult {
    var sr := t.result;
    var named := sr.(id := if sr.id == "" then t.planId else sr.id, kind := if sr.kind == "" then t.kind else sr.kind);
    match t.state
    case Skipped => if sr.verdict == "" then named.(verdict := VERDICT_SKIPPED) else named
    case Succeeded => named
    case Failed => if sr.verdict == "" then named.(verdict := VERDICT_INCOMPLETE) else named
    case _ => named.(verdict := VERDICT_INCOMPLETE)
  }

  function EvidenceOf(ts: seq<Task>): Evidence {
    var steps := seq(|ts|, i requires 0 <= i < |ts| => TaskEvidence(ts[i]));
    Evidence(OverallOf(steps), steps)
  }

  function InputOf(j: Job, ev: Evidence): Input {
    Input([], j.baselineRev, j.patchRev, j.baseline, j.patch, j.plan, ev, j.impacted, j.workload, j.changes)
  }

  function JobDecision(policy: Policy, j: Job): Decision {
    if j.canceled || !j.status.StatusComplete? then
      Decision(false, [Blocker("step_failed", "job:" + StatusName(j.status))], "")
    else
      policy(InputOf(j, EvidenceOf(j.tasks)))
  }

  function Judged(policy: Policy, j: Job): Job {
    var d := JobDecision(policy, j);
    j.(validated := d.validated, blockers := d.blockers)
  }

  /** The job with tasks settled and every cached field recomputed. */
  function Refresh(policy: Policy, j: Job): Job {
    var ts := Settled(j.tasks);
    Judged(policy, j.(tasks := ts, status := if j.canceled then StatusCanceled else StatusOf(ts)))
  }

  // Deadline and expiry.

  function EffectiveDeadline(j: Job): Option<int> {
    if j.deadline.Some? then j.deadline
    else if j.created.Some? then Some(j.created.value + DEFAULT_DEADLINE)
    else None
  }

  predicate Overdue(j: Job, now: int) {
    EffectiveDeadline(j).Some? && now > EffectiveDeadline(j).value && Live(j)
  }

  predicate Open(s: TaskState) {
    s.Pending? || s.Ready? || s.Leased?
  }

  function KilledTask(t: Task): Task {
    if Open(t.state) then t.(state := Failed, err := "deadline", worker := "", leaseUntil := None) else t
  }

  function KilledTasks(ts: seq<Task>): (r: seq<Task>)
    ensures |r| == |ts|
  {
    seq(|ts|, i requires 0 <= i < |ts| => KilledTask(ts[i]))
  }

  function Killed(policy: Policy, j: Job): Job {
    Judged(policy, j.(tasks := KilledTasks(j.tasks), status := StatusFailed))
  }

  predicate LeaseOver(t: Task, now: int) {
    t.state.Leased? && t.leaseUntil.Some? && t.leaseUntil.value < now
  }

  function ExpiredTask(t: Task, now: int, canceled: bool): Task {
    if !LeaseOver(t, now) then t
    else if canceled then t.(state := Skipped, err := "canceled", attempt := "", worker := "", leaseUntil := None)
    else t.(state := Ready, attempt := "", worker := "", leaseUntil := None)
  }

  function ExpiredTasks(ts: seq<Task>, now: int, canceled: bool): (r: seq<Task>)
    ensures |r| == |ts|
  {
    seq(|ts|, i requires 0 <= i < |ts| => ExpiredTask(ts[i], now, canceled))
  }

  predicate AnyLeaseOver(ts: seq<Task>, now: int) {
    exists i :: 0 <= i < |ts| && LeaseOver(ts[i], now)
  }

  /** One job as the reaper leaves it at time now. */
  function Swept(policy: Policy, j: Job, now: int): (r: Job)
    ensures |r.tasks| == |j.tasks|
  {
    if Overdue(j, now) then Killed(policy, j)
    else if AnyLeaseOver(j.tasks, now) then
      Refresh(policy, j.(tasks := ExpiredTasks(j.tasks, now, j.canceled)))
    else j
  }

  function CountOver(ts: seq<Task>, now: int): nat {
    if ts == [] then 0
    else CountOver(ts[..|ts| - 1], now) + (if LeaseOver(ts[|ts| - 1], now) then 1 else 0)
  }

  /** How much one job adds to the reaper's count. */
  function SweepCount(j: Job, now: int): nat {
    if Overdue(j, now) then 1 else CountOver(j.tasks, now)
  }

  // Lease, heartbeat, commit and cancel.

  function GrantedTask(t: Task, attempt: Id, worker: string, now: int): Task {
    t.(state := Leased, attempt := attempt, fence := t.fence + 1, worker := worker,
       leaseUntil := Some(now + LEASE_TTL))
  }

  /** The short update a lease performs: only the task and the status are written. */
  function Granted(j: Job, ti: nat, attempt: Id, worker: string, now: int): (r: Job)
    requires ti < |j.tasks|
    ensures |r.tasks| == |j.tasks|
  {
    var ts := j.tasks[ti := GrantedTask(j.tasks[ti], attempt, worker, now)];
    j.(tasks := ts, status := StatusOf(ts))
  }

  function HeartbeatError(t: Task, attempt: Id, worker: string): Option<Error> {
    if !t.state.Leased? then Some(ErrNotLeased)
    else if t.attempt != attempt || t.worker != worker then Some(ErrStaleAttempt)
    else None
  }

  function Extended(j: Job, ti: nat, now: int): (r: Job)
    requires ti < |j.tasks|
    ensures |r.tasks| == |j.tasks|
  {
    j.(tasks := j.tasks[ti := j.tasks[ti].(leaseUntil := Some(now + LEASE_TTL))])
  }

  function CommitError(t: Task, attempt: Id, result: StepResult, fail: string): Option<Error> {
    if !t.state.Leased? then Some(ErrNotLeased)
    else if t.attempt != attempt then Some(ErrStaleAttempt)
    else if fail == "" && (result.verdict == "pass" || result.verdict == "validated") then Some(ErrResultIsPass)
    else None
  }

  function CommittedTask(t: Task, result: StepResult, fail: string): Task {
    t.(state := if fail != "" then Failed else Succeeded, err := fail, result := result,
       worker := "", leaseUntil := None)
  }

  function Committed(policy: Policy, j: Job, ti: nat, result: StepResult, fail: string): (r: Job)
    requires ti < |j.tasks|
    ensures |r.tasks| == |j.tasks|
  {
    Refresh(policy, j.(tasks := j.tasks[ti := CommittedTask(j.tasks[ti], result, fail)]))
  }

  function CanceledTask(t: Task): Task {
    if t.state.Pending? || t.state.Ready? then t.(state := Skipped, err := "canceled") else t
  }

  function CanceledTasks(ts: seq<Task>): (r: seq<Task>)
    ensures |r| == |ts|
  {
    seq(|ts|, i requires 0 <= i < |ts| => CanceledTask(ts[i]))
  }

  function Canceled(policy: Policy, j: Job): (r: Job)
    ensures |r.tasks| == |j.tasks|
  {
    if !Live(j) then j
    else Refresh(policy, j.(canceled := true, tasks := CanceledTasks(j.tasks)))
  }

  // The updates of the source.

  method JobEvidence(job: Job) returns (ev: Evidence)
    ensures ev == EvidenceOf(job.tasks)
  {
    var steps := [];
    for i := 0 to |job.tasks|
      invariant |steps| == i
      invariant forall k :: 0 <= k < i ==> steps[k] == TaskEvidence(job.tasks[k])
    {
      var t := job.tasks[i];
      var sr := t.result;
      if sr.id == "" {
        sr := sr.(id := t.planId);
      }
      if sr.kind == "" {
        sr := sr.(kind := t.kind);
      }
      match t.state {
        case Skipped =>
          if sr.verdict == "" {
            sr := sr.(verdict := VERDICT_SKIPPED);
          }
        case Succeeded =>
        case Failed =>
          if sr.verdict == "" {
            sr := sr.(verdict := VERDICT_INCOMPLETE);
          }
        case _ =>
          sr := sr.(verdict := VERDICT_INCOMPLETE);
      }
      steps := steps + [sr];
    }
    assert steps == EvidenceOf(job.tasks).steps;
    var verdict := OverallVerdict(steps);
    ev := Evidence(verdict, steps);
  }

  method Decide(policy: Policy, job: Job) returns (d: Decision)
    ensures d == JobDecision(policy, job)
  {
    if job.canceled || !job.status.StatusComplete? {
      return Decision(false, [Blocker("step_failed", "job:" + StatusName(job.status))], "");
    }
    var ev := JobEvidence(job);
    d := policy(InputOf(job, ev));
  }

  method RefreshJob(policy: Policy, job: Job) returns (j: Job)
    ensures j == Refresh(policy, job)
  {
    var ts := Settle(job.tasks);
    j := job.(tasks := ts);
    if j.canceled {
      j := j.(status := StatusCanceled, validated := false);
    } else {
      var s := JobStatusOf(j.tasks);
      j := j.(status := s);
    }
    var d := Decide(policy, j);
    j := j.(validated := d.validated, blockers := d.blockers);
  }

  method FailDeadline(policy: Policy, job: Job, now: int) returns (changed: bool, j: Job)
    ensures changed <==> Overdue(job, now)
    ensures j == if changed then Killed(policy, job) else job
  {
    j := job;
    var deadline := job.deadline;
    if deadline.None? {
      if job.created.None? {
        return false, j;
      }
      deadline := Some(job.created.value + DEFAULT_DEADLINE);
    }
    if now <= deadline.value {
      return false, j;
    }
    if job.canceled || job.status.StatusComplete? || job.status.StatusFailed? || job.status.StatusCanceled? {
      return false, j;
    }
    for i := 0 to |job.tasks|
      invariant |j.tasks| == |job.tasks| && j == job.(tasks := j.tasks)
      invariant forall k :: 0 <= k < i ==> j.tasks[k] == KilledTask(job.tasks[k])
      invariant forall k :: i <= k < |job.tasks| ==> j.tasks[k] == job.tasks[k]
    {
      if Open(j.tasks[i].state) {
        j := j.(tasks := j.tasks[i := j.tasks[i].(state := Failed, err := "deadline", worker := "", leaseUntil := None)]);
      }
    }
    assert j.tasks == KilledTasks(job.tasks);
    j := j.(status := StatusFailed);
    var d := Decide(policy, j);
    j := j.(validated := d.validated, blockers := d.blockers);
    changed := true;
  }

  method Requeue(t: Task, now: int, canceled: bool) returns (changed: bool, r: Task)
    ensures changed <==> LeaseOver(t, now)
    ensures r == ExpiredTask(t, now, canceled)
  {
    r := t;
    if !t.state.Leased? {
      return false, r;
    }
    if t.leaseUntil.None? || t.leaseUntil.value >= now {
      return false, r;
    }
    if canceled {
      r := t.(state := Skipped, err := "canceled", attempt := "", worker := "", leaseUntil := None);
      return true, r;
    }
    r := t.(state := Ready, attempt := "", worker := "", leaseUntil := None);
    return true, r;
  }

  method RequeueTasks(tasks: seq<Task>, now: int, canceled: bool) returns (n: nat, ts: seq<Task>)
    ensures ts == ExpiredTasks(tasks, now, canceled)
    ensures n == CountOver(tasks, now)
    ensures n > 0 <==> AnyLeaseOver(tasks, now)
  {
    ts := tasks;
    n := 0;
    for i := 0 to |tasks|
      invariant |ts| == |tasks|
      invariant forall k :: 0 <= k < i ==> ts[k] == ExpiredTask(tasks[k], now, canceled)
      invariant forall k :: i <= k < |tasks| ==> ts[k] == tasks[k]
      invariant n > 0 <==> exists k :: 0 <= k < i && LeaseOver(tasks[k], now)
      invariant n == CountOver(tasks[..i], now)
    {
      var over, t := Requeue(ts[i], now, canceled);
      assert tasks[..i + 1][..i] == tasks[..i];
      if over {
        n := n + 1;
      }
      ts := ts[i := t];
    }
    assert tasks[..|tasks|] == tasks;
  }

  /** The body of the reaper's loop over jobs. */
  method SweepJob(policy: Policy, job: Job, now: int) returns (n: nat, j: Job)
    ensures j == Swept(policy, job, now)
    ensures n == SweepCount(job, now)
  {
    var killed;
    killed, j := FailDeadline(policy, job, now);
    if killed {
      return 1, j;
    }
    var ts;
    n, ts := RequeueTasks(job.tasks, now, job.canceled);
    if n > 0 {
      j := RefreshJob(policy, job.(tasks := ts));
    }
  }

  /** A heartbeat is accepted exactly from the holder of the lease; the holder then still holds it, may
      beat or commit again, and loses it to no sweep before the new end. */
  lemma HeartbeatRenews(t: Task, attempt: Id, worker: string, now: int)
    ensures HeartbeatError(t, attempt, worker).None? <==> t.state.Leased? && t.attempt == attempt && t.worker == worker
    ensures var t' := t.(leaseUntil := Some(now + LEASE_TTL));
            HeartbeatError(t, attempt, worker).None? ==>
              && HeartbeatError(t', attempt, worker).None?
              && (forall result, fail :: CommitError(t', attempt, result, fail) == CommitError(t, attempt, result, fail))
              && forall when, canceled :: ExpiredTask(t', when, canceled) == t' <==> when <= now + LEASE_TTL
  {
    var t' := t.(leaseUntil := Some(now + LEASE_TTL));
    forall when, canceled
      ensures ExpiredTask(t', when, canceled) == t' <==> !LeaseOver(t', when)
    {
    }
  }

  /** A commit is accepted exactly from the attempt that holds the lease, unless it claims a pass; then
      the task keeps its fence and attempt, and refuses every later heartbeat and commit, its own
      included, and no sweep or deadline touches it. */
  lemma CommitEndsLease(t: Task, attempt: Id, result: StepResult, fail: string)
    ensures CommitError(t, attempt, result, fail).None? <==>
            t.state.Leased? && t.attempt == attempt && (fail != "" || (result.verdict != "pass" && result.verdict != "validated"))
    ensures var t' := CommittedTask(t, result, fail);
            && t'.fence == t.fence && t'.attempt == t.attempt
            && (forall a, w :: HeartbeatError(t', a, w) == Some(ErrNotLeased))
            && (forall a, r, f :: CommitError(t', a, r, f) == Some(ErrNotLeased))
            && KilledTask(t') == t' && forall when, canceled :: ExpiredTask(t', when, canceled) == t'
  {
  }

  method ApplyHeartbeat(t: Task, attempt: Id, worker: string, now: int) returns (r: Result<Task, Error>)
    ensures var e := HeartbeatError(t, attempt, worker);
            r == if e.Some? then Err(e.value) else Ok(t.(leaseUntil := Some(now + LEASE_TTL)))
  {
    if !t.state.Leased? {
      return Err(ErrNotLeased);
    }
    if t.attempt != attempt || t.worker != worker {
      return Err(ErrStaleAttempt);
    }
    return Ok(t.(leaseUntil := Some(now + LEASE_TTL)));
  }

  method ApplyCommit(t: Task, attempt: Id, result: StepResult, fail: string) returns (r: Result<Task, Error>)
    ensures var e := CommitError(t, attempt, result, fail);
            r == if e.Some? then Err(e.value) else Ok(CommittedTask(t, result, fail))
  {
    if !t.state.Leased? {
      return Err(ErrNotLeased);
    }
    if t.attempt != attempt {
      return Err(ErrStaleAttempt);
    }
    if fail != "" {
      return Ok(t.(state := Failed, err := fail, result := result, worker := "", leaseUntil := None));
    }
    if result.verdict == "pass" || result.verdict == "validated" {
      return Err(ErrResultIsPass);
    }
    return Ok(t.(state := Succeeded, result := result, err := "", worker := "", leaseUntil := None));
  }

  method ApplyCancel(policy: Policy, job: Job) returns (j: Job)
    ensures j == Canceled(policy, job)
  {
    j := job;
    if job.canceled || job.status.StatusComplete? || job.status.StatusFailed? || job.status.StatusCanceled? {
      return;
    }
    j := j.(canceled := true);
    for i := 0 to |job.tasks|
      invariant |j.tasks| == |job.tasks| && j == job.(canceled := true, tasks := j.tasks)
      invariant forall k :: 0 <= k < i ==> j.tasks[k] == CanceledTask(job.tasks[k])
      invariant forall k :: i <= k < |job.tasks| ==> j.tasks[k] == job.tasks[k]
    {
      if j.tasks[i].state.Pending? || j.tasks[i].state.Ready? {
        j := j.(tasks := j.tasks[i := j.tasks[i].(state := Skipped, err := "canceled")]);
      }
    }
    assert j.tasks == CanceledTasks(job.tasks);
    j := RefreshJob(policy, j);
  }
}
