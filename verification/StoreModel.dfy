/** The job store as a state machine (internal/jobs/memory.go). A world is the list of jobs in order
    of creation, together with what an observer has seen: the lease trail of every task, the attempt
    ids issued so far, and the largest quota that was ever in force. */
module StoreModel {
  import opened Base
  import opened EvidenceTypes
  import opened JobTypes
  import opened Scheduling
  import opened JobOps
  import opened Admission
  import opened LeaseProtocol
  import opened TaskIds
  import opened Text

  /** Code the store calls: the validation policy, the gateway key of a URL, the syntactic checks on
      a request (URLs, lengths, control characters) and the clipping of a service name. */
  datatype Config = Config(
    policy: Policy,
    key: string -> string,
    wellFormed: CreateOpts -> bool,
    clip: string -> string)

  datatype Row = Row(job: Job, trail: seq<Trail>)

  datatype World = World(rows: seq<Row>, quota: Quota, issued: set<Id>, peak: Quota)

  predicate RowShape(r: Row) {
    |r.trail| == |r.job.tasks|
  }

  predicate Shape(w: World) {
    forall i :: 0 <= i < |w.rows| ==> RowShape(w.rows[i])
  }

  function Jobs(w: World): (js: seq<Job>)
    ensures |js| == |w.rows|
  {
    seq(|w.rows|, i requires 0 <= i < |w.rows| => w.rows[i].job)
  }

  /** An empty store with a quota. */
  function Initial(q: Quota): World {
    World([], q, {}, Normalized(q))
  }

  // Creation.

  const MAX_STEPS := 20
  const SECOND: int := 1_000_000_000
  const MILLISECOND: int := 1_000_000

  predicate ValidOpts(cfg: Config, opts: CreateOpts, checkedAt: int) {
    && cfg.wellFormed(opts)
    && opts.plan != []
    && 1 <= |opts.workload| <= MAX_STEPS
    && |opts.impacted| <= MAX_STEPS
    && (opts.deadline.Some? ==> opts.deadline.value > checkedAt - SECOND)
  }

  function InitialTask(id: Id, i: nat, s: PlanStep): Task {
    Task(TaskId(id, i), id, s.id, s.kind, s.operator, s.required, s.dependsOn, s.n,
         if s.operator then Skipped else Pending, "", 0, None, "", EMPTY_RESULT, "")
  }

  function InitialTasks(id: Id, plan: seq<PlanStep>): (ts: seq<Task>)
    ensures |ts| == |plan|
  {
    seq(|plan|, i requires 0 <= i < |plan| => InitialTask(id, i, plan[i]))
  }

  function Truncated(now: int): int {
    now - now % MILLISECOND
  }

  function Built(cfg: Config, opts: CreateOpts, id: Id, builtAt: int): Job {
    var created := Truncated(builtAt);
    var deadline := if opts.deadline.Some? then opts.deadline.value else created + DEFAULT_DEADLINE;
    Refresh(cfg.policy,
            Job(id, Some(created), StatusPending, cfg.clip(opts.service), opts.baseline, opts.patch,
                opts.baselineRev.(source := SOURCE_DECLARED), opts.patchRev.(source := SOURCE_DECLARED),
                Some(deadline), false, opts.impacted, opts.changes, opts.workload, opts.plan,
                Settled(InitialTasks(id, opts.plan)), [], false))
  }

  function NewRow(cfg: Config, opts: CreateOpts, id: Id, builtAt: int): Row {
    Row(Built(cfg, opts, id, builtAt), seq(|opts.plan|, i => []))
  }

  // Rows.

  /** What a sweep adds to a task's trail. */
  function SweepEntry(t: Task, t': Task): Trail {
    if !t.state.Leased? || t'.state.Leased? then []
    else if t'.state.Failed? then [DidKill(t.attempt)]
    else [DidExpire(t.attempt)]
  }

  function SweepRow(policy: Policy, r: Row, now: int): (r': Row)
    requires RowShape(r)
    ensures RowShape(r')
  {
    var j := Swept(policy, r.job, now);
    Row(j, seq(|r.trail|, i requires 0 <= i < |r.trail| => r.trail[i] + SweepEntry(r.job.tasks[i], j.tasks[i])))
  }

  function GrantRow(r: Row, ti: nat, attempt: Id, worker: string, now: int): (r': Row)
    requires RowShape(r) && ti < |r.job.tasks|
    ensures RowShape(r')
  {
    Row(Granted(r.job, ti, attempt, worker, now), r.trail[ti := r.trail[ti] + [DidGrant(attempt)]])
  }

  function ExtendRow(r: Row, ti: nat, now: int): (r': Row)
    requires RowShape(r) && ti < |r.job.tasks|
    ensures RowShape(r')
  {
    Row(Extended(r.job, ti, now), r.trail)
  }

  function CommitRow(policy: Policy, r: Row, ti: nat, attempt: Id, result: StepResult, fail: string): (r': Row)
    requires RowShape(r) && ti < |r.job.tasks|
    ensures RowShape(r')
  {
    Row(Committed(policy, r.job, ti, result, fail), r.trail[ti := r.trail[ti] + [DidCommit(attempt)]])
  }

  function CancelRow(policy: Policy, r: Row): (r': Row)
    requires RowShape(r)
    ensures RowShape(r')
  {
    Row(Canceled(policy, r.job), r.trail)
  }

  // Worlds.

  function SweepWorld(cfg: Config, w: World, now: int): (w': World)
    requires Shape(w)
    ensures Shape(w') && |w'.rows| == |w.rows|
  {
    w.(rows := seq(|w.rows|, i requires 0 <= i < |w.rows| => SweepRow(cfg.policy, w.rows[i], now)))
  }

  /** Why creation of a valid job is refused, if it is. */
  function CreateError(cfg: Config, w: World, job: Job): Option<Error> {
    if Busy(cfg.key, Jobs(w), job) then Some(ErrBusy)
    else if ActiveJobs(Jobs(w), job.service) >= Normalized(w.quota).activeJobs then Some(ErrQuota)
    else None
  }

  function CreateStep(cfg: Config, w: World, opts: CreateOpts, id: Id, checkedAt: int, builtAt: int, sweptAt: int): (w': World)
    requires Shape(w)
    ensures Shape(w')
  {
    if !ValidOpts(cfg, opts, checkedAt) then w
    else
      var w1 := SweepWorld(cfg, w, sweptAt);
      if CreateError(cfg, w1, Built(cfg, opts, id, builtAt)).Some? then w1
      else w1.(rows := w1.rows + [NewRow(cfg, opts, id, builtAt)])
  }

  datatype Choice = Refuse(error: Error) | Pick(ji: nat, ti: nat)

  /** What a lease request is answered after the sweep. */
  ghost function LeaseChoice(w: World, worker: Worker): (c: Choice)
    ensures c.Pick? ==> c.ji < |w.rows| && c.ti < |w.rows[c.ji].job.tasks| && IsPick(Jobs(w), worker.want, w.quota, c.ji, c.ti)
  {
    if WorkerLeases(Jobs(w), worker.id) >= Slots(worker) then Refuse(ErrCapacity)
    else if worker.want.MalformedJob? then Refuse(ErrInvalidID)
    else if exists ji: nat, ti: nat :: IsPick(Jobs(w), worker.want, w.quota, ji, ti) then
      var ji: nat, ti: nat :| IsPick(Jobs(w), worker.want, w.quota, ji, ti);
      Pick(ji, ti)
    else Refuse(ErrNoReady)
  }

  ghost function LeaseStep(cfg: Config, w: World, worker: Worker, attempt: Id, now: int): (w': World)
    requires Shape(w)
    ensures Shape(w')
  {
    if Blank(worker.id) then w
    else
      var w1 := SweepWorld(cfg, w, now);
      match LeaseChoice(w1, worker)
      case Refuse(_) => w1
      case Pick(ji, ti) =>
        w1.(rows := w1.rows[ji := GrantRow(w1.rows[ji], ti, attempt, worker.id, now)], issued := w1.issued + {attempt})
  }

  predicate IsAt(w: World, tid: Id, ji: nat, ti: nat) {
    ji < |w.rows| && ti < |w.rows[ji].job.tasks| && w.rows[ji].job.tasks[ti].id == tid
  }

  ghost function Locate(w: World, tid: Id): (at: Option<(nat, nat)>)
    ensures at.Some? ==> IsAt(w, tid, at.value.0, at.value.1)
    ensures at.None? ==> forall ji: nat, ti: nat :: !IsAt(w, tid, ji, ti)
  {
    if exists ji: nat, ti: nat :: IsAt(w, tid, ji, ti) then
      var ji: nat, ti: nat :| IsAt(w, tid, ji, ti);
      Some((ji, ti))
    else None
  }

  ghost function HeartbeatOutcome(w: World, tid: Id, attempt: Id, worker: string): Option<Error> {
    match Locate(w, tid)
    case None => Some(ErrNotFound)
    case Some((ji, ti)) => HeartbeatError(w.rows[ji].job.tasks[ti], attempt, worker)
  }

  ghost function HeartbeatStep(w: World, tid: Id, attempt: Id, worker: string, now: int): (w': World)
    requires Shape(w)
    ensures Shape(w')
  {
    if HeartbeatOutcome(w, tid, attempt, worker).Some? then w
    else
      var (ji, ti) := Locate(w, tid).value;
      w.(rows := w.rows[ji := ExtendRow(w.rows[ji], ti, now)])
  }

  ghost function CommitOutcome(w: World, tid: Id, attempt: Id, result: StepResult, fail: string): Option<Error> {
    match Locate(w, tid)
    case None => Some(ErrNotFound)
    case Some((ji, ti)) => CommitError(w.rows[ji].job.tasks[ti], attempt, result, fail)
  }

  ghost function CommitStep(cfg: Config, w: World, tid: Id, attempt: Id, result: StepResult, fail: string): (w': World)
    requires Shape(w)
    ensures Shape(w')
  {
    if CommitOutcome(w, tid, attempt, result, fail).Some? then w
    else
      var (ji, ti) := Locate(w, tid).value;
      w.(rows := w.rows[ji := CommitRow(cfg.policy, w.rows[ji], ti, attempt, result, fail)])
  }

  ghost function RowOf(w: World, id: Id): (ji: Option<nat>)
    ensures ji.Some? ==> ji.value < |w.rows| && w.rows[ji.value].job.id == id
    ensures ji.None? ==> forall i :: 0 <= i < |w.rows| ==> w.rows[i].job.id != id
  {
    if exists ji: nat :: ji < |w.rows| && w.rows[ji].job.id == id then
      var ji: nat :| ji < |w.rows| && w.rows[ji].job.id == id;
      Some(ji)
    else None
  }

  ghost function CancelStep(cfg: Config, w: World, id: Id): (w': World)
    requires Shape(w)
    ensures Shape(w')
  {
    match RowOf(w, id)
    case None => w
    case Some(ji) => w.(rows := w.rows[ji := CancelRow(cfg.policy, w.rows[ji])])
  }

  function Max(a: int, b: int): int {
    if a < b then b else a
  }

  function QuotaStep(w: World, q: Quota): World {
    var n := Normalized(q);
    w.(quota := q, peak := Quota(Max(w.peak.activeJobs, n.activeJobs), Max(w.peak.leasedTasks, n.leasedTasks)))
  }

  // Events.

  datatype Event =
    | CreateEvent(opts: CreateOpts, id: Id, checkedAt: int, builtAt: int, now: int)
    | LeaseEvent(worker: Worker, attempt: Id, now: int)
    | HeartbeatEvent(task: Id, attempt: Id, workerId: string, now: int)
    | CommitEvent(task: Id, attempt: Id, result: StepResult, fail: string)
    | SweepEvent(now: int)
    | CancelEvent(id: Id)
    | QuotaEvent(quota: Quota)

  ghost function Step(cfg: Config, w: World, e: Event): (w': World)
    requires Shape(w)
    ensures Shape(w')
  {
    match e
    case CreateEvent(opts, id, checkedAt, builtAt, now) => CreateStep(cfg, w, opts, id, checkedAt, builtAt, now)
    case LeaseEvent(worker, attempt, now) => LeaseStep(cfg, w, worker, attempt, now)
    case HeartbeatEvent(task, attempt, workerId, now) => HeartbeatStep(w, task, attempt, workerId, now)
    case CommitEvent(task, attempt, result, fail) => CommitStep(cfg, w, task, attempt, result, fail)
    case SweepEvent(now) => SweepWorld(cfg, w, now)
    case CancelEvent(id) => CancelStep(cfg, w, id)
    case QuotaEvent(quota) => QuotaStep(w, quota)
  }

  /** Random ids are new: a job id differs from all earlier ones in the characters task ids keep,
      and an attempt id was never issued before. */
  predicate FreshJobId(w: World, id: Id) {
    forall i :: 0 <= i < |w.rows| ==> Prefix(w.rows[i].job.id) != Prefix(id)
  }

  predicate FreshAttempt(w: World, attempt: Id) {
    attempt != "" && attempt !in w.issued
  }

  predicate Fresh(w: World, e: Event) {
    match e
    case CreateEvent(_, id, _, _, _) => FreshJobId(w, id)
    case LeaseEvent(_, attempt, _) => FreshAttempt(w, attempt)
    case _ => true
  }
}
