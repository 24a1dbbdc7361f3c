/** Jobs, tasks and their states (internal/jobs/store.go). Times are integers in nanoseconds; the
    zero time of the source is None. */
module JobTypes {
  import opened Base
  import opened EvidenceTypes

  type Id = string

  const LEASE_TTL: int := 15_000_000_000
  const DEFAULT_DEADLINE: int := 600_000_000_000
  const DEFAULT_SLOTS: nat := 1
  const MAX_SLOTS: nat := 8
  const DEFAULT_ACTIVE_JOBS: nat := 4
  const DEFAULT_LEASED_TASKS: nat := 2

  datatype TaskState = Pending | Ready | Leased | Succeeded | Failed | Skipped

  datatype JobStatus = StatusPending | StatusRunning | StatusComplete | StatusFailed | StatusCanceled

  datatype Task = Task(
    id: Id,
    jobId: Id,
    planId: string,
    kind: string,
    operator: bool,
    required: bool,
    dependsOn: seq<string>,
    n: int,
    state: TaskState,
    attempt: Id,
    fence: nat,
    leaseUntil: Option<int>,
    worker: string,
    result: StepResult,
    err: string)

  datatype Job = Job(
    id: Id,
    created: Option<int>,
    status: JobStatus,
    service: string,
    baseline: string,
    patch: string,
    baselineRev: Revision,
    patchRev: Revision,
    deadline: Option<int>,
    canceled: bool,
    impacted: seq<string>,
    changes: Changes,
    workload: seq<Request>,
    plan: seq<PlanStep>,
    tasks: seq<Task>,
    blockers: seq<Blocker>,
    validated: bool)

  /** The validation policy consulted once a job is complete. */
  type Policy = Input -> Decision

  datatype Quota = Quota(activeJobs: int, leasedTasks: int)

  datatype CreateOpts = CreateOpts(
    baselineRev: Revision,
    patchRev: Revision,
    baseline: string,
    patch: string,
    service: string,
    deadline: Option<int>,
    workload: seq<Request>,
    plan: seq<PlanStep>,
    impacted: seq<string>,
    changes: Changes)

  /** Which job a worker asks for: any, one named by a well-formed id, or a malformed id. */
  datatype Want = AnyJob | OnlyJob(id: Id) | MalformedJob

  datatype Worker = Worker(id: string, slots: int, want: Want)

  datatype Error =
    | ErrInvalidOpts
    | ErrBusy
    | ErrQuota
    | ErrNotFound
    | ErrStaleAttempt
    | ErrNotLeased
    | ErrResultIsPass
    | ErrNoReady
    | ErrCapacity
    | ErrInvalidID
    | ErrNoWorker

  const EMPTY_RESULT := StepResult("", "", "", [], [])

  function StatusName(s: JobStatus): string {
    match s
    case StatusPending => "pending"
    case StatusRunning => "running"
    case StatusComplete => "complete"
    case StatusFailed => "failed"
    case StatusCanceled => "canceled"
  }
}
