/** Records that travel between the planner, the replayer, the job store and the validation policy
    (internal/plan, internal/replay, internal/gitrev, internal/impact, internal/validate). */
module EvidenceTypes {

  /** One node of an experiment plan. */
  datatype PlanStep = PlanStep(
    id: string,
    kind: string,
    required: bool,
    operator: bool,
    n: int,
    dependsOn: seq<string>)

  /** Latency samples of one side of a replay: how many succeeded, and their median. */
  datatype Summary = Summary(n: int, medianNs: int)

  datatype StepLatency = StepLatency(verb: string, path: string, baseline: Summary, patch: Summary)

  /** One replayed request compared on both sides; status 0 means that side gave no reply. */
  datatype Delta = Delta(verb: string, path: string, baselineStatus: int, patchStatus: int, notes: seq<string>)

  datatype StepResult = StepResult(
    id: string,
    kind: string,
    verdict: string,
    latency: seq<StepLatency>,
    deltas: seq<Delta>)

  datatype Evidence = Evidence(overall: string, steps: seq<StepResult>)

  datatype Request = Request(verb: string, path: string)

  datatype Revision = Revision(tree: string, dirty: bool, source: string)

  /** Function bindings, and paths the analyzer could not bind. */
  datatype Changes = Changes(bound: seq<string>, unanalyzed: seq<string>)

  /** How a route was joined to the change. */
  datatype Attribution = Attribution(route: string, provenance: string, via: string)

  datatype Blocker = Blocker(code: string, subject: string)

  datatype Decision = Decision(validated: bool, blockers: seq<Blocker>, coverageBasis: string)

  /** Everything the validation policy looks at. */
  datatype Input = Input(
    attributions: seq<Attribution>,
    baselineRev: Revision,
    patchRev: Revision,
    baseline: string,
    patch: string,
    plan: seq<PlanStep>,
    result: Evidence,
    impacted: seq<string>,
    workload: seq<Request>,
    changes: Changes)

  const KIND_ENV := "env"
  const KIND_BEHAVIOR := "behavior"
  const KIND_LATENCY := "latency"
  const KIND_CONCURRENCY := "concurrency"
  const KIND_TESTS := "tests"
  const KIND_FAULT_STATUS := "fault_status"

  const VERDICT_MATCH := "match"
  const VERDICT_DIFFER := "differ"
  const VERDICT_INCOMPLETE := "incomplete"
  const VERDICT_SKIPPED := "skipped"
  const VERDICT_SAMPLES := "samples"
  const VERDICT_PREPARED := "prepared"

  const SOURCE_BUILT := "built"
  const SOURCE_DECLARED := "declared"
}
