# A model of Aquila's job store, traces, patches and verdicts

Aquila replays recorded traffic against a baseline and a patched build of a service and decides
whether the patch may be called validated. This project models the parts of it that carry state or
make a promise about every input, and proves what they promise.

- **The leased-task job store** (`internal/jobs`). `Memory.dfy` holds the class with the store's
  fields and one method per operation; every method extends a ghost history of events and worlds and
  keeps it a run of the state machine in `StoreModel.dfy`. What holds of every run, in every
  interleaving of creations, leases, heartbeats, commits, cancellations, sweeps and quota changes, is
  proved in `Runs.dfy`, `Timing.dfy` and `Completion.dfy`: fencing, lease conservation, admission,
  dependency order, freedom from deadlock, cached fields never stale, the fifteen-second lease
  guarantee, and that every job that can still complete can be brought to completion.
- **The scheduler and the generated plans** (`Scheduling.dfy`, `Progress.dfy`, `Plan.dfy`).
- **Trace ancestry** (`internal/graph`): the memoised entry-route search and the recursive path walk
  refine their plain definitions on every span map, cyclic or dangling (`TraceGraph.dfy`,
  `TracePaths.dfy`, `TraceSnapshot.dfy`), and the window of newest traces (`TraceWindow.dfy`,
  `WindowAgain.dfy`).
- **The patch engine** (`internal/diff`, `internal/rewrite`): the hunk applier and its inverse
  (`Hunks.dfy`), the line numbers Parse reports (`LineNumbers.dfy`), Parse and the collector as two
  readers of one document (`DiffText.dfy`, `DiffParse.dfy`, `DiffApply.dfy`, `DiffAgreement.dfy`),
  applying to a tree (`Patching.dfy`), and printing, parsing and applying a rewrite
  (`Unified.dfy`, `RoundTrip.dfy`, `Occurrences.dfy`, `Candidates.dfy`, `PrintExactly.dfy`,
  `Failures.dfy`).
- **The verdict** (`internal/validate`, `internal/evidence`, `internal/impact`): Decide against a
  declarative policy, order independence, the coverage report, and the end-to-end claim from changed
  lines to the verdict (`Validate.dfy`, `ValidationPolicy.dfy`, `Coverage.dfy`, `Impact.dfy`,
  `FailClosed.dfy`, `FailOpen.dfy`, `QueuedJobs.dfy`), and from the text of a diff to both the verdict
  and the patched files (`EndToEnd.dfy`).

Times are integers in nanoseconds and `newID` yields ids that were never used. Library code is a
parameter: URL keys and matching, case folding, the inert-file rule, path
canonicalisation, the syntactic checks on a request. `dafny verify dfyconfig.toml` checks the project.

Where a promise does not hold of the code, the exact condition is proved, and a lemma gives an input:

- Undoing a patch restores the text if and only if the text is empty or ends a line and the patch
  neither empties nor fills the file (`Hunks.InverseRestores`). A patch that removes every line writes
  one newline (`Failures.EmptiedIsNotRestored`), and an unended last line gains one
  (`Failures.UnendedIsNotRestored`).
- In a file of whole lines, a printed rewrite that is to change the file gives the intended text if
  and only if no removed line begins with `-- `, no added line begins with `++ ` and none ends with a
  carriage return (`PrintExactly.SurvivesExactly`); a removed line `-- x` is not removed
  (`Failures.HeaderLikeLineIsLost`).
- A new text arrives as it was given if and only if it ends a line (`Candidates.ArrivesAsGiven`); `x`
  arrives with a newline (`Failures.UnendedTextGrows`).
- A candidate is applied if and only if the first occurrence of its old text begins a line and ends
  one (`Candidates.CandidateOutcome`); in the middle of a line it is refused
  (`Failures.MidLineIsMissed`).
- A changed file that is not fully analysed goes unreported if and only if it is inert or the cap on
  findings was reached before it while the kept findings analyse its path
  (`FailClosed.MissingIffMasked`). A diff that lists a path again past the cap is validated
  although its last entry changes a line outside every function (`FailOpen.RepeatPastCapFailsOpen`).
- Selecting a window from a window gives the same traces, starts and span ids if and only if what
  the cap on spans left of each trace is still eligible (`WindowAgain.Idempotent`). A trace of
  ten thousand health checks and one later request is lost (`WindowAgain.CutWindowLosesTrace`).

## Model

| member | source | states |
|---|---|---|
| Scheduling.Settle | internal/jobs/enqueue.go:81-100 | the bounded repeat-until-stable loop always ends in the one-shot closed form: pending operator tasks skipped, a pending task ready exactly when every dependency has an operator, succeeded or skipped provider |
| Scheduling.TwoPassesSettle | internal/jobs/enqueue.go:81-100 | two passes of the loop body reach that closed form on any list, duplicate plan ids and cycles included |
| Scheduling.SettledIsFixpoint | internal/jobs/enqueue.go:81-100 | settling a settled list, or passing over it once more, changes nothing |
| Scheduling.StateByPlan | internal/jobs/enqueue.go:102-108 | the map holds, for each plan id, the state of the last task that has it, and no other key |
| Scheduling.DepsOK | internal/jobs/enqueue.go:110-118 | true exactly when every dependency's last provider succeeded or was skipped |
| Scheduling.JobStatusOf | internal/jobs/enqueue.go:120-144 | failed, running, pending, complete in that precedence over the task states |
| Overall.OverallVerdict | internal/plan/run.go:197-236 | the verdict over all step results: incomplete environment first, then any incomplete, none executed, any difference |
| JobOps.JobEvidence | internal/jobs/earned.go:40-66 | one result per task, in order, with the overall verdict |
| JobOps.RefreshJob | internal/jobs/earned.go:11-21 | settles, recomputes status and verdict; a canceled job stays canceled and unvalidated |
| JobOps.FailDeadline | internal/jobs/earned.go:83-112 | past the deadline of an unfinished job every open task fails and leases are dropped, otherwise nothing changes |
| JobOps.RequeueTasks | internal/jobs/enqueue.go:195-215 | exactly the tasks whose lease is over return to ready (skipped when canceled), with the count |
| JobOps.SweepJob | internal/jobs/memory.go:119-140 | one job as the reaper leaves it, and how many tasks it touched |
| JobOps.HeartbeatRenews | internal/jobs/enqueue.go:172-181 | accepted exactly when leased to that attempt and worker; then the same worker may go on, commits are judged as before, and the lease expires exactly after the new end |
| JobOps.CommitEndsLease | internal/jobs/enqueue.go:146-170 | accepted exactly when leased to that attempt and the result claims no pass; afterwards no heartbeat or commit is accepted, neither deadline nor sweep touches the task, and fence and attempt stay |
| JobOps.ApplyCancel | internal/jobs/earned.go:68-81 | cancels every task not running or finished and refreshes the job |
| TaskIds.TaskIdsDistinct | internal/jobs/enqueue.go:21-26 | jobs whose ids differ in the first twelve characters never share a task id, and no job repeats one |
| JobInvariants.GrantKeeps | internal/jobs/memory.go:170-178 | Lease's short status update leaves the job exactly as a full refresh would, and every invariant of the job holds |
| JobInvariants.SweepKeeps | internal/jobs/memory.go:119-140 | a sweep keeps settled tasks, current status and verdict, dependency order; tasks only move forward |
| JobInvariants.CommitKeeps | internal/jobs/enqueue.go:146-170 | the same for an accepted commit |
| JobInvariants.ExtendKeeps | internal/jobs/enqueue.go:172-181 | the same for a heartbeat |
| JobInvariants.CancelKeeps | internal/jobs/earned.go:68-81 | the same for a cancellation |
| JobInvariants.TerminalStatusAbsorbing | internal/jobs/enqueue.go:120-144 | a job that is complete, failed or canceled keeps that status through any evolution of its tasks |
| LeaseProtocol.LeasesConserved | internal/jobs/enqueue.go:146-215 | in an accepted trail, grants equal commits plus expiries plus kills plus one if held |
| LeaseProtocol.ReleaseFollowsItsGrant | internal/jobs/enqueue.go:146-215 | whatever ends a lease names the attempt of the grant just before it |
| LeaseProtocol.EndedAttemptNotHeld | internal/jobs/enqueue.go:195-215 | an attempt whose lease ended does not hold the task now |
| Progress.StuckKept | internal/jobs/enqueue.go:81-118 | steps waiting only on each other, or on nothing, stay unstarted through every evolution of the job |
| Progress.DeadlockIsStuck | internal/jobs/enqueue.go:81-144 | a pending job with nothing ready or leased waits on such a stuck set |
| Progress.AcyclicIffNothingStuck | internal/jobs/enqueue.go:81-118 | a plan has a topological rank if and only if it has no stuck set |
| Progress.NoDeadlock | internal/jobs/enqueue.go:81-144 | on a closed acyclic plan an unfinished job has a ready or leased task |
| Progress.CycleIsStuck | internal/jobs/enqueue.go:81-118 | the steps of a dependency cycle form a stuck set |
| PlanFromImpact.FromImpact | internal/plan/plan.go:52-108 | fails exactly on an empty report; otherwise an environment step without dependencies, then behaviour and latency, and concurrency and fault when a runtime path was observed, each depending on the environment alone; only the fault step is optional |
| PlanFromImpact.GeneratedPlansRun | internal/plan/plan.go:52-108 | every generated plan has distinct ids and closed, acyclic dependencies |
| Admission.CountLeased | internal/jobs/enqueue.go:183-193 | the number of tasks a worker holds over all jobs |
| Admission.OverActive | internal/jobs/quota.go:33-41 | true exactly when the other unfinished jobs of the service, the candidate itself skipped, reach its share |
| Admission.GatewayBusy | internal/jobs/occupancy.go:34-52 | true exactly when another unfinished job, the candidate itself skipped, drives a gateway of the candidate |
| Admission.PickUnique | internal/jobs/quota.go:46-80 | the fair choice, the least of service load, job index and task index, is unique |
| Admission.PickReady | internal/jobs/quota.go:46-80 | returns that choice, and fails exactly when no task is eligible |
| StoreInvariants.StepKeeps | internal/jobs/memory.go:37-275 | every operation from every well-formed world leads to a well-formed world that extends it |
| StoreInvariants.CreateKeeps | internal/jobs/memory.go:37-60 | the creation step, accepted or refused, keeps exclusion of gateways, the shares and every row invariant |
| StoreInvariants.LeaseKeeps | internal/jobs/memory.go:143-186 | the leasing step keeps the shares, the trails and every row invariant |
| Runs.RunOK | internal/jobs/memory.go:37-275 | every world of every run satisfies all the invariants |
| Runs.RunLater | internal/jobs/memory.go:37-275 | along a run jobs are only added, trails only grow, tasks only advance, finished jobs stay as they are |
| Runs.TaskIdUnique | internal/jobs/enqueue.go:21-26 | no two tasks in the store share an id |
| Runs.AtMostOneCommit | internal/jobs/enqueue.go:146-170 | every task of every run has at most one accepted commit, with the attempt of its latest grant, and nothing follows it |
| Runs.NoSecondCommit | internal/jobs/memory.go:227-255 | in no run are two commit requests for one task accepted |
| Runs.EndedAttemptRefused | internal/jobs/memory.go:197-255 | once an attempt's lease ended, its heartbeats and commits are refused at every later point |
| Runs.FenceConserved | internal/jobs/memory.go:171-178 | a task's fence is its commits plus expiries plus deadline kills plus one if leased, so at most one more than its expiries |
| Runs.WeightFalls | internal/jobs/enqueue.go:195-215 | over any stretch of a run a task's weight plus the leases granted is at most its earlier weight plus its expiries |
| Runs.Admitted | internal/jobs/occupancy.go:25-52 | in every reachable state unfinished jobs drive disjoint gateways and no service or worker exceeds its limit |
| Runs.StaysWithinQuota | internal/jobs/quota.go:33-80 | from any point of a run at which the store is within the quota in force, it stays within it until the quota is changed |
| Runs.QuotaSetFirst | internal/jobs/memory.go:29-34 | a quota set on an empty store, also one below the defaults, holds from then on |
| Completion.CanComplete | internal/jobs/memory.go:143-255 | every run extends, by leases at any one time before the deadline and commits alone, to one in which a given job on a closed acyclic plan, neither failed nor canceled, is complete |
| Completion.GeneratedPlansComplete | internal/plan/plan.go:52-108 | the same for every job on a generated plan |
| Runs.FinishedStaysFinished | internal/jobs/enqueue.go:120-144 | complete, failed and canceled jobs keep that status for the rest of the run |
| Runs.DependenciesFirst | internal/jobs/enqueue.go:81-118 | in every reachable state a ready, leased or succeeded task has all its dependencies succeeded or skipped |
| Runs.CyclesNeverRun | internal/jobs/enqueue.go:81-118 | no step of a dependency cycle is ever readied, leased or completed, and its job never completes |
| Runs.NeverDeadlocked | internal/jobs/enqueue.go:81-144 | on a closed acyclic plan every reachable unfinished job has a ready or leased task |
| Timing.SweepIsComplete | internal/jobs/memory.go:119-140 | after a sweep no unfinished job is past its deadline and no lease past its end, and a second sweep changes nothing |
| Timing.LeaseIsKept | internal/jobs/memory.go:119-255 | a worker that leased or heartbeat at t keeps the task, its attempt and its name on it through every later operation with a clock up to t+15s and not past the deadline |
| Timing.HolderIsHeard | internal/jobs/enqueue.go:146-181 | the heartbeat of whoever holds a task is accepted, and the commit if and only if it claims no pass |
| Timing.LeaseIsHonoured | internal/jobs/memory.go:119-255 | so at every point of those fifteen seconds the worker's heartbeat is accepted, and its commit unless it claims a pass |
| Timing.LeaseBegins | internal/jobs/memory.go:143-186 | a granted lease starts such a hold |
| Timing.HeartbeatExtends | internal/jobs/memory.go:197-224 | an accepted heartbeat restarts it |
| MemoryStore.Memory.constructor | internal/jobs/memory.go:24-26 | an empty store whose history is empty |
| MemoryStore.Memory.Create | internal/jobs/memory.go:37-60 | the reply and the new state of the creation step, sweep included, recorded in the run |
| MemoryStore.Memory.Get | internal/jobs/memory.go:63-78 | the job with that id, or not found; nothing changes |
| MemoryStore.Memory.AllJobs | internal/jobs/memory.go:188-194 | the jobs in order of creation |
| MemoryStore.Memory.SweepJobs | internal/jobs/memory.go:119-140 | every job swept once, whatever order the map yields, with the total count |
| MemoryStore.Memory.RequeueExpired | internal/jobs/memory.go:110-117 | the sweep step and its count |
| MemoryStore.Memory.WithQuota | internal/jobs/memory.go:29-34 | the quota changes and nothing else |
| MemoryStore.Memory.BuildJob | internal/jobs/enqueue.go:28-79 | the new job of the creation step: settled tasks, declared revisions, truncated time, default deadline |
| MemoryStore.Memory.Lease | internal/jobs/memory.go:143-186 | the reply and the new state of the leasing step, recorded in the run |
| MemoryStore.Memory.Heartbeat | internal/jobs/memory.go:197-224 | the reply and the new state of the heartbeat step, recorded in the run |
| MemoryStore.Memory.Commit | internal/jobs/memory.go:227-255 | the reply and the new state of the commit step, recorded in the run |
| MemoryStore.Memory.Cancel | internal/jobs/memory.go:258-275 | the reply and the new state of the cancel step, recorded in the run |
| QueuedJobs.VerdictIsFresh | internal/jobs/earned.go:23-38 | in every run each stored verdict and blocker list is what a fresh decision would give |
| QueuedJobs.NeverValidated | internal/jobs/earned.go:23-38 | no queued job is ever validated |
| TraceGraph.ChainUnique | internal/graph/graph.go:283-332 | a span has at most one complete parent chain |
| TraceGraph.CycleIncomplete | internal/graph/graph.go:283-332 | a span on a cycle has none |
| TraceGraph.Climb | internal/graph/graph.go:283-332 | the walk up ends, at a resolved span, a root, a dangling parent or a repeat, and says which |
| TraceGraph.Descend | internal/graph/graph.go:283-332 | resolving the chain top-down keeps the memo table correct for every span on it |
| TraceGraph.TraceEntries | internal/graph/graph.go:283-332 | for every span map and key order, exactly the spans with a complete chain holding a routed server get an entry: the root-most one |
| TracePaths.RootPathsNeverRepeat | internal/graph/graph.go:167-200 | no span is met twice on a path from a root |
| TracePaths.CyclesOffPaths | internal/graph/graph.go:126-200 | a span on a cycle or hanging off one is on no path from a root |
| TracePaths.WalkPaths | internal/graph/graph.go:167-200 | ends, and records exactly the collapsed services of the paths from a span to a leaf that avoid the spans being visited; the guard against cycles fires exactly when some path comes back on itself or on those spans |
| TracePaths.TraceServicePaths | internal/graph/graph.go:126-165 | from all roots together: exactly the collapsed service sequences of root-to-leaf paths, and the guard against cycles never fires |
| TraceSnapshot.LastSpanCounts | internal/graph/graph.go:86-107 | of several spans with the same ids the last one counts |
| TraceSnapshot.GroupSpans | internal/graph/graph.go:86-107 | the spans by trace and span id, unnamed ones left out |
| TraceSnapshot.Build | internal/graph/graph.go:75-165 | all entry routes and all service paths of a batch of spans |
| TraceWindow.GroupTraces | internal/ingest/window.go:41-68 | the named traces, newest first with ties by id, each with its latest start and its spans in input order |
| TraceWindow.ProbeOnly | internal/ingest/window.go:29-39 | true exactly when every span is a probe |
| TraceWindow.TraceTouches | internal/ingest/window.go:79-89 | true exactly when no service is asked for or some span is of it |
| TraceWindow.SelectWindow | internal/ingest/window.go:121-145 | the whole traces chosen, newest first, each sorted, cut at the cap on spans |
| TraceWindow.ChosenAreNewest | internal/ingest/window.go:121-145 | the chosen traces are exactly the n newest eligible ones, none twice |
| TraceWindow.OrderIrrelevant | internal/ingest/window.go:41-77 | whatever the order of the spans the window shows the same traces, starts and span ids place by place, and the same spans where start and id tell the spans of a chosen trace apart |
| WindowAgain.Idempotent | internal/ingest/window.go:121-145 | selecting again gives the same traces, starts and span ids place by place if and only if what remains of each trace is still eligible, and the same spans where start and id tell them apart |
| WindowAgain.UncutStillEligible | internal/ingest/window.go:121-145 | a window below the cap on spans always meets that condition |
| WindowAgain.CutWindowLosesTrace | internal/ingest/window.go:15-145 | under the probe test of the code, a trace of as many health checks as the cap and one later request does not |
| Hunks.ApplyToLines | internal/diff/apply.go:232-285 | the patched text, or the first of the three errors, as the declarative outcome says |
| Hunks.AppliesIffSplits | internal/diff/apply.go:232-285 | hunks apply if and only if the file splits into kept stretches and their old lines at the stated positions; the result is that split with the new lines |
| Hunks.InverseUndoes | internal/diff/apply.go:232-285 | swapping additions and removals with recomputed starts gives the old lines back |
| Hunks.LinesConserved | internal/diff/apply.go:232-285 | the patched file has as many lines as the old one less the removed plus the added |
| Hunks.TailKept | internal/diff/apply.go:232-285 | lines appended to the file do not disturb a patch that applies |
| Hunks.WrittenReadsBack | internal/diff/apply.go:280-297 | the written text reads back as the patched lines if and only if some line is left or the file was empty |
| Hunks.InverseRestores | internal/diff/apply.go:180-297 | the inverse always applies to what was written, and restores the text if and only if the text is empty or ends a line and neither side alone is without lines |
| TextLines.LinesOfUnlines | internal/diff/apply.go:287-297 | splitting the text of some lines gives those lines |
| TextLines.UnlinesOfLines | internal/diff/apply.go:287-297 | for text that is empty or ends a line, joining its lines gives it back |
| LineNumbers.UniqueInts | internal/diff/parse.go:261-279 | the positive numbers, each once, ascending |
| LineNumbers.SourcesExplain | internal/diff/apply.go:232-285 | every line not added is an old line and the kept lines stay in order |
| LineNumbers.AdditionsAreRight | internal/diff/parse.go:137-171 | under consistent headers the number recorded for an added line is its position in the patched file |
| LineNumbers.UnrecordedAreKept | internal/diff/parse.go:137-171 | under consistent headers every position not recorded holds a kept old line, in order |
| DiffParse.InBody | internal/diff/parse.go:155-171 | a body line updates the recorded numbers and the next new line number as the hunk so far demands |
| DiffParse.ParseLine | internal/diff/parse.go:84-172 | one line fails exactly when the document is then unsound, and otherwise keeps the parser's variables in step with it |
| DiffParse.Parse | internal/diff/parse.go:34-183 | succeeds exactly when every file has a valid path and readable headers within the caps and every hunk a file; then canonical path, status and sorted changed lines of each |
| DiffText.GitPathIsLast | internal/diff/parse.go:214-223 | the path taken from a "diff --git" line is its last field |
| DiffApply.CollectLine | internal/diff/apply.go:101-171 | the same for the collector: fails exactly on a rename, an orphan hunk or an unreadable header |
| DiffApply.CollectApply | internal/diff/apply.go:61-178 | succeeds exactly on usable documents, with the hunks of every file whose path is valid |
| DiffAgreement.ReadersAgree | internal/diff/parse.go:34-183 | each reader classifies lines by its own switch; whenever both accept a diff they list the same files with the same path, status and hunks, and the reported lines are the numbers of those hunks |
| DiffAgreement.ReportedLinesAreRight | internal/diff/parse.go:137-171 | the lines Parse reports against the file Apply writes: added lines at their positions, everything else kept in order |
| Patching.ApplyOne | internal/diff/apply.go:180-230 | adds, deletes or rewrites one file of the tree, or fails with the tree unchanged |
| Patching.ApplyFiles | internal/diff/apply.go:19-47 | files in order up to the first failure |
| Patching.Apply | internal/diff/apply.go:19-47 | succeeds exactly when the diff parses, collects, names a file and every file applies; a refused diff changes nothing |
| Patching.OthersUntouched | internal/diff/apply.go:19-47 | a path no file names keeps its content, failure or not |
| Patching.DistinctPathsIndependent | internal/diff/apply.go:19-47 | with distinct paths all files apply if and only if each applies to the tree as it was |
| Patching.DistinctPathsAlone | internal/diff/apply.go:19-47 | and then each file ends as it would alone |
| Unified.Print | internal/rewrite/d1.go:35-56 | the four header lines and the marked lines, each ended by a newline |
| Unified.StartsOfHeader | internal/diff/parse.go:225-247 | both starts read from a printed hunk header are the start it was printed with |
| RoundTrip.PrintedReads | internal/diff/apply.go:61-178 | a printable diff is scanned and read as one modified file with one hunk of exactly the printed lines |
| Candidates.Candidate | internal/rewrite/shop.go:151-176 | a diff of the first occurrence, and an error exactly when the file is not among those asked for or cannot be read, the old text is absent or the new present |
| Candidates.Touches | internal/rewrite/d1.go:21-33 | true exactly when no file is asked for or one of them is the wanted path or ends in a slash and it |
| Candidates.PrintedOutcome | internal/rewrite/d1.go:35-56 | printing, parsing and applying does to the tree what the one hunk does to the named file, success or failure |
| Candidates.PrintParseApply | internal/rewrite/d1.go:35-56 | printing, parsing and applying the replacement of any occurrence gives the text before, the ended new text and the text after if the occurrence begins and ends a line, and is refused otherwise |
| Candidates.WholeReplaced | internal/rewrite/d1.go:35-56 | in a file of whole lines the text before and after stay as they are |
| Candidates.ArrivesAsGiven | internal/rewrite/d1.go:35-56 | the new text arrives unchanged if and only if it ends a line |
| Candidates.CandidateOutcome | internal/rewrite/shop.go:164-175 | a candidate replaces exactly its first occurrence if and only if that occurrence begins a line and ends one, and otherwise is not applied |
| Occurrences.WrittenAtText | internal/diff/apply.go:232-297 | the one hunk of a replacement rewrites the file if and only if the occurrence begins a line and ends one, and is a mismatch otherwise, for texts with or without a final newline |
| Failures.EmptiedIsNotRestored | internal/diff/apply.go:280-297 | removing the line of `a` writes one newline, and undoing that does not give the file back |
| Failures.UnendedIsNotRestored | internal/diff/apply.go:280-297 | an unended `a` gains a newline that undoing does not take away |
| Failures.HeaderLikeLineIsLost | internal/diff/apply.go:133-144 | a printed removal of `-- x` does not remove it |
| Failures.UnendedTextGrows | internal/rewrite/d1.go:35-56 | the new text `x` arrives with a newline |
| Failures.MidLineIsMissed | internal/rewrite/shop.go:164-175 | the old text in the middle of a line is found but its candidate is refused |
| PrintExactly.PrintedReadsAs | internal/diff/apply.go:101-171 | what any printed diff is read as: header-like lines and final carriage returns are lost from the hunk |
| PrintExactly.SurvivesExactly | internal/rewrite/d1.go:35-56 | in a file of whole lines a printed change that is not void gives the intended file if and only if every line survives the diff format |
| ValidationPolicy.NoTargetBlockers | internal/validate/decide.go:120-132 | nothing blocks on the targets if and only if both are given and their normal forms differ |
| Validate.CheckDuplicates | internal/validate/decide.go:134-153 | a blocker for each kind planned or reported more than once |
| Validate.CheckKinds | internal/validate/decide.go:155-184 | for each kind in turn: missing when no result has it, failed when some result is not proven, and for latency one per short sample and shifted row, sorted |
| Validate.RequiredStepBlockers | internal/validate/decide.go:186-194 | the same for the kinds the plan requires that are neither operator steps nor core kinds, each once |
| Validate.CheckChanges | internal/validate/decide.go:196-207 | a blocker for each unanalysed path, and one for no bound function or else for no impacted route, sorted |
| Validate.CheckCoverage | internal/validate/decide.go:209-217 | a blocker for each impacted route no answered request covers |
| Validate.Covered | internal/validate/decide.go:259-283 | true exactly when some answered request hits one of the routes |
| Validate.CheckStep | internal/validate/decide.go:285-305 | true exactly when the verdict proves a step of that kind, for latency with enough samples and no shift |
| Validate.LatencySamples | internal/validate/decide.go:307-319 | the least sample count over both sides of every latency row, zero when there is none |
| Validate.Basis | internal/validate/decide.go:333-359 | inferred when some covered route is only attributed through a caller, else observed when some covered route is, else nothing |
| Validate.Evaluate | internal/validate/decide.go:88-118 | the decision assembled part by part: validated exactly when no part has a blocker |
| ValidationPolicy.ValidatedIffPolicy | internal/validate/decide.go:88-227 | Decide validates if and only if the declarative policy holds |
| ValidationPolicy.DecisionIgnoresOrder | internal/validate/decide.go:88-359 | the whole decision is unchanged by permuting plan steps, results, workload, impacted routes and change lists |
| CoverageReport.CoverageOf | internal/evidence/coverage.go:77-100 | the impacted routes split, in order, into exercised and missed, and the rejected among the missed |
| CoverageReport.Partition | internal/evidence/coverage.go:77-100 | exercised and missed partition the impacted routes; rejected routes are missed ones |
| CoverageReport.MissedRoutesBlock | internal/evidence/coverage.go:77-100 | the missed routes are exactly the subjects of the decision's coverage blockers |
| Impact.OverlappingFuncs | internal/impact/analyze.go:244-285 | the functions the changed lines fall into, and whether some line falls into none |
| Impact.Direct | internal/impact/analyze.go:64-99 | the changed paths once each and the direct findings in order, cut at the cap |
| Impact.Classify | internal/impact/files.go:34-70 | the unanalysed paths are exactly the changed, non-inert ones without an analysed finding, and the bound functions those of analysed files |
| FailClosed.UnreportedIffMasked | internal/impact/analyze.go:302-307 | a file that is not fully analysed counts as analysed if and only if the cap was reached before it and the kept findings analyse its path |
| FailClosed.MaskedRepeats | internal/impact/analyze.go:302-307 | such a file repeats the path of an earlier one |
| FailClosed.MissingIffMasked | internal/impact/files.go:34-70 | it is missing from the unanalysed paths if and only if it is inert or so masked |
| FailOpen.RepeatPastCap | internal/impact/analyze.go:302-307 | 252 entries of which the last, a repeated path, is masked and not analysed |
| FailOpen.RepeatPastCapFailsOpen | internal/impact/analyze.go:302-307 | analysis, classification and decision validate that diff on spotless evidence |
| FailClosed.AnalyzeAndDecide | internal/impact/analyze.go:64-99 | the changes are classified by the kept findings and the decision follows the policy; if it validates, every non-inert changed file is known, not binary, has changed lines that all lie inside functions, or is masked, and when no file past the cap repeats a path none is |
| EndToEnd.Judge | internal/cli/local.go:189-195 | fails exactly when the diff does not parse; a validated diff has every non-inert file fully analysed or masked |
| EndToEnd.AppliedInside | internal/diff/apply.go:180-230 | a fully analysed file, patched from whatever it held, has each added line at its reported number and inside a function, given consistent headers |
| EndToEnd.ValidatedLinesAreInside | internal/diff/apply.go:19-47 | when a validated diff with distinct paths and consistent headers is applied to a tree, each added line of each non-inert file stands at its reported number in the patched file and inside a function |

## Left out

- The Postgres stores: SQL, transactions and row locks; the two stores differ on failed and canceled jobs and no agreement is claimed.
- Concurrency: an operation of the store runs under its mutex and is one atomic step; context cancellation and waiting are not modelled.
- Aliasing of slices and pointers: tasks and jobs are values that the methods reassign, so what the source writes in place through a pointer is written back explicitly.
- Malformed ids: `normalizeID` only rejects or trims; the operations are modelled on well-formed ids.
- The syntactic half of request validation (URLs, lengths, control characters), clipping of names and `List` are a parameter or absent.
- Fields of a job that no operation reads (commit hashes, dirty flag, notes) and the exact error texts.
- Integer width: fences, counters and line numbers do not wrap; `Atoi` does refuse numbers beyond a machine word.
- DiffParse.Parse: which of several errors is returned, the one-mebibyte and UTF-8 checks on the input, and the scanner's limit on a single line of that size, are not modelled.
- Patching.Apply: refusals that come from the root directory or the filesystem are not modelled.
- Patching.ApplyOne: symbolic links, file sizes, directories and the check that a path stays under the root are not modelled; the tree is a map from path to text.
- `CanonicalPath` is a parameter, so nothing is said about which paths it accepts.
- Candidates.Candidate: an absolute path that cannot be formed is not told apart from a file that cannot be read.
- Impact.Direct: the list of unobserved findings, callers, runtime attribution and the later sections of `Analyze` are not modelled; `Inert` and `RouteMatches` are parameters.
- CoverageReport.CoverageOf: trace counts, attributions and the text of the report are not modelled.
- TraceSnapshot.Build: call edges, counts per service, the caps on paths and the final sorting of the lists are not modelled; a path is a sequence rather than a joined string.
- TraceWindow.SelectWindow: the service name is taken as already clipped, and the probe test is any function of a span; `ProbeRoute`, with lower-casing as a parameter, is the one the code uses.
- The HTTP, gRPC and command-line layers, workers, sandboxes, replay clients, content-addressed storage and report rendering.
