/** The validation policy (internal/validate/decide.go). Each part is given as a function that
    collects blockers, and as the loops of the source proved equal to it. */
module Validate {
  import opened EvidenceTypes
  import opened Text
  import opened Sorting
  import opened Totals

  /** Library functions the policy calls: lower-casing of a trimmed string, URL normalisation and
      matching of a request against a route template. */
  datatype Lib = Lib(fold: string -> string, normUrl: string -> string, matches: (string, Request) -> bool)

  const MIN_LATENCY_N := 20
  const SHIFT_RATIO := 2
  const SHIFT_MIN_NS := 5_000_000
  const CORE_KINDS := [KIND_ENV, KIND_BEHAVIOR, KIND_LATENCY, KIND_CONCURRENCY]
  const NOTE_AUTH_REJECTED := "auth_rejected"
  const PROVENANCE_TRACE_ENTRY := "trace_entry"
  const PROVENANCE_CODE_ATTRS := "code_attrs"
  const PROVENANCE_TRACE_ENTRY_CALLER := "trace_entry_caller"

  // The order of blockers.

  predicate Precedes(a: Blocker, b: Blocker) {
    if a.subject == b.subject then AtMost(a.code, b.code) else Before(a.subject, b.subject)
  }

  lemma PrecedesIsTotal()
    ensures TotalOrder(Precedes)
  {
    forall a: Blocker, b: Blocker
      ensures Precedes(a, b) || Precedes(b, a)
      ensures Precedes(a, b) && Precedes(b, a) ==> a == b
    {
      BeforeTotal(a.subject, b.subject);
      BeforeTotal(a.code, b.code);
      if Before(a.subject, b.subject) && Before(b.subject, a.subject) {
        BeforeTransitive(a.subject, b.subject, a.subject);
        BeforeIrreflexive(a.subject);
      }
      if Before(a.code, b.code) && Before(b.code, a.code) {
        BeforeTransitive(a.code, b.code, a.code);
        BeforeIrreflexive(a.code);
      }
    }
    forall a: Blocker, b: Blocker, c: Blocker | Precedes(a, b) && Precedes(b, c)
      ensures Precedes(a, c)
    {
      PrecedesTransitive(a, b, c);
    }
  }

  lemma PrecedesTransitive(a: Blocker, b: Blocker, c: Blocker)
    requires Precedes(a, b) && Precedes(b, c)
    ensures Precedes(a, c)
  {
    if a.subject == c.subject && a.subject != b.subject {
      BeforeTransitive(a.subject, b.subject, c.subject);
      BeforeIrreflexive(a.subject);
    } else if a.subject == b.subject == c.subject {
      if Before(a.code, b.code) && Before(b.code, c.code) {
        BeforeTransitive(a.code, b.code, c.code);
      }
    } else if a.subject != b.subject && b.subject != c.subject {
      BeforeTransitive(a.subject, b.subject, c.subject);
    }
  }

  function Sorted(bs: seq<Blocker>): (r: seq<Blocker>)
    ensures multiset(r) == multiset(bs)
  {
    Sort(bs, Precedes)
  }

  // Steps.

  predicate Shifted(l: StepLatency) {
    l.baseline.n != 0 && l.patch.n != 0 &&
    l.patch.medianNs > SHIFT_RATIO * l.baseline.medianNs && l.patch.medianNs - l.baseline.medianNs >= SHIFT_MIN_NS
  }

  function RowN(l: StepLatency): int {
    if l.patch.n < l.baseline.n then l.patch.n else l.baseline.n
  }

  /** The fewest samples behind any row, and 0 when there is no row. */
  function LatencyN(rows: seq<StepLatency>): int {
    if rows == [] then 0
    else if |rows| == 1 then RowN(rows[0])
    else
      var m := LatencyN(rows[..|rows| - 1]);
      if RowN(rows[|rows| - 1]) < m then RowN(rows[|rows| - 1]) else m
  }

  method LatencySamples(rows: seq<StepLatency>) returns (m: int)
    ensures m == LatencyN(rows)
  {
    m := 0;
    for i := 0 to |rows|
      invariant m == LatencyN(rows[..i])
    {
      assert rows[..i + 1][..i] == rows[..i];
      var n := rows[i].baseline.n;
      if rows[i].patch.n < n {
        n := rows[i].patch.n;
      }
      if i == 0 || n < m {
        m := n;
      }
    }
    assert rows[..|rows|] == rows;
  }

  lemma {:induction false} LatencyNAtLeast(rows: seq<StepLatency>, k: int)
    requires k > 0
    ensures LatencyN(rows) >= k <==> rows != [] && forall i :: 0 <= i < |rows| ==> rows[i].baseline.n >= k && rows[i].patch.n >= k
  {
    if |rows| > 1 {
      var init := rows[..|rows| - 1];
      LatencyNAtLeast(init, k);
      assert forall i :: 0 <= i < |init| ==> init[i] == rows[i];
      assert rows == init + [rows[|rows| - 1]];
    }
  }

  predicate StepOK(lib: Lib, kind: string, s: StepResult) {
    var v := lib.fold(s.verdict);
    if kind == KIND_ENV || kind == KIND_TESTS then v == VERDICT_PREPARED
    else if kind == KIND_BEHAVIOR || kind == KIND_CONCURRENCY then v == VERDICT_MATCH
    else if kind == KIND_LATENCY then
      v == VERDICT_SAMPLES && LatencyN(s.latency) >= MIN_LATENCY_N && forall i :: 0 <= i < |s.latency| ==> !Shifted(s.latency[i])
    else v == VERDICT_MATCH || v == VERDICT_SAMPLES || v == VERDICT_PREPARED
  }

  method CheckStep(lib: Lib, kind: string, s: StepResult) returns (ok: bool)
    ensures ok == StepOK(lib, kind, s)
    ensures s.kind == kind ==> ok == !Fails(lib, kind, s)
  {
    var v := lib.fold(s.verdict);
    if kind == KIND_ENV || kind == KIND_TESTS {
      return v == VERDICT_PREPARED;
    } else if kind == KIND_BEHAVIOR || kind == KIND_CONCURRENCY {
      return v == VERDICT_MATCH;
    } else if kind == KIND_LATENCY {
      var n := LatencySamples(s.latency);
      if v != VERDICT_SAMPLES || n < MIN_LATENCY_N {
        return false;
      }
      for i := 0 to |s.latency|
        invariant forall k :: 0 <= k < i ==> !Shifted(s.latency[k])
      {
        if Shifted(s.latency[i]) {
          return false;
        }
      }
      return true;
    }
    return v == VERDICT_MATCH || v == VERDICT_SAMPLES || v == VERDICT_PREPARED;
  }

  function ShiftBlocker(): StepLatency -> seq<Blocker> {
    (l: StepLatency) => if Shifted(l) then [Blocker("latency_shift", l.verb + " " + l.path)] else []
  }

  /** What one result adds about latency. */
  function LatencyBlockers(kind: string): StepResult -> seq<Blocker> {
    (s: StepResult) =>
      if s.kind != kind || kind != KIND_LATENCY then []
      else (if LatencyN(s.latency) < MIN_LATENCY_N then [Blocker("latency_n", Itoa(LatencyN(s.latency)))] else [])
           + Gather(s.latency, ShiftBlocker())
  }

  predicate Ran(kind: string, results: seq<StepResult>) {
    exists i :: 0 <= i < |results| && results[i].kind == kind
  }

  predicate Fails(lib: Lib, kind: string, s: StepResult) {
    s.kind == kind && !StepOK(lib, kind, s)
  }

  predicate SomeFailed(lib: Lib, kind: string, results: seq<StepResult>) {
    exists i :: 0 <= i < |results| && Fails(lib, kind, results[i])
  }

  function Tail(lib: Lib, kind: string, results: seq<StepResult>): seq<Blocker> {
    if !Ran(kind, results) then [Blocker("step_missing", kind)]
    else if SomeFailed(lib, kind, results) then [Blocker("step_failed", kind)]
    else []
  }

  function KindBlockers(lib: Lib, results: seq<StepResult>): string -> seq<Blocker> {
    (kind: string) => Gather(results, LatencyBlockers(kind)) + Tail(lib, kind, results)
  }

  function StepBlockers(lib: Lib, kinds: seq<string>, results: seq<StepResult>): seq<Blocker> {
    Sorted(Gather(kinds, KindBlockers(lib, results)))
  }

  method LatencyFindings(kind: string, s: StepResult) returns (bs: seq<Blocker>)
    ensures bs == LatencyBlockers(kind)(s)
  {
    bs := [];
    if s.kind != kind || kind != KIND_LATENCY {
      return;
    }
    var n := LatencySamples(s.latency);
    if n < MIN_LATENCY_N {
      bs := [Blocker("latency_n", Itoa(n))];
    }
    ghost var head := bs;
    for k := 0 to |s.latency|
      invariant bs == head + Gather(s.latency[..k], ShiftBlocker())
    {
      GatherTake(s.latency, k, ShiftBlocker());
      if Shifted(s.latency[k]) {
        bs := bs + [Blocker("latency_shift", s.latency[k].verb + " " + s.latency[k].path)];
      }
    }
    assert s.latency[..|s.latency|] == s.latency;
  }

  lemma OneMoreResult(lib: Lib, kind: string, results: seq<StepResult>, i: nat)
    requires i < |results|
    ensures Ran(kind, results[..i + 1]) <==> Ran(kind, results[..i]) || results[i].kind == kind
    ensures SomeFailed(lib, kind, results[..i + 1]) <==> SomeFailed(lib, kind, results[..i]) || Fails(lib, kind, results[i])
  {
    assert results[..i + 1] == results[..i] + [results[i]];
  }

  method CheckKind(lib: Lib, kind: string, results: seq<StepResult>) returns (bs: seq<Blocker>)
    ensures bs == KindBlockers(lib, results)(kind)
  {
    bs := [];
    var found, failed := false, false;
    for i := 0 to |results|
      invariant found == Ran(kind, results[..i]) && failed == SomeFailed(lib, kind, results[..i])
      invariant bs == Gather(results[..i], LatencyBlockers(kind))
    {
      GatherTake(results, i, LatencyBlockers(kind));
      OneMoreResult(lib, kind, results, i);
      var s := results[i];
      if s.kind != kind {
        continue;
      }
      found := true;
      var ok := CheckStep(lib, kind, s);
      failed := failed || !ok;
      var mine := LatencyFindings(kind, s);
      bs := bs + mine;
    }
    assert results[..|results|] == results;
    ghost var latency := bs;
    if !found {
      bs := bs + [Blocker("step_missing", kind)];
    } else if failed {
      bs := bs + [Blocker("step_failed", kind)];
    }
    assert bs == latency + Tail(lib, kind, results);
  }

  method CheckKinds(lib: Lib, kinds: seq<string>, results: seq<StepResult>) returns (bs: seq<Blocker>)
    ensures bs == StepBlockers(lib, kinds, results)
  {
    bs := [];
    for i := 0 to |kinds|
      invariant bs == Gather(kinds[..i], KindBlockers(lib, results))
    {
      GatherTake(kinds, i, KindBlockers(lib, results));
      var more := CheckKind(lib, kinds[i], results);
      bs := bs + more;
    }
    assert kinds[..|kinds|] == kinds;
    bs := Sorted(bs);
  }

  // Required kinds beyond the core.

  predicate Demands(s: PlanStep) {
    s.required && !s.operator && s.kind !in CORE_KINDS
  }

  /** The demanded kinds in order of first appearance. */
  function RequiredKinds(plan: seq<PlanStep>): (ks: seq<string>)
    ensures NoDuplicates(ks)
    ensures forall k :: k in ks <==> exists i :: 0 <= i < |plan| && plan[i].kind == k && Demands(plan[i])
  {
    if plan == [] then []
    else
      var init, s := plan[..|plan| - 1], plan[|plan| - 1];
      var ks := RequiredKinds(init);
      assert forall i :: 0 <= i < |init| ==> init[i] == plan[i];
      if Demands(s) && s.kind !in ks then ks + [s.kind] else ks
  }

  method RequiredStepBlockers(lib: Lib, plan: seq<PlanStep>, results: seq<StepResult>) returns (bs: seq<Blocker>)
    ensures bs == StepBlockers(lib, RequiredKinds(plan), results)
  {
    var kinds := [];
    for i := 0 to |plan|
      invariant kinds == RequiredKinds(plan[..i])
    {
      assert plan[..i + 1][..i] == plan[..i];
      var s := plan[i];
      if s.required && !s.operator && s.kind !in CORE_KINDS && s.kind !in kinds {
        kinds := kinds + [s.kind];
      }
    }
    assert plan[..|plan|] == plan;
    bs := CheckKinds(lib, kinds, results);
  }

  // Targets, duplicates, changes and coverage.

  function When(c: bool, b: Blocker): seq<Blocker> {
    if c then [b] else []
  }

  function TargetList(lib: Lib, input: Input): seq<Blocker> {
    When(Blank(input.baseline), Blocker("missing_target", "baseline"))
    + When(Blank(input.patch), Blocker("missing_target", "patch"))
    + When(input.baseline != "" && input.patch != "" && lib.normUrl(input.baseline) == lib.normUrl(input.patch),
           Blocker("same_target", lib.normUrl(input.baseline)))
  }

  function TargetBlockers(lib: Lib, input: Input): seq<Blocker> {
    Sorted(TargetList(lib, input))
  }

  function KindIn(kind: string): PlanStep -> nat {
    (s: PlanStep) => if s.kind == kind then 1 else 0
  }

  function KindRan(kind: string): StepResult -> nat {
    (s: StepResult) => if s.kind == kind then 1 else 0
  }

  predicate Repeated(plan: seq<PlanStep>, results: seq<StepResult>, kind: string) {
    Total(plan, KindIn(kind)) > 1 || Total(results, KindRan(kind)) > 1
  }

  /** Every kind that is planned or reported, once. */
  function Kinds(plan: seq<PlanStep>, results: seq<StepResult>): (ks: seq<string>)
    ensures NoDuplicates(ks)
    ensures forall k :: k in ks <==> (exists i :: 0 <= i < |plan| && plan[i].kind == k) || Ran(k, results)
    decreases |plan| + |results|
  {
    if plan != [] then
      var init := plan[..|plan| - 1];
      var ks := Kinds(init, results);
      assert forall i :: 0 <= i < |init| ==> init[i] == plan[i];
      if plan[|plan| - 1].kind in ks then ks else ks + [plan[|plan| - 1].kind]
    else if results != [] then
      var init := results[..|results| - 1];
      var ks := Kinds(plan, init);
      assert forall i :: 0 <= i < |init| ==> init[i] == results[i];
      if results[|results| - 1].kind in ks then ks else ks + [results[|results| - 1].kind]
    else []
  }

  function DuplicateBlocker(plan: seq<PlanStep>, results: seq<StepResult>): string -> seq<Blocker> {
    (kind: string) => if Repeated(plan, results, kind) then [Blocker("duplicate_step", kind)] else []
  }

  function DuplicateBlockers(plan: seq<PlanStep>, results: seq<StepResult>): seq<Blocker> {
    Sorted(Gather(Kinds(plan, results), DuplicateBlocker(plan, results)))
  }

  function UnanalyzedBlocker(): string -> seq<Blocker> {
    (path: string) => [Blocker("unanalyzed_change", path)]
  }

  function ChangeList(input: Input): seq<Blocker> {
    Gather(input.changes.unanalyzed, UnanalyzedBlocker())
    + When(input.changes.bound == [], Blocker("no_function_binding", ""))
    + When(input.changes.bound != [] && input.impacted == [], Blocker("no_runtime_route", ""))
  }

  function ChangeBlockers(input: Input): seq<Blocker> {
    Sorted(ChangeList(input))
  }

  predicate AuthRejected(d: Delta) {
    NOTE_AUTH_REJECTED in d.notes
  }

  /** Both sides answered the request, and not with an authentication refusal. */
  predicate Answers(d: Delta, key: string) {
    d.baselineStatus != 0 && d.patchStatus != 0 && !AuthRejected(d) && d.verb + " " + d.path == key
  }

  predicate Answered(res: Evidence, key: string) {
    exists i, k :: 0 <= i < |res.steps| && res.steps[i].kind == KIND_BEHAVIOR && 0 <= k < |res.steps[i].deltas| &&
      Answers(res.steps[i].deltas[k], key)
  }

  /** Some request of the workload hits the route and was answered from a handler on both sides. */
  predicate RouteCovered(lib: Lib, route: string, work: seq<Request>, res: Evidence) {
    exists i :: 0 <= i < |work| && Answered(res, work[i].verb + " " + work[i].path) && lib.matches(route, work[i])
  }

  function MissedBlocker(lib: Lib, work: seq<Request>, res: Evidence): string -> seq<Blocker> {
    (route: string) => if RouteCovered(lib, route, work, res) then [] else [Blocker("route_missed", route)]
  }

  function CoverageBlockers(lib: Lib, input: Input): seq<Blocker> {
    Sorted(Gather(input.impacted, MissedBlocker(lib, input.workload, input.result)))
  }

  // How coverage was attributed.

  predicate Direct(a: Attribution) {
    a.provenance == PROVENANCE_TRACE_ENTRY || a.provenance == PROVENANCE_CODE_ATTRS
  }

  predicate Observed(attributions: seq<Attribution>, route: string) {
    exists i :: 0 <= i < |attributions| && attributions[i].route == route && Direct(attributions[i])
  }

  predicate Inferred(attributions: seq<Attribution>, route: string) {
    exists i :: 0 <= i < |attributions| && attributions[i].route == route &&
      attributions[i].provenance == PROVENANCE_TRACE_ENTRY_CALLER
  }

  predicate OnlyInferred(lib: Lib, input: Input, route: string) {
    RouteCovered(lib, route, input.workload, input.result) &&
    Inferred(input.attributions, route) && !Observed(input.attributions, route)
  }

  predicate SeenDirectly(lib: Lib, input: Input, route: string) {
    RouteCovered(lib, route, input.workload, input.result) && Observed(input.attributions, route)
  }

  /** One covered route known only through a caller makes the whole coverage inferred. */
  function CoverageBasis(lib: Lib, input: Input): string {
    if exists i :: 0 <= i < |input.impacted| && OnlyInferred(lib, input, input.impacted[i]) then "inferred"
    else if exists i :: 0 <= i < |input.impacted| && SeenDirectly(lib, input, input.impacted[i]) then "observed"
    else ""
  }

  // The decision.

  predicate Verified(r: Revision) {
    r.tree != "" && r.source == SOURCE_BUILT
  }

  function RevisionBlockers(input: Input): seq<Blocker> {
    When(input.baselineRev.dirty, Blocker("dirty_baseline", ""))
    + When(!Verified(input.baselineRev), Blocker("unverified_revision", "baseline"))
    + When(!Verified(input.patchRev), Blocker("unverified_revision", "patch"))
    + When(input.baselineRev.tree != "" && input.baselineRev.tree == input.patchRev.tree,
           Blocker("same_target", input.baselineRev.tree))
  }

  function OverallBlockers(lib: Lib, input: Input): seq<Blocker> {
    When(lib.fold(input.result.overall) != VERDICT_MATCH, Blocker("not_match", input.result.overall))
  }

  /** The blockers of each requirement, in policy order. */
  datatype Parts = Parts(
    revisions: seq<Blocker>,
    targets: seq<Blocker>,
    overall: seq<Blocker>,
    duplicates: seq<Blocker>,
    core: seq<Blocker>,
    required: seq<Blocker>,
    changes: seq<Blocker>,
    coverage: seq<Blocker>)

  function PartsOf(lib: Lib, input: Input): Parts {
    Parts(RevisionBlockers(input),
          TargetBlockers(lib, input),
          OverallBlockers(lib, input),
          DuplicateBlockers(input.plan, input.result.steps),
          StepBlockers(lib, CORE_KINDS, input.result.steps),
          StepBlockers(lib, RequiredKinds(input.plan), input.result.steps),
          ChangeBlockers(input),
          CoverageBlockers(lib, input))
  }

  function Joined(p: Parts): seq<Blocker> {
    p.revisions + p.targets + p.overall + p.duplicates + p.core + p.required + p.changes + p.coverage
  }

  function Decide(lib: Lib, input: Input): Decision {
    var bs := Joined(PartsOf(lib, input));
    Decision(bs == [], bs, CoverageBasis(lib, input))
  }

  // The loops of the source.

  function CountOf(counts: map<string, (nat, nat)>, kind: string): (nat, nat) {
    if kind in counts then counts[kind] else (0, 0)
  }

  method CountPlanned(plan: seq<PlanStep>) returns (counts: map<string, (nat, nat)>)
    ensures forall k :: CountOf(counts, k) == (Total(plan, KindIn(k)), 0)
    ensures forall k :: k in counts <==> exists i :: 0 <= i < |plan| && plan[i].kind == k
  {
    counts := map[];
    for i := 0 to |plan|
      invariant forall k :: CountOf(counts, k) == (Total(plan[..i], KindIn(k)), 0)
      invariant forall k :: k in counts <==> exists m :: 0 <= m < i && plan[m].kind == k
    {
      var n := CountOf(counts, plan[i].kind);
      forall k ensures Total(plan[..i + 1], KindIn(k)) == Total(plan[..i], KindIn(k)) + KindIn(k)(plan[i]) {
        TotalTake(plan, i, KindIn(k));
      }
      counts := counts[plan[i].kind := (n.0 + 1, n.1)];
    }
    assert plan[..|plan|] == plan;
  }

  /** How often each kind is planned and how often it is reported. */
  ghost predicate Counted(counts: map<string, (nat, nat)>, plan: seq<PlanStep>, results: seq<StepResult>) {
    forall k :: CountOf(counts, k) == (Total(plan, KindIn(k)), Total(results, KindRan(k)))
  }

  lemma CountedMore(counts: map<string, (nat, nat)>, plan: seq<PlanStep>, results: seq<StepResult>, i: nat)
    requires i < |results| && Counted(counts, plan, results[..i])
    ensures var n := CountOf(counts, results[i].kind);
            Counted(counts[results[i].kind := (n.0, n.1 + 1)], plan, results[..i + 1])
  {
    var n := CountOf(counts, results[i].kind);
    forall k
      ensures CountOf(counts[results[i].kind := (n.0, n.1 + 1)], k) == (Total(plan, KindIn(k)), Total(results[..i + 1], KindRan(k)))
    {
      TotalTake(results, i, KindRan(k));
    }
  }

  method CountKinds(plan: seq<PlanStep>, results: seq<StepResult>) returns (counts: map<string, (nat, nat)>)
    ensures Counted(counts, plan, results)
    ensures forall k :: k in counts <==> k in Kinds(plan, results)
  {
    counts := CountPlanned(plan);
    ghost var planned := counts.Keys;
    for i := 0 to |results|
      invariant Counted(counts, plan, results[..i])
      invariant forall k :: k in counts <==> k in planned || exists m :: 0 <= m < i && results[m].kind == k
    {
      var n := CountOf(counts, results[i].kind);
      CountedMore(counts, plan, results, i);
      counts := counts[results[i].kind := (n.0, n.1 + 1)];
    }
    assert results[..|results|] == results;
  }

  lemma DuplicatesInAnyOrder(visited: seq<string>, plan: seq<PlanStep>, results: seq<StepResult>)
    requires NoDuplicates(visited) && forall k :: k in visited <==> k in Kinds(plan, results)
    ensures Sorted(Gather(visited, DuplicateBlocker(plan, results))) == DuplicateBlockers(plan, results)
  {
    SameElementsPermute(visited, Kinds(plan, results));
    GatherPermute(visited, Kinds(plan, results), DuplicateBlocker(plan, results));
    PrecedesIsTotal();
    SortPermute(Gather(visited, DuplicateBlocker(plan, results)), Gather(Kinds(plan, results), DuplicateBlocker(plan, results)), Precedes);
  }

  method CheckDuplicates(plan: seq<PlanStep>, results: seq<StepResult>) returns (bs: seq<Blocker>)
    ensures bs == DuplicateBlockers(plan, results)
  {
    var counts := CountKinds(plan, results);
    bs := [];
    var todo := counts.Keys;
    ghost var visited: seq<string> := [];
    ghost var blocker := DuplicateBlocker(plan, results);
    while todo != {}
      invariant todo <= counts.Keys
      invariant NoDuplicates(visited) && forall k :: k in visited <==> k in counts && k !in todo
      invariant bs == Gather(visited, blocker)
    {
      var kind :| kind in todo;
      var n := counts[kind];
      assert n == CountOf(counts, kind);
      assert blocker(kind) == When(n.0 > 1 || n.1 > 1, Blocker("duplicate_step", kind));
      if n.0 > 1 || n.1 > 1 {
        bs := bs + [Blocker("duplicate_step", kind)];
      }
      todo := todo - {kind};
      assert (visited + [kind])[..|visited|] == visited;
      visited := visited + [kind];
    }
    DuplicatesInAnyOrder(visited, plan, results);
    bs := Sorted(bs);
  }

  method CheckTargets(lib: Lib, input: Input) returns (bs: seq<Blocker>)
    ensures bs == TargetBlockers(lib, input)
  {
    bs := [];
    if Blank(input.baseline) {
      bs := bs + [Blocker("missing_target", "baseline")];
    }
    if Blank(input.patch) {
      bs := bs + [Blocker("missing_target", "patch")];
    }
    if input.baseline != "" && input.patch != "" && lib.normUrl(input.baseline) == lib.normUrl(input.patch) {
      bs := bs + [Blocker("same_target", lib.normUrl(input.baseline))];
    }
    assert bs == TargetList(lib, input);
    bs := Sorted(bs);
  }

  method CheckChanges(input: Input) returns (bs: seq<Blocker>)
    ensures bs == ChangeBlockers(input)
  {
    bs := [];
    var paths := input.changes.unanalyzed;
    for i := 0 to |paths|
      invariant bs == Gather(paths[..i], UnanalyzedBlocker())
    {
      GatherTake(paths, i, UnanalyzedBlocker());
      bs := bs + [Blocker("unanalyzed_change", paths[i])];
    }
    assert paths[..|paths|] == paths;
    if input.changes.bound == [] {
      bs := bs + [Blocker("no_function_binding", "")];
    } else if input.impacted == [] {
      bs := bs + [Blocker("no_runtime_route", "")];
    }
    assert bs == ChangeList(input);
    bs := Sorted(bs);
  }

  method AnsweredKeys(res: Evidence) returns (answered: set<string>)
    ensures forall key :: key in answered <==> Answered(res, key)
  {
    answered := {};
    for i := 0 to |res.steps|
      invariant forall key :: key in answered <==>
                  exists m, k :: 0 <= m < i && res.steps[m].kind == KIND_BEHAVIOR && 0 <= k < |res.steps[m].deltas| &&
                    Answers(res.steps[m].deltas[k], key)
    {
      var s := res.steps[i];
      if s.kind != KIND_BEHAVIOR {
        continue;
      }
      ghost var before := answered;
      for j := 0 to |s.deltas|
        invariant forall key :: key in answered <==> key in before || exists k :: 0 <= k < j && Answers(s.deltas[k], key)
      {
        var d := s.deltas[j];
        if d.baselineStatus == 0 || d.patchStatus == 0 || AuthRejected(d) {
          continue;
        }
        answered := answered + {d.verb + " " + d.path};
      }
    }
  }

  /** Whether some answered request hits one of the routes. */
  method Covered(lib: Lib, impacted: seq<string>, work: seq<Request>, res: Evidence) returns (yes: bool)
    ensures yes <==> exists r :: r in impacted && RouteCovered(lib, r, work, res)
  {
    var answered := AnsweredKeys(res);
    for i := 0 to |work|
      invariant forall m, r :: 0 <= m < i && r in impacted && Answered(res, work[m].verb + " " + work[m].path) ==> !lib.matches(r, work[m])
    {
      if work[i].verb + " " + work[i].path !in answered {
        continue;
      }
      for k := 0 to |impacted|
        invariant forall m :: 0 <= m < k ==> !lib.matches(impacted[m], work[i])
      {
        if lib.matches(impacted[k], work[i]) {
          assert RouteCovered(lib, impacted[k], work, res);
          return true;
        }
      }
    }
    return false;
  }

  method CheckCoverage(lib: Lib, input: Input) returns (bs: seq<Blocker>)
    ensures bs == CoverageBlockers(lib, input)
  {
    bs := [];
    var missed := MissedBlocker(lib, input.workload, input.result);
    for i := 0 to |input.impacted|
      invariant bs == Gather(input.impacted[..i], missed)
    {
      GatherTake(input.impacted, i, missed);
      var yes := Covered(lib, [input.impacted[i]], input.workload, input.result);
      if !yes {
        assert input.impacted[i] in [input.impacted[i]];
        bs := bs + [Blocker("route_missed", input.impacted[i])];
      }
    }
    assert input.impacted[..|input.impacted|] == input.impacted;
    bs := Sorted(bs);
  }

  method Basis(lib: Lib, input: Input) returns (basis: string)
    ensures basis == CoverageBasis(lib, input)
  {
    basis := "";
    for i := 0 to |input.impacted|
      invariant basis == "" || basis == "observed"
      invariant basis == "observed" <==> exists k :: 0 <= k < i && SeenDirectly(lib, input, input.impacted[k])
      invariant forall k :: 0 <= k < i ==> !OnlyInferred(lib, input, input.impacted[k])
    {
      var route := input.impacted[i];
      var yes := Covered(lib, [route], input.workload, input.result);
      assert route in [route];
      if !yes {
        continue;
      }
      var observed, inferred := Provenances(input.attributions, route);
      if inferred && !observed {
        return "inferred";
      }
      if observed {
        basis := "observed";
      }
    }
  }

  method Provenances(attributions: seq<Attribution>, route: string) returns (observed: bool, inferred: bool)
    ensures observed == Observed(attributions, route)
    ensures inferred == Inferred(attributions, route)
  {
    observed, inferred := false, false;
    for i := 0 to |attributions|
      invariant observed == Observed(attributions[..i], route)
      invariant inferred == Inferred(attributions[..i], route)
    {
      var a := attributions[i];
      assert attributions[..i + 1] == attributions[..i] + [a];
      ProvenanceGrows(attributions[..i], a, route);
      if a.route != route {
        continue;
      }
      if a.provenance == PROVENANCE_TRACE_ENTRY || a.provenance == PROVENANCE_CODE_ATTRS {
        observed := true;
      } else if a.provenance == PROVENANCE_TRACE_ENTRY_CALLER {
        inferred := true;
      }
    }
    assert attributions[..|attributions|] == attributions;
  }

  lemma ProvenanceGrows(xs: seq<Attribution>, a: Attribution, route: string)
    ensures Observed(xs + [a], route) == (Observed(xs, route) || (a.route == route && Direct(a)))
    ensures Inferred(xs + [a], route) == (Inferred(xs, route) || (a.route == route && a.provenance == PROVENANCE_TRACE_ENTRY_CALLER))
  {
    var ys := xs + [a];
    assert ys[|xs|] == a && forall i :: 0 <= i < |xs| ==> ys[i] == xs[i];
    if Observed(xs, route) {
      var i :| 0 <= i < |xs| && xs[i].route == route && Direct(xs[i]);
      assert ys[i] == xs[i];
    }
    if Inferred(xs, route) {
      var i :| 0 <= i < |xs| && xs[i].route == route && xs[i].provenance == PROVENANCE_TRACE_ENTRY_CALLER;
      assert ys[i] == xs[i];
    }
  }

  method CheckRevisions(input: Input) returns (bs: seq<Blocker>)
    ensures bs == RevisionBlockers(input)
  {
    bs := [];
    if input.baselineRev.dirty {
      bs := bs + [Blocker("dirty_baseline", "")];
    }
    if input.baselineRev.tree == "" || input.baselineRev.source != SOURCE_BUILT {
      bs := bs + [Blocker("unverified_revision", "baseline")];
    }
    if input.patchRev.tree == "" || input.patchRev.source != SOURCE_BUILT {
      bs := bs + [Blocker("unverified_revision", "patch")];
    }
    if input.baselineRev.tree != "" && input.baselineRev.tree == input.patchRev.tree {
      bs := bs + [Blocker("same_target", input.baselineRev.tree)];
    }
  }

  method Evaluate(lib: Lib, input: Input) returns (d: Decision)
    ensures d == Decide(lib, input)
  {
    var bs := CheckRevisions(input);
    var targets := CheckTargets(lib, input);
    var overall := When(lib.fold(input.result.overall) != VERDICT_MATCH, Blocker("not_match", input.result.overall));
    var duplicates := CheckDuplicates(input.plan, input.result.steps);
    var core := CheckKinds(lib, CORE_KINDS, input.result.steps);
    var required := RequiredStepBlockers(lib, input.plan, input.result.steps);
    var changes := CheckChanges(input);
    var coverage := CheckCoverage(lib, input);
    var parts := Parts(bs, targets, overall, duplicates, core, required, changes, coverage);
    assert parts == PartsOf(lib, input);
    bs := Joined(parts);
    var basis := Basis(lib, input);
    d := Decision(bs == [], bs, basis);
  }
}
