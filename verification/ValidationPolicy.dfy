/** What a decision means: the declarative policy it is equivalent to, its independence of order, and
    the coverage report that explains it (internal/validate/decide.go, internal/evidence/coverage.go). */
module ValidationPolicy {
  import opened EvidenceTypes
  import opened Text
  import opened Sorting
  import opened Totals
  import opened Validate

  // The policy.

  /** A latency step with enough samples on both sides of every row, none of them slowed down. */
  predicate SoundLatency(rows: seq<StepLatency>) {
    rows != [] && forall i :: 0 <= i < |rows| ==>
      rows[i].baseline.n >= MIN_LATENCY_N && rows[i].patch.n >= MIN_LATENCY_N && !Shifted(rows[i])
  }

  predicate Passes(lib: Lib, s: StepResult) {
    var v := lib.fold(s.verdict);
    if s.kind == KIND_LATENCY then v == VERDICT_SAMPLES && SoundLatency(s.latency)
    else if s.kind == KIND_ENV || s.kind == KIND_TESTS then v == VERDICT_PREPARED
    else if s.kind == KIND_BEHAVIOR || s.kind == KIND_CONCURRENCY then v == VERDICT_MATCH
    else v in {VERDICT_MATCH, VERDICT_SAMPLES, VERDICT_PREPARED}
  }

  predicate OncePerKind(plan: seq<PlanStep>, results: seq<StepResult>) {
    && (forall i, k :: 0 <= i < k < |plan| ==> plan[i].kind != plan[k].kind)
    && (forall i, k :: 0 <= i < k < |results| ==> results[i].kind != results[k].kind)
  }

  predicate Proven(lib: Lib, kind: string, results: seq<StepResult>) {
    exists i :: 0 <= i < |results| && results[i].kind == kind && Passes(lib, results[i])
  }

  predicate AllProven(lib: Lib, kinds: seq<string>, results: seq<StepResult>) {
    forall kind :: kind in kinds ==> Proven(lib, kind, results)
  }

  predicate RequiredProven(lib: Lib, plan: seq<PlanStep>, results: seq<StepResult>) {
    forall i :: 0 <= i < |plan| && plan[i].required && !plan[i].operator ==> Proven(lib, plan[i].kind, results)
  }

  predicate RoutesCovered(lib: Lib, input: Input) {
    forall route :: route in input.impacted ==> RouteCovered(lib, route, input.workload, input.result)
  }

  /** A change counts as validated when both revisions are built, distinct and the baseline clean; the
      targets are distinct; the overall verdict is a match; no kind of step is planned or reported
      twice; every core or required step passed; every change is bound to a function, and every
      impacted route, of which there is at least one, was answered on both sides. */
  ghost predicate Policy(lib: Lib, input: Input) {
    && !input.baselineRev.dirty
    && Verified(input.baselineRev) && Verified(input.patchRev) && input.baselineRev.tree != input.patchRev.tree
    && !Blank(input.baseline) && !Blank(input.patch) && lib.normUrl(input.baseline) != lib.normUrl(input.patch)
    && lib.fold(input.result.overall) == VERDICT_MATCH
    && OncePerKind(input.plan, input.result.steps)
    && AllProven(lib, CORE_KINDS, input.result.steps) && RequiredProven(lib, input.plan, input.result.steps)
    && input.changes.unanalyzed == [] && input.changes.bound != [] && input.impacted != []
    && RoutesCovered(lib, input)
  }

  lemma PassesIsStepOK(lib: Lib, s: StepResult)
    ensures Passes(lib, s) <==> StepOK(lib, s.kind, s)
  {
    LatencyNAtLeast(s.latency, MIN_LATENCY_N);
  }

  lemma {:induction false} AtMostOnce<T>(xs: seq<T>, f: T -> nat)
    requires forall i :: 0 <= i < |xs| ==> f(xs[i]) <= 1
    ensures Total(xs, f) <= 1 <==> forall i, k :: 0 <= i < k < |xs| ==> f(xs[i]) == 0 || f(xs[k]) == 0
  {
    if xs != [] {
      var n := |xs| - 1;
      AtMostOnce(xs[..n], f);
      ZeroOrSome(xs[..n], f);
      assert forall i :: 0 <= i < n ==> xs[..n][i] == xs[i];
    }
  }

  lemma {:induction false} ZeroOrSome<T>(xs: seq<T>, f: T -> nat)
    ensures Total(xs, f) == 0 <==> forall i :: 0 <= i < |xs| ==> f(xs[i]) == 0
  {
    if xs != [] {
      var n := |xs| - 1;
      ZeroOrSome(xs[..n], f);
      assert forall i :: 0 <= i < n ==> xs[..n][i] == xs[i];
    }
  }

  predicate TwicePlanned(plan: seq<PlanStep>, kind: string) {
    exists i, k :: 0 <= i < k < |plan| && plan[i].kind == kind && plan[k].kind == kind
  }

  predicate TwiceRan(results: seq<StepResult>, kind: string) {
    exists i, k :: 0 <= i < k < |results| && results[i].kind == kind && results[k].kind == kind
  }

  lemma RepeatedMeans(plan: seq<PlanStep>, results: seq<StepResult>, kind: string)
    ensures Repeated(plan, results, kind) <==> TwicePlanned(plan, kind) || TwiceRan(results, kind)
  {
    AtMostOnce(plan, KindIn(kind));
    AtMostOnce(results, KindRan(kind));
  }

  lemma NoDuplicateBlockers(plan: seq<PlanStep>, results: seq<StepResult>)
    ensures DuplicateBlockers(plan, results) == [] <==> OncePerKind(plan, results)
  {
    SortEmpty(Gather(Kinds(plan, results), DuplicateBlocker(plan, results)), Precedes);
    GatherEmpty(Kinds(plan, results), DuplicateBlocker(plan, results));
    forall kind
      ensures Repeated(plan, results, kind) <==> TwicePlanned(plan, kind) || TwiceRan(results, kind)
    {
      RepeatedMeans(plan, results, kind);
    }
    if forall kind :: kind in Kinds(plan, results) ==> DuplicateBlocker(plan, results)(kind) == [] {
      NothingTwice(plan, results);
    }
  }

  lemma NothingTwice(plan: seq<PlanStep>, results: seq<StepResult>)
    requires forall kind :: Repeated(plan, results, kind) <==> TwicePlanned(plan, kind) || TwiceRan(results, kind)
    requires forall kind :: kind in Kinds(plan, results) ==> !Repeated(plan, results, kind)
    ensures OncePerKind(plan, results)
  {
    forall i, k | 0 <= i < k < |plan|
      ensures plan[i].kind != plan[k].kind
    {
      assert plan[i].kind in Kinds(plan, results);
      assert !TwicePlanned(plan, plan[i].kind);
    }
    forall i, k | 0 <= i < k < |results|
      ensures results[i].kind != results[k].kind
    {
      assert Ran(results[i].kind, results);
      assert !TwiceRan(results, results[i].kind);
    }
  }

  lemma NoKindBlockers(lib: Lib, kind: string, results: seq<StepResult>)
    requires forall i, k :: 0 <= i < k < |results| ==> results[i].kind != results[k].kind
    ensures KindBlockers(lib, results)(kind) == [] <==> Proven(lib, kind, results)
  {
    GatherEmpty(results, LatencyBlockers(kind));
    if Proven(lib, kind, results) {
      var i :| 0 <= i < |results| && results[i].kind == kind && Passes(lib, results[i]);
      PassesIsStepOK(lib, results[i]);
      assert forall k :: 0 <= k < |results| && results[k].kind == kind ==> k == i;
      assert !SomeFailed(lib, kind, results);
      assert Ran(kind, results);
      forall s | s in results ensures LatencyBlockers(kind)(s) == [] {
        if s.kind == kind == KIND_LATENCY {
          assert s == results[i];
          GatherEmpty(s.latency, ShiftBlocker());
        }
      }
    } else if Ran(kind, results) {
      var i :| 0 <= i < |results| && results[i].kind == kind;
      PassesIsStepOK(lib, results[i]);
      assert Fails(lib, kind, results[i]);
    }
  }

  lemma NoStepBlockers(lib: Lib, kinds: seq<string>, results: seq<StepResult>)
    requires forall i, k :: 0 <= i < k < |results| ==> results[i].kind != results[k].kind
    ensures StepBlockers(lib, kinds, results) == [] <==> AllProven(lib, kinds, results)
  {
    SortEmpty(Gather(kinds, KindBlockers(lib, results)), Precedes);
    GatherEmpty(kinds, KindBlockers(lib, results));
    forall kind
      ensures KindBlockers(lib, results)(kind) == [] <==> Proven(lib, kind, results)
    {
      NoKindBlockers(lib, kind, results);
    }
  }

  lemma NoTargetBlockers(lib: Lib, input: Input)
    ensures TargetBlockers(lib, input) == [] <==>
              !Blank(input.baseline) && !Blank(input.patch) && lib.normUrl(input.baseline) != lib.normUrl(input.patch)
  {
    SortEmpty(TargetList(lib, input), Precedes);
  }

  lemma NoChangeBlockers(input: Input)
    ensures ChangeBlockers(input) == [] <==> input.changes.unanalyzed == [] && input.changes.bound != [] && input.impacted != []
  {
    SortEmpty(ChangeList(input), Precedes);
    GatherEmpty(input.changes.unanalyzed, UnanalyzedBlocker());
    if input.changes.unanalyzed != [] {
      assert input.changes.unanalyzed[0] in input.changes.unanalyzed;
    }
  }

  lemma NoCoverageBlockers(lib: Lib, input: Input)
    ensures CoverageBlockers(lib, input) == [] <==> RoutesCovered(lib, input)
  {
    var missed := MissedBlocker(lib, input.workload, input.result);
    SortEmpty(Gather(input.impacted, missed), Precedes);
    GatherEmpty(input.impacted, missed);
  }

  lemma RequiredOrCore(lib: Lib, plan: seq<PlanStep>, results: seq<StepResult>)
    requires AllProven(lib, CORE_KINDS, results)
    ensures AllProven(lib, RequiredKinds(plan), results) <==> RequiredProven(lib, plan, results)
  {
    if forall kind :: kind in RequiredKinds(plan) ==> Proven(lib, kind, results) {
      forall i | 0 <= i < |plan| && plan[i].required && !plan[i].operator
        ensures Proven(lib, plan[i].kind, results)
      {
        assert plan[i].kind in CORE_KINDS || Demands(plan[i]);
      }
    }
  }

  lemma NoRevisionBlockers(input: Input)
    ensures RevisionBlockers(input) == [] <==>
              !input.baselineRev.dirty && Verified(input.baselineRev) && Verified(input.patchRev) &&
              input.baselineRev.tree != input.patchRev.tree
  {
  }

  lemma JoinedEmpty(p: Parts)
    ensures Joined(p) == [] <==>
              p.revisions == [] && p.targets == [] && p.overall == [] && p.duplicates == [] && p.core == [] &&
              p.required == [] && p.changes == [] && p.coverage == []
  {
  }

  lemma StepsProven(lib: Lib, input: Input)
    requires OncePerKind(input.plan, input.result.steps)
    ensures (StepBlockers(lib, CORE_KINDS, input.result.steps) == [] &&
             StepBlockers(lib, RequiredKinds(input.plan), input.result.steps) == []) <==>
            AllProven(lib, CORE_KINDS, input.result.steps) && RequiredProven(lib, input.plan, input.result.steps)
  {
    NoStepBlockers(lib, CORE_KINDS, input.result.steps);
    NoStepBlockers(lib, RequiredKinds(input.plan), input.result.steps);
    if AllProven(lib, CORE_KINDS, input.result.steps) {
      RequiredOrCore(lib, input.plan, input.result.steps);
    }
  }

  /** The clauses of the policy, each told by one part of the blockers. */
  lemma EmptyIffPolicy(lib: Lib, input: Input, p: Parts)
    requires p.revisions == [] <==> !input.baselineRev.dirty && Verified(input.baselineRev) && Verified(input.patchRev) &&
                                    input.baselineRev.tree != input.patchRev.tree
    requires p.targets == [] <==>
             !Blank(input.baseline) && !Blank(input.patch) && lib.normUrl(input.baseline) != lib.normUrl(input.patch)
    requires p.overall == [] <==> lib.fold(input.result.overall) == VERDICT_MATCH
    requires p.duplicates == [] <==> OncePerKind(input.plan, input.result.steps)
    requires OncePerKind(input.plan, input.result.steps) ==>
             ((p.core == [] && p.required == []) <==>
              AllProven(lib, CORE_KINDS, input.result.steps) && RequiredProven(lib, input.plan, input.result.steps))
    requires p.changes == [] <==> input.changes.unanalyzed == [] && input.changes.bound != [] && input.impacted != []
    requires p.coverage == [] <==> RoutesCovered(lib, input)
    ensures Joined(p) == [] <==> Policy(lib, input)
  {
    JoinedEmpty(p);
  }

  /** Decide validates a change exactly when the policy holds. */
  lemma ValidatedIffPolicy(lib: Lib, input: Input)
    ensures Decide(lib, input).validated <==> Policy(lib, input)
  {
    NoRevisionBlockers(input);
    NoDuplicateBlockers(input.plan, input.result.steps);
    NoTargetBlockers(lib, input);
    NoChangeBlockers(input);
    NoCoverageBlockers(lib, input);
    if OncePerKind(input.plan, input.result.steps) {
      StepsProven(lib, input);
    }
    EmptyIffPolicy(lib, input, PartsOf(lib, input));
  }

  // Order independence.

  /** The same evidence listed in another order. */
  ghost predicate Shuffled(a: Input, b: Input) {
    && b == a.(plan := b.plan, result := b.result, impacted := b.impacted, workload := b.workload,
               changes := b.changes, attributions := b.attributions)
    && b.result.overall == a.result.overall
    && multiset(a.plan) == multiset(b.plan)
    && multiset(a.result.steps) == multiset(b.result.steps)
    && multiset(a.impacted) == multiset(b.impacted)
    && multiset(a.workload) == multiset(b.workload)
    && multiset(a.attributions) == multiset(b.attributions)
    && multiset(a.changes.bound) == multiset(b.changes.bound)
    && multiset(a.changes.unanalyzed) == multiset(b.changes.unanalyzed)
  }

  lemma MembersAt<T>(xs: seq<T>, ys: seq<T>, i: nat)
    requires multiset(xs) == multiset(ys) && i < |xs|
    ensures exists k :: 0 <= k < |ys| && ys[k] == xs[i]
  {
    SameMembers(xs, ys);
    assert xs[i] in ys;
  }

  lemma RanShuffled(kind: string, xs: seq<StepResult>, ys: seq<StepResult>)
    requires multiset(xs) == multiset(ys)
    ensures Ran(kind, xs) ==> Ran(kind, ys)
  {
    if Ran(kind, xs) {
      var i :| 0 <= i < |xs| && xs[i].kind == kind;
      MembersAt(xs, ys, i);
    }
  }

  lemma FailedShuffled(lib: Lib, kind: string, xs: seq<StepResult>, ys: seq<StepResult>)
    requires multiset(xs) == multiset(ys)
    ensures SomeFailed(lib, kind, xs) ==> SomeFailed(lib, kind, ys)
  {
    if SomeFailed(lib, kind, xs) {
      var i :| 0 <= i < |xs| && Fails(lib, kind, xs[i]);
      MembersAt(xs, ys, i);
    }
  }

  lemma StepsShuffled(lib: Lib, ks: seq<string>, ls: seq<string>, xs: seq<StepResult>, ys: seq<StepResult>)
    requires multiset(ks) == multiset(ls) && multiset(xs) == multiset(ys)
    ensures StepBlockers(lib, ks, xs) == StepBlockers(lib, ls, ys)
  {
    var f, g := KindBlockers(lib, xs), KindBlockers(lib, ys);
    forall kind
      ensures multiset(f(kind)) == multiset(g(kind))
    {
      GatherPermute(xs, ys, LatencyBlockers(kind));
      RanShuffled(kind, xs, ys);
      RanShuffled(kind, ys, xs);
      FailedShuffled(lib, kind, xs, ys);
      FailedShuffled(lib, kind, ys, xs);
    }
    GatherSame(ks, f, g);
    GatherPermute(ks, ls, g);
    PrecedesIsTotal();
    SortPermute(Gather(ks, f), Gather(ls, g), Precedes);
  }

  lemma RequiredShuffled(xs: seq<PlanStep>, ys: seq<PlanStep>)
    requires multiset(xs) == multiset(ys)
    ensures multiset(RequiredKinds(xs)) == multiset(RequiredKinds(ys))
  {
    forall k
      ensures k in RequiredKinds(xs) <==> k in RequiredKinds(ys)
    {
      RequiredWithin(xs, ys, k);
      RequiredWithin(ys, xs, k);
    }
    SameElementsPermute(RequiredKinds(xs), RequiredKinds(ys));
  }

  lemma RequiredWithin(xs: seq<PlanStep>, ys: seq<PlanStep>, k: string)
    requires multiset(xs) == multiset(ys)
    ensures k in RequiredKinds(xs) ==> k in RequiredKinds(ys)
  {
    if k in RequiredKinds(xs) {
      var i :| 0 <= i < |xs| && xs[i].kind == k && Demands(xs[i]);
      MembersAt(xs, ys, i);
    }
  }

  lemma DuplicatesShuffled(ps: seq<PlanStep>, qs: seq<PlanStep>, xs: seq<StepResult>, ys: seq<StepResult>)
    requires multiset(ps) == multiset(qs) && multiset(xs) == multiset(ys)
    ensures DuplicateBlockers(ps, xs) == DuplicateBlockers(qs, ys)
  {
    forall k
      ensures k in Kinds(ps, xs) <==> k in Kinds(qs, ys)
    {
      KindsWithin(ps, qs, xs, ys, k);
      KindsWithin(qs, ps, ys, xs, k);
    }
    SameElementsPermute(Kinds(ps, xs), Kinds(qs, ys));
    forall kind
      ensures DuplicateBlocker(ps, xs)(kind) == DuplicateBlocker(qs, ys)(kind)
    {
      TotalPermute(ps, qs, KindIn(kind));
      TotalPermute(xs, ys, KindRan(kind));
    }
    GatherSame(Kinds(ps, xs), DuplicateBlocker(ps, xs), DuplicateBlocker(qs, ys));
    GatherPermute(Kinds(ps, xs), Kinds(qs, ys), DuplicateBlocker(qs, ys));
    PrecedesIsTotal();
    SortPermute(Gather(Kinds(ps, xs), DuplicateBlocker(ps, xs)), Gather(Kinds(qs, ys), DuplicateBlocker(qs, ys)), Precedes);
  }

  lemma KindsWithin(ps: seq<PlanStep>, qs: seq<PlanStep>, xs: seq<StepResult>, ys: seq<StepResult>, k: string)
    requires multiset(ps) == multiset(qs) && multiset(xs) == multiset(ys)
    ensures k in Kinds(ps, xs) ==> k in Kinds(qs, ys)
  {
    if k in Kinds(ps, xs) {
      if i :| 0 <= i < |ps| && ps[i].kind == k {
        MembersAt(ps, qs, i);
      } else {
        RanShuffled(k, xs, ys);
      }
    }
  }

  lemma AnsweredShuffled(a: Evidence, b: Evidence, key: string)
    requires multiset(a.steps) == multiset(b.steps)
    ensures Answered(a, key) ==> Answered(b, key)
  {
    if Answered(a, key) {
      var i, k :| 0 <= i < |a.steps| && a.steps[i].kind == KIND_BEHAVIOR && 0 <= k < |a.steps[i].deltas| && Answers(a.steps[i].deltas[k], key);
      MembersAt(a.steps, b.steps, i);
      var m :| 0 <= m < |b.steps| && b.steps[m] == a.steps[i];
      assert Answers(b.steps[m].deltas[k], key);
    }
  }

  lemma CoveredShuffled(lib: Lib, route: string, w: seq<Request>, w': seq<Request>, a: Evidence, b: Evidence)
    requires multiset(w) == multiset(w') && multiset(a.steps) == multiset(b.steps)
    ensures RouteCovered(lib, route, w, a) ==> RouteCovered(lib, route, w', b)
  {
    if RouteCovered(lib, route, w, a) {
      var i :| 0 <= i < |w| && Answered(a, w[i].verb + " " + w[i].path) && lib.matches(route, w[i]);
      MembersAt(w, w', i);
      AnsweredShuffled(a, b, w[i].verb + " " + w[i].path);
    }
  }

  lemma CoverageShuffled(lib: Lib, a: Input, b: Input)
    requires Shuffled(a, b)
    ensures CoverageBlockers(lib, a) == CoverageBlockers(lib, b)
    ensures forall route :: RouteCovered(lib, route, a.workload, a.result) <==> RouteCovered(lib, route, b.workload, b.result)
  {
    var f, g := MissedBlocker(lib, a.workload, a.result), MissedBlocker(lib, b.workload, b.result);
    forall route
      ensures RouteCovered(lib, route, a.workload, a.result) <==> RouteCovered(lib, route, b.workload, b.result)
    {
      CoveredShuffled(lib, route, a.workload, b.workload, a.result, b.result);
      CoveredShuffled(lib, route, b.workload, a.workload, b.result, a.result);
    }
    GatherSame(a.impacted, f, g);
    GatherPermute(a.impacted, b.impacted, g);
    PrecedesIsTotal();
    SortPermute(Gather(a.impacted, f), Gather(b.impacted, g), Precedes);
  }

  lemma AttributionShuffled(xs: seq<Attribution>, ys: seq<Attribution>, route: string)
    requires multiset(xs) == multiset(ys)
    ensures Observed(xs, route) ==> Observed(ys, route)
    ensures Inferred(xs, route) ==> Inferred(ys, route)
  {
    if Observed(xs, route) {
      var i :| 0 <= i < |xs| && xs[i].route == route && Direct(xs[i]);
      MembersAt(xs, ys, i);
    }
    if Inferred(xs, route) {
      var i :| 0 <= i < |xs| && xs[i].route == route && xs[i].provenance == PROVENANCE_TRACE_ENTRY_CALLER;
      MembersAt(xs, ys, i);
    }
  }

  lemma RoutesShuffled(lib: Lib, a: Input, b: Input, route: string)
    requires Shuffled(a, b)
    requires RouteCovered(lib, route, a.workload, a.result) <==> RouteCovered(lib, route, b.workload, b.result)
    ensures OnlyInferred(lib, a, route) <==> OnlyInferred(lib, b, route)
    ensures SeenDirectly(lib, a, route) <==> SeenDirectly(lib, b, route)
  {
    AttributionShuffled(a.attributions, b.attributions, route);
    AttributionShuffled(b.attributions, a.attributions, route);
  }

  predicate SomeRoute(routes: seq<string>, p: string -> bool) {
    exists i :: 0 <= i < |routes| && p(routes[i])
  }

  lemma BasisMeans(lib: Lib, input: Input)
    ensures CoverageBasis(lib, input) ==
              if SomeRoute(input.impacted, (r: string) => OnlyInferred(lib, input, r)) then "inferred"
              else if SomeRoute(input.impacted, (r: string) => SeenDirectly(lib, input, r)) then "observed"
              else ""
  {
  }

  lemma SomeRouteShuffled(xs: seq<string>, ys: seq<string>, p: string -> bool, q: string -> bool)
    requires multiset(xs) == multiset(ys) && forall r :: p(r) <==> q(r)
    ensures SomeRoute(xs, p) <==> SomeRoute(ys, q)
  {
    SomeShuffled(xs, ys, p);
    SomeShuffled(ys, xs, q);
  }

  lemma BasisShuffled(lib: Lib, a: Input, b: Input)
    requires Shuffled(a, b)
    ensures CoverageBasis(lib, a) == CoverageBasis(lib, b)
  {
    CoverageShuffled(lib, a, b);
    forall route
      ensures OnlyInferred(lib, a, route) <==> OnlyInferred(lib, b, route)
      ensures SeenDirectly(lib, a, route) <==> SeenDirectly(lib, b, route)
    {
      RoutesShuffled(lib, a, b, route);
    }
    BasisMeans(lib, a);
    BasisMeans(lib, b);
    SomeRouteShuffled(a.impacted, b.impacted, (r: string) => OnlyInferred(lib, a, r), (r: string) => OnlyInferred(lib, b, r));
    SomeRouteShuffled(a.impacted, b.impacted, (r: string) => SeenDirectly(lib, a, r), (r: string) => SeenDirectly(lib, b, r));
  }

  lemma SomeShuffled<T>(xs: seq<T>, ys: seq<T>, p: T -> bool)
    requires multiset(xs) == multiset(ys)
    ensures (exists i :: 0 <= i < |xs| && p(xs[i])) ==> exists i :: 0 <= i < |ys| && p(ys[i])
  {
    if i :| 0 <= i < |xs| && p(xs[i]) {
      MembersAt(xs, ys, i);
    }
  }

  lemma ChangesShuffled(a: Input, b: Input)
    requires Shuffled(a, b)
    ensures ChangeBlockers(a) == ChangeBlockers(b)
  {
    GatherPermute(a.changes.unanalyzed, b.changes.unanalyzed, UnanalyzedBlocker());
    SameMembers(a.changes.bound, b.changes.bound);
    SameMembers(a.impacted, b.impacted);
    PrecedesIsTotal();
    SortPermute(ChangeList(a), ChangeList(b), Precedes);
  }

  lemma FixedParts(lib: Lib, a: Input, b: Input)
    requires Shuffled(a, b)
    ensures RevisionBlockers(a) == RevisionBlockers(b)
    ensures TargetBlockers(lib, a) == TargetBlockers(lib, b)
    ensures OverallBlockers(lib, a) == OverallBlockers(lib, b)
  {
    assert TargetList(lib, a) == TargetList(lib, b);
  }

  lemma PartsShuffled(lib: Lib, a: Input, b: Input)
    requires Shuffled(a, b)
    ensures PartsOf(lib, a) == PartsOf(lib, b)
  {
    FixedParts(lib, a, b);
    DuplicatesShuffled(a.plan, b.plan, a.result.steps, b.result.steps);
    StepsShuffled(lib, CORE_KINDS, CORE_KINDS, a.result.steps, b.result.steps);
    RequiredShuffled(a.plan, b.plan);
    StepsShuffled(lib, RequiredKinds(a.plan), RequiredKinds(b.plan), a.result.steps, b.result.steps);
    ChangesShuffled(a, b);
    CoverageShuffled(lib, a, b);
  }

  /** The whole decision, list of blockers included, does not depend on the order in which plan,
      results, workload, routes, attributions or changes are listed. */
  lemma DecisionIgnoresOrder(lib: Lib, a: Input, b: Input)
    requires Shuffled(a, b)
    ensures Decide(lib, a) == Decide(lib, b)
  {
    PartsShuffled(lib, a, b);
    BasisShuffled(lib, a, b);
  }
}
