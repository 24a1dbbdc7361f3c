/** The coverage report of an experiment (internal/evidence/coverage.go). */
module CoverageReport {
  import opened Base
  import opened EvidenceTypes
  import opened Sorting
  import opened Validate

  datatype Coverage = Coverage(impacted: seq<string>, exercised: seq<string>, missed: seq<string>, rejected: seq<string>)

  function Keep(xs: seq<string>, p: string -> bool): (r: seq<string>)
    ensures forall x :: x in r <==> x in xs && p(x)
  {
    if xs == [] then []
    else Keep(xs[..|xs| - 1], p) + (if p(xs[|xs| - 1]) then [xs[|xs| - 1]] else [])
  }

  lemma KeepTake(xs: seq<string>, i: nat, p: string -> bool)
    requires i < |xs|
    ensures Keep(xs[..i + 1], p) == Keep(xs[..i], p) + (if p(xs[i]) then [xs[i]] else [])
  {
    assert xs[..i + 1][..i] == xs[..i];
  }

  predicate Refused(res: Evidence, key: string) {
    exists i, k :: 0 <= i < |res.steps| && res.steps[i].kind == KIND_BEHAVIOR && 0 <= k < |res.steps[i].deltas| &&
      Refuses(res.steps[i].deltas[k], key)
  }

  predicate Refuses(d: Delta, key: string) {
    AuthRejected(d) && d.verb + " " + d.path == key
  }

  predicate RouteRefused(lib: Lib, route: string, work: seq<Request>, res: Evidence) {
    exists i :: 0 <= i < |work| && lib.matches(route, work[i]) && Refused(res, work[i].verb + " " + work[i].path)
  }

  function IsCovered(lib: Lib, work: seq<Request>, res: Evidence): string -> bool {
    (route: string) => RouteCovered(lib, route, work, res)
  }

  function IsMissed(lib: Lib, work: seq<Request>, res: Evidence): string -> bool {
    (route: string) => !RouteCovered(lib, route, work, res)
  }

  function IsRejected(lib: Lib, work: seq<Request>, res: Evidence): string -> bool {
    (route: string) => !RouteCovered(lib, route, work, res) && RouteRefused(lib, route, work, res)
  }

  method RefusedKeys(res: Evidence) returns (refused: set<string>)
    ensures forall key :: key in refused <==> Refused(res, key)
  {
    refused := {};
    for i := 0 to |res.steps|
      invariant forall key :: key in refused <==>
                  exists m, k :: 0 <= m < i && res.steps[m].kind == KIND_BEHAVIOR && 0 <= k < |res.steps[m].deltas| &&
                    Refuses(res.steps[m].deltas[k], key)
    {
      var s := res.steps[i];
      if s.kind != KIND_BEHAVIOR {
        continue;
      }
      ghost var before := refused;
      for j := 0 to |s.deltas|
        invariant forall key :: key in refused <==> key in before || exists k :: 0 <= k < j && Refuses(s.deltas[k], key)
      {
        if AuthRejected(s.deltas[j]) {
          refused := refused + {s.deltas[j].verb + " " + s.deltas[j].path};
        }
      }
    }
  }

  method RouteOutcome(lib: Lib, route: string, work: seq<Request>, res: Evidence, refused: set<string>)
    returns (reached: bool, rejected: bool)
    requires forall key :: key in refused <==> Refused(res, key)
    ensures reached == RouteCovered(lib, route, work, res)
    ensures !reached ==> rejected == RouteRefused(lib, route, work, res)
  {
    reached, rejected := false, false;
    for i := 0 to |work|
      invariant !reached
      invariant forall k :: 0 <= k < i && lib.matches(route, work[k]) ==> !Answered(res, work[k].verb + " " + work[k].path)
      invariant rejected <==> exists k :: 0 <= k < i && lib.matches(route, work[k]) && Refused(res, work[k].verb + " " + work[k].path)
    {
      if !lib.matches(route, work[i]) {
        continue;
      }
      var yes := Covered(lib, [route], [work[i]], res);
      assert route in [route] && [work[i]][0] == work[i];
      if yes {
        return true, rejected;
      }
      if work[i].verb + " " + work[i].path in refused {
        rejected := true;
      }
    }
  }

  /** Splits the impacted routes, in their order, into exercised and missed ones; no report when
      nothing is impacted. */
  method CoverageOf(lib: Lib, impacted: seq<string>, work: seq<Request>, res: Evidence) returns (c: Option<Coverage>)
    ensures c == if impacted == [] then None
                 else Some(Coverage(impacted, Keep(impacted, IsCovered(lib, work, res)),
                                    Keep(impacted, IsMissed(lib, work, res)), Keep(impacted, IsRejected(lib, work, res))))
  {
    if impacted == [] {
      return None;
    }
    var refused := RefusedKeys(res);
    var exercised, missed, rejected := [], [], [];
    for i := 0 to |impacted|
      invariant exercised == Keep(impacted[..i], IsCovered(lib, work, res))
      invariant missed == Keep(impacted[..i], IsMissed(lib, work, res))
      invariant rejected == Keep(impacted[..i], IsRejected(lib, work, res))
    {
      KeepTake(impacted, i, IsCovered(lib, work, res));
      KeepTake(impacted, i, IsMissed(lib, work, res));
      KeepTake(impacted, i, IsRejected(lib, work, res));
      var route := impacted[i];
      var reached, refusal := RouteOutcome(lib, route, work, res, refused);
      if reached {
        exercised := exercised + [route];
      } else {
        missed := missed + [route];
        if refusal {
          rejected := rejected + [route];
        }
      }
    }
    assert impacted[..|impacted|] == impacted;
    return Some(Coverage(impacted, exercised, missed, rejected));
  }

  lemma {:induction false} KeepPartition(xs: seq<string>, p: string -> bool, q: string -> bool)
    requires forall x :: x in xs ==> q(x) == !p(x)
    ensures multiset(Keep(xs, p)) + multiset(Keep(xs, q)) == multiset(xs)
  {
    if xs != [] {
      var init, last := xs[..|xs| - 1], xs[|xs| - 1];
      assert xs == init + [last];
      KeepPartition(init, p, q);
      assert last in xs;
    }
  }

  /** Exercised and missed routes partition the impacted ones, and a rejected route is a missed one. */
  lemma Partition(lib: Lib, impacted: seq<string>, work: seq<Request>, res: Evidence)
    ensures multiset(Keep(impacted, IsCovered(lib, work, res))) + multiset(Keep(impacted, IsMissed(lib, work, res))) == multiset(impacted)
    ensures forall r :: r in Keep(impacted, IsRejected(lib, work, res)) ==> r in Keep(impacted, IsMissed(lib, work, res))
  {
    KeepPartition(impacted, IsCovered(lib, work, res), IsMissed(lib, work, res));
  }

  function Missing(): string -> seq<Blocker> {
    (route: string) => [Blocker("route_missed", route)]
  }

  lemma {:induction false} GatherKept(xs: seq<string>, p: string -> bool, g: string -> seq<Blocker>, h: string -> seq<Blocker>)
    requires forall x :: x in xs ==> g(x) == if p(x) then h(x) else []
    ensures Gather(xs, g) == Gather(Keep(xs, p), h)
  {
    if xs != [] {
      var init, last := xs[..|xs| - 1], xs[|xs| - 1];
      assert xs == init + [last];
      GatherKept(init, p, g, h);
      var kept := Keep(init, p);
      assert last in xs;
      if p(last) {
        assert (kept + [last])[..|kept|] == kept;
        assert Gather(kept + [last], h) == Gather(kept, h) + h(last);
      } else {
        assert Keep(xs, p) == kept && Gather(xs, g) == Gather(init, g);
      }
    }
  }

  /** The missed routes of the report are exactly the subjects of the decision's coverage blockers. */
  lemma MissedRoutesBlock(lib: Lib, input: Input)
    ensures CoverageBlockers(lib, input) ==
              Sorted(Gather(Keep(input.impacted, IsMissed(lib, input.workload, input.result)), Missing()))
  {
    GatherKept(input.impacted, IsMissed(lib, input.workload, input.result), MissedBlocker(lib, input.workload, input.result), Missing());
  }
}
