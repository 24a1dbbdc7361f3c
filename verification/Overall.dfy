/** The verdict over all executed steps (internal/plan/run.go). */
module Overall {
  import opened EvidenceTypes

  /** Steps that vote: executed ones other than the environment check and the fault probe. */
  predicate Votes(s: StepResult) {
    s.verdict != VERDICT_SKIPPED && s.kind != KIND_ENV && s.kind != KIND_FAULT_STATUS
  }

  predicate EnvBroken(steps: seq<StepResult>) {
    exists i :: 0 <= i < |steps| && steps[i].kind == KIND_ENV && steps[i].verdict == VERDICT_INCOMPLETE
  }

  predicate AnyVote(steps: seq<StepResult>) {
    exists i :: 0 <= i < |steps| && Votes(steps[i])
  }

  predicate AnyIncomplete(steps: seq<StepResult>) {
    exists i :: 0 <= i < |steps| && Votes(steps[i]) && steps[i].verdict == VERDICT_INCOMPLETE
  }

  predicate AnyDiffer(steps: seq<StepResult>) {
    exists i :: 0 <= i < |steps| && Votes(steps[i]) && steps[i].kind != KIND_LATENCY && steps[i].verdict == VERDICT_DIFFER
  }

  function OverallOf(steps: seq<StepResult>): string {
    if EnvBroken(steps) || !AnyVote(steps) || AnyIncomplete(steps) then VERDICT_INCOMPLETE
    else if AnyDiffer(steps) then VERDICT_DIFFER
    else VERDICT_MATCH
  }

  method OverallVerdict(steps: seq<StepResult>) returns (v: string)
    ensures v == OverallOf(steps)
  {
    var incomplete, differ, executed := false, false, 0;
    for i := 0 to |steps|
      invariant executed >= 0
      invariant forall k :: 0 <= k < i ==> !(steps[k].kind == KIND_ENV && steps[k].verdict == VERDICT_INCOMPLETE)
      invariant executed > 0 <==> exists k :: 0 <= k < i && Votes(steps[k])
      invariant incomplete <==> exists k :: 0 <= k < i && Votes(steps[k]) && steps[k].verdict == VERDICT_INCOMPLETE
      invariant differ <==> exists k :: 0 <= k < i && Votes(steps[k]) && steps[k].kind != KIND_LATENCY && steps[k].verdict == VERDICT_DIFFER
    {
      var s := steps[i];
      if s.kind == KIND_ENV && s.verdict == VERDICT_INCOMPLETE {
        return VERDICT_INCOMPLETE;
      }
      if s.verdict == VERDICT_SKIPPED {
        continue;
      }
      if s.kind == KIND_ENV || s.kind == KIND_FAULT_STATUS {
        continue;
      }
      executed := executed + 1;
      if s.kind == KIND_LATENCY {
        if s.verdict == VERDICT_INCOMPLETE {
          incomplete := true;
        }
        continue;
      }
      if s.verdict == VERDICT_INCOMPLETE {
        incomplete := true;
      } else if s.verdict == VERDICT_DIFFER {
        differ := true;
      }
    }
    if executed == 0 {
      return VERDICT_INCOMPLETE;
    }
    if incomplete {
      return VERDICT_INCOMPLETE;
    }
    return if differ then VERDICT_DIFFER else VERDICT_MATCH;
  }
}
