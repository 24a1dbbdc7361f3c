/** The experiment plan generated from an impact report (internal/plan/plan.go). */
module PlanFromImpact {
  import opened Base
  import opened EvidenceTypes
  import opened Scheduling
  import opened Progress

  const DEFAULT_LATENCY_N := 20
  const DEFAULT_CONCURRENCY_N := 8

  /** How many entries each section of a report has. */
  datatype ReportSize = ReportSize(files: nat, direct: nat, likely: nat, runtime: nat, unobserved: nat)

  /** Fails on an empty report; otherwise every step after the environment check depends on it alone,
      and the load and fault steps are present exactly when a runtime path was observed. */
  function FromImpact(rep: ReportSize): (r: Result<seq<PlanStep>, string>)
    ensures r.Err? <==> rep == ReportSize(0, 0, 0, 0, 0)
    ensures r.Ok? ==> |r.value| == (if rep.runtime > 0 then 5 else 3) && r.value[0].id == "env" && r.value[0].dependsOn == []
    ensures r.Ok? ==> forall i :: 0 < i < |r.value| ==> r.value[i].id != "env" && r.value[i].dependsOn == ["env"]
    ensures r.Ok? ==> forall i :: 0 <= i < |r.value| ==> (r.value[i].required <==> r.value[i].kind != KIND_FAULT_STATUS)
    ensures r.Ok? ==> r.value[0].kind == KIND_ENV && r.value[1].kind == KIND_BEHAVIOR && r.value[2].kind == KIND_LATENCY
    ensures r.Ok? && rep.runtime > 0 ==> r.value[3].kind == KIND_CONCURRENCY && r.value[4].kind == KIND_FAULT_STATUS
  {
    if rep.files == 0 && rep.direct == 0 && rep.likely == 0 && rep.runtime == 0 && rep.unobserved == 0 then
      Err("plan: empty impact")
    else
      Ok([PlanStep("env", KIND_ENV, true, false, 0, []),
          PlanStep("behavior", KIND_BEHAVIOR, true, false, 0, ["env"]),
          PlanStep("latency", KIND_LATENCY, true, false, DEFAULT_LATENCY_N, ["env"])]
         + (if rep.runtime > 0 then
              [PlanStep("concurrency", KIND_CONCURRENCY, true, false, DEFAULT_CONCURRENCY_N, ["env"]),
               PlanStep("fault_status", KIND_FAULT_STATUS, false, false, 0, ["env"])]
            else []))
  }

  lemma ProviderIs(ids: seq<string>, k: nat)
    requires k < |ids| && forall m :: 0 <= m < |ids| && m != k ==> ids[m] != ids[k]
    ensures Provider(ids, ids[k]) == k
  {
  }

  /** Every generated plan has distinct ids and closed, acyclic dependencies, so no job on it can
      deadlock. */
  lemma GeneratedPlansRun(rep: ReportSize)
    requires FromImpact(rep).Ok?
    ensures var plan := FromImpact(rep).value;
            (forall i, k :: 0 <= i < k < |plan| ==> plan[i].id != plan[k].id) &&
            RankedBy(plan, seq(|plan|, i => if i == 0 then 0 else 1))
  {
    var plan := FromImpact(rep).value;
    assert StepIds(plan)[0] == "env" && forall m :: 1 <= m < |plan| ==> StepIds(plan)[m] != "env";
    ProviderIs(StepIds(plan), 0);
  }
}
