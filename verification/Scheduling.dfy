/** The fixpoint scheduler of internal/jobs/enqueue.go: which tasks of a job become ready. */
module Scheduling {
  import opened JobTypes

  predicate Done(s: TaskState) {
    s.Succeeded? || s.Skipped?
  }

  function PlanIds(ts: seq<Task>): (ids: seq<string>)
  {
    seq(|ts|, i requires 0 <= i < |ts| => ts[i].planId)
  }

  /** The index whose state answers for dependency d: the last task with that plan id, or -1. */
  function Provider(ids: seq<string>, d: string): (k: int)
    ensures -1 <= k < |ids|
    ensures k >= 0 ==> ids[k] == d && forall m :: k < m < |ids| ==> ids[m] != d
    ensures k < 0 ==> d !in ids
  {
    if ids == [] then -1
    else if ids[|ids| - 1] == d then |ids| - 1
    else Provider(ids[..|ids| - 1], d)
  }

  predicate Satisfied(ts: seq<Task>, d: string) {
    var k := Provider(PlanIds(ts), d);
    k >= 0 && Done(ts[k].state)
  }

  /** Every dependency of t is provided by a succeeded or skipped task of ts. */
  predicate DepsMet(ts: seq<Task>, t: Task) {
    forall d :: d in t.dependsOn ==> Satisfied(ts, d)
  }

  predicate Settling(t: Task) {
    Done(t.state) || (t.operator && t.state.Pending?)
  }

  predicate Unblocked(ts: seq<Task>, t: Task) {
    forall d :: d in t.dependsOn ==>
      var k := Provider(PlanIds(ts), d); k >= 0 && Settling(ts[k])
  }

  function SettledTask(ts: seq<Task>, t: Task): Task {
    if !t.state.Pending? then t
    else if t.operator then t.(state := Skipped)
    else if Unblocked(ts, t) then t.(state := Ready)
    else t
  }

  /** What settling amounts to, in one shot: pending operator tasks are skipped, and a pending task
      is ready when all its dependencies are done or are such operator tasks. */
  function Settled(ts: seq<Task>): (r: seq<Task>)
    ensures |r| == |ts|
    ensures PlanIds(r) == PlanIds(ts)
  {
    seq(|ts|, i requires 0 <= i < |ts| => SettledTask(ts, ts[i]))
  }

  // One sweep of the source's loop: every task is advanced against the states before the sweep.

  function PassTask(ts: seq<Task>, t: Task): Task {
    if t.operator && t.state.Pending? then t.(state := Skipped)
    else if t.state.Pending? && DepsMet(ts, t) then t.(state := Ready)
    else t
  }

  function Pass(ts: seq<Task>): (r: seq<Task>)
    ensures |r| == |ts|
    ensures PlanIds(r) == PlanIds(ts)
  {
    seq(|ts|, i requires 0 <= i < |ts| => PassTask(ts, ts[i]))
  }

  lemma TwoPassesSettle(ts: seq<Task>)
    ensures Pass(Pass(ts)) == Settled(ts)
  {
    var p := Pass(ts);
    forall i | 0 <= i < |ts|
      ensures PassTask(p, p[i]) == SettledTask(ts, ts[i])
    {
      var t := ts[i];
      if t.state.Pending? && !t.operator {
        forall d | d in t.dependsOn
          ensures Satisfied(p, d) == (var k := Provider(PlanIds(ts), d); k >= 0 && Settling(ts[k]))
        {
        }
        assert DepsMet(ts, t) ==> Unblocked(ts, t);
      }
    }
  }

  lemma SettledIsFixpoint(ts: seq<Task>)
    ensures Settled(Settled(ts)) == Settled(ts)
    ensures Pass(Settled(ts)) == Settled(ts)
  {
    var s := Settled(ts);
    forall i | 0 <= i < |ts|
      ensures SettledTask(s, s[i]) == s[i] && PassTask(s, s[i]) == s[i]
    {
      var t := ts[i];
      if s[i].state.Pending? {
        var d :| d in t.dependsOn && !(var k := Provider(PlanIds(ts), d); k >= 0 && Settling(ts[k]));
        assert !Satisfied(s, d);
      }
    }
  }

  lemma ShortListsSettleInOnePass(ts: seq<Task>)
    requires |ts| <= 1
    ensures Pass(ts) == Settled(ts)
  {
    if |ts| == 1 && ts[0].state.Pending? && !ts[0].operator {
      forall d | d in ts[0].dependsOn
        ensures Satisfied(ts, d) == (var k := Provider(PlanIds(ts), d); k >= 0 && Settling(ts[k]))
      {
      }
    }
  }

  // The loops of the source.

  /** The last state recorded for each plan id. */
  method StateByPlan(ts: seq<Task>) returns (states: map<string, TaskState>)
    ensures forall d :: d in states <==> Provider(PlanIds(ts), d) >= 0
    ensures forall d :: d in states ==> states[d] == ts[Provider(PlanIds(ts), d)].state
  {
    states := map[];
    for i := 0 to |ts|
      invariant forall d :: d in states <==> Provider(PlanIds(ts[..i]), d) >= 0
      invariant forall d :: d in states ==> states[d] == ts[Provider(PlanIds(ts[..i]), d)].state
    {
      states := states[ts[i].planId := ts[i].state];
      assert PlanIds(ts[..i + 1])[..i] == PlanIds(ts[..i]);
    }
    assert ts[..|ts|] == ts;
  }

  method DepsOK(t: Task, states: map<string, TaskState>) returns (ok: bool)
    ensures ok <==> forall d :: d in t.dependsOn ==> d in states && Done(states[d])
  {
    for i := 0 to |t.dependsOn|
      invariant forall d :: d in t.dependsOn[..i] ==> d in states && Done(states[d])
    {
      var d := t.dependsOn[i];
      if d !in states || !Done(states[d]) {
        return false;
      }
    }
    return true;
  }

  /** Sweeps until nothing changes, at most once per task, and always ends in the settled list. */
  method Settle(tasks: seq<Task>) returns (cur: seq<Task>)
    ensures cur == Settled(tasks)
  {
    cur := tasks;
    TwoPassesSettle(tasks);
    SettledIsFixpoint(tasks);
    for round := 0 to |tasks|
      invariant |cur| == |tasks|
      invariant round == 0 ==> cur == tasks
      invariant round == 1 ==> cur == Pass(tasks)
      invariant round >= 2 ==> cur == Settled(tasks)
    {
      var before := cur;
      var changed := false;
      var states := StateByPlan(cur);
      for i := 0 to |tasks|
        invariant |cur| == |before|
        invariant forall k :: 0 <= k < i ==> cur[k] == PassTask(before, before[k])
        invariant forall k :: i <= k < |before| ==> cur[k] == before[k]
        invariant changed <==> cur != before
      {
        var prev := cur[i].state;
        if cur[i].operator && cur[i].state.Pending? {
          cur := cur[i := cur[i].(state := Skipped)];
        } else if cur[i].state.Pending? {
          var ok := DepsOK(cur[i], states);
          assert ok <==> DepsMet(before, before[i]);
          if ok {
            cur := cur[i := cur[i].(state := Ready)];
          }
        }
        if cur[i].state != prev {
          changed := true;
          assert cur[i] != before[i];
        }
      }
      assert cur == Pass(before);
      if !changed {
        return;
      }
    }
    if |tasks| <= 1 {
      ShortListsSettleInOnePass(tasks);
    }
  }

  // Status.

  predicate Has(ts: seq<Task>, s: TaskState) {
    exists i :: 0 <= i < |ts| && ts[i].state == s
  }

  function StatusOf(ts: seq<Task>): JobStatus {
    if Has(ts, Failed) then StatusFailed
    else if Has(ts, Leased) || Has(ts, Ready) then StatusRunning
    else if Has(ts, Pending) then StatusPending
    else StatusComplete
  }

  method JobStatusOf(tasks: seq<Task>) returns (s: JobStatus)
    ensures s == StatusOf(tasks)
  {
    var ready, leased, failed, pending := false, false, false, false;
    for i := 0 to |tasks|
      invariant failed <==> Has(tasks[..i], Failed)
      invariant ready <==> Has(tasks[..i], Ready)
      invariant leased <==> Has(tasks[..i], Leased)
      invariant pending <==> Has(tasks[..i], Pending)
    {
      HasGrows(tasks, i);
      match tasks[i].state {
        case Failed => failed := true;
        case Ready => ready := true;
        case Leased => leased := true;
        case Pending => pending := true;
        case _ =>
      }
    }
    assert tasks[..|tasks|] == tasks;
    if failed {
      return StatusFailed;
    }
    if leased || ready {
      return StatusRunning;
    }
    if pending {
      return StatusPending;
    }
    return StatusComplete;
  }

  lemma HasGrows(ts: seq<Task>, i: nat)
    requires i < |ts|
    ensures forall s :: Has(ts[..i + 1], s) <==> Has(ts[..i], s) || ts[i].state == s
  {
    forall s
      ensures Has(ts[..i + 1], s) <==> Has(ts[..i], s) || ts[i].state == s
    {
      if Has(ts[..i], s) {
        var k :| 0 <= k < i && ts[..i][k].state == s;
        assert ts[..i + 1][k].state == s;
      }
      if ts[i].state == s {
        assert ts[..i + 1][i].state == s;
      }
      if Has(ts[..i + 1], s) {
        var k :| 0 <= k < i + 1 && ts[..i + 1][k].state == s;
        assert k < i ==> ts[..i][k].state == s;
      }
    }
  }
}
