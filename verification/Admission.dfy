/** Who may enter and who is served next (internal/jobs/quota.go, internal/jobs/occupancy.go and the
    capacity check of internal/jobs/enqueue.go). */
module Admission {
  import opened JobTypes
  import opened Totals

  function Normalized(q: Quota): (r: Quota)
    ensures r.activeJobs == (if q.activeJobs > 0 then q.activeJobs else DEFAULT_ACTIVE_JOBS) > 0
    ensures r.leasedTasks == (if q.leasedTasks > 0 then q.leasedTasks else DEFAULT_LEASED_TASKS) > 0
  {
    Quota(if q.activeJobs <= 0 then DEFAULT_ACTIVE_JOBS else q.activeJobs,
          if q.leasedTasks <= 0 then DEFAULT_LEASED_TASKS else q.leasedTasks)
  }

  function Slots(w: Worker): (n: nat)
    ensures 1 <= n <= MAX_SLOTS
    ensures w.slots >= 1 ==> n <= w.slots && (w.slots <= MAX_SLOTS ==> n == w.slots)
    ensures w.slots < 1 ==> n == DEFAULT_SLOTS
  {
    if w.slots < 1 then DEFAULT_SLOTS else if w.slots > MAX_SLOTS then MAX_SLOTS else w.slots
  }

  predicate Occupies(j: Job) {
    j.status.StatusPending? || j.status.StatusRunning?
  }

  // Counts.

  function LeasedUnit(): Task -> nat {
    (t: Task) => if t.state.Leased? then 1 else 0
  }

  function WorkerUnit(worker: string): Task -> nat {
    (t: Task) => if t.state.Leased? && t.worker == worker then 1 else 0
  }

  function ServiceLoad(service: string): Job -> nat {
    (j: Job) => if j.service == service then Total(j.tasks, LeasedUnit()) else 0
  }

  function WorkerLoad(worker: string): Job -> nat {
    (j: Job) => Total(j.tasks, WorkerUnit(worker))
  }

  function ActiveUnit(service: string): Job -> nat {
    (j: Job) => if j.service == service && Occupies(j) then 1 else 0
  }

  /** Tasks leased under jobs of a service. */
  function ServiceLeases(js: seq<Job>, service: string): nat {
    Total(js, ServiceLoad(service))
  }

  /** Tasks leased by a worker. */
  function WorkerLeases(js: seq<Job>, worker: string): nat {
    Total(js, WorkerLoad(worker))
  }

  /** Unfinished jobs of a service. */
  function ActiveJobs(js: seq<Job>, service: string): nat {
    Total(js, ActiveUnit(service))
  }

  method CountLeased(js: seq<Job>, worker: string) returns (n: nat)
    ensures n == WorkerLeases(js, worker)
  {
    n := 0;
    for i := 0 to |js|
      invariant n == Total(js[..i], WorkerLoad(worker))
    {
      var ts := js[i].tasks;
      for k := 0 to |ts|
        invariant n == Total(js[..i], WorkerLoad(worker)) + Total(ts[..k], WorkerUnit(worker))
      {
        TotalTake(ts, k, WorkerUnit(worker));
        if ts[k].state.Leased? && ts[k].worker == worker {
          n := n + 1;
        }
      }
      assert ts[..|ts|] == ts;
      TotalTake(js, i, WorkerLoad(worker));
    }
    assert js[..|js|] == js;
  }

  function RivalUnit(candidate: Job): Job -> nat {
    (j: Job) => if j.id != candidate.id && j.service == candidate.service && Occupies(j) then 1 else 0
  }

  /** The other unfinished jobs of the candidate's service. */
  function Rivals(existing: seq<Job>, candidate: Job): nat {
    Total(existing, RivalUnit(candidate))
  }

  /** For a job that is not in the list, its rivals are all the unfinished jobs of its service. */
  lemma {:induction false} NewcomersRivals(existing: seq<Job>, candidate: Job)
    requires forall i :: 0 <= i < |existing| ==> existing[i].id != candidate.id
    ensures Rivals(existing, candidate) == ActiveJobs(existing, candidate.service)
  {
    if existing != [] {
      NewcomersRivals(existing[..|existing| - 1], candidate);
    }
  }

  method OverActive(existing: seq<Job>, candidate: Job, q: Quota) returns (over: bool)
    ensures over <==> Rivals(existing, candidate) >= Normalized(q).activeJobs
  {
    var n := 0;
    for i := 0 to |existing|
      invariant n == Total(existing[..i], RivalUnit(candidate))
    {
      TotalTake(existing, i, RivalUnit(candidate));
      var j := existing[i];
      if j.id != candidate.id && j.service == candidate.service && Occupies(j) {
        n := n + 1;
      }
    }
    assert existing[..|existing|] == existing;
    over := n >= Normalized(q).activeJobs;
  }

  // Gateways.

  function Keys(key: string -> string, j: Job): seq<string> {
    var a, b := key(j.baseline), key(j.patch);
    if a == b then [a] else [a, b]
  }

  /** Two jobs that drive a common gateway. */
  predicate Clash(key: string -> string, a: Job, b: Job) {
    exists k :: k in Keys(key, a) && k != "" && k in Keys(key, b)
  }

  predicate Busy(key: string -> string, existing: seq<Job>, candidate: Job) {
    exists i :: 0 <= i < |existing| && Occupies(existing[i]) && Clash(key, candidate, existing[i])
  }

  /** Some other unfinished job drives a gateway of the candidate. */
  predicate BusyElsewhere(key: string -> string, existing: seq<Job>, candidate: Job) {
    exists i :: 0 <= i < |existing| && Occupying(key, existing[i], candidate)
  }

  predicate Occupying(key: string -> string, j: Job, candidate: Job) {
    j.id != candidate.id && Occupies(j) && Clash(key, candidate, j)
  }

  /** For a job that is not in the list, every job in it is another. */
  lemma NewcomersBusy(key: string -> string, existing: seq<Job>, candidate: Job)
    requires forall i :: 0 <= i < |existing| ==> existing[i].id != candidate.id
    ensures BusyElsewhere(key, existing, candidate) <==> Busy(key, existing, candidate)
  {
    if i :| 0 <= i < |existing| && Occupies(existing[i]) && Clash(key, candidate, existing[i]) {
      assert Occupying(key, existing[i], candidate);
    }
  }

  method GatewayBusy(key: string -> string, existing: seq<Job>, candidate: Job) returns (busy: bool)
    ensures busy <==> BusyElsewhere(key, existing, candidate)
  {
    var want: set<string> := {};
    var ks := Keys(key, candidate);
    for i := 0 to |ks|
      invariant forall k :: k in want <==> k in ks[..i] && k != ""
    {
      if ks[i] != "" {
        want := want + {ks[i]};
      }
    }
    for i := 0 to |existing|
      invariant forall m :: 0 <= m < i ==> !Occupying(key, existing[m], candidate)
    {
      var j := existing[i];
      if j.id == candidate.id || !Occupies(j) {
        continue;
      }
      var theirs := Keys(key, j);
      for k := 0 to |theirs|
        invariant forall m :: 0 <= m < k ==> theirs[m] !in want
      {
        if theirs[k] in want {
          assert theirs[k] in ks && theirs[k] in Keys(key, j);
          assert Occupying(key, existing[i], candidate);
          return true;
        }
      }
    }
    return false;
  }

  // Fair choice of the next task.

  predicate JobEligible(js: seq<Job>, want: Want, q: Quota, ji: nat)
    requires ji < |js|
  {
    && !want.MalformedJob?
    && (want.OnlyJob? ==> js[ji].id == want.id)
    && !js[ji].canceled && !js[ji].status.StatusCanceled?
    && ServiceLeases(js, js[ji].service) < Normalized(q).leasedTasks
  }

  predicate Leasable(t: Task) {
    t.state.Ready? && !t.operator
  }

  predicate Eligible(js: seq<Job>, want: Want, q: Quota, ji: nat, ti: nat) {
    ji < |js| && JobEligible(js, want, q, ji) && ti < |js[ji].tasks| && Leasable(js[ji].tasks[ti])
  }

  /** (load, job, task) comes no later than (load', job', task') lexicographically. */
  predicate NoLater(load: nat, ji: nat, ti: nat, load': nat, ji': nat, ti': nat) {
    load < load' || (load == load' && (ji < ji' || (ji == ji' && ti <= ti')))
  }

  /** The eligible task whose service holds the fewest leases; ties go to the oldest job, then to the
      earliest step. */
  ghost predicate IsPick(js: seq<Job>, want: Want, q: Quota, ji: nat, ti: nat) {
    && Eligible(js, want, q, ji, ti)
    && forall a: nat, b: nat :: Eligible(js, want, q, a, b) ==>
         NoLater(ServiceLeases(js, js[ji].service), ji, ti, ServiceLeases(js, js[a].service), a, b)
  }

  lemma PickUnique(js: seq<Job>, want: Want, q: Quota, ji: nat, ti: nat, a: nat, b: nat)
    requires IsPick(js, want, q, ji, ti) && IsPick(js, want, q, a, b)
    ensures ji == a && ti == b
  {
  }

  method LeasedByService(js: seq<Job>) returns (leased: map<string, nat>)
    ensures forall j :: j in js ==> (if j.service in leased then leased[j.service] else 0) == ServiceLeases(js, j.service)
  {
    leased := map[];
    for i := 0 to |js|
      invariant forall s :: (if s in leased then leased[s] else 0) == Total(js[..i], ServiceLoad(s))
    {
      var svc, ts := js[i].service, js[i].tasks;
      for k := 0 to |ts|
        invariant forall s :: (if s in leased then leased[s] else 0) ==
                    Total(js[..i], ServiceLoad(s)) + (if s == svc then Total(ts[..k], LeasedUnit()) else 0)
      {
        TotalTake(ts, k, LeasedUnit());
        if ts[k].state.Leased? {
          leased := leased[svc := (if svc in leased then leased[svc] else 0) + 1];
        }
      }
      assert ts[..|ts|] == ts;
      forall s
        ensures Total(js[..i + 1], ServiceLoad(s)) == Total(js[..i], ServiceLoad(s)) + ServiceLoad(s)(js[i])
      {
        TotalTake(js, i, ServiceLoad(s));
      }
    }
    assert js[..|js|] == js;
  }

  method FirstLeasable(ts: seq<Task>) returns (ti: int)
    ensures -1 <= ti < |ts|
    ensures ti >= 0 ==> Leasable(ts[ti]) && forall k :: 0 <= k < ti ==> !Leasable(ts[k])
    ensures ti < 0 ==> forall k :: 0 <= k < |ts| ==> !Leasable(ts[k])
  {
    for k := 0 to |ts|
      invariant forall m :: 0 <= m < k ==> !Leasable(ts[m])
    {
      if ts[k].state.Ready? && !ts[k].operator {
        return k;
      }
    }
    return -1;
  }

  /** Finds the pick, and fails exactly when no task is eligible. */
  method PickReady(all: seq<Job>, want: Want, q: Quota) returns (jobIdx: int, taskIdx: int, ok: bool)
    requires !want.MalformedJob?
    ensures ok ==> jobIdx >= 0 && taskIdx >= 0 && IsPick(all, want, q, jobIdx, taskIdx)
    ensures !ok ==> forall a: nat, b: nat :: !Eligible(all, want, q, a, b)
  {
    var nq := Normalized(q);
    var leased := LeasedByService(all);
    jobIdx, taskIdx := -1, -1;
    var best := 0;
    for ji := 0 to |all|
      invariant jobIdx < 0 ==> forall a: nat, b: nat :: a < ji ==> !Eligible(all, want, q, a, b)
      invariant jobIdx >= 0 ==> taskIdx >= 0 && jobIdx < ji && Eligible(all, want, q, jobIdx, taskIdx)
      invariant jobIdx >= 0 ==> best == ServiceLeases(all, all[jobIdx].service)
      invariant jobIdx >= 0 ==> forall a: nat, b: nat :: a < ji && Eligible(all, want, q, a, b) ==>
                  NoLater(best, jobIdx, taskIdx, ServiceLeases(all, all[a].service), a, b)
    {
      var j := all[ji];
      if want.OnlyJob? && j.id != want.id {
        continue;
      }
      if j.canceled || j.status.StatusCanceled? {
        continue;
      }
      var n := if j.service in leased then leased[j.service] else 0;
      assert n == ServiceLeases(all, j.service);
      if n >= nq.leasedTasks {
        continue;
      }
      if jobIdx >= 0 && n >= best {
        continue;
      }
      var ti := FirstLeasable(j.tasks);
      if ti >= 0 {
        jobIdx, taskIdx, best := ji, ti, n;
      }
    }
    ok := jobIdx >= 0;
  }
}
