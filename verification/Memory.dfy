/** The in-process job store (internal/jobs/memory.go). Its methods run the loops of the source; every
    state an instance can be in is the last state of a run, so the theorems about runs hold of it. */
module MemoryStore {
  import opened Base
  import opened EvidenceTypes
  import opened JobTypes
  import opened Scheduling
  import opened JobOps
  import opened Admission
  import opened Totals
  import opened LeaseProtocol
  import opened TaskIds
  import opened Text
  import opened StoreModel
  import opened Runs

  /** A worker's claim on one task. */
  datatype Claim = Claim(job: Job, task: Task, n: int, fence: nat, attempt: Id)

  /** What one job adds to the count a sweep returns. */
  function SweepUnit(now: int): Job -> nat {
    (j: Job) => SweepCount(j, now)
  }

  /** The jobs and trails of a map, in the given order. */
  ghost function RowsOf(order: seq<Id>, byID: map<Id, Job>, trails: map<Id, seq<Trail>>): (rows: seq<Row>)
    requires forall id :: id in order ==> id in byID && id in trails
    ensures |rows| == |order|
  {
    seq(|order|, i requires 0 <= i < |order| => Row(byID[order[i]], trails[order[i]]))
  }

  function CountIn(jobs: map<Id, Job>, now: int): Id -> nat {
    (id: Id) => if id in jobs then SweepCount(jobs[id], now) else 0
  }

  function JobsIn(order: seq<Id>, jobs: map<Id, Job>): (js: seq<Job>)
    requires forall id :: id in order ==> id in jobs
    ensures |js| == |order|
  {
    seq(|order|, i requires 0 <= i < |order| => jobs[order[i]])
  }

  /** Every job has been swept but those still to do. */
  predicate SweptBut(policy: Policy, before: map<Id, Job>, now: int, jobs: map<Id, Job>, todo: set<Id>) {
    jobs.Keys == before.Keys &&
    forall id :: id in before ==> jobs[id] == if id in todo then before[id] else Swept(policy, before[id], now)
  }

  lemma SweptOne(policy: Policy, before: map<Id, Job>, now: int, jobs: map<Id, Job>, todo: set<Id>, id: Id)
    requires SweptBut(policy, before, now, jobs, todo) && id in todo && id in before
    ensures jobs[id] == before[id]
    ensures SweptBut(policy, before, now, jobs[id := Swept(policy, before[id], now)], todo - {id})
  {
  }

  ghost predicate Visited(visited: seq<Id>, ids: set<Id>) {
    NoDuplicates(visited) && forall id :: id in visited <==> id in ids
  }

  lemma VisitOne(visited: seq<Id>, all: set<Id>, todo: set<Id>, id: Id)
    requires Visited(visited, all - todo) && id in todo && todo <= all
    ensures Visited(visited + [id], all - (todo - {id}))
  {
  }

  /** Counting job by job in any order gives the sum over the list of jobs. */
  lemma CountedAll(visited: seq<Id>, order: seq<Id>, jobs: map<Id, Job>, now: int)
    requires NoDuplicates(visited) && NoDuplicates(order)
    requires forall id :: id in order ==> id in jobs
    requires forall id :: id in visited <==> id in order
    ensures Total(visited, CountIn(jobs, now)) == Total(JobsIn(order, jobs), SweepUnit(now))
  {
    SameElementsPermute(visited, order);
    TotalPermute(visited, order, CountIn(jobs, now));
    CountsAgree(order, JobsIn(order, jobs), CountIn(jobs, now), SweepUnit(now));
  }

  lemma {:induction false} CountsAgree(order: seq<Id>, js: seq<Job>, f: Id -> nat, g: Job -> nat)
    requires |order| == |js| && forall i :: 0 <= i < |order| ==> f(order[i]) == g(js[i])
    ensures Total(order, f) == Total(js, g)
  {
    if order != [] {
      CountsAgree(order[..|order| - 1], js[..|js| - 1], f, g);
    }
  }

  ghost predicate Tracked(jobs: map<Id, Job>, trails: map<Id, seq<Trail>>) {
    forall id :: id in jobs ==> jobs[id].id == id && id in trails && |trails[id]| == |jobs[id].tasks|
  }

  ghost function SweptTrails(policy: Policy, jobs: map<Id, Job>, trails: map<Id, seq<Trail>>, now: int): map<Id, seq<Trail>>
    requires Tracked(jobs, trails)
  {
    map id | id in jobs :: SweepRow(policy, Row(jobs[id], trails[id]), now).trail
  }

  lemma SweptRows(cfg: Config, order: seq<Id>, jobs: map<Id, Job>, trails: map<Id, seq<Trail>>, jobs': map<Id, Job>, w: World, now: int)
    requires Tracked(jobs, trails) && forall id :: id in order ==> id in jobs
    requires jobs'.Keys == jobs.Keys && forall id :: id in jobs ==> jobs'[id] == Swept(cfg.policy, jobs[id], now)
    requires Shape(w) && w.rows == RowsOf(order, jobs, trails)
    ensures var trails' := SweptTrails(cfg.policy, jobs, trails, now);
            Tracked(jobs', trails') && RowsOf(order, jobs', trails') == SweepWorld(cfg, w, now).rows
  {
    var trails' := SweptTrails(cfg.policy, jobs, trails, now);
    forall i | 0 <= i < |order|
      ensures Row(jobs'[order[i]], trails'[order[i]]) == SweepRow(cfg.policy, w.rows[i], now)
    {
      assert w.rows[i] == Row(jobs[order[i]], trails[order[i]]);
    }
  }

  class Memory {
    const cfg: Config
    var byID: map<Id, Job>
    var order: seq<Id>
    var quota: Quota

    ghost var trails: map<Id, seq<Trail>>
    ghost var issued: set<Id>
    ghost var peak: Quota
    ghost var worlds: seq<World>
    ghost var history: seq<Event>

    ghost predicate Indexed()
      reads this
    {
      && NoDuplicates(order)
      && (forall id :: id in byID <==> id in order)
      && Tracked(byID, trails)
    }

    ghost function State(): (w: World)
      requires Indexed()
      reads this
      ensures |w.rows| == |order| && Shape(w)
    {
      World(RowsOf(order, byID, trails), quota, issued, peak)
    }

    /** The fields agree, and the store is where the recorded run ends. */
    ghost predicate Valid()
      reads this
    {
      && Indexed()
      && Run(cfg, worlds, history)
      && State() == worlds[|history|]
    }

    constructor (cfg: Config, q: Quota)
      ensures Valid() && this.cfg == cfg
      ensures history == [] && State() == Initial(q)
    {
      this.cfg := cfg;
      byID := map[];
      order := [];
      quota := q;
      trails := map[];
      issued := {};
      peak := Normalized(q);
      worlds := [Initial(q)];
      history := [];
    }

    /** The jobs in order of creation. */
    method AllJobs() returns (js: seq<Job>)
      requires Indexed()
      ensures js == Jobs(State())
    {
      js := [];
      for i := 0 to |order|
        invariant |js| == i
        invariant forall k :: 0 <= k < i ==> js[k] == byID[order[k]]
      {
        assert order[i] in byID;
        js := js + [byID[order[i]]];
      }
    }

    ghost method Record(e: Event)
      requires Indexed() && Run(cfg, worlds, history) && Follows(cfg, worlds[|history|], e, State())
      modifies this`worlds, this`history
      ensures Valid()
      ensures history == old(history) + [e]
    {
      RunGrows(cfg, worlds, history, e, State());
      worlds := worlds + [State()];
      history := history + [e];
    }

    // Sweeping.

    /** Sweeps every job, in whatever order the map yields them. */
    method SweepJobs(now: int) returns (n: nat)
      requires Indexed()
      modifies this`byID
      ensures byID.Keys == old(byID.Keys)
      ensures forall id :: id in byID ==> byID[id] == Swept(cfg.policy, old(byID)[id], now)
      ensures n == Total(Jobs(old(State())), SweepUnit(now))
    {
      n := 0;
      var todo := byID.Keys;
      ghost var visited: seq<Id> := [];
      ghost var before := byID;
      while todo != {}
        invariant todo <= before.Keys && SweptBut(cfg.policy, before, now, byID, todo)
        invariant Visited(visited, before.Keys - todo) && n == Total(visited, CountIn(before, now))
      {
        var id :| id in todo;
        var k, job := SweepJob(cfg.policy, byID[id], now);
        SweptOne(cfg.policy, before, now, byID, todo, id);
        VisitOne(visited, before.Keys, todo, id);
        TotalSnoc(visited, id, CountIn(before, now));
        byID := byID[id := job];
        n := n + k;
        todo := todo - {id};
        visited := visited + [id];
      }
      CountedAll(visited, order, before, now);
      assert Jobs(old(State())) == JobsIn(order, before);
    }

    method Sweep(now: int) returns (n: nat)
      requires Indexed()
      modifies this`byID, this`trails
      ensures Indexed() && State() == SweepWorld(cfg, old(State()), now)
      ensures n == Total(Jobs(old(State())), SweepUnit(now))
    {
      ghost var before, tracked := byID, trails;
      n := SweepJobs(now);
      trails := SweptTrails(cfg.policy, before, tracked, now);
      SweptRows(cfg, order, before, tracked, byID, old(State()), now);
    }

    method RequeueExpired(now: int) returns (n: nat)
      requires Valid()
      modifies this
      ensures Valid() && history == old(history) + [SweepEvent(now)]
      ensures State() == SweepWorld(cfg, old(State()), now)
      ensures n == Total(Jobs(old(State())), SweepUnit(now))
    {
      n := Sweep(now);
      Record(SweepEvent(now));
    }

    method WithQuota(q: Quota)
      requires Valid()
      modifies this
      ensures Valid() && history == old(history) + [QuotaEvent(q)]
      ensures State() == QuotaStep(old(State()), q)
    {
      quota := q;
      peak := QuotaStep(old(State()), q).peak;
      Record(QuotaEvent(q));
    }

    method Get(id: Id) returns (r: Result<Job, Error>)
      requires Valid()
      ensures var ji := RowOf(State(), id);
              r == if ji.Some? then Ok(State().rows[ji.value].job) else Err(ErrNotFound)
    {
      if id !in byID {
        NoRow(id);
        return Err(ErrNotFound);
      }
      ghost var ji := RowIndex(id);
      return Ok(byID[id]);
    }

    lemma NoRow(id: Id)
      requires Indexed() && id !in byID
      ensures RowOf(State(), id).None?
    {
      assert forall i :: 0 <= i < |order| ==> State().rows[i].job.id == order[i];
    }

    lemma RowIndex(id: Id) returns (ji: nat)
      requires Indexed() && id in byID
      ensures ji < |order| && order[ji] == id && RowOf(State(), id) == Some(ji)
      ensures State().rows[ji] == Row(byID[id], trails[id])
    {
      ji :| 0 <= ji < |order| && order[ji] == id;
      assert forall i :: 0 <= i < |order| ==> State().rows[i].job.id == order[i];
    }

    // Creation.

    method BuildJob(opts: CreateOpts, id: Id, builtAt: int) returns (job: Job)
      ensures job == Built(cfg, opts, id, builtAt)
    {
      var created := Truncated(builtAt);
      var tasks := [];
      for i := 0 to |opts.plan|
        invariant |tasks| == i
        invariant forall k :: 0 <= k < i ==> tasks[k] == InitialTask(id, k, opts.plan[k])
      {
        var s := opts.plan[i];
        var t := Task(TaskId(id, i), id, s.id, s.kind, s.operator, s.required, s.dependsOn, s.n,
                      Pending, "", 0, None, "", EMPTY_RESULT, "");
        if s.operator {
          t := t.(state := Skipped);
        }
        tasks := tasks + [t];
      }
      assert tasks == InitialTasks(id, opts.plan);
      tasks := Settle(tasks);
      var deadline := if opts.deadline.Some? then opts.deadline.value else created + DEFAULT_DEADLINE;
      job := Job(id, Some(created), StatusPending, cfg.clip(opts.service), opts.baseline, opts.patch,
                 opts.baselineRev.(source := SOURCE_DECLARED), opts.patchRev.(source := SOURCE_DECLARED),
                 Some(deadline), false, opts.impacted, opts.changes, opts.workload, opts.plan,
                 tasks, [], false);
      job := RefreshJob(cfg.policy, job);
    }

    method Create(opts: CreateOpts, id: Id, checkedAt: int, builtAt: int, now: int) returns (r: Result<Job, Error>)
      requires Valid() && FreshJobId(State(), id)
      modifies this
      ensures Valid() && history == old(history) + [CreateEvent(opts, id, checkedAt, builtAt, now)]
      ensures State() == CreateStep(cfg, old(State()), opts, id, checkedAt, builtAt, now)
      ensures r == CreateReply(cfg, old(State()), opts, id, checkedAt, builtAt, now)
    {
      r := CreateLocked(opts, id, checkedAt, builtAt, now);
      Record(CreateEvent(opts, id, checkedAt, builtAt, now));
    }

    method CreateLocked(opts: CreateOpts, id: Id, checkedAt: int, builtAt: int, now: int) returns (r: Result<Job, Error>)
      requires Indexed() && FreshJobId(State(), id)
      modifies this`byID, this`order, this`trails
      ensures Indexed() && State() == CreateStep(cfg, old(State()), opts, id, checkedAt, builtAt, now)
      ensures r == CreateReply(cfg, old(State()), opts, id, checkedAt, builtAt, now)
    {
      if !ValidOpts(cfg, opts, checkedAt) {
        r := Err(ErrInvalidOpts);
      } else {
        var job := BuildJob(opts, id, builtAt);
        var _ := Sweep(now);
        StillFresh(cfg, old(State()), now, id);
        var refused := Refusal(job);
        if refused.Some? {
          r := Err(refused.value);
        } else {
          NotListed(id);
          Insert(job, NewRow(cfg, opts, id, builtAt).trail);
          r := Ok(job);
        }
      }
    }

    /** Whether a job must wait for a gateway or for its service's share. */
    method Refusal(job: Job) returns (e: Option<Error>)
      requires Indexed() && FreshJobId(State(), job.id)
      ensures e == CreateError(cfg, State(), job)
    {
      var js := AllJobs();
      assert forall i :: 0 <= i < |js| ==> js[i] == State().rows[i].job;
      NewcomersBusy(cfg.key, js, job);
      NewcomersRivals(js, job);
      var busy := GatewayBusy(cfg.key, js, job);
      if busy {
        return Some(ErrBusy);
      }
      var over := OverActive(js, job, quota);
      return if over then Some(ErrQuota) else None;
    }

    lemma NotListed(id: Id)
      requires Indexed() && FreshJobId(State(), id)
      ensures id !in order
    {
      forall i | 0 <= i < |order|
        ensures order[i] != id
      {
        assert State().rows[i].job.id == order[i];
      }
    }

    method Insert(job: Job, ghost trail: seq<Trail>)
      requires Indexed() && job.id !in order && |trail| == |job.tasks|
      modifies this`byID, this`order, this`trails
      ensures Indexed()
      ensures State() == old(State()).(rows := old(State()).rows + [Row(job, trail)])
    {
      byID := byID[job.id := job];
      trails := trails[job.id := trail];
      order := order + [job.id];
      assert State().rows == old(State()).rows + [Row(job, trail)];
    }

    // Leases.

    method Store(ghost ji: nat, job: Job, ghost trail: seq<Trail>)
      requires Indexed() && ji < |order| && order[ji] == job.id && |trail| == |job.tasks|
      modifies this`byID, this`trails
      ensures Indexed()
      ensures State() == old(State()).(rows := old(State()).rows[ji := Row(job, trail)])
    {
      byID := byID[job.id := job];
      trails := trails[job.id := trail];
      assert State().rows == old(State()).rows[ji := Row(job, trail)];
    }

    method Lease(w: Worker, attempt: Id, now: int) returns (r: Result<Claim, Error>)
      requires Valid() && FreshAttempt(State(), attempt)
      modifies this
      ensures Valid() && history == old(history) + [LeaseEvent(w, attempt, now)]
      ensures State() == LeaseStep(cfg, old(State()), w, attempt, now)
      ensures r == LeaseReply(cfg, old(State()), w, attempt, now)
    {
      r := LeaseLocked(w, attempt, now);
      Record(LeaseEvent(w, attempt, now));
    }

    method LeaseLocked(w: Worker, attempt: Id, now: int) returns (r: Result<Claim, Error>)
      requires Indexed()
      modifies this`byID, this`trails, this`issued
      ensures Indexed() && State() == LeaseStep(cfg, old(State()), w, attempt, now)
      ensures r == LeaseReply(cfg, old(State()), w, attempt, now)
    {
      if Blank(w.id) {
        r := Err(ErrNoWorker);
      } else {
        var _ := Sweep(now);
        var refused, ji, ti := Choose(w);
        if refused.Some? {
          r := Err(refused.value);
        } else {
          var job := Grant(ji, ti, attempt, w.id, now);
          r := Ok(Claim(job, job.tasks[ti], job.tasks[ti].n, job.tasks[ti].fence, job.tasks[ti].attempt));
        }
      }
    }

    /** The capacity check and the fair choice. */
    method Choose(w: Worker) returns (refused: Option<Error>, ji: nat, ti: nat)
      requires Indexed()
      ensures LeaseChoice(State(), w) == if refused.Some? then Refuse(refused.value) else Pick(ji, ti)
    {
      ji, ti := 0, 0;
      var all := AllJobs();
      var held := CountLeased(all, w.id);
      if held >= Slots(w) {
        return Some(ErrCapacity), ji, ti;
      }
      if w.want.MalformedJob? {
        return Some(ErrInvalidID), ji, ti;
      }
      var jobIdx, taskIdx, ok := PickReady(all, w.want, quota);
      if !ok {
        return Some(ErrNoReady), ji, ti;
      }
      ChoiceIsPick(State(), w, jobIdx, taskIdx);
      return None, jobIdx, taskIdx;
    }

    method Grant(ji: nat, ti: nat, attempt: Id, worker: string, now: int) returns (job: Job)
      requires Indexed() && ji < |order| && ti < |State().rows[ji].job.tasks|
      modifies this`byID, this`trails, this`issued
      ensures Indexed()
      ensures State() == old(State()).(rows := old(State()).rows[ji := GrantRow(old(State()).rows[ji], ti, attempt, worker, now)],
                                       issued := old(State()).issued + {attempt})
      ensures job == State().rows[ji].job
    {
      ghost var row := GrantRow(State().rows[ji], ti, attempt, worker, now);
      assert order[ji] in byID;
      job := byID[order[ji]];
      var t := job.tasks[ti].(state := Leased, attempt := attempt, fence := job.tasks[ti].fence + 1,
                              worker := worker, leaseUntil := Some(now + LEASE_TTL));
      job := job.(tasks := job.tasks[ti := t]);
      var status := JobStatusOf(job.tasks);
      job := job.(status := status);
      assert row.job == job;
      Store(ji, job, row.trail);
      issued := issued + {attempt};
    }

    method FindTask(tid: Id) returns (found: bool, id: Id, ti: nat)
      requires Indexed()
      ensures found ==> id in byID && ti < |byID[id].tasks| && byID[id].tasks[ti].id == tid
      ensures !found ==> forall id, i :: id in byID && 0 <= i < |byID[id].tasks| ==> byID[id].tasks[i].id != tid
    {
      found, id, ti := false, "", 0;
      var todo := byID.Keys;
      while todo != {}
        invariant todo <= byID.Keys
        invariant forall k, i :: k in byID && k !in todo && 0 <= i < |byID[k].tasks| ==> byID[k].tasks[i].id != tid
      {
        id :| id in todo;
        var ts := byID[id].tasks;
        for i := 0 to |ts|
          invariant forall k :: 0 <= k < i ==> ts[k].id != tid
        {
          if ts[i].id == tid {
            return true, id, i;
          }
        }
        todo := todo - {id};
      }
    }

    method Heartbeat(tid: Id, attempt: Id, workerId: string, now: int) returns (e: Option<Error>)
      requires Valid()
      modifies this
      ensures Valid() && history == old(history) + [HeartbeatEvent(tid, attempt, workerId, now)]
      ensures State() == HeartbeatStep(old(State()), tid, attempt, workerId, now)
      ensures e == HeartbeatOutcome(old(State()), tid, attempt, workerId)
    {
      DistinctIds(cfg, worlds, history);
      e := HeartbeatLocked(tid, attempt, workerId, now);
      Record(HeartbeatEvent(tid, attempt, workerId, now));
    }

    method HeartbeatLocked(tid: Id, attempt: Id, workerId: string, now: int) returns (e: Option<Error>)
      requires Indexed() && DistinctTaskIds(State())
      modifies this`byID, this`trails
      ensures Indexed() && State() == HeartbeatStep(old(State()), tid, attempt, workerId, now)
      ensures e == HeartbeatOutcome(old(State()), tid, attempt, workerId)
    {
      var found, id, ti := FindTask(tid);
      if !found {
        NotLocated(tid);
        return Some(ErrNotFound);
      }
      ghost var ji := Located(tid, id, ti);
      var job := byID[id];
      var r := ApplyHeartbeat(job.tasks[ti], attempt, workerId, now);
      if r.Err? {
        return Some(r.error);
      }
      job := job.(tasks := job.tasks[ti := r.value]);
      Store(ji, job, trails[id]);
      return None;
    }

    method Commit(tid: Id, attempt: Id, result: StepResult, fail: string) returns (r: Result<Task, Error>)
      requires Valid()
      modifies this
      ensures Valid() && history == old(history) + [CommitEvent(tid, attempt, result, fail)]
      ensures State() == CommitStep(cfg, old(State()), tid, attempt, result, fail)
      ensures r == CommitReply(cfg, old(State()), tid, attempt, result, fail)
    {
      DistinctIds(cfg, worlds, history);
      r := CommitLocked(tid, attempt, result, fail);
      Record(CommitEvent(tid, attempt, result, fail));
    }

    method CommitLocked(tid: Id, attempt: Id, result: StepResult, fail: string) returns (r: Result<Task, Error>)
      requires Indexed() && DistinctTaskIds(State())
      modifies this`byID, this`trails
      ensures Indexed() && State() == CommitStep(cfg, old(State()), tid, attempt, result, fail)
      ensures r == CommitReply(cfg, old(State()), tid, attempt, result, fail)
    {
      var found, id, ti := FindTask(tid);
      if !found {
        NotLocated(tid);
        return Err(ErrNotFound);
      }
      ghost var ji := Located(tid, id, ti);
      var job := byID[id];
      var c := ApplyCommit(job.tasks[ti], attempt, result, fail);
      if c.Err? {
        return Err(c.error);
      }
      job := job.(tasks := job.tasks[ti := c.value]);
      job := RefreshJob(cfg.policy, job);
      ghost var row := CommitRow(cfg.policy, State().rows[ji], ti, attempt, result, fail);
      assert row.job == job;
      Store(ji, job, row.trail);
      return Ok(job.tasks[ti]);
    }

    method Cancel(id: Id) returns (r: Result<Job, Error>)
      requires Valid()
      modifies this
      ensures Valid() && history == old(history) + [CancelEvent(id)]
      ensures State() == CancelStep(cfg, old(State()), id)
      ensures r == CancelReply(cfg, old(State()), id)
    {
      r := CancelLocked(id);
      Record(CancelEvent(id));
    }

    method CancelLocked(id: Id) returns (r: Result<Job, Error>)
      requires Indexed()
      modifies this`byID, this`trails
      ensures Indexed() && State() == CancelStep(cfg, old(State()), id)
      ensures r == CancelReply(cfg, old(State()), id)
    {
      if id !in byID {
        NoRow(id);
        return Err(ErrNotFound);
      }
      ghost var ji := RowIndex(id);
      var job := ApplyCancel(cfg.policy, byID[id]);
      CancelKeepsId(cfg.policy, byID[id]);
      Store(ji, job, trails[id]);
      return Ok(job);
    }

    lemma NotLocated(tid: Id)
      requires Indexed()
      requires forall id, i :: id in byID && 0 <= i < |byID[id].tasks| ==> byID[id].tasks[i].id != tid
      ensures Locate(State(), tid).None?
    {
      forall ji: nat, ti: nat
        ensures !IsAt(State(), tid, ji, ti)
      {
        if ji < |order| {
          assert State().rows[ji].job == byID[order[ji]];
        }
      }
    }

    lemma Located(tid: Id, id: Id, ti: nat) returns (ji: nat)
      requires Indexed() && DistinctTaskIds(State())
      requires id in byID && ti < |byID[id].tasks| && byID[id].tasks[ti].id == tid
      ensures ji < |order| && order[ji] == id && Locate(State(), tid) == Some((ji, ti))
      ensures State().rows[ji] == Row(byID[id], trails[id])
    {
      ji := RowIndex(id);
      assert IsAt(State(), tid, ji, ti);
      var (a, b) := Locate(State(), tid).value;
      assert SameSpot(State(), tid, ji, ti, a, b);
    }
  }

  predicate SameSpot(w: World, tid: Id, ji: nat, ti: nat, a: nat, b: nat) {
    IsAt(w, tid, ji, ti) && IsAt(w, tid, a, b) ==> ji == a && ti == b
  }

  ghost predicate DistinctTaskIds(w: World) {
    forall tid, ji: nat, ti: nat, a: nat, b: nat :: SameSpot(w, tid, ji, ti, a, b)
  }

  lemma DistinctIds(cfg: Config, ws: seq<World>, es: seq<Event>)
    requires Run(cfg, ws, es)
    ensures DistinctTaskIds(ws[|es|])
  {
    RunOK(cfg, ws, es, |es|);
    var w := ws[|es|];
    forall tid, ji: nat, ti: nat, a: nat, b: nat
      ensures SameSpot(w, tid, ji, ti, a, b)
    {
      if IsAt(w, tid, ji, ti) && IsAt(w, tid, a, b) {
        TaskIdUnique(cfg, w, tid, ji, ti, a, b);
      }
    }
  }

  lemma CancelKeepsId(policy: Policy, j: Job)
    ensures Canceled(policy, j).id == j.id && |Canceled(policy, j).tasks| == |j.tasks|
  {
  }

  // What the operations answer.

  function CreateReply(cfg: Config, w: World, opts: CreateOpts, id: Id, checkedAt: int, builtAt: int, now: int): Result<Job, Error>
    requires Shape(w)
  {
    if !ValidOpts(cfg, opts, checkedAt) then Err(ErrInvalidOpts)
    else
      var job := Built(cfg, opts, id, builtAt);
      match CreateError(cfg, SweepWorld(cfg, w, now), job)
      case Some(e) => Err(e)
      case None => Ok(job)
  }

  /** The refusal, or the job and the task as they are stored from now on. */
  ghost function LeaseReply(cfg: Config, w: World, worker: Worker, attempt: Id, now: int): Result<Claim, Error>
    requires Shape(w)
  {
    if Blank(worker.id) then Err(ErrNoWorker)
    else
      match LeaseChoice(SweepWorld(cfg, w, now), worker)
      case Refuse(e) => Err(e)
      case Pick(ji, ti) =>
        var job := LeaseStep(cfg, w, worker, attempt, now).rows[ji].job;
        Ok(Claim(job, job.tasks[ti], job.tasks[ti].n, job.tasks[ti].fence, attempt))
  }

  ghost function CommitReply(cfg: Config, w: World, tid: Id, attempt: Id, result: StepResult, fail: string): Result<Task, Error>
    requires Shape(w)
  {
    match CommitOutcome(w, tid, attempt, result, fail)
    case Some(e) => Err(e)
    case None =>
      var (ji, ti) := Locate(w, tid).value;
      Ok(CommitStep(cfg, w, tid, attempt, result, fail).rows[ji].job.tasks[ti])
  }

  ghost function CancelReply(cfg: Config, w: World, id: Id): Result<Job, Error>
    requires Shape(w)
  {
    match RowOf(w, id)
    case None => Err(ErrNotFound)
    case Some(ji) => Ok(CancelStep(cfg, w, id).rows[ji].job)
  }

  lemma ChoiceIsPick(w: World, worker: Worker, ji: nat, ti: nat)
    requires WorkerLeases(Jobs(w), worker.id) < Slots(worker) && !worker.want.MalformedJob?
    requires IsPick(Jobs(w), worker.want, w.quota, ji, ti)
    ensures LeaseChoice(w, worker) == Pick(ji, ti)
  {
    var c := LeaseChoice(w, worker);
    PickUnique(Jobs(w), worker.want, w.quota, ji, ti, c.ji, c.ti);
  }

  lemma StillFresh(cfg: Config, w: World, now: int, id: Id)
    requires Shape(w) && FreshJobId(w, id)
    ensures FreshJobId(SweepWorld(cfg, w, now), id)
    ensures forall i :: 0 <= i < |w.rows| ==> Jobs(SweepWorld(cfg, w, now))[i].id != id
  {
    var w' := SweepWorld(cfg, w, now);
    forall i | 0 <= i < |w.rows|
      ensures w'.rows[i].job.id == w.rows[i].job.id
    {
    }
  }
}
