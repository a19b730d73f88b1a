/** Where every job of a run comes from, and for what causes it changes. */
module JobOrigins {
  import opened ModelIdentity
  import opened Resources
  import opened Jobs
  import opened Nodes
  import opened Scheduler
  import opened Plane
  import opened PlaneInvariant
  import opened Protocol
  import opened Runs
  import opened FitFacts

  // ---------------------------------------------------------------- a new job

  /** Nothing at all is asked of the node. */
  predicate AsksNothing(raw: Requirements) {
    !raw.gpuRequired && raw.minVRAM == 0 && Wanted(raw).name == ""
  }

  /** What a job of this type asks for, given what was submitted: all of that, and a GPU for an inference
      that does not say what memory it needs; just a GPU where nothing was submitted. */
  predicate AsksFor(r: Requirements, t: JobType, raw: Requirements) {
    if AsksNothing(raw) then r == Requirements(true, 0, "", "", "", false, "")
    else
      && r.minVRAM == raw.minVRAM && r.modelRuntime == raw.modelRuntime && r.requireModelPresent == raw.requireModelPresent
      && Wanted(r).name == Wanted(raw).name && (Wanted(raw).name != "" ==> Wanted(r) == Wanted(raw))
      && (r.gpuRequired <==> raw.gpuRequired || (t == Inference && raw.minVRAM == 0))
      && r.model == (if raw.model != "" then raw.model else Ref(Identity(raw.modelName, raw.modelTag, "")))
  }

  /** A known type; and for an inference, a model and a prompt. */
  predicate Acceptable(o: Order) {
    (o.jobType == GpuSmoke || o.jobType == Inference) &&
    (o.jobType == Inference ==> Wanted(o.req).name != "" && "prompt" in o.payload && o.payload["prompt"] != "")
  }

  /** The job as it was ordered, queued for the first time. */
  predicate AsOrdered(j: Job, o: Order, now: nat) {
    && j.id == o.id && j.jobType == o.jobType && j.preferredNodeID == o.preferred && j.payload == o.payload
    && j.createdAt == now && AsksFor(j.requirements, o.jobType, o.req)
  }

  predicate Fresh(j: Job) {
    j.status == Queued && j.nodeID == "" && j.startedAt == 0 && j.finishedAt == 0 && j.error == "" && j.result == map[]
  }

  /** An order is accepted exactly when it is acceptable, and the job is what was ordered. */
  lemma AcceptedIff(o: Order, now: nat)
    ensures var r := NewJob(o.id, o.jobType, o.preferred, o.req, o.payload, now);
            && (r.Accepted? <==> Acceptable(o))
            && (r.Accepted? ==> AsOrdered(r.job, o, now) && Fresh(r.job))
  {
    NormalizeKeepsKey(o.req);
    WantedIsKey(o.req);
    WantedIsKey(Normalized(o.req));
    var r := Normalized(o.req);
    WantedIsKey(r.(gpuRequired := true));
  }

  // ---------------------------------------------------------------- what never changes, and what changes for cause

  predicate SameOrigin(a: Job, b: Job) {
    && b.id == a.id && b.jobType == a.jobType && b.preferredNodeID == a.preferredNodeID
    && b.requirements == a.requirements && b.payload == a.payload && b.createdAt == a.createdAt
  }

  /** Of the same origin, neither started nor crowned with success in between. */
  predicate Waits(a: Job, b: Job) {
    && SameOrigin(a, b) && b.startedAt == a.startedAt && b.result == a.result
    && (b.status == Running ==> a.status == Running) && (b.status == Succeeded ==> b == a)
    && (b.status == Failed && a.status != Failed ==> InFlight(a))
  }

  lemma WaitsStill(j: Job)
    ensures Waits(j, j)
  {
  }

  ghost predicate AllWait(before: JobTable, after: JobTable, except: set<string>) {
    && before.Keys <= after.Keys
    && forall id :: id in before && id !in except ==> Waits(before[id], after[id])
  }

  lemma WaitAll(jobs: JobTable)
    ensures forall id :: id in jobs ==> Waits(jobs[id], jobs[id])
  {
  }

  lemma PassWaits(before: JobTable, jobs: JobTable, nodes: NodeTable, except: set<string>)
    requires AllWait(before, jobs, except)
    ensures AllWait(before, Scheduled(jobs, nodes), except)
  {
  }

  lemma FailWaits(jobs: JobTable, node: string, keep: string, error: string, includePending: bool, now: nat)
    ensures AllWait(jobs, FailedInFlight(jobs, node, keep, error, includePending, now), {})
  {
  }

  lemma SweepWaits(jobs: JobTable, lost: set<string>, error: string, now: nat)
    ensures AllWait(jobs, FailedOn(jobs, lost, error, now), {})
  {
  }

  lemma WaitsAfterWord(s: System, e: Event, t: System)
    requires Step(s, e, t) && (e.WorkerStart? || e.InventoryJoin? || e.WorkerBeatServed?)
    ensures AllWait(s.plane.jobs, t.plane.jobs, {})
  {
    hide Waits, Scheduled;
    var p, r := s.plane, e.r;
    WaitAll(p.jobs);
    var error := if e.WorkerBeatServed? then "worker is no longer running this job" else "worker restarted";
    FailWaits(p.jobs, r.nodeID, r.currentJobID, error, false, e.now);
    PassWaits(p.jobs, FailedInFlight(p.jobs, r.nodeID, r.currentJobID, error, false, e.now), t.plane.nodes, {});
  }

  lemma WaitsAfterSweep(s: System, e: Event, t: System)
    requires Step(s, e, t) && e.SweepTick?
    ensures AllWait(s.plane.jobs, t.plane.jobs, {})
  {
    var p := s.plane;
    SweepWaits(p.jobs, StaleIds(p.nodes, e.now), "node heartbeat timeout", e.now);
    PassWaits(p.jobs, FailedOn(p.jobs, StaleIds(p.nodes, e.now), "node heartbeat timeout", e.now), t.plane.nodes, {});
  }

  lemma WaitsAfterOther(s: System, e: Event, t: System)
    requires SysInv(s) && Step(s, e, t)
    requires !(e.WorkerStart? || e.InventoryJoin? || e.WorkerBeatServed? || e.SweepTick?)
    requires !(e.WorkerClaim? || e.WorkerReport? || e.CreateCall?)
    ensures AllWait(s.plane.jobs, t.plane.jobs, {})
  {
    hide Waits, Scheduled;
    WaitAll(s.plane.jobs);
    if e.PlaneRestart? {
      RestartKeeps(s.plane, e.file, e.plane);
    } else if e.LeaveCall? || e.WorkerQuit? {
      FailWaits(s.plane.jobs, e.node, "", "node left cluster", true, e.now);
    }
  }

  lemma WaitsAfterClaim(s: System, e: Event, t: System)
    requires Step(s, e, t) && e.WorkerClaim?
    ensures AllWait(s.plane.jobs, t.plane.jobs, if e.got.Some? then {e.got.value} else {})
    ensures e.got.Some? ==> e.got.value in s.plane.jobs && Begun(s.plane.jobs[e.got.value], t.plane.jobs[e.got.value], e.now)
    ensures e.got.Some? ==> PendsOn(s.plane.jobs, e.got.value, e.node)
  {
  }

  /** The job has begun to run. */
  predicate Begun(a: Job, b: Job, now: nat) {
    b == a.(status := Running, startedAt := now)
  }

  /** The job has ended as reported. */
  predicate Ended(a: Job, b: Job, res: JobResult, now: nat) {
    && SameOrigin(a, b) && b.nodeID == a.nodeID && b.startedAt == a.startedAt && b.finishedAt == now && b.result == res.result
    && (if res.ok then b.status == Succeeded && b.error == "" else b.status == Failed && b.error == res.error)
  }

  lemma EndedStands(jobs: JobTable, id: string, res: JobResult, now: nat, nodes: NodeTable)
    requires id in jobs
    ensures var after := Scheduled(Completed(jobs, id, res.ok, res.result, res.error, now), nodes);
            id in after && Ended(jobs[id], after[id], res, now)
  {
  }

  lemma WaitsAfterReport(s: System, e: Event, t: System)
    requires SysInv(s) && Step(s, e, t) && e.WorkerReport?
    ensures var id := WorkerAt(s, e.node).busy;
            && id in s.plane.jobs && AllWait(s.plane.jobs, t.plane.jobs, {id})
            && (Admitted(s.plane, e.node, true) ==> Ended(s.plane.jobs[id], t.plane.jobs[id], e.res, e.now))
            && (!Admitted(s.plane, e.node, true) ==> t.plane == s.plane)
  {
    hide Waits, Scheduled;
    WorkerAtOk(s, e.node);
    var p, id := s.plane, WorkerAt(s, e.node).busy;
    WaitAll(p.jobs);
    if Admitted(p, e.node, true) {
      var jobs := Completed(p.jobs, id, e.res.ok, e.res.result, e.res.error, e.now);
      PassWaits(p.jobs, jobs, t.plane.nodes, {id});
      assert t.plane.jobs == Scheduled(jobs, t.plane.nodes);
      EndedStands(p.jobs, id, e.res, e.now, t.plane.nodes);
    }
  }

  lemma WaitsAfterCreate(s: System, e: Event, t: System)
    requires Step(s, e, t) && e.CreateCall?
    ensures AllWait(s.plane.jobs, t.plane.jobs, {})
    ensures e.order.id in t.plane.jobs <==> Acceptable(e.order)
    ensures t.plane.jobs.Keys <= s.plane.jobs.Keys + {e.order.id}
    ensures e.order.id in t.plane.jobs ==> AsOrdered(t.plane.jobs[e.order.id], e.order, e.now)
  {
    var o := e.order;
    AcceptedIff(o, e.now);
    var r := NewJob(o.id, o.jobType, o.preferred, o.req, o.payload, e.now);
    hide NewJob, Acceptable, AsOrdered, AsksFor;
    if r.Accepted? {
      PassWaits(s.plane.jobs, s.plane.jobs[o.id := r.job], s.plane.nodes, {});
      PassKeepsOrder(s.plane.jobs[o.id := r.job], s.plane.nodes, o, e.now);
    }
  }

  lemma PassKeepsOrder(jobs: JobTable, nodes: NodeTable, o: Order, now: nat)
    requires o.id in jobs && AsOrdered(jobs[o.id], o, now)
    ensures o.id in Scheduled(jobs, nodes) && AsOrdered(Scheduled(jobs, nodes)[o.id], o, now)
  {
    hide AsksFor;
  }

  /** The causes for which a step may change a job: a claim begins it, a report of its worker ends it, and
      nothing else starts it, lets it succeed, or touches what was ordered. */
  ghost predicate ChangesForCause(s: System, e: Event, t: System, id: string) {
    id in s.plane.jobs ==>
      && id in t.plane.jobs
      && var a, b := s.plane.jobs[id], t.plane.jobs[id];
         if e.WorkerClaim? && e.got == Some(id) then a.status == Pending && a.nodeID == e.node && Begun(a, b, e.now)
         else if e.WorkerReport? && WorkerAt(s, e.node).busy == id && Admitted(s.plane, e.node, true) then Ended(a, b, e.res, e.now)
         else Waits(a, b)
  }

  lemma EveryChangeHasItsCause(s: System, e: Event, t: System, id: string)
    requires SysInv(s) && Step(s, e, t)
    ensures ChangesForCause(s, e, t, id)
  {
    hide SysInv, Step, Acceptable, AsOrdered, Waits, Begun, Ended, Admitted, WorkerAt;
    if e.WorkerClaim? {
      WaitsAfterClaim(s, e, t);
    } else if e.WorkerReport? {
      WaitsAfterReport(s, e, t);
      if id in s.plane.jobs {
        WaitsStill(s.plane.jobs[id]);
      }
    } else if e.CreateCall? {
      WaitsAfterCreate(s, e, t);
    } else if e.WorkerStart? || e.InventoryJoin? || e.WorkerBeatServed? {
      WaitsAfterWord(s, e, t);
    } else if e.SweepTick? {
      WaitsAfterSweep(s, e, t);
    } else {
      WaitsAfterOther(s, e, t);
    }
  }

  /** A step other than a creation brings in no job. */
  lemma OnlyOrdersBringJobs(s: System, e: Event, t: System)
    requires SysInv(s) && Step(s, e, t) && !e.CreateCall?
    ensures t.plane.jobs.Keys <= s.plane.jobs.Keys
  {
    if e.PlaneRestart? {
      RestartKeeps(s.plane, e.file, e.plane);
    }
  }

  /** Event k is the order of this job. */
  ghost predicate OrderedAt(events: seq<Event>, k: int, j: Job) {
    0 <= k < |events| && events[k].CreateCall? && AsOrdered(j, events[k].order, events[k].now)
  }

  lemma OrderStands(events: seq<Event>, k: int, a: Job, b: Job)
    requires OrderedAt(events, k, a) && SameOrigin(a, b)
    ensures OrderedAt(events, k, b)
  {
  }

  lemma CauseKeepsOrigin(s: System, e: Event, t: System, id: string)
    requires ChangesForCause(s, e, t, id) && id in s.plane.jobs
    ensures id in t.plane.jobs && SameOrigin(s.plane.jobs[id], t.plane.jobs[id])
  {
  }

  lemma EmptyAtFirst(states: seq<System>, events: seq<Event>)
    requires Run(states, events)
    ensures |states| > 0 && states[0].plane.jobs == map[]
  {
  }

  /** In every run every job is one that was ordered, and is still what was ordered. */
  lemma {:induction false} JobsAreAsOrdered(states: seq<System>, events: seq<Event>, i: nat, id: string) returns (k: int)
    requires Run(states, events) && i < |states| && id in states[i].plane.jobs
    ensures k < i && OrderedAt(events, k, states[i].plane.jobs[id])
  {
    hide SysInv, Step, AsOrdered, SameOrigin, Acceptable;
    assert i > 0 by { EmptyAtFirst(states, events); }
    var s, e, t := states[i - 1], events[i - 1], states[i];
    RunInvariant(states, events, i - 1);
    assert Step(s, e, t);
    if id in s.plane.jobs {
      k := JobsAreAsOrdered(states, events, i - 1, id);
      EveryChangeHasItsCause(s, e, t, id);
      CauseKeepsOrigin(s, e, t, id);
      OrderStands(events, k, s.plane.jobs[id], t.plane.jobs[id]);
    } else if e.CreateCall? {
      WaitsAfterCreate(s, e, t);
      k := i - 1;
    } else {
      OnlyOrdersBringJobs(s, e, t);
      assert false;
    }
  }
}
