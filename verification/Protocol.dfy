/** The control plane together with its workers, as one step relation: every handler is one step, and
    every call a worker makes may be served and answered, served without the answer arriving, or lost. */
module Protocol {
  import opened ModelIdentity
  import opened Resources
  import opened Jobs
  import opened Plane
  import opened PlaneInvariant
  import opened Agent

  datatype System = System(plane: State, workers: map<string, Worker>)

  function WorkerAt(s: System, node: string): Worker {
    if node in s.workers then s.workers[node] else DOWN
  }

  function Put(s: System, plane: State, node: string, w: Worker): System {
    System(plane, s.workers[node := w])
  }

  datatype Event =
    | WorkerStart(r: Report, now: nat, answered: bool)
    | WorkerClaim(node: string, now: nat, got: Option<string>, answered: bool)
    | WorkerCompose(node: string)
    | WorkerBeatServed(r: Report, now: nat, answered: bool)
    | WorkerBeatLost(node: string)
    | WorkerReport(node: string, res: JobResult, now: nat)
    | WorkerForget(node: string)
    | WorkerInterrupted(node: string, now: nat, served: bool)
    | WorkerQuit(node: string, now: nat, served: bool)
    | WorkerCrash(node: string)
    | DrainCall(node: string, now: nat)
    | LeaveCall(node: string, now: nat)
    | InventoryJoin(r: Report, now: nat)
    | EnrollCall(node: string, serial: string, now: nat)
    | RenewCall(node: string, serial: string, now: nat)
    | IdentityCall(node: string, identity: NodeIdentity)
    | CreateCall(order: Order, now: nat)
    | SweepTick(now: nat)
    | PlaneRestart(file: seq<Job>, plane: State)

  // ---------------------------------------------------------------- the plane's side of each call

  ghost function JoinServed(p: State, r: Report, now: nat): State {
    if MayJoin(p, r.nodeID) then AfterJoin(p, r, now) else p
  }

  ghost function BeatServed(p: State, r: Report, now: nat): State {
    if Admitted(p, r.nodeID, true) then AfterHeartbeat(p, r, now) else p
  }

  function DrainServed(p: State, node: string, now: nat): State {
    if Admitted(p, node, true) then AfterDrain(p, node, now) else p
  }

  predicate LeaveGranted(p: State, node: string) {
    Admitted(p, node, true) && !LeaveRefused(p.nodes[node])
  }

  ghost function LeaveServed(p: State, node: string, now: nat): State {
    if LeaveGranted(p, node) then AfterLeave(p, node, now) else p
  }

  ghost predicate ClaimServed(p: State, node: string, now: nat, got: Option<string>, after: State) {
    if Admitted(p, node, false) then ClaimYields(p, node, now, got, after) else got.None? && after == p
  }

  ghost function ResultServed(p: State, node: string, id: string, res: JobResult, now: nat): State {
    if Admitted(p, node, true) then AfterResult(p, node, id, res.(nodeID := node), now) else p
  }

  function BeatAnswer(p: State, node: string): BeatReply {
    if Admitted(p, node, true) then Answered(p.nodes[node].status) else BeatFailed
  }

  // ---------------------------------------------------------------- the step relation

  /** One step. A worker's report and its forgetting the job are two steps: the report is served while the
      worker still counts as busy, or is lost, and heartbeats may be composed in between. */
  ghost predicate Step(s: System, e: Event, t: System) {
    var p := s.plane;
    match e
    case WorkerStart(r, now, answered) =>
      && r.nodeID != "" && !WorkerAt(s, r.nodeID).up && r.status.Ready? && r.currentJobID == "" && r.agentVersion != ""
      && t == Put(s, JoinServed(p, r, now), r.nodeID, if MayJoin(p, r.nodeID) && answered then STARTED else DOWN)
    case WorkerClaim(node, now, got, answered) =>
      && MayClaim(WorkerAt(s, node)) && ClaimServed(p, node, now, got, t.plane)
      && t == Put(s, t.plane, node,
                  if answered && got.Some? then AfterClaimReply(WorkerAt(s, node), Got(got.value)) else WorkerAt(s, node))
    case WorkerCompose(node) =>
      && WorkerAt(s, node).up && WorkerAt(s, node).beat.None?
      && t == Put(s, p, node, WorkerAt(s, node).(beat := Some(BeatOf(WorkerAt(s, node)))))
    case WorkerBeatServed(r, now, answered) =>
      && WorkerAt(s, r.nodeID).up && WorkerAt(s, r.nodeID).beat == Some(Beat(r.status, r.currentJobID))
      && var after := BeatServed(p, r, now);
         t == Put(s, after, r.nodeID,
                  AfterBeatReply(WorkerAt(s, r.nodeID), if answered then BeatAnswer(after, r.nodeID) else BeatFailed))
    case WorkerBeatLost(node) =>
      && WorkerAt(s, node).up && WorkerAt(s, node).beat.Some?
      && t == Put(s, p, node, AfterBeatReply(WorkerAt(s, node), BeatFailed))
    case WorkerReport(node, res, now) =>
      && WorkerAt(s, node).up && WorkerAt(s, node).busy != ""
      && t == s.(plane := ResultServed(p, node, WorkerAt(s, node).busy, res, now))
    case WorkerForget(node) =>
      && WorkerAt(s, node).up && WorkerAt(s, node).busy != ""
      && t == Put(s, p, node, WorkerAt(s, node).(busy := ""))
    case WorkerInterrupted(node, now, served) =>
      && WorkerAt(s, node).up && WorkerAt(s, node).beat.None?
      && t == Put(s, if served then DrainServed(p, node, now) else p, node, WorkerAt(s, node).(draining := true))
    case WorkerQuit(node, now, served) =>
      && WorkerAt(s, node).up && WorkerAt(s, node).draining && WorkerAt(s, node).beat.None?
      && t == Put(s, if served then LeaveServed(p, node, now) else p, node, DOWN)
    case WorkerCrash(node) =>
      WorkerAt(s, node).up && t == Put(s, p, node, DOWN)
    case DrainCall(node, now) =>
      node != "" && t == s.(plane := DrainServed(p, node, now))
    case LeaveCall(node, now) =>
      node != "" && t == s.(plane := LeaveServed(p, node, now))
    case InventoryJoin(r, now) =>
      && r.nodeID != "" && r.status.Unset? && r.currentJobID == "" && r.agentVersion == ""
      && t == s.(plane := JoinServed(p, r, now))
    case EnrollCall(node, serial, now) =>
      node != "" && t == s.(plane := if MayEnroll(p, node) then AfterEnroll(p, node, serial, now) else p)
    case RenewCall(node, serial, now) =>
      t == s.(plane := if Admitted(p, node, true) then AfterRenew(p, node, serial, now) else p)
    case IdentityCall(node, identity) =>
      t == s.(plane := if node in p.nodes then AfterSetIdentity(p, node, identity) else p)
    case CreateCall(order, now) =>
      order.id != "" && order.id !in p.jobs && t == s.(plane := AfterCreate(p, order, now))
    case SweepTick(now) =>
      t == s.(plane := AfterSweep(p, now))
    case PlaneRestart(file, plane) =>
      Restarts(p, file, plane) && t == s.(plane := plane)
  }

  /** A run from the empty plane with no worker started. */
  ghost predicate Run(states: seq<System>, events: seq<Event>) {
    && |states| == |events| + 1
    && states[0] == System(State(map[], map[]), map[])
    && forall i {:trigger events[i]} :: 0 <= i < |events| ==> Step(states[i], events[i], states[i + 1])
  }

  // ---------------------------------------------------------------- the joint invariant

  /** What the plane owes to a live worker: the job it holds was claimed for it, and nothing else runs there. */
  ghost predicate WorkerOk(node: string, w: Worker, jobs: JobTable) {
    w.up ==>
      && (w.busy != "" ==>
            && w.busy in jobs && jobs[w.busy].nodeID == node && Rank(jobs[w.busy].status) >= 2
            && RunsAtMost(jobs, node, w.busy))
      && (w.beat.Some? ==>
            || (w.beat.value.status.Ready? && w.beat.value.job == "")
            || w.beat.value.status.Busy? || w.beat.value.status.Draining?)
  }

  ghost predicate SysInv(s: System) {
    && Inv(s.plane)
    && forall n :: n in s.workers ==> n != "" && WorkerOk(n, s.workers[n], s.plane.jobs)
  }

  ghost predicate NoneStartsOn(before: JobTable, after: JobTable, node: string) {
    forall id :: RunsOn(after, id, node) ==> RunsOn(before, id, node)
  }

  lemma WorkerStays(node: string, w: Worker, before: JobTable, after: JobTable)
    requires node != "" && WorkerOk(node, w, before) && Evolves(before, after) && NoneStartsOn(before, after, node)
    ensures WorkerOk(node, w, after)
  {
  }

  /** Frame of a step: the plane only moves jobs forward and starts nothing, and one worker changes. */
  lemma Frame(s: System, plane: State, node: string, w: Worker)
    requires SysInv(s) && Inv(plane) && Evolves(s.plane.jobs, plane.jobs) && NoneStarts(s.plane.jobs, plane.jobs)
    requires node != "" && WorkerOk(node, w, plane.jobs)
    ensures SysInv(Put(s, plane, node, w)) && SysInv(s.(plane := plane))
  {
    forall n | n in s.workers
      ensures WorkerOk(n, s.workers[n], plane.jobs)
    {
      WorkerStays(n, s.workers[n], s.plane.jobs, plane.jobs);
    }
  }

  /** The same when no worker changes. */
  lemma PlaneFrame(s: System, plane: State)
    requires SysInv(s) && Inv(plane) && Evolves(s.plane.jobs, plane.jobs) && NoneStarts(s.plane.jobs, plane.jobs)
    ensures SysInv(s.(plane := plane))
  {
    Frame(s, plane, "n", DOWN);
  }

  lemma WorkerAtOk(s: System, node: string)
    requires SysInv(s)
    ensures WorkerOk(node, WorkerAt(s, node), s.plane.jobs)
    ensures WorkerAt(s, node).up ==> node != ""
  {
  }

  lemma StartKeeps(s: System, e: Event, t: System)
    requires SysInv(s) && (e.WorkerStart? || e.InventoryJoin?) && Step(s, e, t)
    ensures SysInv(t) && Evolves(s.plane.jobs, t.plane.jobs)
  {
    JoinKeeps(s.plane, e.r, e.now);
    Frame(s, t.plane, e.r.nodeID, WorkerAt(t, e.r.nodeID).(up := false));
    Frame(s, t.plane, e.r.nodeID, if t.plane == s.plane then DOWN else STARTED);
    Frame(s, t.plane, e.r.nodeID, DOWN);
  }

  lemma ClaimStepKeeps(s: System, e: Event, t: System)
    requires SysInv(s) && e.WorkerClaim? && Step(s, e, t)
    ensures SysInv(t) && Evolves(s.plane.jobs, t.plane.jobs)
  {
    WorkerAtOk(s, e.node);
    if Admitted(s.plane, e.node, false) {
      ClaimKeeps(s.plane, e.node, e.now, e.got, t.plane);
    }
    forall n | n in t.workers
      ensures WorkerOk(n, t.workers[n], t.plane.jobs)
    {
      if n != e.node {
        WorkerStays(n, s.workers[n], s.plane.jobs, t.plane.jobs);
      }
    }
  }

  lemma BeatKeeps(s: System, e: Event, t: System)
    requires SysInv(s) && e.WorkerBeatServed? && Step(s, e, t)
    ensures SysInv(t) && Evolves(s.plane.jobs, t.plane.jobs)
  {
    var node := e.r.nodeID;
    WorkerAtOk(s, node);
    if Admitted(s.plane, node, true) {
      HeartbeatKeeps(s.plane, e.r, e.now);
      WorkerStays(node, WorkerAt(s, node), s.plane.jobs, t.plane.jobs);
    }
    Frame(s, t.plane, node, WorkerAt(t, node));
  }

  lemma ReportKeeps(s: System, e: Event, t: System)
    requires SysInv(s) && e.WorkerReport? && Step(s, e, t)
    ensures SysInv(t) && Evolves(s.plane.jobs, t.plane.jobs)
  {
    var w := WorkerAt(s, e.node);
    WorkerAtOk(s, e.node);
    if Admitted(s.plane, e.node, true) {
      ResultKeeps(s.plane, e.node, w.busy, e.res.(nodeID := e.node), e.now);
    }
    PlaneFrame(s, t.plane);
  }

  lemma LocalKeeps(s: System, e: Event, t: System)
    requires SysInv(s) && (e.WorkerCompose? || e.WorkerBeatLost? || e.WorkerForget? || e.WorkerInterrupted?) && Step(s, e, t)
    ensures SysInv(t) && t.plane.jobs == s.plane.jobs
  {
    WorkerAtOk(s, e.node);
    if e.WorkerInterrupted? && e.served && Admitted(s.plane, e.node, true) {
      DrainKeeps(s.plane, e.node, e.now);
    }
    BeatTellsTheTruth(WorkerAt(s, e.node));
    Frame(s, t.plane, e.node, WorkerAt(t, e.node));
  }

  lemma LeaveStepKeeps(s: System, e: Event, t: System)
    requires SysInv(s) && (e.WorkerQuit? || e.LeaveCall?) && Step(s, e, t)
    ensures SysInv(t) && Evolves(s.plane.jobs, t.plane.jobs)
  {
    WorkerAtOk(s, e.node);
    LeaveKeeps(s.plane, e.node, e.now);
    Frame(s, t.plane, e.node, DOWN);
  }

  lemma DrainCallKeeps(s: System, e: Event, t: System)
    requires SysInv(s) && e.DrainCall? && Step(s, e, t)
    ensures SysInv(t) && t.plane.jobs == s.plane.jobs
  {
    if e.node in s.plane.nodes {
      DrainKeeps(s.plane, e.node, e.now);
    }
    PlaneFrame(s, t.plane);
  }

  lemma CrashKeeps(s: System, e: Event, t: System)
    requires SysInv(s) && e.WorkerCrash? && Step(s, e, t)
    ensures SysInv(t) && t.plane == s.plane
  {
    WorkerAtOk(s, e.node);
  }

  lemma EnrollStepKeeps(s: System, e: Event, t: System)
    requires SysInv(s) && e.EnrollCall? && Step(s, e, t)
    ensures SysInv(t) && Evolves(s.plane.jobs, t.plane.jobs)
  {
    EnrollKeeps(s.plane, e.node, e.serial, e.now);
    PlaneFrame(s, t.plane);
  }

  lemma RenewStepKeeps(s: System, e: Event, t: System)
    requires SysInv(s) && e.RenewCall? && Step(s, e, t)
    ensures SysInv(t) && Evolves(s.plane.jobs, t.plane.jobs)
  {
    if Admitted(s.plane, e.node, true) {
      RenewKeeps(s.plane, e.node, e.serial, e.now);
    }
    PlaneFrame(s, t.plane);
  }

  lemma IdentityStepKeeps(s: System, e: Event, t: System)
    requires SysInv(s) && e.IdentityCall? && Step(s, e, t)
    ensures SysInv(t) && Evolves(s.plane.jobs, t.plane.jobs)
  {
    if e.node in s.plane.nodes {
      SetIdentityKeeps(s.plane, e.node, e.identity);
    }
    PlaneFrame(s, t.plane);
  }

  lemma CreateStepKeeps(s: System, e: Event, t: System)
    requires SysInv(s) && e.CreateCall? && Step(s, e, t)
    ensures SysInv(t) && Evolves(s.plane.jobs, t.plane.jobs)
  {
    CreateKeeps(s.plane, e.order, e.now);
    PlaneFrame(s, t.plane);
  }

  lemma SweepStepKeeps(s: System, e: Event, t: System)
    requires SysInv(s) && e.SweepTick? && Step(s, e, t)
    ensures SysInv(t) && Evolves(s.plane.jobs, t.plane.jobs)
  {
    SweepKeeps(s.plane, e.now);
    PlaneFrame(s, t.plane);
  }

  lemma RestartStepKeeps(s: System, e: Event, t: System)
    requires SysInv(s) && e.PlaneRestart? && Step(s, e, t)
    ensures SysInv(t) && Evolves(s.plane.jobs, t.plane.jobs)
  {
    RestartKeeps(s.plane, e.file, e.plane);
    PlaneFrame(s, t.plane);
  }

  /** The events of the plane's own side. */
  predicate IsPlaneEvent(e: Event) {
    e.EnrollCall? || e.RenewCall? || e.IdentityCall? || e.CreateCall? || e.SweepTick? || e.PlaneRestart?
  }

  lemma PlaneEventKeeps(s: System, e: Event, t: System)
    requires SysInv(s) && Step(s, e, t) && IsPlaneEvent(e)
    ensures SysInv(t) && Evolves(s.plane.jobs, t.plane.jobs)
  {
    if e.EnrollCall? {
      EnrollStepKeeps(s, e, t);
    } else if e.RenewCall? {
      RenewStepKeeps(s, e, t);
    } else if e.IdentityCall? {
      IdentityStepKeeps(s, e, t);
    } else if e.CreateCall? {
      CreateStepKeeps(s, e, t);
    } else if e.SweepTick? {
      SweepStepKeeps(s, e, t);
    } else {
      RestartStepKeeps(s, e, t);
    }
  }

  lemma WorkerEventKeeps(s: System, e: Event, t: System)
    requires SysInv(s) && Step(s, e, t) && !IsPlaneEvent(e)
    ensures SysInv(t) && Evolves(s.plane.jobs, t.plane.jobs)
  {
    if e.WorkerStart? || e.InventoryJoin? {
      StartKeeps(s, e, t);
    } else if e.WorkerClaim? {
      ClaimStepKeeps(s, e, t);
    } else if e.WorkerBeatServed? {
      BeatKeeps(s, e, t);
    } else if e.WorkerReport? {
      ReportKeeps(s, e, t);
    } else if e.WorkerCompose? || e.WorkerBeatLost? || e.WorkerForget? || e.WorkerInterrupted? {
      LocalKeeps(s, e, t);
    } else if e.WorkerQuit? || e.LeaveCall? {
      LeaveStepKeeps(s, e, t);
    } else if e.DrainCall? {
      DrainCallKeeps(s, e, t);
    } else {
      CrashKeeps(s, e, t);
    }
  }

  /** Every step of the system keeps the joint invariant and moves jobs forward only. */
  lemma StepKeeps(s: System, e: Event, t: System)
    requires SysInv(s) && Step(s, e, t)
    ensures SysInv(t) && Evolves(s.plane.jobs, t.plane.jobs)
  {
    if IsPlaneEvent(e) {
      PlaneEventKeeps(s, e, t);
    } else {
      WorkerEventKeeps(s, e, t);
    }
  }
}
