/** Whether a job ever waits in the queue although a node could take it, and what a restart changes. */
module Placement {
  import opened Resources
  import opened Jobs
  import opened Nodes
  import opened Scheduler
  import opened Plane
  import opened PlaneInvariant
  import opened Protocol
  import opened Runs
  import opened Leaving
  import opened FitFacts

  /** No queued job could go to any node. */
  ghost predicate Quiet(p: State) {
    forall id, n :: id in p.jobs && p.jobs[id].status == Queued && n in p.nodes ==> !MayTake(p.nodes[n], p.jobs[id])
  }

  /** A pass leaves nothing to place. */
  lemma PassIsQuiet(jobs: JobTable, nodes: NodeTable)
    requires KeyedNodes(nodes)
    ensures Quiet(State(Scheduled(jobs, nodes), nodes))
  {
    hide MayTake;
    forall id | id in jobs && Scheduled(jobs, nodes)[id].status == Queued
      ensures forall n :: n in nodes ==> !MayTake(nodes[n], Scheduled(jobs, nodes)[id])
    {
      PassSpelledOut(jobs, nodes, id);
    }
  }

  // ---------------------------------------------------------------- steps that run a pass

  /** The step ends with a pass over the queue: an admitted join or report, a heartbeat that leaves its node
      READY, an accepted order, a sweep. */
  ghost predicate RunsPass(e: Event, s: System, t: System) {
    match e
    case WorkerStart(r, _, _) => MayJoin(s.plane, r.nodeID)
    case InventoryJoin(r, _) => MayJoin(s.plane, r.nodeID)
    case WorkerBeatServed(r, _, _) => Admitted(s.plane, r.nodeID, true) && r.nodeID in t.plane.nodes && t.plane.nodes[r.nodeID].status == Ready
    case WorkerReport(node, _, _) => Admitted(s.plane, node, true)
    case CreateCall(o, _) => o.id in t.plane.jobs
    case SweepTick(_) => true
    case _ => false
  }

  lemma QuietAfterWord(s: System, e: Event, t: System)
    requires SysInv(t) && Step(s, e, t) && RunsPass(e, s, t) && (e.WorkerStart? || e.InventoryJoin? || e.WorkerBeatServed?)
    ensures Quiet(t.plane)
  {
    hide Quiet;
    var p, r := s.plane, e.r;
    var error := if e.WorkerBeatServed? then "worker is no longer running this job" else "worker restarted";
    PassIsQuiet(FailedInFlight(p.jobs, r.nodeID, r.currentJobID, error, false, e.now), t.plane.nodes);
  }

  lemma QuietAfterWork(s: System, e: Event, t: System)
    requires SysInv(s) && SysInv(t) && Step(s, e, t) && RunsPass(e, s, t) && (e.WorkerReport? || e.CreateCall? || e.SweepTick?)
    ensures Quiet(t.plane)
  {
    hide Quiet;
    var p := s.plane;
    if e.WorkerReport? {
      WorkerAtOk(s, e.node);
      var id := WorkerAt(s, e.node).busy;
      PassIsQuiet(Completed(p.jobs, id, e.res.ok, e.res.result, e.res.error, e.now), t.plane.nodes);
    } else if e.CreateCall? {
      var o := e.order;
      var r := NewJob(o.id, o.jobType, o.preferred, o.req, o.payload, e.now);
      PassIsQuiet(p.jobs[o.id := r.job], p.nodes);
    } else {
      PassIsQuiet(FailedOn(p.jobs, StaleIds(p.nodes, e.now), "node heartbeat timeout", e.now), t.plane.nodes);
    }
  }

  /** Nothing placeable is left in the queue by a step that runs a pass, whatever was in it before. */
  lemma QuietAfterPass(s: System, e: Event, t: System)
    requires SysInv(s) && Step(s, e, t) && RunsPass(e, s, t)
    ensures Quiet(t.plane)
  {
    StepKeeps(s, e, t);
    hide *;
    if e.WorkerStart? || e.InventoryJoin? || e.WorkerBeatServed? {
      QuietAfterWord(s, e, t);
    } else {
      NeedsAKind(e, s, t);
      QuietAfterWork(s, e, t);
    }
  }

  lemma NeedsAKind(e: Event, s: System, t: System)
    requires RunsPass(e, s, t)
    ensures e.WorkerStart? || e.InventoryJoin? || e.WorkerBeatServed? || e.WorkerReport? || e.CreateCall? || e.SweepTick?
  {
  }

  // ---------------------------------------------------------------- a restart changes nothing

  /** A row with cards has a profile of them. */
  ghost predicate Profiled(nodes: NodeTable) {
    forall n :: n in nodes && nodes[n].gpus != [] ==> nodes[n].resources.staticGPUs != []
  }

  lemma ProfiledStep(s: System, e: Event, t: System)
    requires SysInv(s) && Step(s, e, t) && Profiled(s.plane.nodes)
    ensures Profiled(t.plane.nodes)
  {
    hide *;
    if e.WorkerStart? || e.InventoryJoin? || e.WorkerBeatServed? {
      ProfiledAfterWord(s, e, t);
    } else if e.WorkerClaim? || e.WorkerReport? || e.WorkerInterrupted? || e.DrainCall? {
      ProfiledAfterWork(s, e, t);
    } else if e.EnrollCall? || e.RenewCall? || e.IdentityCall? {
      ProfiledAfterCertificate(s, e, t);
    } else {
      ProfiledAfterOther(s, e, t);
    }
  }

  lemma ProfiledAfterWord(s: System, e: Event, t: System)
    requires Step(s, e, t) && Profiled(s.plane.nodes) && (e.WorkerStart? || e.InventoryJoin? || e.WorkerBeatServed?)
    ensures Profiled(t.plane.nodes)
  {
    hide Scheduled, FailedInFlight;
  }

  lemma ProfiledAfterWork(s: System, e: Event, t: System)
    requires Step(s, e, t) && Profiled(s.plane.nodes)
    requires e.WorkerClaim? || e.WorkerReport? || e.WorkerInterrupted? || e.DrainCall?
    ensures Profiled(t.plane.nodes)
  {
    hide Scheduled;
  }

  lemma ProfiledAfterCertificate(s: System, e: Event, t: System)
    requires Step(s, e, t) && Profiled(s.plane.nodes) && (e.EnrollCall? || e.RenewCall? || e.IdentityCall?)
    ensures Profiled(t.plane.nodes)
  {
  }

  lemma ProfiledAfterOther(s: System, e: Event, t: System)
    requires Step(s, e, t) && Profiled(s.plane.nodes)
    requires !(e.WorkerStart? || e.InventoryJoin? || e.WorkerBeatServed? || e.EnrollCall? || e.RenewCall? || e.IdentityCall?)
    requires !(e.WorkerClaim? || e.WorkerReport? || e.WorkerInterrupted? || e.DrainCall?)
    ensures Profiled(t.plane.nodes)
  {
    hide Scheduled, FailedOn, FailedInFlight;
  }

  lemma {:induction false} ProfiledInRuns(states: seq<System>, events: seq<Event>, i: nat)
    requires Run(states, events) && i < |states|
    ensures Profiled(states[i].plane.nodes)
  {
    if i > 0 {
      RunInvariant(states, events, i - 1);
      ProfiledInRuns(states, events, i - 1);
      assert Step(states[i - 1], events[i - 1], states[i]);
      ProfiledStep(states[i - 1], events[i - 1], states[i]);
    }
  }

  lemma LoadedAsIs(nodes: NodeTable)
    requires Profiled(nodes) && KnownStatuses(nodes)
    ensures (map id | id in nodes :: LoadedRow(nodes[id])) == nodes
  {
  }

  /** In every run a restart of the plane, reading both its files back, changes nothing at all. */
  lemma RestartIsInvisible(states: seq<System>, events: seq<Event>, i: nat)
    requires Run(states, events) && i < |events| && events[i].PlaneRestart?
    ensures states[i + 1] == states[i]
  {
    RunInvariant(states, events, i);
    ProfiledInRuns(states, events, i);
    StatusesOfRuns(states, events, i);
    assert Step(states[i], events[i], states[i + 1]);
    RestartKeeps(states[i].plane, events[i].file, events[i].plane);
    LoadedAsIs(states[i].plane.nodes);
  }

  // ---------------------------------------------------------------- steps that run none

  /** Nothing is newly queued, and a row that is READY now was there already, with the same good standing. */
  ghost predicate NothingNew(p: State, q: State) {
    && (forall id :: id in q.jobs && q.jobs[id].status == Queued ==> id in p.jobs && q.jobs[id] == p.jobs[id])
    && (forall n :: n in q.nodes && q.nodes[n].status == Ready ==> n in p.nodes && q.nodes[n] == p.nodes[n])
  }

  lemma NothingNewIsQuiet(p: State, q: State)
    requires Quiet(p) && NothingNew(p, q)
    ensures Quiet(q)
  {
  }

  /** Whether the standing of a node changes without a pass. */
  predicate ChangesStanding(e: Event) {
    e.IdentityCall? || e.RenewCall?
  }

  lemma NothingNewAfterBeat(s: System, e: Event, t: System)
    requires SysInv(s) && Step(s, e, t) && e.WorkerBeatServed? && !RunsPass(e, s, t)
    ensures NothingNew(s.plane, t.plane)
  {
    WorkerAtOk(s, e.r.nodeID);
  }

  lemma NothingNewAfterOrder(s: System, e: Event, t: System)
    requires Step(s, e, t) && !RunsPass(e, s, t) && e.CreateCall?
    ensures t.plane == s.plane
  {
    var o := e.order;
    var r := NewJob(o.id, o.jobType, o.preferred, o.req, o.payload, e.now);
    assert r.Accepted? ==> o.id in Scheduled(s.plane.jobs[o.id := r.job], s.plane.nodes);
    hide Scheduled, NewJob;
  }

  lemma NothingNewAfterCall(s: System, e: Event, t: System)
    requires Step(s, e, t) && (e.WorkerClaim? || e.WorkerInterrupted? || e.DrainCall? || e.EnrollCall?)
    ensures NothingNew(s.plane, t.plane)
  {
  }

  lemma NothingNewAfterLeave(s: System, e: Event, t: System)
    requires Step(s, e, t) && (e.WorkerQuit? || e.LeaveCall?)
    ensures NothingNew(s.plane, t.plane)
  {
  }

  lemma NothingNewAfterOther(s: System, e: Event, t: System)
    requires Step(s, e, t) && !RunsPass(e, s, t) && !ChangesStanding(e)
    requires !e.PlaneRestart? && !e.WorkerBeatServed? && !e.CreateCall?
    requires !(e.WorkerClaim? || e.WorkerInterrupted? || e.DrainCall? || e.EnrollCall? || e.WorkerQuit? || e.LeaveCall?)
    ensures t.plane == s.plane
  {
    hide Scheduled, AfterSweep;
  }

  // ---------------------------------------------------------------- over runs

  /** A node's standing has changed since the last pass. */
  ghost predicate Unsettled(states: seq<System>, events: seq<Event>, i: nat)
    requires |states| == |events| + 1 && i < |states|
  {
    i > 0 && !RunsPass(events[i - 1], states[i - 1], states[i]) &&
    (ChangesStanding(events[i - 1]) || Unsettled(states, events, i - 1))
  }

  lemma QuietStep(states: seq<System>, events: seq<Event>, i: nat)
    requires Run(states, events) && i < |events| && !ChangesStanding(events[i]) && Quiet(states[i].plane)
    ensures Quiet(states[i + 1].plane)
  {
    hide Quiet, NothingNew, SysInv, Step;
    RunInvariant(states, events, i);
    var s, e, t := states[i], events[i], states[i + 1];
    assert Step(s, e, t) by { StepAt(states, events, i); }
    if RunsPass(e, s, t) {
      QuietAfterPass(s, e, t);
    } else if e.PlaneRestart? {
      RestartIsInvisible(states, events, i);
    } else if e.WorkerBeatServed? {
      NothingNewAfterBeat(s, e, t);
      NothingNewIsQuiet(s.plane, t.plane);
    } else if e.CreateCall? {
      NothingNewAfterOrder(s, e, t);
    } else if e.WorkerClaim? || e.WorkerInterrupted? || e.DrainCall? || e.EnrollCall? {
      NothingNewAfterCall(s, e, t);
      NothingNewIsQuiet(s.plane, t.plane);
    } else if e.WorkerQuit? || e.LeaveCall? {
      NothingNewAfterLeave(s, e, t);
      NothingNewIsQuiet(s.plane, t.plane);
    } else {
      NothingNewAfterOther(s, e, t);
    }
  }

  lemma StepAt(states: seq<System>, events: seq<Event>, i: nat)
    requires Run(states, events) && i < |events|
    ensures Step(states[i], events[i], states[i + 1])
  {
  }

  /** In every run no job waits in the queue that some node could take, unless a node's standing has been
      changed by the operator or by a renewal and no pass has run since. */
  lemma {:induction false} QueueIsQuiet(states: seq<System>, events: seq<Event>, i: nat)
    requires Run(states, events) && i < |states| && !Unsettled(states, events, i)
    ensures Quiet(states[i].plane)
  {
    hide Quiet, RunsPass, SysInv, Step;
    if i == 0 {
      EmptyIsQuiet(states, events);
    } else if RunsPass(events[i - 1], states[i - 1], states[i]) {
      RunInvariant(states, events, i - 1);
      StepAt(states, events, i - 1);
      QuietAfterPass(states[i - 1], events[i - 1], states[i]);
    } else {
      QueueIsQuiet(states, events, i - 1);
      QuietStep(states, events, i - 1);
    }
  }

  lemma EmptyIsQuiet(states: seq<System>, events: seq<Event>)
    requires Run(states, events)
    ensures |states| > 0 && Quiet(states[0].plane)
  {
  }

  lemma OnlyInGoodStanding(node: Node, job: Job)
    ensures node.identity == Suspended ==> !MayTake(node, job)
    ensures job.nodeID == "" && job.preferredNodeID == "" && CanRun(node.(identity := Active), job.requirements) ==>
              MayTake(node.(identity := Active), job)
  {
    hide SomeCardHolds;
  }

  /** A reinstated node may take a job that nevertheless goes on waiting, until the next pass places it. */
  lemma ReinstatedNodeIsOverlooked(job: Job, node: Node)
    requires job.id == "j" && job.status == Queued && job.nodeID == "" && job.preferredNodeID == ""
    requires node.nodeID == "n" && node.status == Ready && node.identity == Suspended && CanRun(node.(identity := Active), job.requirements)
    ensures var p := State(map["j" := job], map["n" := node]);
            var q := AfterSetIdentity(p, "n", Active);
            Inv(p) && Quiet(p) && !Quiet(q) && Quiet(State(Scheduled(q.jobs, q.nodes), q.nodes))
  {
    hide MayTake, CanRun, Scheduled;
    var p := State(map["j" := job], map["n" := node]);
    var q := AfterSetIdentity(p, "n", Active);
    OnlyInGoodStanding(node, job);
    assert MayTake(q.nodes["n"], q.jobs["j"]);
    PassIsQuiet(q.jobs, q.nodes);
  }
}
