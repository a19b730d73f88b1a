/** What holds in every run of the plane with its workers. */
module Runs {
  import opened Jobs
  import opened Nodes
  import opened Scheduler
  import opened Plane
  import opened PlaneInvariant
  import opened Protocol

  lemma {:induction false} RunInvariant(states: seq<System>, events: seq<Event>, i: nat)
    requires Run(states, events) && i < |states|
    ensures SysInv(states[i])
  {
    if i > 0 {
      RunInvariant(states, events, i - 1);
      StepKeeps(states[i - 1], events[i - 1], states[i]);
    }
  }

  lemma {:induction false} EvolvesChain(states: seq<System>, i: nat, j: nat)
    requires i <= j < |states|
    requires forall k {:trigger states[k]} :: i < k <= j ==> Evolves(states[k - 1].plane.jobs, states[k].plane.jobs)
    ensures Evolves(states[i].plane.jobs, states[j].plane.jobs)
    decreases j
  {
    if i < j {
      EvolvesChain(states, i, j - 1);
      EvolvesTransitive(states[i].plane.jobs, states[j - 1].plane.jobs, states[j].plane.jobs);
    }
  }

  /** Over a whole run no job is lost, none moves backwards, and none changes its node. */
  lemma RunEvolves(states: seq<System>, events: seq<Event>, i: nat, j: nat)
    requires Run(states, events) && i <= j < |states|
    ensures Evolves(states[i].plane.jobs, states[j].plane.jobs)
  {
    forall k | i < k <= j
      ensures Evolves(states[k - 1].plane.jobs, states[k].plane.jobs)
    {
      RunInvariant(states, events, k - 1);
      StepKeeps(states[k - 1], events[k - 1], states[k]);
    }
    EvolvesChain(states, i, j);
  }

  /** Safety of every reachable state: at most one job runs on a node, none on a READY one, only the
      current job on a BUSY one, and work in flight sits on a registered node that is not OFFLINE. */
  lemma SafetyOfRuns(states: seq<System>, events: seq<Event>, i: nat, node: string)
    requires Run(states, events) && i < |states|
    ensures var p := states[i].plane;
            && (forall a, b :: RunsOn(p.jobs, a, node) && RunsOn(p.jobs, b, node) ==> a == b)
            && (node in p.nodes && p.nodes[node].status.Ready? ==> forall a :: !RunsOn(p.jobs, a, node))
            && (node in p.nodes && p.nodes[node].status.Busy? ==> forall a :: RunsOn(p.jobs, a, node) ==> a == p.nodes[node].currentJobID)
            && (forall a :: RunsOn(p.jobs, a, node) || PendsOn(p.jobs, a, node) ==> node in p.nodes && !p.nodes[node].status.Offline?)
  {
    RunInvariant(states, events, i);
    var p := states[i].plane;
    forall a | RunsOn(p.jobs, a, node) || PendsOn(p.jobs, a, node)
      ensures WellSited(a, p.jobs[a], p.nodes)
    {
    }
  }

  /** A live worker executes only a job that was claimed for its node, and no two workers share one. */
  lemma NoSharedWork(states: seq<System>, events: seq<Event>, i: nat, a: string, b: string)
    requires Run(states, events) && i < |states|
    requires WorkerAt(states[i], a).up && WorkerAt(states[i], a).busy != ""
    requires WorkerAt(states[i], b).up && WorkerAt(states[i], b).busy == WorkerAt(states[i], a).busy
    ensures a == b
    ensures forall id :: RunsOn(states[i].plane.jobs, id, a) ==> id == WorkerAt(states[i], a).busy
  {
    RunInvariant(states, events, i);
    WorkerAtOk(states[i], a);
    WorkerAtOk(states[i], b);
  }

  /** In a whole run, restarts and lost replies included, no job is handed out twice. */
  lemma ClaimHandsOutOnce(states: seq<System>, events: seq<Event>, i: nat, j: nat)
    requires Run(states, events) && i < j < |events|
    requires events[i].WorkerClaim? && events[i].got.Some? && events[j].WorkerClaim? && events[j].got.Some?
    ensures events[i].got.value != events[j].got.value
  {
    assert Step(states[i], events[i], states[i + 1]) && Step(states[j], events[j], states[j + 1]);
    RunEvolves(states, events, i + 1, j);
  }

  // ---------------------------------------------------------------- the worker's word is final

  ghost function NewlyFailed(before: JobTable, after: JobTable): set<string> {
    set id | id in before && id in after && !before[id].status.Failed? && after[id].status.Failed?
  }

  /** After any heartbeat, whatever the plane believed before: what runs on the node is at most the job
      the worker named, the jobs that became failed are exactly the ones counted, pending ones stay. */
  lemma HeartbeatIsAuthoritative(s: State, r: Report, now: nat)
    requires r.nodeID in s.nodes && forall id :: id in s.jobs ==> s.jobs[id].id == id
    ensures WordIsFinal(s.jobs, AfterHeartbeat(s, r, now).jobs, r.nodeID, r.currentJobID)
  {
    var error := "worker is no longer running this job";
    FailSettles(s.jobs, r.nodeID, r.currentJobID, error, now);
    ScheduleLeavesSettled(s.jobs, FailedInFlight(s.jobs, r.nodeID, r.currentJobID, error, false, now),
                          AfterHeartbeat(s, r, now).nodes, r.nodeID, r.currentJobID);
  }

  /** The same for a join, which a restarted worker sends without naming a job. */
  lemma JoinIsAuthoritative(s: State, r: Report, now: nat)
    requires forall id :: id in s.jobs ==> s.jobs[id].id == id
    ensures WordIsFinal(s.jobs, AfterJoin(s, r, now).jobs, r.nodeID, r.currentJobID)
  {
    FailSettles(s.jobs, r.nodeID, r.currentJobID, "worker restarted", now);
    ScheduleLeavesSettled(s.jobs, FailedInFlight(s.jobs, r.nodeID, r.currentJobID, "worker restarted", false, now),
                          AfterJoin(s, r, now).nodes, r.nodeID, r.currentJobID);
  }

  /** The verdict of a report: who still runs, who became failed, who still waits. */
  ghost predicate WordIsFinal(jobs: JobTable, after: JobTable, node: string, keep: string) {
    && (forall id :: RunsOn(after, id, node) <==> RunsOn(jobs, id, node) && id == keep && id != "")
    && NewlyFailed(jobs, after) == DoomedIds(jobs, node, keep, false)
    && (forall id :: PendsOn(jobs, id, node) ==> id in after && after[id] == jobs[id])
  }

  lemma FailSettles(jobs: JobTable, node: string, keep: string, error: string, now: nat)
    requires forall id :: id in jobs ==> jobs[id].id == id
    ensures WordIsFinal(jobs, FailedInFlight(jobs, node, keep, error, false, now), node, keep)
  {
  }

  lemma ScheduleLeavesSettled(jobs: JobTable, failed: JobTable, nodes: NodeTable, node: string, keep: string)
    requires WordIsFinal(jobs, failed, node, keep) && failed.Keys == jobs.Keys
    ensures WordIsFinal(jobs, Scheduled(failed, nodes), node, keep)
  {
    var after := Scheduled(failed, nodes);
    assert forall id :: id in after ==> (after[id] == failed[id] || (failed[id].status.Queued? && after[id].status.Pending?));
    assert NewlyFailed(jobs, after) == NewlyFailed(jobs, failed);
    assert forall id :: RunsOn(after, id, node) <==> RunsOn(failed, id, node);
  }

  // ---------------------------------------------------------------- draining

  /** What ends a drain: the node's join, enrolment or leave is granted, or it goes stale at a sweep.
      A call that is refused or lost ends nothing. */
  predicate EndsDrain(e: Event, s: System, node: string) {
    match e
    case WorkerStart(r, _, _) => r.nodeID == node && MayJoin(s.plane, node)
    case InventoryJoin(r, _) => r.nodeID == node && MayJoin(s.plane, node)
    case EnrollCall(n, _, _) => n == node && MayEnroll(s.plane, node)
    case LeaveCall(n, _) => n == node && LeaveGranted(s.plane, node)
    case WorkerQuit(n, _, served) => n == node && served && LeaveGranted(s.plane, node)
    case SweepTick(now) => node in s.plane.nodes && Stale(s.plane.nodes[node], now)
    case _ => false
  }

  predicate IsDraining(p: State, node: string) {
    node in p.nodes && p.nodes[node].status.Draining?
  }

  /** Work in flight on the node only goes away; nothing arrives and nothing pending starts. */
  ghost predicate OnlyShrinks(before: JobTable, after: JobTable, node: string) {
    forall id :: id in after && InFlight(after[id]) && after[id].nodeID == node ==>
      id in before && before[id].status == after[id].status && before[id].nodeID == node
  }

  lemma ScheduleAvoids(jobs: JobTable, nodes: NodeTable, node: string)
    requires KeyedNodes(nodes) && node in nodes && !nodes[node].status.Ready?
    ensures OnlyShrinks(jobs, Scheduled(jobs, nodes), node)
  {
    forall id | id in jobs
      ensures ScheduledJob(jobs[id], nodes) == jobs[id] || ScheduledJob(jobs[id], nodes).nodeID != node
    {
      ChoiceIsBest(nodes, jobs[id]);
    }
  }

  lemma ShrinksTransitive(a: JobTable, b: JobTable, c: JobTable, node: string)
    requires OnlyShrinks(a, b, node) && OnlyShrinks(b, c, node)
    ensures OnlyShrinks(a, c, node)
  {
  }

  lemma FailShrinks(jobs: JobTable, n: string, keep: string, error: string, includePending: bool, now: nat, node: string)
    ensures OnlyShrinks(jobs, FailedInFlight(jobs, n, keep, error, includePending, now), node)
  {
  }

  lemma DrainStepBeat(s: System, e: Event, t: System, node: string)
    requires SysInv(s) && SysInv(t) && e.WorkerBeatServed? && Step(s, e, t) && IsDraining(s.plane, node)
    ensures IsDraining(t.plane, node) && OnlyShrinks(s.plane.jobs, t.plane.jobs, node)
  {
    var p, r := s.plane, e.r;
    WorkerAtOk(s, r.nodeID);
    if Admitted(p, r.nodeID, true) {
      HeardRowFacts(p.nodes[r.nodeID], r, e.now);
      var mid := FailedInFlight(p.jobs, r.nodeID, r.currentJobID, "worker is no longer running this job", false, e.now);
      FailShrinks(p.jobs, r.nodeID, r.currentJobID, "worker is no longer running this job", false, e.now, node);
      ScheduleAvoids(mid, t.plane.nodes, node);
      ShrinksTransitive(p.jobs, mid, Scheduled(mid, t.plane.nodes), node);
    }
  }

  lemma DrainStepJoin(s: System, e: Event, t: System, node: string)
    requires SysInv(s) && SysInv(t) && (e.WorkerStart? || e.InventoryJoin?) && Step(s, e, t)
    requires IsDraining(s.plane, node) && !EndsDrain(e, s, node)
    ensures IsDraining(t.plane, node) && OnlyShrinks(s.plane.jobs, t.plane.jobs, node)
  {
    var p, r := s.plane, e.r;
    if MayJoin(p, r.nodeID) {
      var mid := FailedInFlight(p.jobs, r.nodeID, r.currentJobID, "worker restarted", false, e.now);
      FailShrinks(p.jobs, r.nodeID, r.currentJobID, "worker restarted", false, e.now, node);
      ScheduleAvoids(mid, t.plane.nodes, node);
      ShrinksTransitive(p.jobs, mid, t.plane.jobs, node);
    }
  }

  lemma CompleteShrinks(jobs: JobTable, id: string, res: JobResult, now: nat, node: string)
    requires id in jobs
    ensures OnlyShrinks(jobs, Completed(jobs, id, res.ok, res.result, res.error, now), node)
  {
  }

  lemma DrainStepReport(s: System, e: Event, t: System, node: string)
    requires SysInv(s) && SysInv(t) && e.WorkerReport? && Step(s, e, t) && IsDraining(s.plane, node)
    ensures IsDraining(t.plane, node) && OnlyShrinks(s.plane.jobs, t.plane.jobs, node)
  {
    var p, id := s.plane, WorkerAt(s, e.node).busy;
    if Admitted(p, e.node, true) && id in p.jobs {
      var mid := Completed(p.jobs, id, e.res.ok, e.res.result, e.res.error, e.now);
      CompleteShrinks(p.jobs, id, e.res, e.now, node);
      WorkerAtOk(s, e.node);
      ScheduleAvoids(mid, t.plane.nodes, node);
      ShrinksTransitive(p.jobs, mid, t.plane.jobs, node);
    }
  }

  lemma DrainStepClaim(s: System, e: Event, t: System, node: string)
    requires SysInv(s) && e.WorkerClaim? && Step(s, e, t) && IsDraining(s.plane, node)
    ensures IsDraining(t.plane, node) && OnlyShrinks(s.plane.jobs, t.plane.jobs, node)
    ensures e.node == node ==> e.got.None?
  {
  }

  lemma SweepShrinks(jobs: JobTable, lost: set<string>, error: string, now: nat, node: string)
    ensures OnlyShrinks(jobs, FailedOn(jobs, lost, error, now), node)
  {
  }

  lemma DrainStepSweep(s: System, e: Event, t: System, node: string)
    requires SysInv(s) && e.SweepTick? && Step(s, e, t) && IsDraining(s.plane, node) && !EndsDrain(e, s, node)
    ensures IsDraining(t.plane, node) && OnlyShrinks(s.plane.jobs, t.plane.jobs, node)
  {
    var p := s.plane;
    var mid := FailedOn(p.jobs, StaleIds(p.nodes, e.now), "node heartbeat timeout", e.now);
    SweepShrinks(p.jobs, StaleIds(p.nodes, e.now), "node heartbeat timeout", e.now, node);
    ScheduleAvoids(mid, t.plane.nodes, node);
    ShrinksTransitive(p.jobs, mid, t.plane.jobs, node);
  }

  lemma DrainStepCreate(s: System, e: Event, t: System, node: string)
    requires SysInv(s) && e.CreateCall? && Step(s, e, t) && IsDraining(s.plane, node)
    ensures IsDraining(t.plane, node) && OnlyShrinks(s.plane.jobs, t.plane.jobs, node)
  {
    var p, o := s.plane, e.order;
    var r := NewJob(o.id, o.jobType, o.preferred, o.req, o.payload, e.now);
    if r.Accepted? {
      var mid := p.jobs[o.id := r.job];
      assert OnlyShrinks(p.jobs, mid, node);
      ScheduleAvoids(mid, p.nodes, node);
      ShrinksTransitive(p.jobs, mid, t.plane.jobs, node);
    }
  }

  lemma DrainStepRestart(s: System, e: Event, t: System, node: string)
    requires SysInv(s) && e.PlaneRestart? && Step(s, e, t) && IsDraining(s.plane, node)
    ensures IsDraining(t.plane, node) && OnlyShrinks(s.plane.jobs, t.plane.jobs, node)
  {
    RestartKeeps(s.plane, e.file, e.plane);
  }

  lemma DrainStepOther(s: System, e: Event, t: System, node: string)
    requires SysInv(s) && Step(s, e, t) && IsDraining(s.plane, node) && !EndsDrain(e, s, node)
    requires !(e.WorkerStart? || e.InventoryJoin? || e.WorkerClaim? || e.WorkerBeatServed? || e.WorkerReport?)
    requires !(e.SweepTick? || e.CreateCall? || e.PlaneRestart?)
    ensures IsDraining(t.plane, node) && OnlyShrinks(s.plane.jobs, t.plane.jobs, node)
  {
    if e.WorkerQuit? || e.LeaveCall? {
      FailShrinks(s.plane.jobs, e.node, "", "node left cluster", true, e.now, node);
    }
  }

  lemma DrainStep(s: System, e: Event, t: System, node: string)
    requires SysInv(s) && Step(s, e, t) && IsDraining(s.plane, node) && !EndsDrain(e, s, node)
    ensures IsDraining(t.plane, node) && OnlyShrinks(s.plane.jobs, t.plane.jobs, node)
    ensures e.WorkerClaim? && e.node == node ==> e.got.None?
  {
    hide *;
    StepKeeps(s, e, t);
    match e
    case WorkerStart(_, _, _) => DrainStepJoin(s, e, t, node);
    case InventoryJoin(_, _) => DrainStepJoin(s, e, t, node);
    case WorkerClaim(_, _, _, _) => DrainStepClaim(s, e, t, node);
    case WorkerBeatServed(_, _, _) => DrainStepBeat(s, e, t, node);
    case WorkerReport(_, _, _) => DrainStepReport(s, e, t, node);
    case SweepTick(_) => DrainStepSweep(s, e, t, node);
    case CreateCall(_, _) => DrainStepCreate(s, e, t, node);
    case PlaneRestart(_, _) => DrainStepRestart(s, e, t, node);
    case _ => DrainStepOther(s, e, t, node);
  }

  /** Such an event does end it: the row is JOINED, READY or OFFLINE afterwards, or gone. */
  lemma DrainEnds(s: System, e: Event, t: System, node: string)
    requires Step(s, e, t) && IsDraining(s.plane, node) && EndsDrain(e, s, node)
    ensures !IsDraining(t.plane, node)
  {
  }

  lemma DrainStepIff(s: System, e: Event, t: System, node: string)
    requires SysInv(s) && Step(s, e, t) && IsDraining(s.plane, node)
    ensures IsDraining(t.plane, node) <==> !EndsDrain(e, s, node)
  {
    if EndsDrain(e, s, node) {
      DrainEnds(s, e, t, node);
    } else {
      DrainStep(s, e, t, node);
    }
  }

  ghost predicate DrainKept(before: State, after: State, node: string) {
    IsDraining(before, node) ==> IsDraining(after, node) && OnlyShrinks(before.jobs, after.jobs, node)
  }

  ghost predicate Undisturbed(states: seq<System>, events: seq<Event>, i: nat, j: nat, node: string)
    requires |states| == |events| + 1 && j < |states|
  {
    forall k {:trigger events[k]} :: i <= k < j ==> !EndsDrain(events[k], states[k], node)
  }

  lemma DrainAt(states: seq<System>, events: seq<Event>, i: nat, j: nat, node: string, k: nat)
    requires Run(states, events) && j < |states| && Undisturbed(states, events, i, j, node) && i <= k < j
    ensures DrainKept(states[k].plane, states[k + 1].plane, node)
  {
    if IsDraining(states[k].plane, node) {
      RunInvariant(states, events, k);
      DrainStep(states[k], events[k], states[k + 1], node);
    }
  }

  /** From a drain until one of the events that end it, the node stays DRAINING through every heartbeat
      and report, and its work in flight only shrinks. */
  lemma {:induction false} DrainHolds(states: seq<System>, events: seq<Event>, i: nat, j: nat, node: string)
    requires Run(states, events) && i <= j < |states| && IsDraining(states[i].plane, node)
    requires Undisturbed(states, events, i, j, node)
    ensures IsDraining(states[j].plane, node)
    ensures OnlyShrinks(states[i].plane.jobs, states[j].plane.jobs, node)
  {
    if i < j {
      DrainHolds(states, events, i, j - 1, node);
      DrainAt(states, events, i, j, node, j - 1);
      ShrinksTransitive(states[i].plane.jobs, states[j - 1].plane.jobs, states[j].plane.jobs, node);
    }
  }

  /** A node that is DRAINING stays so through every state up to j exactly when no such event comes before j. */
  lemma DrainHoldsIff(states: seq<System>, events: seq<Event>, i: nat, j: nat, node: string)
    requires Run(states, events) && i <= j < |states| && IsDraining(states[i].plane, node)
    ensures (forall k :: i <= k <= j ==> IsDraining(states[k].plane, node)) <==> Undisturbed(states, events, i, j, node)
  {
    if Undisturbed(states, events, i, j, node) {
      forall k | i <= k <= j
        ensures IsDraining(states[k].plane, node)
      {
        DrainHolds(states, events, i, k, node);
      }
    } else {
      var k :| i <= k < j && EndsDrain(events[k], states[k], node);
      if IsDraining(states[k].plane, node) {
        RunInvariant(states, events, k);
        DrainStepIff(states[k], events[k], states[k + 1], node);
      }
    }
  }

  /** Meanwhile the node is handed no job. */
  lemma DrainRefusesClaims(states: seq<System>, events: seq<Event>, i: nat, j: nat, node: string)
    requires Run(states, events) && i <= j < |events| && IsDraining(states[i].plane, node)
    requires Undisturbed(states, events, i, j, node)
    requires events[j].WorkerClaim? && events[j].node == node
    ensures events[j].got.None?
  {
    DrainHolds(states, events, i, j, node);
    RunInvariant(states, events, j);
    DrainStepClaim(states[j], events[j], states[j + 1], node);
  }
}
