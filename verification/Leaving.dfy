/** When a leave can take a running job down with it, and when it cannot. */
module Leaving {
  import opened Resources
  import opened Jobs
  import opened Nodes
  import opened Scheduler
  import opened Plane
  import opened PlaneInvariant
  import opened Protocol
  import opened Runs

  /** The plane knows what runs on the node: only its current job. */
  ghost predicate Sighted(p: State, node: string) {
    node in p.nodes ==> RunsAtMost(p.jobs, node, p.nodes[node].currentJobID)
  }

  /** Draining twice makes the plane forget the job: the second drain of a busy node lets a leave through
      that fails the running job, which the first drain alone would have refused. */
  lemma DrainTwiceLosesTheJob(job: Job, node: Node, now: nat)
    requires job.id == "j" && job.status.Running? && job.nodeID == "n"
    requires node.nodeID == "n" && node.status.Busy? && node.currentJobID == "j" && !node.identity.Revoked?
    ensures var p := State(map["j" := job], map["n" := node]);
            var once := AfterDrain(p, "n", now);
            var twice := AfterDrain(once, "n", now);
            && Inv(p) && !LeaveGranted(once, "n") && LeaveGranted(twice, "n")
            && AfterLeave(twice, "n", now).jobs["j"].status.Failed?
  {
  }

  /** Re-enrolling a revoked node while it works leaves it JOINED, and a JOINED node may leave at any time. */
  lemma JoinedNodeLeavesWhileRunning(job: Job, node: Node, serial: string, now: nat)
    requires job.id == "j" && job.status.Running? && job.nodeID == "n"
    requires node.nodeID == "n" && node.status.Busy? && node.currentJobID == "j" && node.identity.Revoked?
    ensures var p := State(map["j" := job], map["n" := node]);
            var enrolled := AfterEnroll(p, "n", serial, now);
            && Inv(p) && MayEnroll(p, "n") && LeaveGranted(enrolled, "n")
            && AfterLeave(enrolled, "n", now).jobs["j"].status.Failed?
  {
  }

  // ---------------------------------------------------------------- what takes sight away, what gives it back

  /** A served drain that finds the node other than BUSY while something runs on it. */
  ghost predicate Blinds(e: Event, s: System, node: string) {
    && (e.DrainCall? || (e.WorkerInterrupted? && e.served)) && e.node == node
    && Admitted(s.plane, node, true) && !s.plane.nodes[node].status.Busy? && !Idle(s.plane.jobs, node)
  }

  /** The node's own word reaches the plane: a heartbeat, a join or a result. */
  predicate Speaks(e: Event, s: System, node: string) {
    || (e.WorkerBeatServed? && e.r.nodeID == node && Admitted(s.plane, node, true))
    || ((e.WorkerStart? || e.InventoryJoin?) && e.r.nodeID == node && MayJoin(s.plane, node))
    || (e.WorkerReport? && e.node == node && Admitted(s.plane, node, true))
  }

  /** The node goes out of service: stale at a sweep, or its leave is granted. */
  predicate GoesAway(e: Event, s: System, node: string) {
    || (e.SweepTick? && node in s.plane.nodes && Stale(s.plane.nodes[node], e.now))
    || ((e.LeaveCall? || (e.WorkerQuit? && e.served)) && e.node == node && LeaveGranted(s.plane, node))
  }

  /** After i events: has a drain blinded the plane to the node, with no word of the node and no going
      away of it since? */
  ghost predicate Blind(states: seq<System>, events: seq<Event>, i: nat, node: string)
    requires |states| == |events| + 1 && i < |states|
  {
    i > 0 &&
    (Blinds(events[i - 1], states[i - 1], node) ||
     (Blind(states, events, i - 1, node) && !Speaks(events[i - 1], states[i - 1], node) && !GoesAway(events[i - 1], states[i - 1], node)))
  }

  lemma UnregisteredIsIdle(p: State, node: string)
    requires Inv(p) && (node in p.nodes ==> p.nodes[node].status.Offline? || p.nodes[node].status.Ready?)
    ensures Idle(p.jobs, node)
  {
    forall id ensures !RunsOn(p.jobs, id, node) {
      assert RunsOn(p.jobs, id, node) ==> WellSited(id, p.jobs[id], p.nodes);
    }
  }

  lemma SightAfterWord(s: System, e: Event, t: System, node: string)
    requires SysInv(s) && Step(s, e, t) && Speaks(e, s, node)
    ensures Sighted(t.plane, node)
  {
    if e.WorkerBeatServed? {
      WorkerAtOk(s, node);
      HeartbeatKeeps(s.plane, e.r, e.now);
      HeardRowFacts(s.plane.nodes[node], e.r, e.now);
      if e.r.currentJobID == "" {
        assert Idle(t.plane.jobs, node);
      }
    } else if e.WorkerReport? {
      WorkerAtOk(s, node);
      ResultKeeps(s.plane, node, WorkerAt(s, node).busy, e.res.(nodeID := node), e.now);
    } else {
      JoinKeeps(s.plane, e.r, e.now);
    }
  }

  lemma SightAfterGoing(s: System, e: Event, t: System, node: string)
    requires SysInv(s) && Step(s, e, t) && GoesAway(e, s, node)
    ensures Sighted(t.plane, node)
  {
    if e.SweepTick? {
      SweepKeeps(s.plane, e.now);
      UnregisteredIsIdle(t.plane, node);
    }
  }

  // ---------------------------------------------------------------- every other event leaves sight as it is

  /** What runs on the node and what the plane takes to be its current job are as before. */
  ghost predicate SameOn(p: State, q: State, node: string) {
    && (forall id :: RunsOn(p.jobs, id, node) <==> RunsOn(q.jobs, id, node))
    && (node in p.nodes && node in q.nodes ==> p.nodes[node].currentJobID == q.nodes[node].currentJobID)
  }

  lemma SightStays(p: State, q: State, node: string)
    requires Inv(p) && Inv(q) && SameOn(p, q, node)
    ensures Sighted(p, node) <==> Sighted(q, node)
  {
    if node !in p.nodes {
      UnregisteredIsIdle(p, node);
    }
    if node !in q.nodes {
      UnregisteredIsIdle(q, node);
    }
  }

  /** A pass leaves running jobs alone. */
  lemma PassRuns(jobs: JobTable, nodes: NodeTable, node: string)
    requires KeyedNodes(nodes)
    ensures forall id :: RunsOn(Scheduled(jobs, nodes), id, node) <==> RunsOn(jobs, id, node)
  {
    PassMovesEach(jobs, nodes);
  }

  lemma FailRuns(jobs: JobTable, n: string, keep: string, error: string, includePending: bool, now: nat, node: string)
    requires n != node
    ensures forall id :: RunsOn(FailedInFlight(jobs, n, keep, error, includePending, now), id, node) <==> RunsOn(jobs, id, node)
  {
  }

  lemma OthersBeat(s: System, e: Event, t: System, node: string)
    requires SysInv(s) && SysInv(t) && Step(s, e, t) && e.WorkerBeatServed? && !Speaks(e, s, node)
    ensures SameOn(s.plane, t.plane, node)
  {
    if Admitted(s.plane, e.r.nodeID, true) {
      var error := "worker is no longer running this job";
      FailRuns(s.plane.jobs, e.r.nodeID, e.r.currentJobID, error, false, e.now, node);
      PassRuns(FailedInFlight(s.plane.jobs, e.r.nodeID, e.r.currentJobID, error, false, e.now), t.plane.nodes, node);
    }
  }

  lemma OthersJoin(s: System, e: Event, t: System, node: string)
    requires SysInv(s) && SysInv(t) && Step(s, e, t) && (e.WorkerStart? || e.InventoryJoin?) && !Speaks(e, s, node)
    ensures SameOn(s.plane, t.plane, node)
  {
    if MayJoin(s.plane, e.r.nodeID) {
      FailRuns(s.plane.jobs, e.r.nodeID, e.r.currentJobID, "worker restarted", false, e.now, node);
      PassRuns(FailedInFlight(s.plane.jobs, e.r.nodeID, e.r.currentJobID, "worker restarted", false, e.now), t.plane.nodes, node);
    }
  }

  lemma OthersReport(s: System, e: Event, t: System, node: string)
    requires SysInv(s) && SysInv(t) && Step(s, e, t) && e.WorkerReport? && !Speaks(e, s, node)
    ensures SameOn(s.plane, t.plane, node)
  {
    WorkerAtOk(s, e.node);
    if Admitted(s.plane, e.node, true) {
      var id := WorkerAt(s, e.node).busy;
      PassRuns(Completed(s.plane.jobs, id, e.res.ok, e.res.result, e.res.error, e.now), t.plane.nodes, node);
    }
  }

  lemma ClaimSight(s: System, e: Event, t: System, node: string)
    requires SysInv(s) && SysInv(t) && Step(s, e, t) && e.WorkerClaim?
    ensures Sighted(s.plane, node) <==> Sighted(t.plane, node)
  {
    if e.node == node && e.got.Some? {
      UnregisteredIsIdle(s.plane, node);
      ClaimKeeps(s.plane, e.node, e.now, e.got, t.plane);
    } else {
      SightStays(s.plane, t.plane, node);
    }
  }

  lemma SweepSight(s: System, e: Event, t: System, node: string)
    requires SysInv(s) && SysInv(t) && Step(s, e, t) && e.SweepTick? && !GoesAway(e, s, node)
    ensures SameOn(s.plane, t.plane, node)
  {
    var lost := StaleIds(s.plane.nodes, e.now);
    SweepRuns(s.plane.jobs, lost, e.now, node);
    PassRuns(FailedOn(s.plane.jobs, lost, "node heartbeat timeout", e.now), t.plane.nodes, node);
  }

  lemma SweepRuns(jobs: JobTable, lost: set<string>, now: nat, node: string)
    requires node !in lost
    ensures forall id :: RunsOn(FailedOn(jobs, lost, "node heartbeat timeout", now), id, node) <==> RunsOn(jobs, id, node)
  {
  }

  lemma CreateSight(s: System, e: Event, t: System, node: string)
    requires SysInv(s) && Step(s, e, t) && e.CreateCall?
    ensures SameOn(s.plane, t.plane, node)
  {
    var o := e.order;
    var r := NewJob(o.id, o.jobType, o.preferred, o.req, o.payload, e.now);
    if r.Accepted? {
      PassRuns(s.plane.jobs[o.id := r.job], s.plane.nodes, node);
    }
  }

  lemma LeaveSight(s: System, e: Event, t: System, node: string)
    requires SysInv(s) && Step(s, e, t) && (e.LeaveCall? || e.WorkerQuit?) && !GoesAway(e, s, node)
    ensures SameOn(s.plane, t.plane, node)
  {
    if e.node != node {
      FailRuns(s.plane.jobs, e.node, "", "node left cluster", true, e.now, node);
    }
  }

  /** A drain keeps what runs in sight exactly when it finds the node BUSY or finds nothing running. */
  lemma DrainKeepsSightIff(p: State, node: string, now: nat)
    requires Inv(p) && node in p.nodes && Sighted(p, node)
    ensures Sighted(AfterDrain(p, node, now), node) <==> p.nodes[node].status.Busy? || Idle(p.jobs, node)
  {
    assert forall id :: RunsOn(p.jobs, id, node) ==> id != "";
  }

  /** A served drain of this very node: sighted afterwards exactly when it was and the drain does not blind. */
  lemma DrainSight(s: System, e: Event, t: System, node: string)
    requires SysInv(s) && Step(s, e, t) && (e.DrainCall? || e.WorkerInterrupted?)
    ensures Sighted(t.plane, node) <==> Sighted(s.plane, node) && !Blinds(e, s, node)
  {
    var p := s.plane;
    if (e.DrainCall? || e.served) && e.node == node && Admitted(p, node, true) && !p.nodes[node].status.Busy? {
      assert forall id :: RunsOn(p.jobs, id, node) ==> id != "";
      if Sighted(p, node) {
        DrainKeepsSightIff(p, node, e.now);
      }
    } else if e.node == node && node in p.nodes && p.nodes[node].status.Busy? {
      BusyIsSighted(p, node);
    }
  }

  lemma BusyIsSighted(p: State, node: string)
    requires Inv(p) && node in p.nodes && p.nodes[node].status.Busy?
    ensures Sighted(p, node)
  {
    forall id | RunsOn(p.jobs, id, node)
      ensures id == p.nodes[node].currentJobID
    {
      assert WellSited(id, p.jobs[id], p.nodes);
    }
  }

  lemma OtherSight(s: System, e: Event, t: System, node: string)
    requires SysInv(s) && Step(s, e, t)
    requires e.WorkerCompose? || e.WorkerBeatLost? || e.WorkerForget? || e.WorkerCrash? || e.EnrollCall? || e.RenewCall? || e.IdentityCall? || e.PlaneRestart?
    ensures SameOn(s.plane, t.plane, node)
  {
    if e.PlaneRestart? {
      RestartKeeps(s.plane, e.file, e.plane);
    }
  }

  /** The events that leave sight as it is. */
  lemma SightUntouched(s: System, e: Event, t: System, node: string)
    requires SysInv(s) && SysInv(t) && Step(s, e, t) && !Speaks(e, s, node) && !GoesAway(e, s, node)
    requires !(e.DrainCall? || e.WorkerInterrupted? || e.WorkerClaim?)
    ensures SameOn(s.plane, t.plane, node)
  {
    if e.WorkerBeatServed? {
      OthersBeat(s, e, t, node);
    } else if e.WorkerStart? || e.InventoryJoin? {
      OthersJoin(s, e, t, node);
    } else if e.WorkerReport? {
      OthersReport(s, e, t, node);
    } else if e.SweepTick? {
      SweepSight(s, e, t, node);
    } else if e.CreateCall? {
      CreateSight(s, e, t, node);
    } else if e.LeaveCall? || e.WorkerQuit? {
      LeaveSight(s, e, t, node);
    } else {
      OtherSight(s, e, t, node);
    }
  }

  /** One step: sight is given back by the node's word or its going away, taken by a blinding drain, and
      otherwise stays as it was. */
  lemma SightStep(s: System, e: Event, t: System, node: string)
    requires SysInv(s) && SysInv(t) && Step(s, e, t)
    ensures Sighted(t.plane, node) <==>
            Speaks(e, s, node) || GoesAway(e, s, node) || (Sighted(s.plane, node) && !Blinds(e, s, node))
  {
    if Speaks(e, s, node) {
      SightAfterWord(s, e, t, node);
    } else if GoesAway(e, s, node) {
      SightAfterGoing(s, e, t, node);
    } else if e.DrainCall? || e.WorkerInterrupted? {
      DrainSight(s, e, t, node);
    } else if e.WorkerClaim? {
      ClaimSight(s, e, t, node);
    } else {
      SightUntouched(s, e, t, node);
      SightStays(s.plane, t.plane, node);
    }
  }

  /** In every run the plane has lost sight of what runs on a node exactly when a drain found the node
      other than BUSY while something ran there, and the node has neither spoken nor gone since. */
  lemma {:induction false} SightInRuns(states: seq<System>, events: seq<Event>, i: nat, node: string)
    requires Run(states, events) && i < |states|
    ensures Sighted(states[i].plane, node) <==> !Blind(states, events, i, node)
  {
    if i > 0 {
      RunInvariant(states, events, i - 1);
      RunInvariant(states, events, i);
      SightInRuns(states, events, i - 1, node);
      SightStep(states[i - 1], events[i - 1], states[i], node);
      SpeakingIsNoDrain(events[i - 1], states[i - 1], node);
    }
  }

  lemma SpeakingIsNoDrain(e: Event, s: System, node: string)
    ensures Blinds(e, s, node) ==> !Speaks(e, s, node) && !GoesAway(e, s, node)
  {
  }

  // ---------------------------------------------------------------- the statuses that occur

  predicate IsKnown(st: Status) {
    st.Joined? || st.Ready? || st.Busy? || st.Draining? || st.Offline?
  }

  ghost predicate KnownStatuses(nodes: NodeTable) {
    forall n :: n in nodes ==> IsKnown(nodes[n].status)
  }

  lemma KnownAfterJoin(s: System, e: Event, t: System)
    requires SysInv(s) && Step(s, e, t) && KnownStatuses(s.plane.nodes)
    requires e.WorkerStart? || e.InventoryJoin?
    ensures KnownStatuses(t.plane.nodes)
  {
  }

  lemma KnownAfterBeat(s: System, e: Event, t: System)
    requires SysInv(s) && Step(s, e, t) && KnownStatuses(s.plane.nodes) && e.WorkerBeatServed?
    ensures KnownStatuses(t.plane.nodes)
  {
    WorkerAtOk(s, e.r.nodeID);
    if Admitted(s.plane, e.r.nodeID, true) {
      HeardStatus(s.plane.nodes[e.r.nodeID], e.r, e.now);
    }
  }

  lemma HeardStatus(row: Node, r: Report, now: nat)
    requires IsKnown(row.status) && IsKnown(r.status)
    ensures IsKnown(HeardRow(row, r, now).status)
  {
  }

  lemma KnownAfterWork(s: System, e: Event, t: System)
    requires Step(s, e, t) && KnownStatuses(s.plane.nodes) && (e.WorkerClaim? || e.WorkerReport? || e.SweepTick? || e.PlaneRestart?)
    ensures KnownStatuses(t.plane.nodes)
  {
  }

  lemma KnownAfterCall(s: System, e: Event, t: System)
    requires Step(s, e, t) && KnownStatuses(s.plane.nodes)
    requires !(e.WorkerStart? || e.InventoryJoin? || e.WorkerBeatServed? || e.WorkerClaim? || e.WorkerReport? || e.SweepTick? || e.PlaneRestart?)
    ensures KnownStatuses(t.plane.nodes)
  {
  }

  /** In every run a node is JOINED, READY, BUSY, DRAINING or OFFLINE. */
  lemma {:induction false} StatusesOfRuns(states: seq<System>, events: seq<Event>, i: nat)
    requires Run(states, events) && i < |states|
    ensures KnownStatuses(states[i].plane.nodes)
  {
    if i > 0 {
      RunInvariant(states, events, i - 1);
      StatusesOfRuns(states, events, i - 1);
      var s, e, t := states[i - 1], events[i - 1], states[i];
      assert Step(s, e, t);
      if e.WorkerStart? || e.InventoryJoin? {
        KnownAfterJoin(s, e, t);
      } else if e.WorkerBeatServed? {
        KnownAfterBeat(s, e, t);
      } else if e.WorkerClaim? || e.WorkerReport? || e.SweepTick? || e.PlaneRestart? {
        KnownAfterWork(s, e, t);
      } else {
        KnownAfterCall(s, e, t);
      }
    }
  }

  /** A drain that blinds the plane is a repeated one, or one of a node that has only enrolled. */
  lemma BlindingDrains(states: seq<System>, events: seq<Event>, i: nat, node: string)
    requires Run(states, events) && i < |events| && Blinds(events[i], states[i], node)
    ensures states[i].plane.nodes[node].status.Draining? || states[i].plane.nodes[node].status.Joined?
  {
    RunInvariant(states, events, i);
    StatusesOfRuns(states, events, i);
    var p := states[i].plane;
    if p.nodes[node].status.Ready? || p.nodes[node].status.Offline? {
      UnregisteredIsIdle(p, node);
    }
  }

  /** A leave at this point fails only jobs that were still pending. */
  ghost predicate SparesRunning(p: State, node: string, now: nat) {
    forall id :: id in p.jobs && AfterLeave(p, node, now).jobs[id] != p.jobs[id] ==> PendsOn(p.jobs, id, node)
  }

  lemma SparesRunningIff(p: State, node: string, now: nat)
    requires WellFormed(p.jobs)
    ensures SparesRunning(p, node, now) <==> Idle(p.jobs, node)
  {
    var after := AfterLeave(p, node, now).jobs;
    forall id | RunsOn(p.jobs, id, node)
      ensures after[id] != p.jobs[id] && !PendsOn(p.jobs, id, node)
    {
      assert after[id].status.Failed?;
    }
    assert forall id :: id in p.jobs && after[id] != p.jobs[id] ==> RunsOn(p.jobs, id, node) || PendsOn(p.jobs, id, node);
  }

  /** In every run, a leave that is granted fails only jobs that were still pending exactly when no drain
      has blinded the plane to the node and the node is not JOINED with its current job running. */
  lemma LeaveFailsOnlyPending(states: seq<System>, events: seq<Event>, i: nat, node: string, now: nat)
    requires Run(states, events) && i < |states| && LeaveGranted(states[i].plane, node)
    ensures var p := states[i].plane; var row := p.nodes[node];
            SparesRunning(p, node, now) <==>
            !Blind(states, events, i, node) && !(row.status.Joined? && RunsOn(p.jobs, row.currentJobID, node))
  {
    SightInRuns(states, events, i, node);
    RunInvariant(states, events, i);
    StatusesOfRuns(states, events, i);
    SparesRunningIff(states[i].plane, node, now);
    GrantedLeave(states[i].plane, node);
  }

  lemma GrantedLeave(p: State, node: string)
    requires Inv(p) && LeaveGranted(p, node) && IsKnown(p.nodes[node].status)
    ensures var row := p.nodes[node];
            Idle(p.jobs, node) <==> Sighted(p, node) && !(row.status.Joined? && RunsOn(p.jobs, row.currentJobID, node))
  {
    var row := p.nodes[node];
    if row.status.Ready? || row.status.Offline? {
      UnregisteredIsIdle(p, node);
    }
    assert forall id :: RunsOn(p.jobs, id, node) ==> id != "";
  }
}
