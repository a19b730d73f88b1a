/** Who is heard in time stays in the pool: last words, sweeps, and what a sweep may not touch. */
module Liveness {
  import opened ModelIdentity
  import opened Resources
  import opened Jobs
  import opened Plane
  import opened PlaneInvariant
  import opened Protocol
  import opened Runs

  /** Twenty seconds. */
  const GRACE: nat := 20_000_000_000

  /** The instant at which an event shows the plane that the node is there, if it does: a call of the node
      that is let in, or an operator's on its behalf. */
  function Word(e: Event, s: System, node: string): Option<nat> {
    match e
    case WorkerStart(r, now, _) => if r.nodeID == node && MayJoin(s.plane, node) then Some(now) else None
    case InventoryJoin(r, now) => if r.nodeID == node && MayJoin(s.plane, node) then Some(now) else None
    case WorkerBeatServed(r, now, _) => if r.nodeID == node && Admitted(s.plane, node, true) then Some(now) else None
    case WorkerClaim(n, now, got, _) => if n == node && got.Some? then Some(now) else None
    case WorkerReport(n, _, now) => if n == node && Admitted(s.plane, node, true) then Some(now) else None
    case WorkerInterrupted(n, now, served) => if n == node && served && Admitted(s.plane, node, true) then Some(now) else None
    case DrainCall(n, now) => if n == node && Admitted(s.plane, node, true) then Some(now) else None
    case EnrollCall(n, _, now) => if n == node && MayEnroll(s.plane, node) then Some(now) else None
    case RenewCall(n, _, now) => if n == node && Admitted(s.plane, node, true) then Some(now) else None
    case _ => None
  }

  /** The node's last word before state i. */
  function LastWord(states: seq<System>, events: seq<Event>, i: nat, node: string): nat
    requires |states| == |events| + 1 && i < |states|
  {
    if i == 0 then 0
    else
      var w := Word(events[i - 1], states[i - 1], node);
      if w.Some? then w.value else LastWord(states, events, i - 1, node)
  }

  /** After the step the row, if there is one, shows the word or what it showed before. */
  ghost predicate SeenNow(s: System, e: Event, t: System, node: string) {
    node in t.plane.nodes ==>
      var w := Word(e, s, node);
      if w.Some? then t.plane.nodes[node].lastSeen == w.value
      else node in s.plane.nodes && t.plane.nodes[node].lastSeen == s.plane.nodes[node].lastSeen
  }

  lemma SeenAfterReport(s: System, e: Event, t: System, node: string)
    requires SysInv(s) && Step(s, e, t) && e.WorkerReport?
    ensures SeenNow(s, e, t, node)
  {
    WorkerAtOk(s, e.node);
  }

  lemma SeenAfterWord(s: System, e: Event, t: System, node: string)
    requires Step(s, e, t) && (e.WorkerStart? || e.InventoryJoin? || e.WorkerBeatServed?)
    ensures SeenNow(s, e, t, node)
  {
  }

  lemma SeenAfterCall(s: System, e: Event, t: System, node: string)
    requires Step(s, e, t) && (e.WorkerClaim? || e.WorkerInterrupted? || e.DrainCall? || e.EnrollCall? || e.RenewCall?)
    ensures SeenNow(s, e, t, node)
  {
  }

  lemma SeenAfterOther(s: System, e: Event, t: System, node: string)
    requires SysInv(s) && Step(s, e, t)
    requires !(e.WorkerReport? || e.WorkerStart? || e.InventoryJoin? || e.WorkerBeatServed?)
    requires !(e.WorkerClaim? || e.WorkerInterrupted? || e.DrainCall? || e.EnrollCall? || e.RenewCall?)
    ensures SeenNow(s, e, t, node)
  {
    if e.PlaneRestart? {
      RestartKeeps(s.plane, e.file, e.plane);
    }
  }

  lemma SeenStep(s: System, e: Event, t: System, node: string)
    requires SysInv(s) && Step(s, e, t)
    ensures SeenNow(s, e, t, node)
  {
    hide *;
    if e.WorkerReport? {
      SeenAfterReport(s, e, t, node);
    } else if e.WorkerStart? || e.InventoryJoin? || e.WorkerBeatServed? {
      SeenAfterWord(s, e, t, node);
    } else if e.WorkerClaim? || e.WorkerInterrupted? || e.DrainCall? || e.EnrollCall? || e.RenewCall? {
      SeenAfterCall(s, e, t, node);
    } else {
      SeenAfterOther(s, e, t, node);
    }
  }

  /** In every run a registered node was last seen at its last word. */
  lemma {:induction false} LastSeenInRuns(states: seq<System>, events: seq<Event>, i: nat, node: string)
    requires Run(states, events) && i < |states| && node in states[i].plane.nodes
    ensures states[i].plane.nodes[node].lastSeen == LastWord(states, events, i, node)
  {
    if i > 0 {
      RunInvariant(states, events, i - 1);
      SeenStep(states[i - 1], events[i - 1], states[i], node);
      if Word(events[i - 1], states[i - 1], node).None? {
        LastSeenInRuns(states, events, i - 1, node);
      }
    }
  }

  // ---------------------------------------------------------------- sweeps

  /** The node's row and its jobs in flight are as they were. */
  ghost predicate Untouched(p: State, q: State, node: string) {
    && node in p.nodes && node in q.nodes && q.nodes[node] == p.nodes[node]
    && forall id :: id in p.jobs && InFlight(p.jobs[id]) && p.jobs[id].nodeID == node ==> id in q.jobs && q.jobs[id] == p.jobs[id]
  }

  /** The node is OFFLINE, and what it had in flight has failed for want of a heartbeat. */
  ghost predicate TakenOffline(p: State, q: State, node: string, now: nat) {
    && node in q.nodes && q.nodes[node].status.Offline? && q.nodes[node].currentJobID == ""
    && forall id :: id in p.jobs && InFlight(p.jobs[id]) && p.jobs[id].nodeID == node ==>
         id in q.jobs && q.jobs[id].status.Failed? && q.jobs[id].error == "node heartbeat timeout" && q.jobs[id].finishedAt == now
  }

  /** A sweep takes exactly the agents silent for more than twenty seconds, with all they had in flight. */
  lemma SweepTakesTheSilent(p: State, node: string, now: nat)
    requires node in p.nodes
    ensures var row := p.nodes[node];
            if row.agentVersion != "" && row.status != Offline && now > row.lastSeen + GRACE
            then TakenOffline(p, AfterSweep(p, now), node, now) else Untouched(p, AfterSweep(p, now), node)
  {
  }

  /** A node that has just sent a heartbeat is safe from sweeps for twenty seconds. */
  lemma HeardThenSpared(p: State, r: Report, now: nat, sweep: nat)
    requires r.nodeID in p.nodes && sweep <= now + GRACE
    ensures Untouched(AfterHeartbeat(p, r, now), AfterSweep(AfterHeartbeat(p, r, now), sweep), r.nodeID)
  {
    SweepTakesTheSilent(AfterHeartbeat(p, r, now), r.nodeID, sweep);
  }

  /** The same for one that has just joined. */
  lemma JoinedThenSpared(p: State, r: Report, now: nat, sweep: nat)
    requires sweep <= now + GRACE
    ensures Untouched(AfterJoin(p, r, now), AfterSweep(AfterJoin(p, r, now), sweep), r.nodeID)
  {
    SweepTakesTheSilent(AfterJoin(p, r, now), r.nodeID, sweep);
  }

  /** In every run a sweep takes an agent that is not OFFLINE yet exactly when its last word is more than
      twenty seconds old, and otherwise leaves its row and its work alone. */
  lemma SweepsInRuns(states: seq<System>, events: seq<Event>, i: nat, node: string)
    requires Run(states, events) && i < |events| && events[i].SweepTick? && node in states[i].plane.nodes
    ensures var p, q := states[i].plane, states[i + 1].plane; var row := p.nodes[node];
            if row.agentVersion != "" && row.status != Offline && events[i].now > LastWord(states, events, i, node) + GRACE
            then TakenOffline(p, q, node, events[i].now) else Untouched(p, q, node)
  {
    assert Step(states[i], events[i], states[i + 1]);
    LastSeenInRuns(states, events, i, node);
    SweepTakesTheSilent(states[i].plane, node, events[i].now);
  }

  // ---------------------------------------------------------------- staying in the pool

  predicate InPool(p: State, node: string) {
    node in p.nodes && p.nodes[node].status != Offline
  }

  /** What takes a node out of the pool: a sweep that finds it silent, or its leave. */
  predicate TakesOut(e: Event, s: System, node: string) {
    match e
    case SweepTick(now) => node in s.plane.nodes && s.plane.nodes[node].agentVersion != "" && now > s.plane.nodes[node].lastSeen + GRACE
    case LeaveCall(n, _) => n == node && LeaveGranted(s.plane, node)
    case WorkerQuit(n, _, served) => n == node && served && LeaveGranted(s.plane, node)
    case _ => false
  }

  lemma PoolAfterBeat(s: System, e: Event, t: System, node: string)
    requires SysInv(s) && Step(s, e, t) && e.WorkerBeatServed? && InPool(s.plane, node)
    ensures InPool(t.plane, node)
  {
    WorkerAtOk(s, e.r.nodeID);
    if Admitted(s.plane, e.r.nodeID, true) {
      HeardRowFacts(s.plane.nodes[e.r.nodeID], e.r, e.now);
    }
  }

  lemma PoolAfterWork(s: System, e: Event, t: System, node: string)
    requires SysInv(s) && Step(s, e, t) && InPool(s.plane, node)
    requires e.WorkerStart? || e.InventoryJoin? || e.WorkerReport? || e.PlaneRestart? || e.EnrollCall? || e.RenewCall?
    ensures InPool(t.plane, node)
  {
    if e.PlaneRestart? {
      RestartKeeps(s.plane, e.file, e.plane);
    }
  }

  lemma PoolAfterOther(s: System, e: Event, t: System, node: string)
    requires SysInv(s) && Step(s, e, t) && InPool(s.plane, node)
    requires !(e.WorkerBeatServed? || e.WorkerStart? || e.InventoryJoin? || e.WorkerReport? || e.PlaneRestart? || e.EnrollCall? || e.RenewCall?)
    ensures InPool(t.plane, node) <==> !TakesOut(e, s, node)
  {
  }

  lemma PoolStepIff(s: System, e: Event, t: System, node: string)
    requires SysInv(s) && Step(s, e, t) && InPool(s.plane, node)
    ensures InPool(t.plane, node) <==> !TakesOut(e, s, node)
  {
    if e.WorkerBeatServed? {
      PoolAfterBeat(s, e, t, node);
    } else if e.WorkerStart? || e.InventoryJoin? || e.WorkerReport? || e.PlaneRestart? || e.EnrollCall? || e.RenewCall? {
      PoolAfterWork(s, e, t, node);
    } else {
      PoolAfterOther(s, e, t, node);
    }
  }

  /** From i to j the node is never left without a word for more than twenty seconds before a sweep, and is
      not granted leave. */
  ghost predicate KeepsTalking(states: seq<System>, events: seq<Event>, i: nat, j: nat, node: string)
    requires |states| == |events| + 1 && j < |states|
  {
    forall k {:trigger events[k]} :: i <= k < j ==>
      && (events[k].SweepTick? ==> events[k].now <= LastWord(states, events, k, node) + GRACE)
      && (events[k].LeaveCall? || (events[k].WorkerQuit? && events[k].served) ==>
            events[k].node != node || !LeaveGranted(states[k].plane, node))
  }

  lemma TalkingKeepsIn(states: seq<System>, events: seq<Event>, i: nat, k: nat, node: string)
    requires |states| == |events| + 1 && i <= k < |events| && KeepsTalking(states, events, i, k + 1, node)
    requires node in states[k].plane.nodes && states[k].plane.nodes[node].lastSeen == LastWord(states, events, k, node)
    ensures !TakesOut(events[k], states[k], node)
  {
    hide LastWord;
  }

  lemma TalkingBefore(states: seq<System>, events: seq<Event>, i: nat, k: nat, node: string)
    requires |states| == |events| + 1 && k < |events| && KeepsTalking(states, events, i, k + 1, node)
    ensures KeepsTalking(states, events, i, k, node)
  {
    hide LastWord;
  }

  lemma PoolStepAt(states: seq<System>, events: seq<Event>, i: nat, k: nat, node: string)
    requires Run(states, events) && i <= k < |events| && KeepsTalking(states, events, i, k + 1, node) && InPool(states[k].plane, node)
    ensures InPool(states[k + 1].plane, node)
  {
    hide KeepsTalking, LastWord, SysInv, TakesOut, Step;
    RunInvariant(states, events, k);
    LastSeenInRuns(states, events, k, node);
    TalkingKeepsIn(states, events, i, k, node);
    PoolStepIff(states[k], events[k], states[k + 1], node);
  }

  /** Such a node stays in the pool, whatever else happens to it. */
  lemma {:induction false} TalkersStay(states: seq<System>, events: seq<Event>, i: nat, j: nat, node: string)
    requires Run(states, events) && i <= j < |states| && InPool(states[i].plane, node)
    requires KeepsTalking(states, events, i, j, node)
    ensures InPool(states[j].plane, node)
    decreases j
  {
    hide Step, KeepsTalking, LastWord, InPool;
    if i < j {
      TalkingBefore(states, events, i, j - 1, node);
      TalkersStay(states, events, i, j - 1, node);
      PoolStepAt(states, events, i, j - 1, node);
    }
  }
}
