/** What each call leaves in the registry, field by field, and whom it lets in. */
module RowFacts {
  import opened Gpu
  import opened ModelIdentity
  import opened Resources
  import opened Jobs
  import opened Nodes
  import opened Plane
  import opened PlaneInvariant
  import opened Agent
  import opened Protocol

  // ---------------------------------------------------------------- reports

  /** Card i of a report as the profile shows it. */
  predicate ShowsCard(p: ResourceProfile, g: GPU, i: nat) {
    && i < |p.staticGPUs| && i < |p.dynamicGPUs|
    && var st, d := p.staticGPUs[i], p.dynamicGPUs[i];
       && st.id == d.id == (if g.id != "" then g.id else g.uuid) && st.uuid == g.uuid && st.pciBusID == g.pciBusID
       && st.vendor == g.vendor && st.name == g.name && st.computeCapability == g.computeCapability
       && st.memoryTotal == g.memoryTotal && d.memoryUsed == g.memoryUsed
       && (if g.memoryUsed <= g.memoryTotal then d.memoryAvailable + d.memoryUsed == st.memoryTotal else d.memoryAvailable == 0)
       && d.utilization == g.utilization && d.utilizationMemory == g.utilizationMemory
  }

  /** The profile made from a report: its cores, its cards, and whether the node is at work. */
  predicate ProfileShows(p: ResourceProfile, r: Report, working: bool) {
    && p.cpuCores == r.cpuCores && p.activeJobs == (if working then 1 else 0)
    && |p.staticGPUs| == |p.dynamicGPUs| == |r.gpus| && forall i :: 0 <= i < |r.gpus| ==> ShowsCard(p, r.gpus[i], i)
  }

  /** What a report leaves blank stays as it was; what it fills in takes its place. */
  predicate ReportComesThrough(was: Node, r: Report, row: Node) {
    && row.nodeID == r.nodeID && row.gpus == r.gpus
    && row.agentVersion == (if r.agentVersion != "" then r.agentVersion else was.agentVersion)
    && row.modelRuntimes == (if r.modelRuntimes != [] then r.modelRuntimes else was.modelRuntimes)
    && row.models == (if r.models != None then r.models else was.models)
    && row.joinedAt == was.joinedAt && row.certSerial == was.certSerial
  }

  /** A heartbeat, in all the row shows afterwards. */
  lemma HeartbeatLeaves(p: State, r: Report, now: nat)
    requires r.nodeID in p.nodes && p.nodes[r.nodeID].nodeID == r.nodeID
    ensures var was, row := p.nodes[r.nodeID], AfterHeartbeat(p, r, now).nodes[r.nodeID];
            && ReportComesThrough(was, r, row) && row.lastSeen == now
            && (if r.cpuCores > 0 || |r.gpus| > 0 then ProfileShows(row.resources, r, r.currentJobID != "" || r.status == Busy) else row.resources == was.resources)
            && row.identity == (if was.identity == Certified then Active else was.identity)
    ensures var q := AfterHeartbeat(p, r, now); q.nodes.Keys == p.nodes.Keys && forall n :: n in p.nodes && n != r.nodeID ==> q.nodes[n] == p.nodes[n]
  {
  }

  /** A draining node mirrors its worker's job until it is reported OFFLINE; any other takes the status it is
      sent, READY without a job, and keeps the job it had when none is named. */
  lemma HeartbeatStatusLeaves(p: State, r: Report, now: nat)
    requires r.nodeID in p.nodes
    ensures var was, row := p.nodes[r.nodeID], AfterHeartbeat(p, r, now).nodes[r.nodeID];
            && (was.status == Draining && r.status != Offline ==> row.status == Draining && row.currentJobID == r.currentJobID)
            && (was.status == Draining && r.status == Offline ==> row.status == Offline && row.currentJobID == "")
            && (was.status != Draining && r.status != Unset ==> row.status == r.status)
            && (was.status != Draining && r.status == Ready ==> row.currentJobID == "")
            && (was.status != Draining && r.status != Unset && r.status != Ready ==>
                  row.currentJobID == if r.currentJobID != "" then r.currentJobID else was.currentJobID)
            && (was.status != Draining && r.status == Unset ==>
                  && row.currentJobID == was.currentJobID
                  && row.status == if was.status == Joined || was.status == Offline then Ready else was.status)
  {
  }

  /** A join: of a known node the report comes through, of a new one the report alone counts. */
  lemma JoinLeaves(p: State, r: Report, now: nat)
    ensures var row := AfterJoin(p, r, now).nodes[r.nodeID];
            && row.lastSeen == now && row.identity == Active && ProfileShows(row.resources, r, r.status == Busy)
            && row.status == (if r.status != Unset then r.status else if r.agentVersion != "" then Ready else Joined)
            && (r.nodeID in p.nodes ==>
                  && ReportComesThrough(p.nodes[r.nodeID], r, row)
                  && row.currentJobID == if row.status == Ready then "" else p.nodes[r.nodeID].currentJobID)
            && (r.nodeID !in p.nodes ==>
                  && row.nodeID == r.nodeID && row.gpus == r.gpus && row.agentVersion == r.agentVersion && row.currentJobID == ""
                  && row.modelRuntimes == r.modelRuntimes && row.models == r.models && row.joinedAt == now && row.certSerial == "")
    ensures var q := AfterJoin(p, r, now);
            q.nodes.Keys == p.nodes.Keys + {r.nodeID} && forall n :: n in p.nodes && n != r.nodeID ==> q.nodes[n] == p.nodes[n]
  {
  }

  // ---------------------------------------------------------------- certificates

  /** Enrolment gives a node a certificate and makes it JOINED; what is known of it is kept, but its
      inventory starts again. */
  lemma EnrollLeaves(p: State, node: string, serial: string, now: nat)
    requires serial != ""
    ensures var q := AfterEnroll(p, node, serial, now); var row := q.nodes[node];
            && q.jobs == p.jobs && (forall n :: n in p.nodes && n != node ==> n in q.nodes && q.nodes[n] == p.nodes[n])
            && row.nodeID == node && row.status == Joined && row.identity == Certified && row.certSerial == serial && row.lastSeen == now
            && row.gpus == [] && row.resources == ResourceProfile(0, 0, [], [])
            && (node in p.nodes ==> var was := p.nodes[node];
                  && row.joinedAt == was.joinedAt && row.agentVersion == was.agentVersion && row.currentJobID == was.currentJobID
                  && row.modelRuntimes == was.modelRuntimes && row.models == was.models)
            && (node !in p.nodes ==> row.joinedAt == now && row.agentVersion == "" && row.currentJobID == "" && row.modelRuntimes == [] && row.models == None)
  {
  }

  /** A renewal changes the certificate, makes a certified node active, and is a sign of life. */
  lemma RenewLeaves(p: State, node: string, serial: string, now: nat)
    requires node in p.nodes && p.nodes[node].nodeID == node && p.nodes[node].status != Unset && serial != ""
    requires p.nodes[node].identity != NoIdentity
    ensures var was, q := p.nodes[node], AfterRenew(p, node, serial, now);
            && q.jobs == p.jobs && q.nodes == p.nodes[node := was.(certSerial := serial, lastSeen := now,
                                                            identity := if was.identity == Certified then Active else was.identity)]
  {
  }

  /** A row is never left without a status: what is sent, else what was there, else JOINED. */
  lemma UpsertLeavesAStatus(nodes: NodeTable, n: Node, now: nat)
    ensures UpsertRow(nodes, n, now).status ==
            if n.status != Unset then n.status
            else if n.nodeID in nodes && nodes[n.nodeID].status != Unset then nodes[n.nodeID].status
            else Joined
    ensures n.nodeID !in nodes ==> UpsertRow(nodes, n, now).joinedAt == if n.joinedAt != 0 then n.joinedAt else now
  {
  }

  /** Reading the registry back keeps every row, but for a missing status, which becomes JOINED, and a missing
      profile, which is made up from the inventory. */
  lemma RestartLeaves(p: State, file: seq<Job>, q: State, node: string)
    requires Restarts(p, file, q)
    ensures q.nodes.Keys == p.nodes.Keys
    ensures node in p.nodes ==>
              var was, row := p.nodes[node], q.nodes[node];
              && row == was.(status := row.status, resources := row.resources)
              && row.status == (if was.status == Unset then Joined else was.status)
              && (|was.resources.staticGPUs| > 0 || was.gpus == [] ==> row.resources == was.resources)
              && (was.resources.staticGPUs == [] && |was.gpus| > 0 ==>
                    && |row.resources.staticGPUs| == |was.gpus| && row.resources.cpuCores == 0 && row.resources.activeJobs == 0
                    && forall i :: 0 <= i < |was.gpus| ==> ShowsCard(row.resources, was.gpus[i], i))
  {
  }

  // ---------------------------------------------------------------- work

  /** A claim turns the node BUSY with the job, a result READY without one unless it drains; both are
      signs of life, and nothing else of the row changes. */
  lemma WorkLeaves(p: State, node: string, id: string, res: JobResult, now: nat, after: State)
    requires node in p.nodes && node != ""
    ensures ClaimYields(p, node, now, Some(id), after) ==>
              && p.nodes[node].status == Ready
              && after.nodes == p.nodes[node := p.nodes[node].(status := Busy, currentJobID := id, lastSeen := now)]
    ensures id in p.jobs && res.nodeID == node ==>
              AfterResult(p, node, id, res, now).nodes ==
              p.nodes[node := p.nodes[node].(status := if p.nodes[node].status == Draining then Draining else Ready, currentJobID := "", lastSeen := now)]
  {
  }

  /** What a claim hands out has waited at least as long as anything else that waits for the node. */
  lemma OldestFirst(p: State, node: string, id: string, now: nat, after: State)
    requires node in p.nodes && ClaimYields(p, node, now, Some(id), after)
    ensures PendsOn(p.jobs, id, node) && forall k :: PendsOn(p.jobs, k, node) ==> p.jobs[k].createdAt >= p.jobs[id].createdAt
    ensures id in after.jobs && after.jobs == p.jobs[id := p.jobs[id].(status := Running, startedAt := now)]
  {
  }

  /** A drain is a sign of life; the current job stays only on a node at work. */
  lemma DrainLeaves(p: State, node: string, now: nat)
    requires node in p.nodes
    ensures var was := p.nodes[node];
            AfterDrain(p, node, now) == State(p.jobs, p.nodes[node := was.(status := Draining, lastSeen := now,
                                                              currentJobID := if was.status == Busy then was.currentJobID else "")])
  {
  }

  /** A leave takes the node off the registry and fails all it had in flight, and nothing else. */
  lemma LeaveLeaves(p: State, node: string, now: nat)
    requires WellFormed(p.jobs)
    ensures var q := AfterLeave(p, node, now);
            && node !in q.nodes && (forall n :: n in p.nodes && n != node ==> n in q.nodes && q.nodes[n] == p.nodes[n])
            && q.jobs.Keys == p.jobs.Keys
            && forall id :: id in p.jobs ==>
                 q.jobs[id] == if InFlight(p.jobs[id]) && p.jobs[id].nodeID == node
                               then p.jobs[id].(status := Failed, error := "node left cluster", finishedAt := now) else p.jobs[id]
  {
  }

  /** The jobs a heartbeat or a join disowns end there and then, and say why. */
  lemma DisownedJobsFail(p: State, r: Report, now: nat, id: string)
    requires RunsOn(p.jobs, id, r.nodeID) && p.jobs[id].id == id != "" && id != r.currentJobID
    ensures AfterJoin(p, r, now).jobs[id] == p.jobs[id].(status := Failed, error := "worker restarted", finishedAt := now)
    ensures r.nodeID in p.nodes ==>
              AfterHeartbeat(p, r, now).jobs[id] == p.jobs[id].(status := Failed, error := "worker is no longer running this job", finishedAt := now)
  {
  }

  // ---------------------------------------------------------------- who is let in

  /** The node itself is calling. */
  predicate CallsAs(e: Event, node: string) {
    match e
    case WorkerStart(r, _, _) => r.nodeID == node
    case InventoryJoin(r, _) => r.nodeID == node
    case WorkerBeatServed(r, _, _) => r.nodeID == node
    case WorkerClaim(n, _, _, _) => n == node
    case WorkerReport(n, _, _) => n == node
    case WorkerInterrupted(n, _, _) => n == node
    case WorkerQuit(n, _, _) => n == node
    case DrainCall(n, _) => n == node
    case LeaveCall(n, _) => n == node
    case RenewCall(n, _, _) => n == node
    case _ => false
  }

  /** No call of a revoked node changes anything at the plane, and none of a node it does not know does but a
      join. */
  lemma RevokedChangesNothing(s: System, e: Event, t: System, node: string)
    requires Step(s, e, t) && CallsAs(e, node)
    requires (node in s.plane.nodes && s.plane.nodes[node].identity == Revoked) ||
             (node !in s.plane.nodes && !e.WorkerStart? && !e.InventoryJoin?)
    ensures t.plane == s.plane
  {
  }

  /** A suspended node may neither join nor claim. */
  lemma SuspendedGetsNoWork(s: System, e: Event, t: System, node: string)
    requires Step(s, e, t) && CallsAs(e, node) && node in s.plane.nodes && s.plane.nodes[node].identity == Suspended
    requires e.WorkerStart? || e.InventoryJoin? || e.WorkerClaim?
    ensures t.plane == s.plane
  {
  }

  /** A node that holds a certificate is not enrolled again until it is revoked. */
  lemma OneCertificateAtATime(s: System, e: Event, t: System)
    requires Step(s, e, t) && e.EnrollCall? && e.node in s.plane.nodes
    requires s.plane.nodes[e.node].certSerial != "" && s.plane.nodes[e.node].identity != Revoked
    ensures t.plane == s.plane
  {
  }

  /** BUSY, or drained with its job not done. */
  predicate AtWork(row: Node) {
    row.status == Busy || (row.status == Draining && row.currentJobID != "")
  }

  /** Otherwise the call is served: each of these is what the plane becomes. */
  lemma AllowedCallsAreServed(s: System, e: Event, t: System, node: string)
    requires Step(s, e, t) && CallsAs(e, node)
    requires node in s.plane.nodes && s.plane.nodes[node].identity != Revoked && s.plane.nodes[node].identity != Suspended
    ensures e.WorkerStart? || e.InventoryJoin? ==> t.plane == AfterJoin(s.plane, e.r, e.now)
    ensures e.WorkerBeatServed? ==> t.plane == AfterHeartbeat(s.plane, e.r, e.now)
    ensures e.DrainCall? || (e.WorkerInterrupted? && e.served) ==> t.plane == AfterDrain(s.plane, node, e.now)
    ensures e.RenewCall? ==> t.plane == AfterRenew(s.plane, node, e.serial, e.now)
    ensures e.WorkerReport? ==> t.plane == AfterResult(s.plane, node, WorkerAt(s, node).busy, e.res.(nodeID := node), e.now)
    ensures e.LeaveCall? || (e.WorkerQuit? && e.served) ==>
              t.plane == if AtWork(s.plane.nodes[node]) then s.plane else AfterLeave(s.plane, node, e.now)
    ensures e.WorkerClaim? && s.plane.nodes[node].status != Ready ==> t.plane == s.plane && e.got == None
    ensures e.WorkerClaim? && s.plane.nodes[node].status == Ready && (exists id :: PendsOn(s.plane.jobs, id, node)) ==> e.got != None
  {
  }

  // ---------------------------------------------------------------- the worker

  /** A worker that drains goes on draining, one the plane does not know stops, and only a job handed to it
      makes it busy. */
  lemma WorkerLearns(w: Worker, c: ClaimReply, b: BeatReply)
    ensures AfterClaimReply(w, c).busy == (if c.Got? then c.id else w.busy)
    ensures AfterClaimReply(w, c).up == (w.up && c != ClaimNotRegistered) && AfterClaimReply(w, c).draining == w.draining
    ensures AfterBeatReply(w, b).busy == w.busy && AfterBeatReply(w, b).beat == None
    ensures AfterBeatReply(w, b).draining <==> w.draining || b == Answered(Draining)
    ensures AfterBeatReply(w, b).up == (w.up && b != BeatNotRegistered)
    ensures c == ClaimNotRegistered ==> AfterClaimReply(w, c).removed
    ensures b == BeatNotRegistered ==> AfterBeatReply(w, b).removed
  {
  }

  /** It asks for work exactly when it is up, idle, and neither draining, removed nor waiting on a heartbeat. */
  lemma AsksForWorkIff(w: Worker)
    ensures MayClaim(w) <==> w.up && w.busy == "" && !w.draining && !w.removed && w.beat == None
  {
  }
}
