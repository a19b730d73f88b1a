/** The safety invariant of the control plane, and what every handler does to it. */
module PlaneInvariant {
  import opened ModelIdentity
  import opened Resources
  import opened Jobs
  import opened Nodes
  import opened Scheduler
  import opened Plane

  /** A job in flight sits on a registered node that is not offline; a running one never on a READY
      node, and on a BUSY node only as the node's current job. */
  predicate WellSited(id: string, j: Job, nodes: NodeTable) {
    InFlight(j) ==>
      && j.nodeID in nodes
      && !nodes[j.nodeID].status.Offline?
      && (j.status.Running? && nodes[j.nodeID].status.Ready? ==> false)
      && (j.status.Running? && nodes[j.nodeID].status.Busy? ==> nodes[j.nodeID].currentJobID == id)
  }

  ghost predicate OneRunning(jobs: JobTable) {
    forall a, b ::
      (a in jobs && b in jobs && jobs[a].status.Running? && jobs[b].status.Running? && jobs[a].nodeID == jobs[b].nodeID) ==> a == b
  }

  ghost predicate Safe(s: State) {
    && (forall id :: id in s.jobs ==> WellSited(id, s.jobs[id], s.nodes))
    && OneRunning(s.jobs)
  }

  ghost predicate Inv(s: State) {
    WellFormed(s.jobs) && KeyedNodes(s.nodes) && Safe(s)
  }

  /** Nothing starts running. */
  ghost predicate NoneStarts(before: JobTable, after: JobTable) {
    forall id :: id in after && after[id].status.Running? ==>
      id in before && before[id].status.Running? && before[id].nodeID == after[id].nodeID
  }

  /** Nothing is newly in flight. */
  ghost predicate NoneEnters(before: JobTable, after: JobTable) {
    forall id :: id in after && InFlight(after[id]) ==>
      id in before && after[id].status == before[id].status && before[id].nodeID == after[id].nodeID
  }

  ghost predicate Idle(jobs: JobTable, node: string) {
    forall id :: !RunsOn(jobs, id, node)
  }

  ghost predicate RunsAtMost(jobs: JobTable, node: string, job: string) {
    forall id :: RunsOn(jobs, id, node) ==> id == job
  }

  /** The pass leaves a job alone or puts a queued one on a registered READY node. */
  ghost predicate PassMoves(j: Job, k: Job, nodes: NodeTable) {
    k == j || (j.status.Queued? && k == j.(status := Pending, nodeID := k.nodeID) &&
               k.nodeID != "" && k.nodeID in nodes && nodes[k.nodeID].status.Ready?)
  }

  lemma PassMovesEach(jobs: JobTable, nodes: NodeTable)
    requires KeyedNodes(nodes)
    ensures forall id :: id in jobs ==> PassMoves(jobs[id], Scheduled(jobs, nodes)[id], nodes)
  {
    forall id | id in jobs
      ensures PassMoves(jobs[id], ScheduledJob(jobs[id], nodes), nodes)
    {
      ChoiceIsBest(nodes, jobs[id]);
    }
  }

  lemma MovedKeeps(s: State, after: JobTable)
    requires Inv(s) && after.Keys == s.jobs.Keys && forall id :: id in s.jobs ==> PassMoves(s.jobs[id], after[id], s.nodes)
    ensures Inv(State(after, s.nodes)) && NoneStarts(s.jobs, after) && Evolves(s.jobs, after)
  {
    forall id | id in after
      ensures WellSited(id, after[id], s.nodes)
    {
      assert WellSited(id, s.jobs[id], s.nodes);
    }
  }

  lemma ScheduleKeeps(s: State)
    requires Inv(s)
    ensures Inv(s.(jobs := Scheduled(s.jobs, s.nodes)))
    ensures NoneStarts(s.jobs, Scheduled(s.jobs, s.nodes)) && Evolves(s.jobs, Scheduled(s.jobs, s.nodes))
  {
    PassMovesEach(s.jobs, s.nodes);
    MovedKeeps(s, Scheduled(s.jobs, s.nodes));
  }

  /** A handler that first moves jobs forward and then lets the scheduler run. */
  ghost predicate MovesForward(before: JobTable, after: JobTable) {
    NoneStarts(before, after) && Evolves(before, after)
  }

  lemma PassKeeps(before: JobTable, jobs: JobTable, nodes: NodeTable)
    requires Inv(State(jobs, nodes)) && MovesForward(before, jobs)
    ensures Inv(State(Scheduled(jobs, nodes), nodes)) && MovesForward(before, Scheduled(jobs, nodes))
    ensures forall node, id :: RunsOn(Scheduled(jobs, nodes), id, node) ==> RunsOn(jobs, id, node)
  {
    var after := Scheduled(jobs, nodes);
    ScheduleKeeps(State(jobs, nodes));
    EvolvesTransitive(before, jobs, after);
  }

  lemma MovedKeptBefore(jobs: JobTable, after: JobTable, nodes: NodeTable)
    requires WellFormed(jobs) && after.Keys == jobs.Keys && forall id :: id in jobs ==> PassMoves(jobs[id], after[id], nodes)
    requires Inv(State(after, nodes))
    ensures Inv(State(jobs, nodes))
  {
    forall id | id in jobs
      ensures WellSited(id, jobs[id], nodes)
    {
      assert WellSited(id, after[id], nodes);
    }
    assert forall id :: id in jobs && jobs[id].status.Running? ==> after[id] == jobs[id];
  }

  /** A pass neither makes nor mends a breach of the invariant: it only moves queued jobs to READY nodes. */
  lemma PassKeepsIff(jobs: JobTable, nodes: NodeTable)
    requires WellFormed(jobs) && KeyedNodes(nodes)
    ensures Inv(State(Scheduled(jobs, nodes), nodes)) <==> Inv(State(jobs, nodes))
  {
    var after := Scheduled(jobs, nodes);
    assert after.Keys == jobs.Keys;
    hide *;
    PassMovesEach(jobs, nodes);
    if Inv(State(after, nodes)) {
      MovedKeptBefore(jobs, after, nodes);
    } else if Inv(State(jobs, nodes)) {
      ScheduleKeeps(State(jobs, nodes));
    }
  }

  /** The row says what is the case on its node. */
  ghost predicate RowTellsTruth(jobs: JobTable, node: string, row: Node) {
    && (row.status.Ready? ==> Idle(jobs, node))
    && (row.status.Busy? ==> RunsAtMost(jobs, node, row.currentJobID))
    && (row.status.Offline? ==> forall id :: !RunsOn(jobs, id, node) && !PendsOn(jobs, id, node))
  }

  /** The frame of every registry update: one row changes and jobs only stop. The invariant survives
      exactly when the row that changed tells the truth about what is still there. */
  lemma RowChangeKeepsIff(s: State, jobs: JobTable, node: string, row: Node)
    requires Inv(s) && WellFormed(jobs) && NoneEnters(s.jobs, jobs) && node != "" && row.nodeID == node
    ensures Inv(State(jobs, s.nodes[node := row])) <==> RowTellsTruth(jobs, node, row)
  {
    var nodes := s.nodes[node := row];
    if RowTellsTruth(jobs, node, row) {
      forall id | id in jobs
        ensures WellSited(id, jobs[id], nodes)
      {
        if InFlight(jobs[id]) {
          assert WellSited(id, s.jobs[id], s.nodes);
          assert RunsOn(jobs, id, jobs[id].nodeID) || PendsOn(jobs, id, jobs[id].nodeID);
        }
      }
    }
    if Inv(State(jobs, nodes)) {
      forall id | RunsOn(jobs, id, node) || PendsOn(jobs, id, node)
        ensures !row.status.Offline? && (RunsOn(jobs, id, node) ==> !row.status.Ready? && (row.status.Busy? ==> id == row.currentJobID))
      {
        assert WellSited(id, jobs[id], nodes);
      }
    }
  }

  lemma RowChangeKeeps(s: State, jobs: JobTable, node: string, row: Node)
    requires Inv(s) && WellFormed(jobs) && NoneEnters(s.jobs, jobs)
    requires node != "" && row.nodeID == node
    requires row.status.Ready? ==> Idle(jobs, node)
    requires row.status.Busy? ==> RunsAtMost(jobs, node, row.currentJobID)
    requires row.status.Offline? ==> node in s.nodes && s.nodes[node].status.Offline?
    ensures Inv(State(jobs, s.nodes[node := row]))
  {
    forall id
      ensures row.status.Offline? ==> !RunsOn(jobs, id, node) && !PendsOn(jobs, id, node)
    {
      assert id in s.jobs ==> WellSited(id, s.jobs[id], s.nodes);
    }
    RowChangeKeepsIff(s, jobs, node, row);
  }

  lemma FailFacts(jobs: JobTable, node: string, keep: string, error: string, includePending: bool, now: nat)
    requires WellFormed(jobs)
    ensures var after := FailedInFlight(jobs, node, keep, error, includePending, now);
            && WellFormed(after) && MovesForward(jobs, after) && NoneEnters(jobs, after)
            && RunsAtMost(after, node, keep) && (keep == "" ==> Idle(after, node))
            && (includePending && keep == "" ==> forall id :: id in after && InFlight(after[id]) ==> after[id].nodeID != node)
  {
  }

  // ---------------------------------------------------------------- any report

  /** What the row will say of the node agrees with the report's own word on its job: a row turned READY
      names no job that runs, a BUSY one names it as its current job, and an OFFLINE one keeps none. */
  ghost predicate WordAgrees(jobs: JobTable, node: string, keep: string, row: Node) {
    && (row.status.Ready? ==> !RunsOn(jobs, keep, node))
    && (row.status.Busy? && RunsOn(jobs, keep, node) ==> row.currentJobID == keep)
    && (row.status.Offline? ==> !RunsOn(jobs, keep, node) && forall id :: !PendsOn(jobs, id, node))
  }

  lemma WordSettles(jobs: JobTable, node: string, keep: string, error: string, now: nat, row: Node)
    requires WellFormed(jobs)
    ensures RowTellsTruth(FailedInFlight(jobs, node, keep, error, false, now), node, row) <==> WordAgrees(jobs, node, keep, row)
  {
    var after := FailedInFlight(jobs, node, keep, error, false, now);
    assert forall id :: RunsOn(after, id, node) <==> RunsOn(jobs, id, node) && id == keep;
    assert forall id :: PendsOn(after, id, node) <==> PendsOn(jobs, id, node);
  }

  /** The node has nothing in flight: not the job it names, and nothing waiting for it. */
  ghost predicate Nothing(jobs: JobTable, node: string, keep: string) {
    !RunsOn(jobs, keep, node) && forall id :: !PendsOn(jobs, id, node)
  }

  /** A join agrees with itself: READY names no job that runs there, BUSY names none but the job the plane
      already has for the node, and OFFLINE leaves nothing behind. */
  ghost predicate JoinAgrees(s: State, r: Report) {
    var st, runs := JoinStatus(r), RunsOn(s.jobs, r.currentJobID, r.nodeID);
    && (st.Ready? ==> !runs)
    && (st.Busy? && runs ==> r.nodeID in s.nodes && s.nodes[r.nodeID].currentJobID == r.currentJobID)
    && (st.Offline? ==> Nothing(s.jobs, r.nodeID, r.currentJobID))
  }

  /** A heartbeat agrees with itself: what it says makes the node READY only if it names no job that runs
      there, and OFFLINE only if nothing is left there. */
  ghost predicate BeatAgrees(s: State, r: Report)
    requires r.nodeID in s.nodes
  {
    var was, runs := s.nodes[r.nodeID].status, RunsOn(s.jobs, r.currentJobID, r.nodeID);
    && (r.status.Ready? && !was.Draining? ==> !runs)
    && (r.status.Unset? && was.Joined? ==> !runs)
    && (r.status.Offline? ==> Nothing(s.jobs, r.nodeID, r.currentJobID))
  }

  lemma JoinAgreesIff(s: State, r: Report, now: nat)
    requires Inv(s)
    ensures JoinAgrees(s, r) <==> WordAgrees(s.jobs, r.nodeID, r.currentJobID, UpsertRow(s.nodes, NodeOf(r, "", Active).(status := JoinStatus(r)), now))
  {
    var id := r.currentJobID;
    assert RunsOn(s.jobs, id, r.nodeID) ==> WellSited(id, s.jobs[id], s.nodes);
  }

  lemma BeatAgreesIff(s: State, r: Report, now: nat)
    requires Inv(s) && r.nodeID in s.nodes
    ensures BeatAgrees(s, r) <==> WordAgrees(s.jobs, r.nodeID, r.currentJobID, HeardRow(s.nodes[r.nodeID], r, now))
  {
    var id := r.currentJobID;
    assert RunsOn(s.jobs, id, r.nodeID) ==> id != "" && WellSited(id, s.jobs[id], s.nodes);
    if s.nodes[r.nodeID].status.Offline? {
      forall k
        ensures !RunsOn(s.jobs, k, r.nodeID) && !PendsOn(s.jobs, k, r.nodeID)
      {
        assert k in s.jobs ==> WellSited(k, s.jobs[k], s.nodes);
      }
    }
  }

  /** A join, whatever it says, keeps the safety invariant exactly when it agrees with itself. */
  lemma JoinKeepsIff(s: State, r: Report, now: nat)
    requires Inv(s) && r.nodeID != ""
    ensures Inv(AfterJoin(s, r, now)) <==> JoinAgrees(s, r)
    ensures Evolves(s.jobs, AfterJoin(s, r, now).jobs)
  {
    var n := NodeOf(r, "", Active).(status := JoinStatus(r));
    var row := UpsertRow(s.nodes, n, now);
    var jobs := FailedInFlight(s.jobs, r.nodeID, r.currentJobID, "worker restarted", false, now);
    FailFacts(s.jobs, r.nodeID, r.currentJobID, "worker restarted", false, now);
    AnyWord(s, jobs, r.nodeID, r.currentJobID, row, "worker restarted", now);
    JoinAgreesIff(s, r, now);
  }

  /** The same for a heartbeat of any status and any job. */
  lemma HeartbeatKeepsIff(s: State, r: Report, now: nat)
    requires Inv(s) && r.nodeID in s.nodes
    ensures Inv(AfterHeartbeat(s, r, now)) <==> BeatAgrees(s, r)
    ensures Evolves(s.jobs, AfterHeartbeat(s, r, now).jobs)
  {
    var row := HeardRow(s.nodes[r.nodeID], r, now);
    var error := "worker is no longer running this job";
    var jobs := FailedInFlight(s.jobs, r.nodeID, r.currentJobID, error, false, now);
    FailFacts(s.jobs, r.nodeID, r.currentJobID, error, false, now);
    AnyWord(s, jobs, r.nodeID, r.currentJobID, row, error, now);
    BeatAgreesIff(s, r, now);
  }

  /** A join and a heartbeat that break it: a working node says READY and names its job all the same. */
  lemma ReadyWithAJobBreaks(job: Job, node: Node, r: Report, now: nat)
    requires job.id == "j" && job.status.Running? && job.nodeID == "n"
    requires node.nodeID == "n" && node.status.Busy? && node.currentJobID == "j"
    requires r.nodeID == "n" && r.status.Ready? && r.currentJobID == "j"
    ensures var s := State(map["j" := job], map["n" := node]);
            Inv(s) && !Inv(AfterJoin(s, r, now)) && !Inv(AfterHeartbeat(s, r, now))
  {
    var s := State(map["j" := job], map["n" := node]);
    assert Inv(s) && RunsOn(s.jobs, "j", "n");
    JoinKeepsIff(s, r, now);
    HeartbeatKeepsIff(s, r, now);
  }

  /** A report that breaks it: a working node reports a job that is not its own, and turns READY. */
  lemma ReportOfAnotherJobBreaks(job: Job, other: Job, node: Node, res: JobResult, now: nat)
    requires job.id == "j" && job.status.Running? && job.nodeID == "n" && other.id == "k" && other.status.Queued? && other.nodeID == ""
    requires node.nodeID == "n" && node.status.Busy? && node.currentJobID == "j" && res.nodeID == "n"
    ensures var s := State(map["j" := job, "k" := other], map["n" := node]);
            Inv(s) && !Inv(AfterResult(s, "n", "k", res, now))
  {
    var s := State(map["j" := job, "k" := other], map["n" := node]);
    assert Inv(s) && RunsOn(s.jobs, "j", "n");
    ResultKeepsIff(s, "n", "k", res, now);
  }

  lemma AnyWord(s: State, jobs: JobTable, node: string, keep: string, row: Node, error: string, now: nat)
    requires Inv(s) && node != "" && row.nodeID == node
    requires jobs == FailedInFlight(s.jobs, node, keep, error, false, now)
    requires WellFormed(jobs) && NoneEnters(s.jobs, jobs) && Evolves(s.jobs, jobs)
    ensures var nodes := s.nodes[node := row];
            && (Inv(State(jobs, nodes)) <==> WordAgrees(s.jobs, node, keep, row))
            && (Inv(State(Scheduled(jobs, nodes), nodes)) <==> WordAgrees(s.jobs, node, keep, row))
            && Evolves(s.jobs, Scheduled(jobs, nodes))
  {
    var nodes := s.nodes[node := row];
    WordSettles(s.jobs, node, keep, error, now, row);
    RowChangeKeepsIff(s, jobs, node, row);
    PassKeepsIff(jobs, nodes);
    PassEvolves(s.jobs, jobs, nodes);
  }

  lemma PassEvolves(before: JobTable, jobs: JobTable, nodes: NodeTable)
    requires WellFormed(jobs) && KeyedNodes(nodes) && Evolves(before, jobs)
    ensures Evolves(before, Scheduled(jobs, nodes))
  {
    PassMovesEach(jobs, nodes);
  }

  // ---------------------------------------------------------------- every handler keeps it

  /** A worker joins READY and a bare inventory joins JOINED, both naming no job. */
  lemma JoinKeeps(s: State, r: Report, now: nat)
    requires Inv(s) && r.nodeID != "" && r.currentJobID == "" && (r.status.Ready? || r.status.Unset?)
    ensures Inv(AfterJoin(s, r, now)) && NoneStarts(s.jobs, AfterJoin(s, r, now).jobs) && Evolves(s.jobs, AfterJoin(s, r, now).jobs)
    ensures Idle(AfterJoin(s, r, now).jobs, r.nodeID)
  {
    var n := NodeOf(r, "", Active).(status := JoinStatus(r));
    var row := UpsertRow(s.nodes, n, now);
    var jobs := FailedInFlight(s.jobs, r.nodeID, r.currentJobID, "worker restarted", false, now);
    FailFacts(s.jobs, r.nodeID, "", "worker restarted", false, now);
    RowChangeKeeps(s, jobs, r.nodeID, row);
    PassKeeps(s.jobs, jobs, s.nodes[r.nodeID := row]);
  }

  /** The heartbeats a worker sends: READY only without a job, never OFFLINE, never blank. */
  predicate WorkerBeat(r: Report) {
    (r.status.Ready? && r.currentJobID == "") || r.status.Busy? || r.status.Draining?
  }

  lemma HeardRowFacts(was: Node, r: Report, now: nat)
    requires WorkerBeat(r)
    ensures var row := HeardRow(was, r, now);
            && row.nodeID == was.nodeID && !row.status.Offline?
            && (row.status.Ready? ==> r.currentJobID == "")
            && (r.currentJobID != "" ==> row.currentJobID == r.currentJobID)
            && (was.status.Draining? ==> row.status.Draining? && row.currentJobID == r.currentJobID)
  {
  }

  lemma HeartbeatKeeps(s: State, r: Report, now: nat)
    requires Inv(s) && r.nodeID in s.nodes && WorkerBeat(r)
    ensures Inv(AfterHeartbeat(s, r, now)) && NoneStarts(s.jobs, AfterHeartbeat(s, r, now).jobs) && Evolves(s.jobs, AfterHeartbeat(s, r, now).jobs)
    ensures RunsAtMost(AfterHeartbeat(s, r, now).jobs, r.nodeID, r.currentJobID)
  {
    var row := HeardRow(s.nodes[r.nodeID], r, now);
    var jobs := FailedInFlight(s.jobs, r.nodeID, r.currentJobID, "worker is no longer running this job", false, now);
    FailFacts(s.jobs, r.nodeID, r.currentJobID, "worker is no longer running this job", false, now);
    HeardRowFacts(s.nodes[r.nodeID], r, now);
    RowChangeKeeps(s, jobs, r.nodeID, row);
    PassKeeps(s.jobs, jobs, s.nodes[r.nodeID := row]);
  }

  lemma DrainKeeps(s: State, node: string, now: nat)
    requires Inv(s) && node in s.nodes
    ensures Inv(AfterDrain(s, node, now))
  {
    RowChangeKeeps(s, s.jobs, node, DrainRow(s.nodes[node], now));
  }

  lemma LeaveKeeps(s: State, node: string, now: nat)
    requires Inv(s)
    ensures Inv(AfterLeave(s, node, now)) && NoneStarts(s.jobs, AfterLeave(s, node, now).jobs) && Evolves(s.jobs, AfterLeave(s, node, now).jobs)
  {
    FailFacts(s.jobs, node, "", "node left cluster", true, now);
  }

  lemma ClaimKeeps(s: State, node: string, now: nat, got: Option<string>, after: State)
    requires Inv(s) && node in s.nodes && ClaimYields(s, node, now, got, after)
    ensures Inv(after) && Evolves(s.jobs, after.jobs)
    ensures got.Some? ==> RunsOn(after.jobs, got.value, node) && RunsAtMost(after.jobs, node, got.value)
    ensures forall id, m :: RunsOn(after.jobs, id, m) ==> RunsOn(s.jobs, id, m) || (got == Some(id) && m == node)
  {
    if got.Some? {
      forall id | id in after.jobs
        ensures WellSited(id, after.jobs[id], after.nodes) && (RunsOn(after.jobs, id, node) ==> id == got.value)
      {
        assert WellSited(id, s.jobs[id], s.nodes);
      }
    }
  }

  /** A report keeps the invariant when it comes from the node that may run only that job. */
  lemma ResultKeeps(s: State, cert: string, id: string, res: JobResult, now: nat)
    requires Inv(s) && cert != "" && cert in s.nodes && res.nodeID == cert && RunsAtMost(s.jobs, cert, id)
    ensures Inv(AfterResult(s, cert, id, res, now)) && NoneStarts(s.jobs, AfterResult(s, cert, id, res, now).jobs)
    ensures Evolves(s.jobs, AfterResult(s, cert, id, res, now).jobs)
    ensures id in s.jobs ==> Idle(AfterResult(s, cert, id, res, now).jobs, cert)
  {
    if id in s.jobs {
      var jobs := Completed(s.jobs, id, res.ok, res.result, res.error, now);
      CompleteFacts(s.jobs, cert, id, res, now);
      var row := StatusRow(s.nodes[cert], Ready, "", now);
      RowChangeKeeps(s, jobs, cert, row);
      PassKeeps(s.jobs, jobs, s.nodes[cert := row]);
    }
  }

  lemma CompleteFacts(jobs: JobTable, node: string, id: string, res: JobResult, now: nat)
    requires WellFormed(jobs) && id in jobs && RunsAtMost(jobs, node, id)
    ensures var after := Completed(jobs, id, res.ok, res.result, res.error, now);
            WellFormed(after) && MovesForward(jobs, after) && NoneEnters(jobs, after) && Idle(after, node)
  {
    var after := Completed(jobs, id, res.ok, res.result, res.error, now);
    forall k
      ensures !RunsOn(after, k, node)
    {
      assert RunsOn(after, k, node) ==> RunsOn(jobs, k, node);
    }
    ReplaceEvolves(jobs, id, after[id]);
  }

  /** A report from anyone: it keeps the invariant exactly when it is refused, frees no registered node,
      frees a draining one, or frees a node that runs nothing else. */
  lemma ResultKeepsIff(s: State, cert: string, id: string, res: JobResult, now: nat)
    requires Inv(s) && cert != "" && id in s.jobs
    ensures Inv(AfterResult(s, cert, id, res, now)) <==>
            ReportingNode(s, id, res) != cert || cert !in s.nodes || s.nodes[cert].status.Draining? || RunsAtMost(s.jobs, cert, id)
  {
    var jobs := Completed(s.jobs, id, res.ok, res.result, res.error, now);
    CompletedSites(s, id, res, now);
    if ReportingNode(s, id, res) == cert && cert in s.nodes {
      var row := StatusRow(s.nodes[cert], Ready, "", now);
      IdleAfter(s.jobs, cert, id, res, now);
      RowChangeKeepsIff(s, jobs, cert, row);
      PassKeepsIff(jobs, s.nodes[cert := row]);
    } else {
      PassKeepsIff(jobs, s.nodes);
    }
  }

  lemma CompletedSites(s: State, id: string, res: JobResult, now: nat)
    requires Inv(s) && id in s.jobs
    ensures var jobs := Completed(s.jobs, id, res.ok, res.result, res.error, now);
            Inv(State(jobs, s.nodes)) && NoneEnters(s.jobs, jobs)
  {
    var jobs := Completed(s.jobs, id, res.ok, res.result, res.error, now);
    forall k | k in jobs
      ensures WellSited(k, jobs[k], s.nodes)
    {
      assert WellSited(k, s.jobs[k], s.nodes);
    }
  }

  lemma IdleAfter(jobs: JobTable, node: string, id: string, res: JobResult, now: nat)
    requires id in jobs
    ensures Idle(Completed(jobs, id, res.ok, res.result, res.error, now), node) <==> RunsAtMost(jobs, node, id)
  {
    var after := Completed(jobs, id, res.ok, res.result, res.error, now);
    assert forall k :: RunsOn(after, k, node) <==> RunsOn(jobs, k, node) && k != id;
  }

  predicate LooksCompleted(j: Job, res: JobResult, now: nat) {
    && j.finishedAt == now && j.result == res.result
    && j.status == (if res.ok then Succeeded else Failed) && j.error == (if res.ok then "" else res.error)
  }

  /** A refused report leaves the registry and every other job alone, but has changed the job it was about
      unless that job already looked exactly like that. */
  lemma RefusedReportChanges(s: State, cert: string, id: string, res: JobResult, now: nat)
    requires id in s.jobs && ResultRefused(s, cert, id, res)
    ensures var after := AfterResult(s, cert, id, res, now);
            && after.nodes == s.nodes && after.jobs.Keys == s.jobs.Keys
            && (forall k :: k in s.jobs && k != id ==> after.jobs[k] == s.jobs[k])
            && after.jobs[id].finishedAt == now
            && (after.jobs[id].status.Succeeded? <==> res.ok) && (after.jobs[id].status.Failed? <==> !res.ok)
            && (after == s <==> LooksCompleted(s.jobs[id], res, now))
  {
  }

  lemma SweepFails(jobs: JobTable, lost: set<string>, error: string, now: nat)
    requires WellFormed(jobs) && OneRunning(jobs)
    ensures var after := FailedOn(jobs, lost, error, now);
            WellFormed(after) && MovesForward(jobs, after) && OneRunning(after)
  {
  }

  lemma SweepSites(s: State, now: nat)
    requires Inv(s)
    ensures var jobs := FailedOn(s.jobs, StaleIds(s.nodes, now), "node heartbeat timeout", now);
            forall id :: id in jobs ==> WellSited(id, jobs[id], Swept(s.nodes, now))
  {
    forall id | id in s.jobs
      ensures WellSited(id, FailedOn(s.jobs, StaleIds(s.nodes, now), "node heartbeat timeout", now)[id], Swept(s.nodes, now))
    {
      assert WellSited(id, s.jobs[id], s.nodes);
    }
  }

  lemma SweepKeeps(s: State, now: nat)
    requires Inv(s)
    ensures Inv(AfterSweep(s, now)) && NoneStarts(s.jobs, AfterSweep(s, now).jobs) && Evolves(s.jobs, AfterSweep(s, now).jobs)
  {
    var nodes := Swept(s.nodes, now);
    SweepFails(s.jobs, StaleIds(s.nodes, now), "node heartbeat timeout", now);
    SweepSites(s, now);
    assert KeyedNodes(nodes);
    PassKeeps(s.jobs, FailedOn(s.jobs, StaleIds(s.nodes, now), "node heartbeat timeout", now), nodes);
  }

  lemma EnrollKeeps(s: State, node: string, serial: string, now: nat)
    requires Inv(s) && node != ""
    ensures Inv(AfterEnroll(s, node, serial, now))
  {
    RowChangeKeeps(s, s.jobs, node, UpsertRow(s.nodes, EnrolledNode(node, serial), now));
  }

  lemma RenewKeeps(s: State, node: string, serial: string, now: nat)
    requires Inv(s) && node in s.nodes
    ensures Inv(AfterRenew(s, node, serial, now))
  {
    var n := s.nodes[node].(certSerial := serial, identity := if s.nodes[node].identity.Certified? then Active else s.nodes[node].identity);
    RowChangeKeeps(s, s.jobs, node, UpsertRow(s.nodes, n, now));
  }

  lemma SetIdentityKeeps(s: State, node: string, identity: NodeIdentity)
    requires Inv(s) && node in s.nodes
    ensures Inv(AfterSetIdentity(s, node, identity))
  {
    RowChangeKeeps(s, s.jobs, node, s.nodes[node].(identity := identity));
  }

  lemma CreateKeeps(s: State, o: Order, now: nat)
    requires Inv(s) && o.id != "" && o.id !in s.jobs
    ensures Inv(AfterCreate(s, o, now)) && NoneStarts(s.jobs, AfterCreate(s, o, now).jobs) && Evolves(s.jobs, AfterCreate(s, o, now).jobs)
  {
    var r := NewJob(o.id, o.jobType, o.preferred, o.req, o.payload, now);
    if r.Accepted? {
      NewJobKeeps(s, r.job);
      PassKeeps(s.jobs, s.jobs[o.id := r.job], s.nodes);
    }
  }

  lemma NewJobKeeps(s: State, j: Job)
    requires Inv(s) && j.id != "" && j.id !in s.jobs && j.status.Queued? && j.nodeID == ""
    ensures Inv(State(s.jobs[j.id := j], s.nodes)) && MovesForward(s.jobs, s.jobs[j.id := j])
  {
    ReplaceEvolves(s.jobs, j.id, j);
  }

  /** Restarting the plane reads both files back. */
  ghost predicate Restarts(s: State, file: seq<Job>, after: State) {
    && Listing(file, s.jobs) && after.jobs == FromFile(file)
    && after.nodes == map id | id in s.nodes :: LoadedRow(s.nodes[id])
  }

  lemma RestartKeeps(s: State, file: seq<Job>, after: State)
    requires Inv(s) && Restarts(s, file, after)
    ensures Inv(after) && after.jobs == s.jobs
  {
    PersistenceRoundTrip(file, s.jobs);
  }
}
