/** The HTTP handlers of the control plane as atomic steps (internal/server/server.go, enroll.go),
    first as functions of the plane's state, then as the handlers that run on the two stores. */
module Plane {
  import Gpu
  import opened ModelIdentity
  import opened Resources
  import opened Jobs
  import opened Nodes
  import opened Scheduler

  datatype State = State(jobs: JobTable, nodes: NodeTable)

  /** Body of a join or heartbeat. */
  datatype Report = Report(nodeID: string, gpus: seq<Gpu.GPU>, agentVersion: string, status: Status,
    currentJobID: string, cpuCores: nat, modelRuntimes: seq<string>, models: Option<seq<Model>>)

  datatype Reply = Done | NoContent | Unauthorized | Forbidden | NotFound | Conflict | BadRequest

  function NodeOf(r: Report, job: string, identity: NodeIdentity): Node {
    Node(r.nodeID, r.gpus, r.status, r.agentVersion, job,
         ProfileOf(r.gpus, r.cpuCores, if job != "" || r.status.Busy? then 1 else 0),
         r.modelRuntimes, r.models, 0, 0, identity, "")
  }

  // ---------------------------------------------------------------- who is let in

  /** requireNodeCert: the caller's certificate names a registered node that is not revoked. */
  predicate Admitted(s: State, node: string, allowSuspended: bool) {
    && node in s.nodes && !s.nodes[node].identity.Revoked?
    && (s.nodes[node].identity.Suspended? ==> allowSuspended)
  }

  /** What requireNodeCert answers a caller, `next` being what follows once it is let in. */
  function NodeCheck(s: State, node: string, allowSuspended: bool, next: Reply): Reply {
    if node !in s.nodes then Unauthorized
    else if s.nodes[node].identity.Revoked? || (s.nodes[node].identity.Suspended? && !allowSuspended) then Forbidden
    else next
  }

  /** The body must name a node, and that of the certificate. */
  function BodyCheck(cert: string, named: string): Reply {
    if named == "" then BadRequest else if named != cert then Forbidden else Done
  }

  /** requireJoinCert also lets an unknown node in. */
  predicate MayJoin(s: State, node: string) {
    node in s.nodes ==> Admitted(s, node, false)
  }

  // ---------------------------------------------------------------- handlers as functions

  function JoinStatus(r: Report): Status {
    if !r.status.Unset? then r.status else if r.agentVersion != "" then Ready else Joined
  }

  ghost function AfterJoin(s: State, r: Report, now: nat): State {
    var n := NodeOf(r, "", Active).(status := JoinStatus(r));
    var nodes := s.nodes[r.nodeID := UpsertRow(s.nodes, n, now)];
    var jobs := FailedInFlight(s.jobs, r.nodeID, r.currentJobID, "worker restarted", false, now);
    State(Scheduled(jobs, nodes), nodes)
  }

  function HeardRow(row: Node, r: Report, now: nat): Node {
    var out := HeartbeatRow(row, NodeOf(r, r.currentJobID, NoIdentity), now);
    if out.identity.Certified? then out.(identity := Active) else out
  }

  ghost function AfterHeartbeat(s: State, r: Report, now: nat): State
    requires r.nodeID in s.nodes
  {
    var row := HeardRow(s.nodes[r.nodeID], r, now);
    var nodes := s.nodes[r.nodeID := row];
    var jobs := FailedInFlight(s.jobs, r.nodeID, r.currentJobID, "worker is no longer running this job", false, now);
    State(if row.status.Ready? then Scheduled(jobs, nodes) else jobs, nodes)
  }

  function AfterDrain(s: State, node: string, now: nat): State
    requires node in s.nodes
  {
    s.(nodes := s.nodes[node := DrainRow(s.nodes[node], now)])
  }

  predicate LeaveRefused(row: Node) {
    row.status.Busy? || (row.status.Draining? && row.currentJobID != "")
  }

  ghost function AfterLeave(s: State, node: string, now: nat): State {
    State(FailedInFlight(s.jobs, node, "", "node left cluster", true, now), s.nodes - {node})
  }

  predicate ClaimOpen(row: Node) {
    row.status.Ready? && !row.identity.Suspended? && !row.identity.Revoked?
  }

  /** A claim hands out `got` and leaves the plane as `after`. */
  ghost predicate ClaimYields(s: State, node: string, now: nat, got: Option<string>, after: State)
    requires node in s.nodes
  {
    if !ClaimOpen(s.nodes[node]) then got.None? && after == s
    else if got.None? then after == s && forall k :: !PendsOn(s.jobs, k, node)
    else
      && Claimable(s.jobs, node, got.value)
      && after == State(Claimed(s.jobs, got.value, now), s.nodes[node := StatusRow(s.nodes[node], Busy, got.value, now)])
  }

  datatype JobResult = JobResult(ok: bool, result: Payload, error: string, nodeID: string)

  /** The node a report is taken to come from. */
  function ReportingNode(s: State, id: string, res: JobResult): string
    requires id in s.jobs
  {
    if res.nodeID == "" then s.jobs[id].nodeID else res.nodeID
  }

  /** The reporting node is not the certificate's. */
  predicate ResultRefused(s: State, cert: string, id: string, res: JobResult)
    requires id in s.jobs
  {
    ReportingNode(s, id, res) != "" && ReportingNode(s, id, res) != cert
  }

  /** The result is recorded before the reporting node is compared with the certificate. */
  ghost function AfterResult(s: State, cert: string, id: string, res: JobResult, now: nat): State {
    if id !in s.jobs then s
    else
      var jobs := Completed(s.jobs, id, res.ok, res.result, res.error, now);
      var node := ReportingNode(s, id, res);
      if ResultRefused(s, cert, id, res) then s.(jobs := jobs)
      else
        var nodes := if node in s.nodes then s.nodes[node := StatusRow(s.nodes[node], Ready, "", now)] else s.nodes;
        State(Scheduled(jobs, nodes), nodes)
  }

  ghost function FailedOn(jobs: JobTable, lost: set<string>, error: string, now: nat): JobTable {
    map id | id in jobs :: if InFlight(jobs[id]) && jobs[id].nodeID in lost then TakenDown(jobs[id], error, now) else jobs[id]
  }

  ghost function StaleIds(nodes: NodeTable, now: nat): set<string> {
    set id | id in nodes && Stale(nodes[id], now)
  }

  ghost function AfterSweep(s: State, now: nat): State {
    var nodes := Swept(s.nodes, now);
    State(Scheduled(FailedOn(s.jobs, StaleIds(s.nodes, now), "node heartbeat timeout", now), nodes), nodes)
  }

  predicate MayEnroll(s: State, node: string) {
    node in s.nodes ==> s.nodes[node].certSerial == "" || s.nodes[node].identity.Revoked?
  }

  function EnrolledNode(node: string, serial: string): Node {
    Node(node, [], Joined, "", "", EMPTY_PROFILE, [], None, 0, 0, Certified, serial)
  }

  function AfterEnroll(s: State, node: string, serial: string, now: nat): State {
    s.(nodes := s.nodes[node := UpsertRow(s.nodes, EnrolledNode(node, serial), now)])
  }

  function AfterRenew(s: State, node: string, serial: string, now: nat): State
    requires node in s.nodes
  {
    var n := s.nodes[node].(certSerial := serial, identity := if s.nodes[node].identity.Certified? then Active else s.nodes[node].identity);
    s.(nodes := s.nodes[node := UpsertRow(s.nodes, n, now)])
  }

  function AfterSetIdentity(s: State, node: string, identity: NodeIdentity): State
    requires node in s.nodes
  {
    s.(nodes := s.nodes[node := s.nodes[node].(identity := identity)])
  }

  datatype Order = Order(id: string, jobType: JobType, preferred: string, req: Requirements, payload: Payload)

  /** Job creation followed by a scheduling pass, as submit, route and chat all do it. */
  ghost function AfterCreate(s: State, o: Order, now: nat): State {
    var r := NewJob(o.id, o.jobType, o.preferred, o.req, o.payload, now);
    if r.Accepted? then s.(jobs := Scheduled(s.jobs[o.id := r.job], s.nodes)) else s
  }

  // ---------------------------------------------------------------- handlers on the stores

  class Server {
    const store: Store
    const jobs: JobStore

    ghost predicate Valid()
      reads this, store, jobs
    {
      store.Keyed() && jobs.Keyed() && jobs.Saved()
    }

    ghost function View(): State
      reads this, store, jobs
    {
      State(jobs.jobs, store.nodes)
    }

    constructor ()
      ensures Valid() && fresh(store) && fresh(jobs)
      ensures View() == State(map[], map[])
    {
      store := new Store.Open([]);
      jobs := new JobStore.Open([]);
    }

    method HandleJoin(cert: string, r: Report, now: nat) returns (reply: Reply)
      requires Valid() && cert != ""
      modifies store, jobs
      ensures Valid()
      ensures reply == if !old(MayJoin(View(), cert)) then Forbidden else BodyCheck(cert, r.nodeID)
      ensures View() == if reply.Done? then AfterJoin(old(View()), r, now) else old(View())
    {
      if cert in store.nodes && (store.nodes[cert].identity.Revoked? || store.nodes[cert].identity.Suspended?) {
        return Forbidden;
      }
      if r.nodeID == "" {
        return BadRequest;
      }
      if r.nodeID != cert {
        return Forbidden;
      }
      var profile := BuildProfile(r.gpus, r.cpuCores, if r.status.Busy? then 1 else 0);
      var n := Node(cert, r.gpus, r.status, r.agentVersion, "", profile, r.modelRuntimes, r.models, 0, 0, Active, "");
      if n.status.Unset? {
        n := n.(status := if n.agentVersion != "" then Ready else Joined);
      }
      n := store.Upsert(n, now);
      var _ := jobs.FailInFlight(cert, r.currentJobID, "worker restarted", false, now);
      TrySchedule(jobs, store);
      reply := Done;
    }

    /** The registry half of a heartbeat: the row is refreshed, and a certified node becomes active. */
    method Hear(r: Report, now: nat) returns (row: Node)
      requires store.Keyed() && r.nodeID in store.nodes
      modifies store
      ensures store.Keyed()
      ensures row == HeardRow(old(store.nodes)[r.nodeID], r, now)
      ensures store.nodes == old(store.nodes)[r.nodeID := row]
    {
      var profile := BuildProfile(r.gpus, r.cpuCores, if r.currentJobID != "" || r.status.Busy? then 1 else 0);
      var n := Node(r.nodeID, r.gpus, r.status, r.agentVersion, r.currentJobID, profile, r.modelRuntimes, r.models, 0, 0, NoIdentity, "");
      assert n == NodeOf(r, r.currentJobID, NoIdentity);
      var out := store.Heartbeat(n, now);
      row := out.value;
      if row.identity.Certified? {
        row := row.(identity := Active);
        var _ := store.SetIdentity(r.nodeID, Active);
      }
    }

    method HandleHeartbeat(cert: string, r: Report, now: nat) returns (reply: Reply, out: Option<Node>)
      requires Valid() && cert != ""
      modifies store, jobs
      ensures Valid()
      ensures reply == old(NodeCheck(View(), cert, true, BodyCheck(cert, r.nodeID)))
      ensures View() == if reply.Done? then AfterHeartbeat(old(View()), r, now) else old(View())
      ensures out == if reply.Done? then Some(store.nodes[cert]) else None
    {
      if cert !in store.nodes {
        return Unauthorized, None;
      }
      if store.nodes[cert].identity.Revoked? {
        return Forbidden, None;
      }
      if r.nodeID == "" {
        return BadRequest, None;
      }
      if r.nodeID != cert {
        return Forbidden, None;
      }
      var row := Hear(r, now);
      var _ := jobs.FailInFlight(cert, r.currentJobID, "worker is no longer running this job", false, now);
      if row.status.Ready? {
        TrySchedule(jobs, store);
      }
      reply, out := Done, Some(row);
    }

    method HandleDrain(cert: string, id: string, now: nat) returns (reply: Reply)
      requires Valid() && cert != ""
      modifies store
      ensures Valid()
      ensures reply == old(NodeCheck(View(), cert, true, BodyCheck(cert, id)))
      ensures View() == if reply.Done? then AfterDrain(old(View()), cert, now) else old(View())
    {
      if cert !in store.nodes {
        return Unauthorized;
      }
      if store.nodes[cert].identity.Revoked? {
        return Forbidden;
      }
      if id == "" {
        return BadRequest;
      }
      if id != cert {
        return Forbidden;
      }
      var _ := store.SetDrain(cert, now);
      reply := Done;
    }

    method HandleLeave(cert: string, id: string, now: nat) returns (reply: Reply)
      requires Valid() && cert != ""
      modifies store, jobs
      ensures Valid()
      ensures reply == old(NodeCheck(View(), cert, true,
                if BodyCheck(cert, id).Done? && cert in View().nodes && LeaveRefused(View().nodes[cert]) then Conflict else BodyCheck(cert, id)))
      ensures View() == if reply.Done? then AfterLeave(old(View()), cert, now) else old(View())
    {
      if cert !in store.nodes {
        return Unauthorized;
      }
      var n := store.nodes[cert];
      if n.identity.Revoked? {
        return Forbidden;
      }
      if id == "" {
        return BadRequest;
      }
      if id != cert {
        return Forbidden;
      }
      if n.status.Busy? || (n.status.Draining? && n.currentJobID != "") {
        return Conflict;
      }
      var _ := jobs.FailInFlight(cert, "", "node left cluster", true, now);
      var _ := store.SetStatus(cert, Offline, "", now);
      var _ := store.Remove(cert);
      assert store.nodes == old(store.nodes) - {cert};
      reply := Done;
    }

    method HandleClaim(cert: string, named: string, now: nat) returns (reply: Reply, got: Option<Job>)
      requires Valid() && cert != ""
      modifies store, jobs
      ensures Valid()
      ensures reply == old(NodeCheck(View(), cert, false, BodyCheck(cert, named))) ||
              (reply.NoContent? && old(NodeCheck(View(), cert, false, BodyCheck(cert, named))).Done?)
      ensures reply.Done? <==> got.Some?
      ensures if reply.Done? || reply.NoContent? then
                ClaimYields(old(View()), cert, now, if got.Some? then Some(got.value.id) else None, View())
              else View() == old(View())
    {
      got := None;
      if cert !in store.nodes {
        return Unauthorized, None;
      }
      var n := store.nodes[cert];
      if n.identity.Revoked? || n.identity.Suspended? {
        return Forbidden, None;
      }
      if named == "" {
        return BadRequest, None;
      }
      if named != cert {
        return Forbidden, None;
      }
      if !n.status.Ready? {
        return NoContent, None;
      }
      got := jobs.Claim(cert, now);
      if got.None? {
        return NoContent, None;
      }
      var _ := store.SetStatus(cert, Busy, got.value.id, now);
      reply := Done;
    }

    method HandleResult(cert: string, id: string, res: JobResult, now: nat) returns (reply: Reply)
      requires Valid() && cert != ""
      modifies store, jobs
      ensures Valid()
      ensures reply == old(NodeCheck(View(), cert, true,
                if id !in View().jobs then NotFound else if ResultRefused(View(), cert, id, res) then Forbidden else Done))
      ensures View() == if old(Admitted(View(), cert, true)) then AfterResult(old(View()), cert, id, res, now) else old(View())
    {
      if cert !in store.nodes {
        return Unauthorized;
      }
      if store.nodes[cert].identity.Revoked? {
        return Forbidden;
      }
      var j := jobs.Complete(id, res.ok, res.result, res.error, now);
      if j.None? {
        return NotFound;
      }
      var node := res.nodeID;
      if node == "" {
        node := j.value.nodeID;
      }
      if node != "" && node != cert {
        return Forbidden;
      }
      if node != "" {
        var _ := store.SetStatus(node, Ready, "", now);
      }
      TrySchedule(jobs, store);
      reply := Done;
    }

    method Sweep(now: nat)
      requires Valid()
      modifies store, jobs
      ensures Valid()
      ensures View() == AfterSweep(old(View()), now)
    {
      var changed := store.MarkStaleOffline(now);
      FailAll(changed, now);
      assert IdSet(changed) == old(StaleIds(store.nodes, now));
      TrySchedule(jobs, store);
    }

    /** The jobs of every node that has just gone offline fail, node by node. */
    method FailAll(changed: seq<string>, now: nat)
      requires jobs.Keyed() && jobs.Saved()
      modifies jobs
      ensures jobs.Keyed() && jobs.Saved()
      ensures jobs.jobs == FailedOn(old(jobs.jobs), IdSet(changed), "node heartbeat timeout", now)
    {
      ghost var was, lost := jobs.jobs, {};
      FailedOnNone(was, "node heartbeat timeout", now);
      for k := 0 to |changed|
        invariant jobs.Keyed() && jobs.Saved()
        invariant jobs.jobs == FailedOn(was, lost, "node heartbeat timeout", now)
        invariant lost == IdSet(changed[..k])
      {
        var _ := jobs.FailInFlight(changed[k], "", "node heartbeat timeout", true, now);
        FailedOnStep(was, lost, changed[k], "node heartbeat timeout", now);
        IdSetGrows(changed, k);
        lost := lost + {changed[k]};
      }
      assert changed[..|changed|] == changed;
    }

    method HandleEnroll(node: string, serial: string, now: nat) returns (reply: Reply)
      requires Valid() && node != ""
      modifies store
      ensures Valid()
      ensures reply == if old(MayEnroll(View(), node)) then Done else Conflict
      ensures View() == if reply.Done? then AfterEnroll(old(View()), node, serial, now) else old(View())
    {
      if node in store.nodes && store.nodes[node].certSerial != "" && !store.nodes[node].identity.Revoked? {
        return Conflict;
      }
      var _ := store.Upsert(Node(node, [], Joined, "", "", EMPTY_PROFILE, [], None, 0, 0, Certified, serial), now);
      reply := Done;
    }

    method HandleRenew(cert: string, serial: string, now: nat) returns (reply: Reply)
      requires Valid() && cert != ""
      modifies store
      ensures Valid()
      ensures reply.Done? <==> old(Admitted(View(), cert, true))
      ensures View() == if reply.Done? then AfterRenew(old(View()), cert, serial, now) else old(View())
    {
      if cert !in store.nodes {
        return Unauthorized;
      }
      var n := store.nodes[cert];
      if n.identity.Revoked? {
        return Forbidden;
      }
      n := n.(certSerial := serial);
      if n.identity.Certified? {
        n := n.(identity := Active);
      }
      var _ := store.Upsert(n, now);
      reply := Done;
    }

    method HandleAdminIdentity(node: string, identity: NodeIdentity) returns (reply: Reply)
      requires Valid()
      modifies store
      ensures Valid()
      ensures reply == if old(node in View().nodes) then Done else NotFound
      ensures View() == if reply.Done? then AfterSetIdentity(old(View()), node, identity) else old(View())
    {
      var found := store.SetIdentity(node, identity);
      reply := if found then Done else NotFound;
    }

    method HandleSubmit(o: Order, now: nat) returns (reply: Reply)
      requires Valid() && o.id != "" && o.id !in jobs.jobs
      modifies jobs
      ensures Valid()
      ensures reply.Done? <==>
        (o.preferred != "" ==> o.preferred in store.nodes) && NewJob(o.id, o.jobType, o.preferred, o.req, o.payload, now).Accepted?
      ensures View() == if reply.Done? then AfterCreate(old(View()), o, now) else old(View())
    {
      if o.preferred != "" && o.preferred !in store.nodes {
        return BadRequest;
      }
      var r := jobs.Create(o.id, o.jobType, o.preferred, o.req, o.payload, now);
      if r.Rejected? {
        return BadRequest;
      }
      TrySchedule(jobs, store);
      reply := Done;
    }
  }

  ghost function IdSet(ids: seq<string>): set<string> {
    set i | 0 <= i < |ids| :: ids[i]
  }

  lemma IdSetGrows(ids: seq<string>, k: nat)
    requires k < |ids|
    ensures IdSet(ids[..k + 1]) == IdSet(ids[..k]) + {ids[k]}
  {
  }

  lemma FailedOnNone(jobs: JobTable, error: string, now: nat)
    ensures FailedOn(jobs, {}, error, now) == jobs
  {
  }

  lemma FailedOnStep(jobs: JobTable, lost: set<string>, node: string, error: string, now: nat)
    ensures FailedInFlight(FailedOn(jobs, lost, error, now), node, "", error, true, now) == FailedOn(jobs, lost + {node}, error, now)
  {
  }
}
