/** The route handler, and whether the job it creates can be placed where the router pointed
    (internal/server/route.go, server.go, against resources.go and scheduler.go). */
module RoutedJobs {
  import opened Text
  import opened ModelIdentity
  import opened Gpu
  import opened Resources
  import opened Jobs
  import opened Nodes
  import opened Catalog
  import opened Routing
  import opened Router
  import opened Plane
  import Scheduler
  import Guarantees = RouteGuarantees
  import RouteFacts

  // ---------------------------------------------------------------- the router's view of a node

  /** The router sees the first GPU only. */
  function ViewOf(n: Node): NodeView {
    var total := if n.resources.staticGPUs != [] then n.resources.staticGPUs[0].memoryTotal
                 else if n.gpus != [] then n.gpus[0].memoryTotal else 0;
    NodeView(n.nodeID, n.status, n.modelRuntimes, n.ModelList(), total,
             if n.resources.dynamicGPUs != [] then n.resources.dynamicGPUs[0].memoryAvailable else total)
  }

  function ViewsOf(list: seq<Node>): seq<NodeView> {
    seq(|list|, i requires 0 <= i < |list| => ViewOf(list[i]))
  }

  method NodesToViews(list: seq<Node>) returns (out: seq<NodeView>)
    ensures out == ViewsOf(list)
  {
    out := [];
    for k := 0 to |list|
      invariant out == ViewsOf(list[..k])
    {
      var n := list[k];
      var total, available := 0, 0;
      if |n.resources.staticGPUs| > 0 {
        total := n.resources.staticGPUs[0].memoryTotal;
      } else if |n.gpus| > 0 {
        total := n.gpus[0].memoryTotal;
      }
      if |n.resources.dynamicGPUs| > 0 {
        available := n.resources.dynamicGPUs[0].memoryAvailable;
      } else if total > 0 {
        available := total;
      }
      out := out + [NodeView(n.nodeID, n.status, n.modelRuntimes, n.ModelList(), total, available)];
    }
    assert list[..|list|] == list;
  }

  // ---------------------------------------------------------------- the handler

  datatype RouteCall = RouteCall(id: string, prompt: string, analyzed: TaskProfile, catalog: seq<CatalogEntry>,
    runtime: string, preferred: string, requirePresent: bool, execute: bool)

  function RequestOf(call: RouteCall, views: seq<NodeView>): RouteRequest {
    RouteRequest(call.analyzed, call.catalog, views, true, !call.requirePresent, call.requirePresent, call.runtime, false, false, false)
  }

  /** The requirements the handler derives from the selected entry. */
  function JobNeeds(e: CatalogEntry, runtime: string, requirePresent: bool): Requirements {
    Normalized(Requirements(true, e.minVRAM, e.name, e.tag, if runtime != "" then runtime else e.runtime, requirePresent, ""))
  }

  /** The decision as it is answered: a node the caller prefers takes the place of the router's. */
  function Pinned(d: Decision, preferred: string): Decision {
    if preferred != "" && d.selected.Some? then d.(selected := Some(d.selected.value.(nodeID := preferred))) else d
  }

  function OrderOf(call: RouteCall, e: CatalogEntry, node: string): Order {
    Order(call.id, Inference, node, JobNeeds(e, call.runtime, call.requirePresent), map["prompt" := call.prompt, "model" := EntryRef(e)])
  }

  ghost function AfterRoute(s: State, call: RouteCall, d: Decision, now: nat): State {
    if d.selected.None? then s else AfterCreate(s, OrderOf(call, d.selected.value.entry, d.selected.value.nodeID), now)
  }

  method BuildOrder(call: RouteCall, e: CatalogEntry, node: string) returns (o: Order)
    ensures o == OrderOf(call, e, node)
  {
    var runtime := e.runtime;
    if call.runtime != "" {
      runtime := call.runtime;
    }
    var needs := Requirements(true, e.minVRAM, e.name, e.tag, runtime, call.requirePresent, "");
    o := Order(call.id, Inference, node, Normalized(needs), map["prompt" := call.prompt, "model" := EntryRef(e)]);
  }

  /** The job the handler creates is accepted whenever the selected entry has a name. */
  lemma OrderAcceptedIff(call: RouteCall, e: CatalogEntry, node: string, now: nat)
    requires call.prompt != ""
    ensures var o := OrderOf(call, e, node);
            NewJob(o.id, o.jobType, o.preferred, o.req, o.payload, now).Accepted? <==> e.name != ""
  {
    var raw := Requirements(true, e.minVRAM, e.name, e.tag, if call.runtime != "" then call.runtime else e.runtime, call.requirePresent, "");
    NormalizeKeepsKey(raw);
    NormalizeKeepsKey(Normalized(raw));
  }

  /** What the handler answers a call once the decision is made. */
  function RouteReply(call: RouteCall, d: Decision): Reply {
    if !call.execute then Done
    else if d.deferred || d.selected.None? then Conflict
    else if d.selected.value.entry.name == "" then BadRequest
    else Done
  }

  /** The routing half: the registry listed and viewed, the decision made and pinned. */
  method DecideRoute(st: Store, call: RouteCall) returns (d: Decision, ghost list: seq<Node>)
    requires st.Keyed()
    ensures NodeList(list, st.nodes) && d == Pinned(Decide(RequestOf(call, ViewsOf(list))), call.preferred)
  {
    var nodes := st.List();
    list := nodes;
    var views := NodesToViews(nodes);
    d := Route(RequestOf(call, views));
    if call.preferred != "" && d.selected.Some? {
      d := d.(selected := Some(d.selected.value.(nodeID := call.preferred)));
    }
  }

  method HandleRoute(s: Server, call: RouteCall, now: nat) returns (reply: Reply, d: Option<Decision>, ghost list: seq<Node>)
    requires s.Valid() && call.id != "" && call.id !in s.jobs.jobs
    modifies s.jobs
    ensures s.Valid()
    ensures TrimSpace(call.prompt) == "" ==> reply == BadRequest && d == None && s.View() == old(s.View())
    ensures TrimSpace(call.prompt) != "" ==>
              && NodeList(list, s.store.nodes)
              && d == Some(Pinned(Decide(RequestOf(call, ViewsOf(list))), call.preferred))
              && reply == RouteReply(call, d.value)
              && s.View() == if call.execute && reply.Done? then AfterRoute(old(s.View()), call, d.value, now) else old(s.View())
  {
    list := [];
    if TrimSpace(call.prompt) == "" {
      return BadRequest, None, list;
    }
    var decision;
    decision, list := DecideRoute(s.store, call);
    d := Some(decision);
    if !call.execute {
      return Done, d, list;
    }
    if decision.deferred || decision.selected.None? {
      return Conflict, d, list;
    }
    var sel := decision.selected.value;
    var o := BuildOrder(call, sel.entry, sel.nodeID);
    var r := s.jobs.Create(o.id, o.jobType, o.preferred, o.req, o.payload, now);
    OrderAcceptedIff(call, sel.entry, sel.nodeID, now);
    if r.Rejected? {
      return BadRequest, d, list;
    }
    Scheduler.TrySchedule(s.jobs, s.store);
    reply := Done;
  }

  // ---------------------------------------------------------------- agreement with the scheduler

  lemma {:induction false} LiveRowAt(rows: seq<DynamicGPU>, i: nat)
    requires i < |rows| && forall a, b :: 0 <= a < b < |rows| ==> rows[a].id != rows[b].id
    ensures LiveRow(rows, rows[i].id) == Some(rows[i])
  {
    if i < |rows| - 1 {
      LiveRowAt(rows[..|rows| - 1], i);
    }
  }

  /** The registry row carries the profile of its own GPUs, each under an id of its own. */
  ghost predicate SoundInventory(n: Node) {
    && n.gpus != []
    && n.resources.staticGPUs == ProfileOf(n.gpus, 0, 0).staticGPUs
    && n.resources.dynamicGPUs == ProfileOf(n.gpus, 0, 0).dynamicGPUs
    && forall i, j :: 0 <= i < j < |n.gpus| ==> GpuKey(n.gpus[i]) != GpuKey(n.gpus[j])
  }

  ghost predicate DistinctGpus(gpus: seq<GPU>) {
    gpus != [] && forall i, j :: 0 <= i < j < |gpus| ==> GpuKey(gpus[i]) != GpuKey(gpus[j])
  }

  /** Which is what a report of distinct GPUs leaves behind, by join or by heartbeat. */
  lemma ReportsMakeSoundInventories(s: State, r: Report, now: nat)
    requires DistinctGpus(r.gpus)
    ensures SoundInventory(AfterJoin(s, r, now).nodes[r.nodeID])
    ensures r.nodeID in s.nodes ==> SoundInventory(AfterHeartbeat(s, r, now).nodes[r.nodeID])
  {
    var joined := AfterJoin(s, r, now).nodes[r.nodeID];
    assert joined.gpus == r.gpus && joined.resources.staticGPUs == ProfileOf(r.gpus, 0, 0).staticGPUs;
    if r.nodeID in s.nodes {
      var heard := AfterHeartbeat(s, r, now).nodes[r.nodeID];
      assert heard.gpus == r.gpus && heard.resources.staticGPUs == ProfileOf(r.gpus, 0, 0).staticGPUs;
    }
  }

  /** What the scheduler counts as usable on one GPU. */
  function Usable(g: GPU): nat {
    if FreeMemory(g) > 0 then FreeMemory(g) else if g.memoryTotal >= g.memoryUsed then 0 else g.memoryTotal
  }

  lemma GpuHoldsUsable(n: Node, i: nat, need: nat)
    requires SoundInventory(n) && i < |n.gpus|
    ensures |SchedulableGPUs(n)| == |n.gpus|
    ensures GpuHolds(n, SchedulableGPUs(n)[i], need) <==> Usable(n.gpus[i]) >= need
  {
    var rows := n.resources.dynamicGPUs;
    LiveRowAt(rows, i);
    assert SchedulableGPUs(n)[i] == StaticOf(n.gpus[i]) && rows[i] == DynamicOf(n.gpus[i]);
  }

  lemma SomeGpuHoldsUsable(n: Node, need: nat)
    requires SoundInventory(n)
    ensures SomeGpuHolds(n, need) <==> exists i :: 0 <= i < |n.gpus| && Usable(n.gpus[i]) >= need
  {
    GpuHoldsUsable(n, 0, need);
    if k :| 0 <= k < |SchedulableGPUs(n)| && GpuHolds(n, SchedulableGPUs(n)[k], need) {
      GpuHoldsUsable(n, k, need);
    }
    if i :| 0 <= i < |n.gpus| && Usable(n.gpus[i]) >= need {
      GpuHoldsUsable(n, i, need);
    }
  }

  /** What the router leaves unchecked about memory: that the first GPU has any left, or that another one will do. */
  ghost predicate HasRoom(n: Node, need: nat)
    requires n.gpus != []
  {
    || need == 0
    || FreeMemory(n.gpus[0]) > 0
    || n.gpus[0].memoryUsed > n.gpus[0].memoryTotal > 0
    || exists i :: 1 <= i < |n.gpus| && Usable(n.gpus[i]) >= need
  }

  lemma MemoryAgreement(n: Node, e: CatalogEntry, req: RouteRequest)
    requires SoundInventory(n) && PairAllowed(e, ViewOf(n), req)
    ensures (e.minVRAM > 0 ==> SomeGpuHolds(n, e.minVRAM)) <==> HasRoom(n, e.minVRAM)
  {
    SomeGpuHoldsUsable(n, e.minVRAM);
    assert n.resources.staticGPUs[0] == StaticOf(n.gpus[0]) && n.resources.dynamicGPUs[0] == DynamicOf(n.gpus[0]);
    if e.minVRAM > 0 && (FreeMemory(n.gpus[0]) > 0 || n.gpus[0].memoryUsed > n.gpus[0].memoryTotal > 0) {
      assert Usable(n.gpus[0]) >= e.minVRAM;
    }
  }

  /** A pair the router lets through fits the scheduler's test exactly when the node is READY to the
      letter, its identity is in good standing and it has room. */
  lemma RoutedFitsIff(n: Node, e: CatalogEntry, req: RouteRequest)
    requires SoundInventory(n) && PairAllowed(e, ViewOf(n), req)
    ensures Fits(n, JobNeeds(e, req.preferredRuntime, req.requirePresent)) <==>
            n.status.Ready? && (n.identity.NoIdentity? || n.identity.Active?) && HasRoom(n, e.minVRAM)
  {
    var needs := JobNeeds(e, req.preferredRuntime, req.requirePresent);
    MemoryAgreement(n, e, req);
    GpuHoldsUsable(n, 0, 0);
    assert ModelKey(needs) == PairKey(e, req) by {
      NormalizeKeepsKey(Requirements(true, e.minVRAM, e.name, e.tag,
        if req.preferredRuntime != "" then req.preferredRuntime else e.runtime, req.requirePresent, ""));
    }
    assert ServesModel(n, needs);
  }

  /** A job pinned to one node goes there or nowhere. */
  lemma PinnedChoice(nodes: NodeTable, j: Job, node: string)
    requires Scheduler.KeyedNodes(nodes) && node != "" && j.preferredNodeID == node && j.nodeID == ""
    ensures Scheduler.Choice(nodes, j) == if node in nodes && Fits(nodes[node], j.requirements) then node else ""
  {
    Scheduler.ChoiceIsBest(nodes, j);
    if node in nodes && Fits(nodes[node], j.requirements) {
      assert Scheduler.Candidate(nodes[node], j);
    }
  }

  /** The job the handler creates for the selection: it is accepted, and carries the derived needs. */
  lemma OrderAccepted(call: RouteCall, e: CatalogEntry, node: string, now: nat)
    requires e.name != "" && call.prompt != ""
    ensures var o := OrderOf(call, e, node); var r := NewJob(o.id, o.jobType, o.preferred, o.req, o.payload, now);
            && r.Accepted? && r.job.status.Queued? && r.job.preferredNodeID == node && r.job.nodeID == ""
            && r.job.requirements == JobNeeds(e, call.runtime, call.requirePresent)
  {
    var raw := Requirements(true, e.minVRAM, e.name, e.tag, if call.runtime != "" then call.runtime else e.runtime, call.requirePresent, "");
    NormalizeKeepsKey(raw);
    NormalizeKeepsKey(Normalized(raw));
  }

  /** The order carries the prompt as it came and the reference of the selected model, for an inference. */
  lemma OrderCarries(call: RouteCall, e: CatalogEntry, node: string)
    ensures var o := OrderOf(call, e, node);
            && o.id == call.id && o.jobType == Inference && o.preferred == node
            && o.payload.Keys == {"prompt", "model"} && o.payload["prompt"] == call.prompt
            && o.payload["model"] == if e.tag == "" then e.name else e.name + ":" + e.tag
  {
  }

  lemma RankedPairOf(call: RouteCall, list: seq<Node>, s: State) returns (n: Node)
    requires NodeList(list, s.nodes)
    requires var d := Decide(RequestOf(call, ViewsOf(list))); d.selected.Some? && !d.usedFallback
    ensures var req := RequestOf(call, ViewsOf(list)); var c := Decide(req).selected.value;
            c.nodeID in s.nodes && s.nodes[c.nodeID] == n && PairAllowed(c.entry, ViewOf(n), req)
  {
    var req := RequestOf(call, ViewsOf(list));
    var c := Decide(req).selected.value;
    Guarantees.SelectionIsListed(req);
    Guarantees.RankedExactly(req, c);
    var e, v :| Guarantees.IsPair(c, e, v, req);
    var i :| 0 <= i < |ViewsOf(list)| && ViewsOf(list)[i] == v;
    n := list[i];
  }

  /** The router points this handler at READY nodes only, never at a BUSY, JOINED, DRAINING or OFFLINE one. */
  lemma RoutedNodeIsReady(call: RouteCall, list: seq<Node>) returns (n: Node)
    requires Decide(RequestOf(call, ViewsOf(list))).selected.Some?
    ensures n in list && n.nodeID == Decide(RequestOf(call, ViewsOf(list))).selected.value.nodeID
    ensures n.status == Ready || (n.status.OtherStatus? && EqualFold(n.status.text, "READY"))
  {
    var req := RequestOf(call, ViewsOf(list));
    Guarantees.SelectionIsListed(req);
    var v := RouteFacts.CandidatesTakePart(req, Decide(req).selected.value);
    var i :| 0 <= i < |ViewsOf(list)| && ViewsOf(list)[i] == v;
    n := list[i];
  }

  // ---------------------------------------------------------------- any selection, the fallback's included

  function RuntimeFor(e: CatalogEntry, preferred: string): string {
    if preferred != "" then preferred else e.runtime
  }

  /** What the scheduler asks of a node before it takes a job for the entry, in terms of its row. */
  ghost predicate CanTake(n: Node, e: CatalogEntry, preferred: string, requirePresent: bool) {
    var runtime := RuntimeFor(e, preferred);
    && n.status.Ready? && (n.identity.NoIdentity? || n.identity.Active?)
    && (if runtime != "" then runtime in n.modelRuntimes else n.modelRuntimes != [])
    && (e.minVRAM > 0 ==> exists i :: 0 <= i < |n.gpus| && Usable(n.gpus[i]) >= e.minVRAM)
    && (requirePresent ==> HasModel(n.ModelList(), Identity(e.name, e.tag, runtime)))
  }

  lemma FitsIff(n: Node, e: CatalogEntry, preferred: string, requirePresent: bool)
    requires SoundInventory(n) && e.name != ""
    ensures Fits(n, JobNeeds(e, preferred, requirePresent)) <==> CanTake(n, e, preferred, requirePresent)
  {
    var raw := Requirements(true, e.minVRAM, e.name, e.tag, RuntimeFor(e, preferred), requirePresent, "");
    NormalizeKeepsKey(raw);
    GpuHoldsUsable(n, 0, 0);
    SomeGpuHoldsUsable(n, e.minVRAM);
  }

  /** The node of a selection, ranked or fallback, is one of those listed. */
  lemma SelectionIsRegistered(call: RouteCall, list: seq<Node>, s: State)
    requires NodeList(list, s.nodes) && Decide(RequestOf(call, ViewsOf(list))).selected.Some?
    ensures Decide(RequestOf(call, ViewsOf(list))).selected.value.nodeID in s.nodes
  {
    var req := RequestOf(call, ViewsOf(list));
    Guarantees.SelectionIsListed(req);
    var v := Guarantees.GatesHold(req, Decide(req).selected.value);
    var i :| 0 <= i < |ViewsOf(list)| && ViewsOf(list)[i] == v;
    assert list[i].nodeID == v.nodeID;
  }

  /** What the handler answers and executes: the router's decision, moved to the node the caller prefers. */
  function Answered(call: RouteCall, list: seq<Node>): Decision {
    Pinned(Decide(RequestOf(call, ViewsOf(list))), call.preferred)
  }

  /** The situations the handler executes: something is selected, and the selected node, if it is
      registered at all, has a sound inventory. */
  ghost predicate Executes(s: State, call: RouteCall, list: seq<Node>) {
    && Scheduler.KeyedNodes(s.nodes) && NodeList(list, s.nodes) && call.prompt != ""
    && var d := Answered(call, list);
       && d.selected.Some? && d.selected.value.entry.name != ""
       && (d.selected.value.nodeID in s.nodes ==> SoundInventory(s.nodes[d.selected.value.nodeID]))
  }

  lemma AnsweredNode(s: State, call: RouteCall, list: seq<Node>)
    requires Executes(s, call, list)
    ensures var node := Answered(call, list).selected.value.nodeID;
            node != "" && (call.preferred == "" ==> node in s.nodes)
  {
    SelectionIsRegistered(call, list, s);
  }

  /** Whatever is selected, by rank or by fallback or moved to the caller's own choice of node: the handler
      leaves the job pending on the selected node exactly when that node is registered, READY, in good
      standing, lists the preferred or else the entry's runtime, has a GPU with usable memory enough, and
      holds the model under that runtime if it must. */
  lemma SelectedJobLandsIff(s: State, call: RouteCall, list: seq<Node>, now: nat)
    requires Executes(s, call, list)
    ensures var d := Answered(call, list); var c := d.selected.value;
            var after := AfterRoute(s, call, d, now);
            && call.id in after.jobs && after.nodes == s.nodes
            && if c.nodeID in s.nodes && CanTake(s.nodes[c.nodeID], c.entry, call.runtime, call.requirePresent)
               then PendsOn(after.jobs, call.id, c.nodeID) else after.jobs[call.id].status.Queued?
  {
    var c := Answered(call, list).selected.value;
    AnsweredNode(s, call, list);
    if c.nodeID in s.nodes {
      FitsIff(s.nodes[c.nodeID], c.entry, call.runtime, call.requirePresent);
    }
    PinnedOrderLands(s, call, c.entry, c.nodeID, now);
  }

  /** The job of an order for one node: pending there if the node fits, queued otherwise. */
  lemma PinnedOrderLands(s: State, call: RouteCall, e: CatalogEntry, node: string, now: nat)
    requires Scheduler.KeyedNodes(s.nodes) && node != "" && call.prompt != "" && e.name != ""
    ensures var after := AfterCreate(s, OrderOf(call, e, node), now);
            && call.id in after.jobs && after.nodes == s.nodes
            && if node in s.nodes && Fits(s.nodes[node], JobNeeds(e, call.runtime, call.requirePresent))
               then PendsOn(after.jobs, call.id, node) else after.jobs[call.id].status.Queued?
  {
    OrderAccepted(call, e, node, now);
    var o := OrderOf(call, e, node);
    PinnedChoice(s.nodes, NewJob(o.id, o.jobType, o.preferred, o.req, o.payload, now).job, node);
  }

  /** Routed implies schedulable, exactly: a job ranked first on a node of sound inventory, and left there
      by the caller, is pending on that very node if and only if the node is READY, in good standing and
      has room; otherwise it stays queued. */
  lemma RoutedJobLandsIff(s: State, call: RouteCall, list: seq<Node>, now: nat)
    requires Executes(s, call, list)
    requires var d := Decide(RequestOf(call, ViewsOf(list)));
             !d.usedFallback && (call.preferred == "" || call.preferred == d.selected.value.nodeID)
    ensures var d := Answered(call, list); var node := d.selected.value.nodeID;
            var after := AfterRoute(s, call, d, now);
            && node in s.nodes && call.id in after.jobs && after.nodes == s.nodes
            && var n := s.nodes[node];
               var lands := n.status.Ready? && (n.identity.NoIdentity? || n.identity.Active?) && HasRoom(n, d.selected.value.entry.minVRAM);
               if lands then PendsOn(after.jobs, call.id, node) else after.jobs[call.id].status.Queued?
  {
    var req := RequestOf(call, ViewsOf(list));
    var c := Decide(req).selected.value;
    var n := RankedPairOf(call, list, s);
    RoutedFitsIff(n, c.entry, req);
    PinnedOrderLands(s, call, c.entry, c.nodeID, now);
  }

  /** The caller's own choice is not examined by the router at all: on a node that is not registered the
      job waits, whatever was selected. */
  lemma UnknownNodeStaysQueued(s: State, call: RouteCall, list: seq<Node>, now: nat)
    requires Executes(s, call, list) && call.preferred != "" && call.preferred !in s.nodes
    ensures var after := AfterRoute(s, call, Answered(call, list), now);
            && call.id in after.jobs && after.jobs[call.id].status.Queued?
            && after.jobs[call.id].preferredNodeID == call.preferred
  {
    var c := Answered(call, list).selected.value;
    SelectedJobLandsIff(s, call, list, now);
    OrderAccepted(call, c.entry, c.nodeID, now);
  }

  /** A preferred runtime that no node lists leaves nothing but a fallback, and the job of a fallback
      then stays queued, whatever node it names. */
  lemma UnlistedRuntimeStaysQueued(s: State, call: RouteCall, list: seq<Node>, now: nat)
    requires Executes(s, call, list)
    requires call.runtime != "" && forall i :: 0 <= i < |list| ==> call.runtime !in list[i].modelRuntimes
    ensures var d := Answered(call, list);
            && d.usedFallback
            && call.id in AfterRoute(s, call, d, now).jobs && AfterRoute(s, call, d, now).jobs[call.id].status.Queued?
  {
    var req := RequestOf(call, ViewsOf(list));
    Guarantees.NothingRanked(req);
    SelectedJobLandsIff(s, call, list, now);
    var node := Answered(call, list).selected.value.nodeID;
    assert node in s.nodes ==> s.nodes[node] in list;
  }

  /** The gap: a lone GPU that is exactly full passes the router's memory gate on its total, and fails
      the scheduler's on what is left. */
  lemma FullGpuIsRoutedButDoesNotFit(n: Node, e: CatalogEntry, req: RouteRequest)
    requires SoundInventory(n) && |n.gpus| == 1 && n.gpus[0].memoryUsed == n.gpus[0].memoryTotal >= e.minVRAM > 0
    requires PairAllowed(e.(minVRAM := 0), ViewOf(n), req)
    ensures PairAllowed(e, ViewOf(n), req)
    ensures !Fits(n, JobNeeds(e, req.preferredRuntime, req.requirePresent))
  {
    assert n.resources.staticGPUs[0] == StaticOf(n.gpus[0]) && n.resources.dynamicGPUs[0] == DynamicOf(n.gpus[0]);
    RoutedFitsIff(n, e, req);
  }
}
