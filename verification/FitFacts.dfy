/** What the fit test and the scheduling pass amount to, told of the registry rows' own fields. */
module FitFacts {
  import opened Text
  import opened ModelIdentity
  import opened Resources
  import opened Jobs
  import opened Nodes
  import opened Scheduler

  predicate HasGpu(n: Node) {
    n.gpus != [] || n.resources.staticGPUs != []
  }

  /** Row k is the last live row under this id. */
  ghost predicate LastLive(rows: seq<DynamicGPU>, id: string, k: int) {
    0 <= k < |rows| && rows[k].id == id && forall j :: k < j < |rows| ==> rows[j].id != id
  }

  /** A card of this size with live figures d: what is available, else what is not in use, else all of it. */
  predicate LiveRoom(total: nat, d: DynamicGPU, need: nat) {
    if d.memoryAvailable != 0 then need <= d.memoryAvailable
    else if d.memoryUsed <= total then need + d.memoryUsed <= total
    else need <= total
  }

  /** Room on a card: by its last live row, or by its size where there is none. */
  ghost predicate CardHolds(n: Node, id: string, total: nat, need: nat) {
    var rows := n.resources.dynamicGPUs;
    if exists d :: d in rows && d.id == id then exists k :: LastLive(rows, id, k) && LiveRoom(total, rows[k], need)
    else need <= total
  }

  /** Room on the cards of the profile or, without any there, on those of the bare inventory. */
  ghost predicate SomeCardHolds(n: Node, need: nat) {
    var cards := n.resources.staticGPUs;
    || (exists i :: 0 <= i < |cards| && CardHolds(n, cards[i].id, cards[i].memoryTotal, need))
    || (cards == [] && exists i :: 0 <= i < |n.gpus| && CardHolds(n, n.gpus[i].id, n.gpus[i].memoryTotal, need))
  }

  /** The model asked for: by name and tag, or by a reference that fills what they leave open. */
  function Wanted(req: Requirements): Identity {
    var short := ParseRef(req.model);
    Identity(if req.modelName != "" then req.modelName else short.name,
             if req.modelTag != "" || req.modelName != "" then req.modelTag else short.tag,
             req.modelRuntime)
  }

  /** What a node must offer, whatever is asked of it. */
  ghost predicate CanRun(n: Node, req: Requirements) {
    && n.status == Ready && (n.identity == Active || n.identity == NoIdentity)
    && (req.gpuRequired ==> HasGpu(n))
    && (req.minVRAM > 0 ==> SomeCardHolds(n, req.minVRAM))
    && (Wanted(req).name == "" ||
        (&& (if req.modelRuntime == "" then |n.modelRuntimes| > 0 else req.modelRuntime in n.modelRuntimes)
         && (req.requireModelPresent ==> HasModel(n.ModelList(), Wanted(req)))))
  }

  lemma WantedIsKey(req: Requirements)
    ensures Wanted(req).name == ModelKey(req).name
    ensures Wanted(req).name != "" ==> Wanted(req) == ModelKey(req)
  {
    assert TrimSpace("") == "";
  }

  /** Row k is the last live row under this id: as before, unless the new last row is under it. */
  lemma LastLiveStep(rows: seq<DynamicGPU>, id: string, k: int)
    requires rows != []
    ensures LastLive(rows, id, k) <==>
            if rows[|rows| - 1].id == id then k == |rows| - 1 else LastLive(rows[..|rows| - 1], id, k)
  {
    var init := rows[..|rows| - 1];
    assert forall j :: 0 <= j < |init| ==> init[j] == rows[j];
  }

  lemma {:induction false} LiveRowIsLast(rows: seq<DynamicGPU>, id: string)
    ensures forall k :: LastLive(rows, id, k) ==> 0 <= k < |rows| && LiveRow(rows, id) == Some(rows[k])
    ensures LiveRow(rows, id).Some? ==> exists k :: LastLive(rows, id, k)
  {
    hide LastLive;
    if rows == [] {
      NoneLive(id);
    } else {
      var init := rows[..|rows| - 1];
      LiveRowIsLast(init, id);
      forall k
        ensures LastLive(rows, id, k) <==> if rows[|rows| - 1].id == id then k == |rows| - 1 else LastLive(init, id, k)
      {
        LastLiveStep(rows, id, k);
      }
      assert LastLive(rows, id, |rows| - 1) || rows[|rows| - 1].id != id;
    }
  }

  lemma NoneLive(id: string)
    ensures forall k :: !LastLive([], id, k)
  {
  }

  lemma CardHoldsIff(n: Node, g: StaticGPU, need: nat)
    ensures GpuHolds(n, g, need) <==> CardHolds(n, g.id, g.memoryTotal, need)
  {
    LiveRowIsLast(n.resources.dynamicGPUs, g.id);
  }

  lemma SomeCardHoldsIff(n: Node, need: nat)
    ensures SomeGpuHolds(n, need) <==> SomeCardHolds(n, need)
  {
    var all, cards := SchedulableGPUs(n), n.resources.staticGPUs;
    forall i | 0 <= i < |all|
      ensures GpuHolds(n, all[i], need) <==>
              if cards == [] then CardHolds(n, n.gpus[i].id, n.gpus[i].memoryTotal, need)
              else CardHolds(n, cards[i].id, cards[i].memoryTotal, need)
    {
      CardHoldsIff(n, all[i], need);
    }
  }

  /** The fit test, for every node and every requirement. */
  lemma FitsExactlyIff(n: Node, req: Requirements)
    ensures Fits(n, req) <==> CanRun(n, req)
  {
    SomeCardHoldsIff(n, req.minVRAM);
    WantedIsKey(req);
  }

  // ---------------------------------------------------------------- the pass

  /** The job may go to the node: its pins, if any, name it, and it can run the job. */
  ghost predicate MayTake(n: Node, j: Job) {
    && (j.preferredNodeID == "" || j.preferredNodeID == n.nodeID) && (j.nodeID == "" || j.nodeID == n.nodeID)
    && CanRun(n, j.requirements)
  }

  lemma MayTakeIff(n: Node, j: Job)
    ensures Candidate(n, j) <==> MayTake(n, j)
  {
    FitsExactlyIff(n, j.requirements);
  }

  /** How near the model is: loaded, on disk, or to be pulled. */
  function Nearness(n: Node, j: Job): nat {
    var want := Wanted(j.requirements);
    if want.name == "" then 0
    else if IsLoaded(n.ModelList(), want) then 2
    else if HasModel(n.ModelList(), want) then 1
    else 0
  }

  lemma BeatsIff(a: Node, b: Node, j: Job)
    requires MayTake(a, j) && MayTake(b, j)
    ensures Beats(a, b, j.requirements) <==>
            Nearness(a, j) > Nearness(b, j) || (Nearness(a, j) == Nearness(b, j) && Less(a.nodeID, b.nodeID))
  {
    WantedIsKey(j.requirements);
  }

  /** No other node that may take the job has the model nearer, and none as near has a smaller id. */
  ghost predicate Nearest(nodes: NodeTable, j: Job, node: string) {
    && node in nodes && MayTake(nodes[node], j)
    && forall k :: k in nodes && k != node && MayTake(nodes[k], j) ==>
         Nearness(nodes[node], j) > Nearness(nodes[k], j) || (Nearness(nodes[node], j) == Nearness(nodes[k], j) && Less(node, k))
  }

  lemma BestIsNearest(nodes: NodeTable, j: Job, node: string)
    requires KeyedNodes(nodes) && IsBest(nodes, j, node)
    ensures Nearest(nodes, j, node)
  {
    MayTakeIff(nodes[node], j);
    forall k | k in nodes && k != node && MayTake(nodes[k], j)
      ensures Nearness(nodes[node], j) > Nearness(nodes[k], j) || (Nearness(nodes[node], j) == Nearness(nodes[k], j) && Less(node, k))
    {
      MayTakeIff(nodes[k], j);
      BeatsIff(nodes[node], nodes[k], j);
    }
  }

  /** A pass, job by job: a queued job goes to the nearest node that may take it and then only its status
      and node have changed, or it stays queued and no node may take it; every other job is as it was. */
  lemma PassSpelledOut(jobs: JobTable, nodes: NodeTable, id: string)
    requires KeyedNodes(nodes) && id in jobs
    ensures id in Scheduled(jobs, nodes)
    ensures var j, k := jobs[id], Scheduled(jobs, nodes)[id];
            if j.status != Queued then k == j
            else if exists n :: n in nodes && MayTake(nodes[n], j) then Nearest(nodes, j, k.nodeID) && k == j.(status := Pending, nodeID := k.nodeID)
            else k == j
  {
    var j := jobs[id];
    PassIsComplete(jobs, nodes, id);
    ChoiceIsBest(nodes, j);
    forall n | n in nodes
      ensures Candidate(nodes[n], j) <==> MayTake(nodes[n], j)
    {
      MayTakeIff(nodes[n], j);
    }
    if Choice(nodes, j) != "" {
      BestIsNearest(nodes, j, Choice(nodes, j));
    }
  }

  /** So no job that needs a GPU is sent to a node without one. */
  lemma NoGpuJobGoesAstray(jobs: JobTable, nodes: NodeTable, id: string)
    requires KeyedNodes(nodes) && id in jobs && jobs[id].requirements.gpuRequired && Scheduled(jobs, nodes)[id] != jobs[id]
    ensures var node := Scheduled(jobs, nodes)[id].nodeID; node in nodes && HasGpu(nodes[node])
  {
    PassSpelledOut(jobs, nodes, id);
  }
}
