/** Nodes, workload requirements and the fit test of the scheduler (internal/server/resources.go). */
module Resources {
  import opened ModelIdentity
  import opened Text
  import opened Gpu

  datatype Status = Unset | Joined | Ready | Busy | Draining | Offline | OtherStatus(text: string)

  datatype NodeIdentity = NoIdentity | Certified | Active | Suspended | Revoked | OtherIdentity(text: string)

  datatype StaticGPU = StaticGPU(id: string, uuid: string, vendor: string, name: string,
    memoryTotal: nat, computeCapability: string, pciBusID: string)

  datatype DynamicGPU = DynamicGPU(id: string, memoryUsed: nat, memoryAvailable: nat,
    utilization: Option<int>, utilizationMemory: Option<int>)

  datatype ResourceProfile = ResourceProfile(cpuCores: nat, activeJobs: nat,
    staticGPUs: seq<StaticGPU>, dynamicGPUs: seq<DynamicGPU>)

  const EMPTY_PROFILE := ResourceProfile(0, 0, [], [])

  /** A registered machine. `models` is None when the report carried no list at all. */
  datatype Node = Node(
    nodeID: string,
    gpus: seq<GPU>,
    status: Status,
    agentVersion: string,
    currentJobID: string,
    resources: ResourceProfile,
    modelRuntimes: seq<string>,
    models: Option<seq<Model>>,
    joinedAt: nat,
    lastSeen: nat,
    identity: NodeIdentity,
    certSerial: string)
  {
    function ModelList(): seq<Model> {
      if models.Some? then models.value else []
    }
  }

  datatype Requirements = Requirements(
    gpuRequired: bool,
    minVRAM: nat,
    modelName: string,
    modelTag: string,
    modelRuntime: string,
    requireModelPresent: bool,
    model: string)

  function ModelKey(r: Requirements): Identity {
    if r.modelName == "" && r.model != "" then
      var parsed := ParseRef(r.model);
      Identity(parsed.name, if r.modelTag == "" then parsed.tag else r.modelTag, r.modelRuntime)
    else
      Identity(r.modelName, r.modelTag, r.modelRuntime)
  }

  function FilledFromShorthand(r: Requirements): Requirements {
    if r.modelName == "" && r.model != "" then
      var parsed := ParseRef(r.model);
      r.(modelName := parsed.name, modelTag := if r.modelTag == "" then parsed.tag else r.modelTag)
    else r
  }

  function Normalized(r: Requirements): Requirements {
    var f := FilledFromShorthand(r);
    if f.model == "" && f.modelName != "" then f.(model := Ref(Identity(f.modelName, f.modelTag, ""))) else f
  }

  /** Normalizing twice is normalizing once, and the scheduling key is never touched. */
  lemma NormalizeKeepsKey(r: Requirements)
    ensures ModelKey(Normalized(r)) == ModelKey(r)
    ensures Normalized(Normalized(r)) == Normalized(r)
    ensures ModelKey(r).name != "" ==> Normalized(r).modelName == ModelKey(r).name
  {
    if r.modelName == "" && r.model != "" {
      var parsed := ParseRef(r.model);
      var ref := TrimSpace(r.model);
      if ref != "" {
        var c := LastIndex(ref, ':');
        assert parsed.name != "";
      }
    }
  }

  // ---------------------------------------------------------------- resource profile

  function GpuKey(g: GPU): string {
    if g.id == "" then g.uuid else g.id
  }

  function FreeMemory(g: GPU): nat {
    if g.memoryTotal >= g.memoryUsed then g.memoryTotal - g.memoryUsed else 0
  }

  function StaticOf(g: GPU): StaticGPU {
    StaticGPU(GpuKey(g), g.uuid, g.vendor, g.name, g.memoryTotal, g.computeCapability, g.pciBusID)
  }

  function DynamicOf(g: GPU): DynamicGPU {
    DynamicGPU(GpuKey(g), g.memoryUsed, FreeMemory(g), g.utilization, g.utilizationMemory)
  }

  function ProfileOf(gpus: seq<GPU>, cpuCores: nat, activeJobs: nat): ResourceProfile {
    ResourceProfile(cpuCores, activeJobs,
      seq(|gpus|, i requires 0 <= i < |gpus| => StaticOf(gpus[i])),
      seq(|gpus|, i requires 0 <= i < |gpus| => DynamicOf(gpus[i])))
  }

  method BuildProfile(gpus: seq<GPU>, cpuCores: nat, activeJobs: nat) returns (p: ResourceProfile)
    ensures p == ProfileOf(gpus, cpuCores, activeJobs)
  {
    var statics, dynamics := [], [];
    for k := 0 to |gpus|
      invariant statics == ProfileOf(gpus[..k], cpuCores, activeJobs).staticGPUs
      invariant dynamics == ProfileOf(gpus[..k], cpuCores, activeJobs).dynamicGPUs
    {
      var g := gpus[k];
      var id := g.id;
      if id == "" {
        id := g.uuid;
      }
      statics := statics + [StaticGPU(id, g.uuid, g.vendor, g.name, g.memoryTotal, g.computeCapability, g.pciBusID)];
      var avail := 0;
      if g.memoryTotal >= g.memoryUsed {
        avail := g.memoryTotal - g.memoryUsed;
      }
      dynamics := dynamics + [DynamicGPU(id, g.memoryUsed, avail, g.utilization, g.utilizationMemory)];
    }
    assert gpus[..|gpus|] == gpus;
    p := ResourceProfile(cpuCores, activeJobs, statics, dynamics);
  }

  // ---------------------------------------------------------------- fit test

  /** The GPU rows the fit test looks at: the profile's, or the bare inventory when there is no profile. */
  function SchedulableGPUs(n: Node): (s: seq<StaticGPU>)
    ensures |s| == (if n.resources.staticGPUs == [] then |n.gpus| else |n.resources.staticGPUs|)
  {
    if n.resources.staticGPUs != [] then n.resources.staticGPUs
    else seq(|n.gpus|, i requires 0 <= i < |n.gpus| =>
           StaticGPU(n.gpus[i].id, "", "", "", n.gpus[i].memoryTotal, "", ""))
  }

  /** The live row for a GPU id: the last one reported under that id wins. */
  function LiveRow(rows: seq<DynamicGPU>, id: string): (r: Option<DynamicGPU>)
    ensures r.Some? ==> r.value in rows && r.value.id == id
    ensures r.None? ==> forall d :: d in rows ==> d.id != id
  {
    if rows == [] then None
    else if rows[|rows| - 1].id == id then Some(rows[|rows| - 1])
    else LiveRow(rows[..|rows| - 1], id)
  }

  function UsableMemory(g: StaticGPU, live: Option<DynamicGPU>): nat {
    match live
    case None => g.memoryTotal
    case Some(d) =>
      if d.memoryAvailable > 0 then d.memoryAvailable
      else if g.memoryTotal >= d.memoryUsed then g.memoryTotal - d.memoryUsed
      else g.memoryTotal
  }

  predicate GpuHolds(n: Node, g: StaticGPU, need: nat) {
    UsableMemory(g, LiveRow(n.resources.dynamicGPUs, g.id)) >= need
  }

  predicate SomeGpuHolds(n: Node, need: nat) {
    exists i :: 0 <= i < |SchedulableGPUs(n)| && GpuHolds(n, SchedulableGPUs(n)[i], need)
  }

  predicate HasRuntime(runtimes: seq<string>, want: string) {
    want in runtimes
  }

  predicate ServesModel(n: Node, req: Requirements) {
    var key := ModelKey(req);
    key.name != "" ==>
    && (if key.runtime != "" then HasRuntime(n.modelRuntimes, key.runtime) else n.modelRuntimes != [])
    && (req.requireModelPresent ==> HasModel(n.ModelList(), key))
  }

  /** What it means for a node to satisfy a workload. */
  predicate Fits(n: Node, req: Requirements) {
    && n.status.Ready?
    && (n.identity.NoIdentity? || n.identity.Active?)
    && (req.gpuRequired ==> |SchedulableGPUs(n)| > 0)
    && (req.minVRAM > 0 ==> SomeGpuHolds(n, req.minVRAM))
    && ServesModel(n, req)
  }

  /** The fit test as the scheduler runs it: a map of live rows, then a first-hit scan over the GPUs. */
  method CheckFits(n: Node, req: Requirements) returns (ok: bool)
    ensures ok == Fits(n, req)
  {
    if !n.status.Ready? {
      return false;
    }
    if !n.identity.NoIdentity? && !n.identity.Active? {
      return false;
    }
    var needsGPU := req.gpuRequired || req.minVRAM > 0 || ModelKey(req).name != "";
    var gpus := SchedulableGPUs(n);
    if needsGPU && req.gpuRequired && |gpus| == 0 {
      return false;
    }
    if req.minVRAM > 0 {
      var rows := n.resources.dynamicGPUs;
      var live: map<string, DynamicGPU> := map[];
      for k := 0 to |rows|
        invariant forall id :: if id in live then LiveRow(rows[..k], id) == Some(live[id]) else LiveRow(rows[..k], id) == None
      {
        live := live[rows[k].id := rows[k]];
        assert rows[..k + 1][..k] == rows[..k];
      }
      assert rows[..|rows|] == rows;
      var okVRAM := false;
      var i := 0;
      while i < |gpus| && !okVRAM
        invariant 0 <= i <= |gpus|
        invariant okVRAM ==> SomeGpuHolds(n, req.minVRAM)
        invariant !okVRAM ==> forall k :: 0 <= k < i ==> !GpuHolds(n, gpus[k], req.minVRAM)
        decreases |gpus| - i, !okVRAM
      {
        var g := gpus[i];
        var avail := g.memoryTotal;
        if g.id in live {
          var d := live[g.id];
          if d.memoryAvailable > 0 {
            avail := d.memoryAvailable;
          } else if g.memoryTotal >= d.memoryUsed {
            avail := g.memoryTotal - d.memoryUsed;
          }
        }
        assert avail == UsableMemory(g, LiveRow(rows, g.id));
        if avail >= req.minVRAM {
          assert GpuHolds(n, SchedulableGPUs(n)[i], req.minVRAM);
          okVRAM := true;
        }
        i := i + 1;
      }
      if !okVRAM {
        return false;
      }
    }
    var key := ModelKey(req);
    if key.name == "" {
      return true;
    }
    if key.runtime != "" {
      if !HasRuntime(n.modelRuntimes, key.runtime) {
        return false;
      }
    } else if |n.modelRuntimes| == 0 {
      return false;
    }
    var has := HasModel(n.ModelList(), key);
    if req.requireModelPresent {
      return has;
    }
    return has || |n.modelRuntimes| > 0;
  }

  function ModelScore(n: Node, req: Requirements): (score: nat)
    ensures score <= 110
  {
    var key := ModelKey(req);
    if key.name == "" then 0
    else
      (if IsLoaded(n.ModelList(), key) then 100 else if HasModel(n.ModelList(), key) then 50 else 0) +
      (if key.runtime != "" then (if HasRuntime(n.modelRuntimes, key.runtime) then 10 else 0)
       else if n.modelRuntimes != [] then 10 else 0)
  }

  /** Locality preference: among nodes that fit a model job, one where the model is loaded always
      outranks one where it is merely on disk, which outranks one that would have to pull it. */
  lemma LocalityRanksNodes(a: Node, b: Node, req: Requirements)
    requires Fits(a, req) && Fits(b, req) && ModelKey(req).name != ""
    ensures ModelScore(a, req) > ModelScore(b, req) <==>
            (IsLoaded(a.ModelList(), ModelKey(req)) && !IsLoaded(b.ModelList(), ModelKey(req))) ||
            (HasModel(a.ModelList(), ModelKey(req)) && !HasModel(b.ModelList(), ModelKey(req)))
  {
    var key := ModelKey(req);
    assert IsLoaded(a.ModelList(), key) ==> HasModel(a.ModelList(), key);
    assert IsLoaded(b.ModelList(), key) ==> HasModel(b.ModelList(), key);
  }
}
