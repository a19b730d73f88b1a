/** How the router judges one (model, node) pair: gates and score (internal/routing/router.go). */
module Routing {
  import opened Text
  import opened ModelIdentity
  import opened Resources
  import opened Catalog

  datatype NodeView = NodeView(nodeID: string, status: Status, modelRuntimes: seq<string>,
    models: seq<Model>, vramTotal: nat, vramAvailable: nat)

  /** `analyzed` is what the prompt analyzer made of the prompt. */
  datatype RouteRequest = RouteRequest(analyzed: TaskProfile, catalog: seq<CatalogEntry>, nodes: seq<NodeView>,
    preferLoaded: bool, allowPull: bool, requirePresent: bool, preferredRuntime: string,
    imageAttached: bool, requireTools: bool, allowBusy: bool)

  datatype Candidate = Candidate(entry: CatalogEntry, nodeID: string, score: int, loaded: bool, present: bool)

  // ---------------------------------------------------------------- gates

  function RaisedToMedium(c: Complexity): Complexity {
    if ComplexityRank(c) < ComplexityRank(Medium) then Medium else c
  }

  /** The profile after tool use and attached images have been taken into account. */
  function EffectiveProfile(req: RouteRequest): TaskProfile {
    var p := req.analyzed;
    var p := if req.requireTools then
        TaskProfile(p.modality, RaisedToMedium(p.complexity), if HasCap(p.capabilities, "tools") then p.capabilities else p.capabilities + ["tools"])
      else p;
    if req.imageAttached then TaskProfile(VisionTask, RaisedToMedium(p.complexity), ["vision", "ocr", "chat"]) else p
  }

  /** Tool use and attached images only ever raise what is asked for: never below medium, tools among
      the needs of a tool request, an attached image always a vision task. */
  lemma EffectiveProfileAsksForMore(req: RouteRequest)
    ensures var p, a := EffectiveProfile(req), req.analyzed;
            && ComplexityRank(p.complexity) ==
               (if (req.requireTools || req.imageAttached) && ComplexityRank(a.complexity) < 2 then 2 else ComplexityRank(a.complexity))
            && (req.imageAttached ==> p.modality.VisionTask? && HasCap(p.capabilities, "vision") && p.capabilities == ["vision", "ocr", "chat"])
            && (!req.imageAttached ==> p.modality == a.modality && forall c :: c in a.capabilities ==> c in p.capabilities)
            && (req.requireTools && !req.imageAttached ==> HasCap(p.capabilities, "tools"))
            && (!req.requireTools && !req.imageAttached ==> p == a)
  {
    var p := EffectiveProfile(req);
    if req.imageAttached {
      assert EqualFold(p.capabilities[0], "vision");
    } else if req.requireTools && !HasCap(req.analyzed.capabilities, "tools") {
      assert EqualFold(p.capabilities[|p.capabilities| - 1], "tools");
    }
  }

  predicate Considered(e: CatalogEntry, p: TaskProfile, req: RouteRequest) {
    && (req.requireTools ==> EntrySupportsTools(e))
    && EntrySupports(e, p)
    && (req.preferredRuntime != "" && e.runtime != "" ==> e.runtime == req.preferredRuntime)
  }

  function StatusText(s: Status): string {
    match s
    case Unset => ""
    case Joined => "JOINED"
    case Ready => "READY"
    case Busy => "BUSY"
    case Draining => "DRAINING"
    case Offline => "OFFLINE"
    case OtherStatus(text) => text
  }

  predicate IsBusy(s: Status) {
    EqualFold(StatusText(s), "BUSY")
  }

  predicate NodeEligible(s: Status, allowBusy: bool) {
    EqualFold(StatusText(s), "READY") || (allowBusy && IsBusy(s))
  }

  function PairKey(e: CatalogEntry, req: RouteRequest): Identity {
    Identity(e.name, e.tag, if req.preferredRuntime != "" then req.preferredRuntime else e.runtime)
  }

  function BestEffortVRAM(n: NodeView): nat {
    if n.vramAvailable == 0 then n.vramTotal else n.vramAvailable
  }

  predicate MustBePresent(req: RouteRequest) {
    req.requirePresent || !req.allowPull
  }

  /** The gates inside scorePair: runtime, memory, presence. */
  predicate PairAllowed(e: CatalogEntry, n: NodeView, req: RouteRequest) {
    && (if PairKey(e, req).runtime != "" then HasRuntime(n.modelRuntimes, PairKey(e, req).runtime) else n.modelRuntimes != [])
    && (e.minVRAM > 0 && BestEffortVRAM(n) > 0 ==> BestEffortVRAM(n) >= e.minVRAM)
    && (MustBePresent(req) ==> HasModel(n.models, PairKey(e, req)))
  }

  // ---------------------------------------------------------------- scores

  function Tiers(e: CatalogEntry, p: TaskProfile): int {
    ComplexityRank(e.maxComplexity) - ComplexityRank(p.complexity)
  }

  function FitPoints(diff: int): int {
    if diff == 0 then 40 else if diff == 1 then 15 else 5
  }

  function WarmPoints(diff: int): int {
    if diff >= 2 then 15 else if diff == 1 then 25 else 80
  }

  function Overlap(e: CatalogEntry, needs: seq<string>): nat {
    if needs == [] then 0
    else Overlap(e, needs[..|needs| - 1]) + if HasCap(e.capabilities, needs[|needs| - 1]) then 1 else 0
  }

  function Bonus(e: CatalogEntry, p: TaskProfile, req: RouteRequest): int {
    (if p.modality.CodeTask? && HasCap(e.capabilities, "code") then 25 else 0) +
    (if p.complexity.Low? && HasCap(e.capabilities, "simple") then 20 else 0) +
    (if req.requireTools && EntrySupportsTools(e) then 35 else 0)
  }

  /** What the entry is worth for the task, wherever it runs. */
  function EntryPoints(e: CatalogEntry, p: TaskProfile, req: RouteRequest): int {
    FitPoints(Tiers(e, p)) + 12 * Overlap(e, p.capabilities) + Bonus(e, p, req)
  }

  function PresencePoints(diff: int, loaded: bool, present: bool, req: RouteRequest): int {
    (if loaded then WarmPoints(diff) else if present then 25 else if req.allowPull then 5 else 0) -
    (if req.preferLoaded && !loaded then 10 else 0)
  }

  function BusyPenalty(n: NodeView): int {
    if IsBusy(n.status) then 50 else 0
  }

  /** The total for an entry on a node where it is loaded or present as told. */
  function Total(e: CatalogEntry, n: NodeView, loaded: bool, present: bool, p: TaskProfile, req: RouteRequest): int {
    EntryPoints(e, p, req) + PresencePoints(Tiers(e, p), loaded, present, req) - BusyPenalty(n) + e.priority
  }

  function Scored(e: CatalogEntry, n: NodeView, p: TaskProfile, req: RouteRequest): Candidate {
    var key := PairKey(e, req);
    var loaded, present := IsLoaded(n.models, key), HasModel(n.models, key);
    Candidate(e, n.nodeID, Total(e, n, loaded, present, p, req), loaded, present)
  }

  /** The running total of scorePair once the gates are passed. */
  method AddUp(e: CatalogEntry, n: NodeView, loaded: bool, present: bool, p: TaskProfile, req: RouteRequest) returns (score: int)
    ensures score == Total(e, n, loaded, present, p, req)
  {
    var diff := ComplexityRank(e.maxComplexity) - ComplexityRank(p.complexity);
    score := if diff == 0 then 40 else if diff == 1 then 15 else 5;
    var overlap := 0;
    for k := 0 to |p.capabilities|
      invariant overlap == Overlap(e, p.capabilities[..k])
    {
      assert p.capabilities[..k + 1][..k] == p.capabilities[..k];
      if HasCap(e.capabilities, p.capabilities[k]) {
        overlap := overlap + 1;
      }
    }
    assert p.capabilities[..|p.capabilities|] == p.capabilities;
    score := score + overlap * 12;
    if p.modality.CodeTask? && HasCap(e.capabilities, "code") {
      score := score + 25;
    }
    if p.complexity.Low? && HasCap(e.capabilities, "simple") {
      score := score + 20;
    }
    if req.requireTools && EntrySupportsTools(e) {
      score := score + 35;
    }
    assert score == EntryPoints(e, p, req);
    if loaded {
      var warm := 80;
      if diff >= 2 {
        warm := 15;
      } else if diff == 1 {
        warm := 25;
      }
      score := score + warm;
    } else if present {
      score := score + 25;
    } else if req.allowPull {
      score := score + 5;
    }
    if req.preferLoaded && !loaded {
      score := score - 10;
    }
    if IsBusy(n.status) {
      score := score - 50;
    }
    score := score + e.priority;
  }

  /** scorePair: the gates, then the running total. */
  method ScorePair(e: CatalogEntry, n: NodeView, p: TaskProfile, req: RouteRequest) returns (c: Option<Candidate>)
    ensures c == if PairAllowed(e, n, req) then Some(Scored(e, n, p, req)) else None
  {
    var key := PairKey(e, req);
    if key.runtime != "" && !HasRuntime(n.modelRuntimes, key.runtime) {
      return None;
    }
    if key.runtime == "" && |n.modelRuntimes| == 0 {
      return None;
    }
    if e.minVRAM > 0 {
      var avail := n.vramAvailable;
      if avail == 0 {
        avail := n.vramTotal;
      }
      if avail > 0 && avail < e.minVRAM {
        return None;
      }
    }
    var present, loaded := HasModel(n.models, key), IsLoaded(n.models, key);
    if req.requirePresent && !present {
      return None;
    }
    if !req.allowPull && !present {
      return None;
    }
    var score := AddUp(e, n, loaded, present, p, req);
    c := Some(Candidate(e, n.nodeID, score, loaded, present));
  }
}
