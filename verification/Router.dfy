/** Route: ranking every pair, falling back, and the decision (internal/routing/router.go). */
module Router {
  import opened Lists
  import opened ModelIdentity
  import opened Catalog
  import opened Routing
  import opened Ranking

  datatype Decision = Decision(profile: TaskProfile, selected: Option<Candidate>, candidates: seq<Candidate>,
    deferred: bool, usedFallback: bool)

  function CatalogOf(req: RouteRequest): seq<CatalogEntry> {
    if req.catalog == [] then DEFAULT_CATALOG else req.catalog
  }

  // ---------------------------------------------------------------- the ranked path

  predicate Pairs(e: CatalogEntry, n: NodeView, req: RouteRequest) {
    NodeEligible(n.status, req.allowBusy) && PairAllowed(e, n, req)
  }

  /** What scorePair makes of one entry on a node, as a list of none or one. */
  function OwnPairs(e: CatalogEntry, p: TaskProfile, req: RouteRequest): NodeView -> seq<Candidate> {
    (n: NodeView) => if Pairs(e, n, req) then [Scored(e, n, p, req)] else []
  }

  /** The candidates of one entry, in the order of the nodes. */
  function PairsOf(e: CatalogEntry, nodes: seq<NodeView>, p: TaskProfile, req: RouteRequest): seq<Candidate> {
    FlatMap(nodes, OwnPairs(e, p, req))
  }

  function EntryPairs(nodes: seq<NodeView>, p: TaskProfile, req: RouteRequest): CatalogEntry -> seq<Candidate> {
    (e: CatalogEntry) => if Considered(e, p, req) then PairsOf(e, nodes, p, req) else []
  }

  /** All candidates, entry by entry. */
  function AllPairs(catalog: seq<CatalogEntry>, nodes: seq<NodeView>, p: TaskProfile, req: RouteRequest): seq<Candidate> {
    FlatMap(catalog, EntryPairs(nodes, p, req))
  }

  function Ranked(req: RouteRequest): seq<Candidate> {
    StableSort(AllPairs(CatalogOf(req), req.nodes, EffectiveProfile(req), req))
  }

  // ---------------------------------------------------------------- the fallback path

  predicate FallbackEntry(e: CatalogEntry, req: RouteRequest) {
    && (req.requireTools ==> EntrySupportsTools(e))
    && (HasCap(e.capabilities, "chat") || HasCap(e.capabilities, "simple"))
  }

  function EntryKey(e: CatalogEntry): Identity {
    Identity(e.name, e.tag, e.runtime)
  }

  predicate Hosts(e: CatalogEntry, n: NodeView, req: RouteRequest) {
    NodeEligible(n.status, req.allowBusy) && HasModel(n.models, EntryKey(e))
  }

  function FallbackCandidate(e: CatalogEntry, n: NodeView): Candidate {
    Candidate(e, n.nodeID, 10 + e.priority, IsLoaded(n.models, EntryKey(e)), true)
  }

  /** The first listed node that already holds the entry's model. */
  function FirstHost(e: CatalogEntry, nodes: seq<NodeView>, req: RouteRequest): (h: Option<NodeView>)
    ensures h.Some? ==> h.value in nodes && Hosts(e, h.value, req)
    ensures h.None? ==> forall n :: n in nodes ==> !Hosts(e, n, req)
  {
    if nodes == [] then None
    else
      var n := nodes[|nodes| - 1];
      var h := FirstHost(e, nodes[..|nodes| - 1], req);
      if h.Some? then h else if Hosts(e, n, req) then Some(n) else None
  }

  /** An entry displaces the best so far only with a strictly higher score. */
  function Improve(best: Option<Candidate>, e: CatalogEntry, nodes: seq<NodeView>, req: RouteRequest): Option<Candidate> {
    var h := FirstHost(e, nodes, req);
    if h.Some? && (best.None? || 10 + e.priority > best.value.score) then Some(FallbackCandidate(e, h.value)) else best
  }

  function Fallback(catalog: seq<CatalogEntry>, nodes: seq<NodeView>, req: RouteRequest): Option<Candidate> {
    if catalog == [] then None
    else
      var e := catalog[|catalog| - 1];
      var best := Fallback(catalog[..|catalog| - 1], nodes, req);
      if FallbackEntry(e, req) then Improve(best, e, nodes, req) else best
  }

  function Taken(best: Option<Candidate>, e: CatalogEntry, n: NodeView, req: RouteRequest): Option<Candidate> {
    if Hosts(e, n, req) && (best.None? || 10 + e.priority > best.value.score) then Some(FallbackCandidate(e, n)) else best
  }

  /** One more node: it is taken only if it hosts the model and nothing as good has been seen. */
  lemma ImproveByNode(best: Option<Candidate>, e: CatalogEntry, nodes: seq<NodeView>, k: nat, req: RouteRequest)
    requires k < |nodes|
    ensures Improve(best, e, nodes[..k + 1], req) == Taken(Improve(best, e, nodes[..k], req), e, nodes[k], req)
  {
    assert nodes[..k + 1][..k] == nodes[..k];
  }

  method TryHost(was: Option<Candidate>, e: CatalogEntry, n: NodeView, req: RouteRequest) returns (best: Option<Candidate>)
    ensures best == Taken(was, e, n, req)
  {
    hide HasModel, IsLoaded, NodeEligible;
    best := was;
    if NodeEligible(n.status, req.allowBusy) {
      var id := Identity(e.name, e.tag, e.runtime);
      if HasModel(n.models, id) {
        var c := Candidate(e, n.nodeID, 10 + e.priority, IsLoaded(n.models, id), true);
        if best.None? || c.score > best.value.score {
          best := Some(c);
        }
      }
    }
  }

  /** The inner loop of fallbackPresent: one entry against every node. */
  method TryHosts(was: Option<Candidate>, e: CatalogEntry, req: RouteRequest) returns (best: Option<Candidate>)
    ensures best == Improve(was, e, req.nodes, req)
  {
    best := was;
    for j := 0 to |req.nodes|
      invariant best == Improve(was, e, req.nodes[..j], req)
    {
      ImproveByNode(was, e, req.nodes, j, req);
      best := TryHost(best, e, req.nodes[j], req);
    }
    assert req.nodes[..|req.nodes|] == req.nodes;
  }

  method FallbackPresent(catalog: seq<CatalogEntry>, req: RouteRequest) returns (best: Option<Candidate>)
    ensures best == Fallback(catalog, req.nodes, req)
  {
    best := None;
    for i := 0 to |catalog|
      invariant best == Fallback(catalog[..i], req.nodes, req)
    {
      var e := catalog[i];
      assert catalog[..i + 1][..i] == catalog[..i];
      if (!req.requireTools || EntrySupportsTools(e)) && (HasCap(e.capabilities, "chat") || HasCap(e.capabilities, "simple")) {
        best := TryHosts(best, e, req);
      }
    }
    assert catalog[..|catalog|] == catalog;
  }

  // ---------------------------------------------------------------- the decision

  predicate NothingCanSee(req: RouteRequest) {
    NeedsVision(EffectiveProfile(req)) &&
    forall i :: 0 <= i < |CatalogOf(req)| ==> !HasCap(CatalogOf(req)[i].capabilities, "vision")
  }

  function DecideFrom(p: TaskProfile, blind: bool, ranked: seq<Candidate>, fb: Option<Candidate>): Decision {
    if blind then Decision(p, None, [], true, false)
    else if ranked != [] then Decision(p, Some(ranked[0]), ranked, false, false)
    else if fb.Some? && !NeedsVision(p) then Decision(p, fb, [fb.value], false, true)
    else Decision(p, None, [], false, false)
  }

  function Decide(req: RouteRequest): Decision {
    DecideFrom(EffectiveProfile(req), NothingCanSee(req), Ranked(req), Fallback(CatalogOf(req), req.nodes, req))
  }

  method ScoreNode(e: CatalogEntry, n: NodeView, p: TaskProfile, req: RouteRequest) returns (own: seq<Candidate>)
    ensures own == OwnPairs(e, p, req)(n)
  {
    own := [];
    if NodeEligible(n.status, req.allowBusy) {
      var c := ScorePair(e, n, p, req);
      if c.Some? {
        own := [c.value];
      }
    }
  }

  /** The inner loop of Route: one entry on every eligible node. */
  method ScoreEntry(e: CatalogEntry, p: TaskProfile, req: RouteRequest) returns (cands: seq<Candidate>)
    ensures cands == PairsOf(e, req.nodes, p, req)
  {
    cands := [];
    for j := 0 to |req.nodes|
      invariant cands == FlatMap(req.nodes[..j], OwnPairs(e, p, req))
    {
      FlatMapStep(req.nodes, j, OwnPairs(e, p, req));
      var own := ScoreNode(e, req.nodes[j], p, req);
      cands := cands + own;
    }
    assert req.nodes[..|req.nodes|] == req.nodes;
  }

  /** Scores every allowed pair, entry by entry and node by node. */
  method ScoreAll(catalog: seq<CatalogEntry>, p: TaskProfile, req: RouteRequest) returns (cands: seq<Candidate>)
    ensures cands == AllPairs(catalog, req.nodes, p, req)
  {
    cands := [];
    for i := 0 to |catalog|
      invariant cands == FlatMap(catalog[..i], EntryPairs(req.nodes, p, req))
    {
      var e := catalog[i];
      FlatMapStep(catalog, i, EntryPairs(req.nodes, p, req));
      if (!req.requireTools || EntrySupportsTools(e)) && EntrySupports(e, p) &&
         !(req.preferredRuntime != "" && e.runtime != "" && e.runtime != req.preferredRuntime) {
        var own := ScoreEntry(e, p, req);
        cands := cands + own;
      }
    }
    assert catalog[..|catalog|] == catalog;
  }

  method Route(req: RouteRequest) returns (d: Decision)
    ensures d == Decide(req)
  {
    var p := EffectiveProfile(req);
    var catalog := req.catalog;
    if |catalog| == 0 {
      catalog := DEFAULT_CATALOG;
    }
    if p.modality.VisionTask? || p.modality.DocumentTask? {
      var hasVision := false;
      for i := 0 to |catalog|
        invariant hasVision <==> exists k :: 0 <= k < i && HasCap(catalog[k].capabilities, "vision")
      {
        if HasCap(catalog[i].capabilities, "vision") {
          hasVision := true;
          break;
        }
      }
      if !hasVision {
        return Decision(p, None, [], true, false);
      }
    }
    var cands := ScoreAll(catalog, p, req);
    var ranked := StableSort(cands);
    if |ranked| == 0 {
      var fb := FallbackPresent(catalog, req);
      if fb.Some? && !p.modality.VisionTask? && !p.modality.DocumentTask? {
        return Decision(p, fb, [fb.value], false, true);
      }
      return Decision(p, None, [], false, false);
    }
    d := Decision(p, Some(ranked[0]), ranked, false, false);
  }
}
