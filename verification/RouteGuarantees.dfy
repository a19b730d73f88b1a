/** What Route promises whatever the request: exact ranking, hard gates, independence of node order. */
module RouteGuarantees {
  import opened Text
  import opened Lists
  import opened ModelIdentity
  import opened Resources
  import opened Catalog
  import opened Routing
  import opened Ranking
  import opened Router

  // ---------------------------------------------------------------- exactly the eligible pairs, ranked

  /** c stands for entry e on node n, and every gate let that pair through. */
  ghost predicate IsPair(c: Candidate, e: CatalogEntry, n: NodeView, req: RouteRequest) {
    var p := EffectiveProfile(req);
    e in CatalogOf(req) && n in req.nodes && Considered(e, p, req) && Pairs(e, n, req) && c == Scored(e, n, p, req)
  }

  lemma PairIsListed(req: RouteRequest, e: CatalogEntry, n: NodeView, c: Candidate)
    requires IsPair(c, e, n, req)
    ensures c in AllPairs(CatalogOf(req), req.nodes, EffectiveProfile(req), req)
  {
    var p := EffectiveProfile(req);
    FlatMapMembers(req.nodes, OwnPairs(e, p, req), c);
    assert c in OwnPairs(e, p, req)(n);
    FlatMapMembers(CatalogOf(req), EntryPairs(req.nodes, p, req), c);
    assert c in EntryPairs(req.nodes, p, req)(e);
  }

  lemma ListedIsPair(req: RouteRequest, c: Candidate) returns (e: CatalogEntry, n: NodeView)
    requires c in AllPairs(CatalogOf(req), req.nodes, EffectiveProfile(req), req)
    ensures IsPair(c, e, n, req)
  {
    var p := EffectiveProfile(req);
    FlatMapMembers(CatalogOf(req), EntryPairs(req.nodes, p, req), c);
    e :| e in CatalogOf(req) && c in EntryPairs(req.nodes, p, req)(e);
    FlatMapMembers(req.nodes, OwnPairs(e, p, req), c);
    n :| n in req.nodes && c in OwnPairs(e, p, req)(n);
  }

  lemma RankedIsRearranged(req: RouteRequest, c: Candidate)
    ensures Sorted(Ranked(req))
    ensures c in Ranked(req) <==> c in AllPairs(CatalogOf(req), req.nodes, EffectiveProfile(req), req)
  {
    var all := AllPairs(CatalogOf(req), req.nodes, EffectiveProfile(req), req);
    InsertAllSorted(all, []);
    assert c in Ranked(req) <==> c in multiset(Ranked(req));
    assert c in all <==> c in multiset(all);
  }

  /** The ranked list holds exactly the eligible scored pairs, best first. */
  lemma RankedExactly(req: RouteRequest, c: Candidate)
    ensures Sorted(Ranked(req))
    ensures c in Ranked(req) <==> exists e, n :: IsPair(c, e, n, req)
  {
    RankedIsRearranged(req, c);
    if c in Ranked(req) {
      var e, n := ListedIsPair(req, c);
    }
    if e, n :| IsPair(c, e, n, req) {
      PairIsListed(req, e, n, c);
    }
  }

  /** On the ranked path no eligible pair beats the selected one; a selection is missing only when
      there is no eligible pair. */
  lemma SelectedBeatsEveryPair(req: RouteRequest, e: CatalogEntry, n: NodeView, c: Candidate)
    requires IsPair(c, e, n, req) && !NothingCanSee(req)
    ensures var d := Decide(req);
            !d.usedFallback && d.selected.Some? && d.candidates == Ranked(req) && d.selected.value in d.candidates
            && !Before(c, d.selected.value)
  {
    RankedExactly(req, c);
    var ranked := Ranked(req);
    var i :| 0 <= i < |ranked| && ranked[i] == c;
    TiedSameKey(c, c);
  }

  // ---------------------------------------------------------------- hard gates

  lemma {:induction false} FallbackShape(catalog: seq<CatalogEntry>, nodes: seq<NodeView>, req: RouteRequest)
    ensures var fb := Fallback(catalog, nodes, req);
            fb.Some? ==>
            var e := fb.value.entry;
            && e in catalog && FallbackEntry(e, req) && FirstHost(e, nodes, req).Some?
            && fb.value == FallbackCandidate(e, FirstHost(e, nodes, req).value)
  {
    if catalog != [] {
      var init := catalog[..|catalog| - 1];
      FallbackShape(init, nodes, req);
      assert catalog == init + [catalog[|catalog| - 1]];
    }
  }

  /** The gates no candidate may slip past, ranked or fallback; `key` is the model looked up on the node. */
  ghost predicate WithinGates(c: Candidate, n: NodeView, key: Identity, req: RouteRequest) {
    && c.entry in CatalogOf(req) && n in req.nodes && c.nodeID == n.nodeID && NodeEligible(n.status, req.allowBusy)
    && (req.requireTools ==> EntrySupportsTools(c.entry))
    && (NeedsVision(EffectiveProfile(req)) ==> HasCap(c.entry.capabilities, "vision"))
    && (c.present <==> HasModel(n.models, key)) && (MustBePresent(req) ==> c.present)
  }

  /** The entry shares an ability with the task: sight, or code or chat for code, or chat or any need but tools. */
  ghost predicate CanServe(e: CatalogEntry, p: TaskProfile) {
    if NeedsVision(p) then HasCap(e.capabilities, "vision")
    else
      || HasCap(e.capabilities, "chat")
      || (p.modality.CodeTask? && HasCap(e.capabilities, "code"))
      || (!p.modality.CodeTask? && exists need :: need in p.capabilities && need != "tools" && HasCap(e.capabilities, need))
  }

  /** The gates of the ranked path: task, tier, runtime, memory. */
  ghost predicate WithinRankedGates(c: Candidate, n: NodeView, req: RouteRequest) {
    && CanServe(c.entry, EffectiveProfile(req))
    && ComplexityRank(c.entry.maxComplexity) >= ComplexityRank(EffectiveProfile(req).complexity)
    && (req.preferredRuntime != "" ==> c.entry.runtime in ["", req.preferredRuntime] && req.preferredRuntime in n.modelRuntimes)
    && (c.entry.minVRAM > 0 ==> BestEffortVRAM(n) == 0 || BestEffortVRAM(n) >= c.entry.minVRAM)
  }

  lemma GatesHold(req: RouteRequest, c: Candidate) returns (n: NodeView)
    requires c in Decide(req).candidates
    ensures WithinGates(c, n, if Decide(req).usedFallback then EntryKey(c.entry) else PairKey(c.entry, req), req)
    ensures !Decide(req).usedFallback ==> WithinRankedGates(c, n, req)
  {
    if Decide(req).usedFallback {
      FallbackShape(CatalogOf(req), req.nodes, req);
      n := FirstHost(c.entry, req.nodes, req).value;
    } else {
      RankedExactly(req, c);
      var e, m :| IsPair(c, e, m, req);
      n := m;
    }
  }

  /** The runtime gate is not one of the fallback's: what it settles on is the same whichever runtime
      the caller prefers. */
  lemma {:induction false} FallbackIgnoresRuntime(catalog: seq<CatalogEntry>, nodes: seq<NodeView>, req: RouteRequest, runtime: string)
    ensures Fallback(catalog, nodes, req.(preferredRuntime := runtime)) == Fallback(catalog, nodes, req)
  {
    if catalog != [] {
      var e := catalog[|catalog| - 1];
      FallbackIgnoresRuntime(catalog[..|catalog| - 1], nodes, req, runtime);
      HostIgnoresRuntime(e, nodes, req, runtime);
      assert FallbackEntry(e, req.(preferredRuntime := runtime)) == FallbackEntry(e, req);
    }
  }

  lemma HostIgnoresRuntime(e: CatalogEntry, nodes: seq<NodeView>, req: RouteRequest, runtime: string)
    ensures FirstHost(e, nodes, req.(preferredRuntime := runtime)) == FirstHost(e, nodes, req)
  {
  }

  /** The selection is one of the listed candidates, so every gate applies to it; a task that needs
      eyes is deferred or declined rather than given to a model that cannot see. */
  lemma SelectionIsListed(req: RouteRequest)
    ensures var d := Decide(req);
            && (d.selected.Some? <==> d.candidates != [])
            && (d.selected.Some? ==> d.selected.value in d.candidates && !d.deferred)
            && (NeedsVision(d.profile) && d.selected.Some? ==> HasCap(d.selected.value.entry.capabilities, "vision"))
            && (req.requireTools ==> ComplexityRank(d.profile.complexity) >= ComplexityRank(Medium))
  {
    var d := Decide(req);
    EffectiveProfileAsksForMore(req);
    if d.selected.Some? {
      assert d.selected.value == d.candidates[0];
      var _ := GatesHold(req, d.selected.value);
    }
  }

  // ---------------------------------------------------------------- order of the nodes

  ghost predicate SameNodes(a: seq<NodeView>, b: seq<NodeView>) {
    multiset(a) == multiset(b)
  }

  ghost predicate DistinctIDs(nodes: seq<NodeView>) {
    forall i, j :: 0 <= i < j < |nodes| ==> nodes[i].nodeID != nodes[j].nodeID
  }

  lemma PairsComeFrom(e: CatalogEntry, nodes: seq<NodeView>, p: TaskProfile, req: RouteRequest, c: Candidate)
    requires c in PairsOf(e, nodes, p, req)
    ensures exists k :: 0 <= k < |nodes| && nodes[k].nodeID == c.nodeID
  {
    FlatMapMembers(nodes, OwnPairs(e, p, req), c);
    var n :| n in nodes && c in OwnPairs(e, p, req)(n);
    var k :| 0 <= k < |nodes| && nodes[k] == n;
    assert nodes[k].nodeID == c.nodeID;
  }

  lemma {:induction false} PairsDistinct(e: CatalogEntry, nodes: seq<NodeView>, p: TaskProfile, req: RouteRequest)
    requires DistinctIDs(nodes)
    ensures DistinctNodes(PairsOf(e, nodes, p, req))
  {
    if nodes != [] {
      var init := nodes[..|nodes| - 1];
      var pairs := PairsOf(e, init, p, req);
      PairsDistinct(e, init, p, req);
      forall i | 0 <= i < |pairs|
        ensures pairs[i].nodeID != nodes[|nodes| - 1].nodeID
      {
        PairsComeFrom(e, init, p, req, pairs[i]);
        var k :| 0 <= k < |init| && init[k].nodeID == pairs[i].nodeID;
        assert init[k] == nodes[k];
      }
    }
  }

  /** Only the request's switches matter to a pair, not its own node list. */
  lemma PairIgnoresList(e: CatalogEntry, n: NodeView, p: TaskProfile, req: RouteRequest, other: seq<NodeView>)
    ensures Pairs(e, n, req.(nodes := other)) == Pairs(e, n, req)
    ensures Scored(e, n, p, req.(nodes := other)) == Scored(e, n, p, req)
  {
    assert Bonus(e, p, req.(nodes := other)) == Bonus(e, p, req);
    assert PairKey(e, req.(nodes := other)) == PairKey(e, req);
  }

  lemma PairsIgnoreList(e: CatalogEntry, nodes: seq<NodeView>, p: TaskProfile, req: RouteRequest, other: seq<NodeView>)
    ensures PairsOf(e, nodes, p, req.(nodes := other)) == PairsOf(e, nodes, p, req)
  {
    forall n | n in nodes
      ensures OwnPairs(e, p, req.(nodes := other))(n) == OwnPairs(e, p, req)(n)
    {
      PairIgnoresList(e, n, p, req, other);
    }
    FlatMapCongruent(nodes, OwnPairs(e, p, req.(nodes := other)), OwnPairs(e, p, req));
  }

  /** One entry's candidates, inserted into a ranked list from either node list. */
  lemma EntryPermuted(e: CatalogEntry, req: RouteRequest, ns: seq<NodeView>, p: TaskProfile, ranked: seq<Candidate>)
    requires SameNodes(ns, req.nodes) && DistinctIDs(req.nodes)
    ensures InsertAll(EntryPairs(ns, p, req.(nodes := ns))(e), ranked) == InsertAll(EntryPairs(req.nodes, p, req)(e), ranked)
  {
    PairsIgnoreList(e, ns, p, req, ns);
    FlatMapPermuted(ns, req.nodes, OwnPairs(e, p, req));
    PairsDistinct(e, req.nodes, p, req);
    InsertAllPermuted(PairsOf(e, ns, p, req), PairsOf(e, req.nodes, p, req), ranked);
  }

  lemma {:induction false} RankingPermuted(catalog: seq<CatalogEntry>, req: RouteRequest, ns: seq<NodeView>, p: TaskProfile, ranked: seq<Candidate>)
    requires SameNodes(ns, req.nodes) && DistinctIDs(req.nodes)
    ensures InsertAll(AllPairs(catalog, ns, p, req.(nodes := ns)), ranked) == InsertAll(AllPairs(catalog, req.nodes, p, req), ranked)
  {
    if catalog != [] {
      var init, e := catalog[..|catalog| - 1], catalog[|catalog| - 1];
      var f, g := EntryPairs(ns, p, req.(nodes := ns)), EntryPairs(req.nodes, p, req);
      EntryPermuted(e, req, ns, p, ranked);
      RankingPermuted(init, req, ns, p, InsertAll(g(e), ranked));
      InsertAllAppend(FlatMap(init, f), f(e), ranked);
      InsertAllAppend(FlatMap(init, g), g(e), ranked);
    }
  }

  lemma FirstHostIgnoresList(e: CatalogEntry, nodes: seq<NodeView>, req: RouteRequest, other: seq<NodeView>)
    ensures FirstHost(e, nodes, req.(nodes := other)) == FirstHost(e, nodes, req)
  {
  }

  /** A rearranged list has a host for an entry exactly when the list itself has one. */
  lemma HostPermuted(e: CatalogEntry, req: RouteRequest, ns: seq<NodeView>)
    requires SameNodes(ns, req.nodes)
    ensures FirstHost(e, ns, req.(nodes := ns)) == FirstHost(e, ns, req)
    ensures FirstHost(e, ns, req).Some? == FirstHost(e, req.nodes, req).Some?
  {
    FirstHostIgnoresList(e, ns, req, ns);
    assert forall n :: n in ns <==> n in multiset(ns);
    assert forall n :: n in req.nodes <==> n in multiset(req.nodes);
  }

  predicate SameChoice(a: Option<Candidate>, b: Option<Candidate>) {
    a.Some? == b.Some? && (a.Some? ==> a.value.entry == b.value.entry && a.value.score == b.value.score)
  }

  lemma ImprovePermuted(a: Option<Candidate>, b: Option<Candidate>, e: CatalogEntry, req: RouteRequest, ns: seq<NodeView>)
    requires SameNodes(ns, req.nodes) && SameChoice(a, b)
    ensures SameChoice(Improve(a, e, ns, req.(nodes := ns)), Improve(b, e, req.nodes, req))
  {
    HostPermuted(e, req, ns);
  }

  /** Which entry the fallback settles on, and with what score, does not depend on the node order. */
  lemma {:induction false} FallbackEntryPermuted(catalog: seq<CatalogEntry>, req: RouteRequest, ns: seq<NodeView>)
    requires SameNodes(ns, req.nodes)
    ensures SameChoice(Fallback(catalog, ns, req.(nodes := ns)), Fallback(catalog, req.nodes, req))
  {
    if catalog != [] {
      var e, init := catalog[|catalog| - 1], catalog[..|catalog| - 1];
      FallbackEntryPermuted(init, req, ns);
      ImprovePermuted(Fallback(init, ns, req.(nodes := ns)), Fallback(init, req.nodes, req), e, req, ns);
      assert FallbackEntry(e, req.(nodes := ns)) == FallbackEntry(e, req);
    }
  }

  /** What a decision is made from, for the same request over a rearranged node list. */
  lemma RearrangedInputs(req: RouteRequest, ns: seq<NodeView>)
    requires SameNodes(ns, req.nodes) && DistinctIDs(req.nodes)
    ensures var other := req.(nodes := ns);
            && CatalogOf(other) == CatalogOf(req)
            && Ranked(other) == Ranked(req)
            && Decide(other) == DecideFrom(EffectiveProfile(req), NothingCanSee(req), Ranked(req), Fallback(CatalogOf(req), ns, other))
  {
    RankingPermuted(CatalogOf(req), req, ns, EffectiveProfile(req), []);
  }

  /** Walking the registry in another order gives the same decision, unless it is a fallback. */
  lemma OrderOfNodesIsIrrelevant(req: RouteRequest, ns: seq<NodeView>)
    requires SameNodes(ns, req.nodes) && DistinctIDs(req.nodes)
    ensures var a, b := Decide(req.(nodes := ns)), Decide(req);
            && a.usedFallback == b.usedFallback
            && (!b.usedFallback ==> a == b)
            && SameChoice(a.selected, b.selected)
  {
    RearrangedInputs(req, ns);
    FallbackEntryPermuted(CatalogOf(req), req, ns);
  }

  lemma {:induction false} FrontHostWins(e: CatalogEntry, n: NodeView, rest: seq<NodeView>, req: RouteRequest)
    requires Hosts(e, n, req)
    ensures FirstHost(e, [n] + rest, req) == Some(n)
  {
    if rest == [] {
      assert [n] + rest == [n];
      assert FirstHost(e, [], req) == None;
    } else {
      var init := rest[..|rest| - 1];
      FrontHostWins(e, n, init, req);
      assert ([n] + rest)[..|[n] + rest| - 1] == [n] + init;
    }
  }

  /** No two of the nodes can serve the fallback's model. */
  ghost predicate OneHost(e: CatalogEntry, req: RouteRequest) {
    forall i, j :: 0 <= i < j < |req.nodes| ==> !(Hosts(e, req.nodes[i], req) && Hosts(e, req.nodes[j], req))
  }

  /** A fallback decision in full. */
  lemma FallbackDecision(req: RouteRequest)
    requires Decide(req).usedFallback
    ensures var c := Decide(req).selected.value;
            && Decide(req) == Decision(EffectiveProfile(req), Some(c), [c], false, true)
            && Fallback(CatalogOf(req), req.nodes, req) == Some(c)
            && Ranked(req) == [] && !NothingCanSee(req) && !NeedsVision(EffectiveProfile(req))
  {
  }

  /** The fallback on a rearranged node list: same entry, first host of that list. */
  lemma FallbackElsewhere(req: RouteRequest, ns: seq<NodeView>)
    requires DistinctIDs(req.nodes) && Decide(req).usedFallback && SameNodes(ns, req.nodes)
    ensures var e := Decide(req).selected.value.entry;
            && FirstHost(e, ns, req).Some?
            && var c := FallbackCandidate(e, FirstHost(e, ns, req).value);
               Decide(req.(nodes := ns)) == Decision(EffectiveProfile(req), Some(c), [c], false, true)
  {
    var other := req.(nodes := ns);
    RearrangedInputs(req, ns);
    FallbackDecision(req);
    FallbackEntryPermuted(CatalogOf(req), req, ns);
    FallbackShape(CatalogOf(req), ns, other);
    FirstHostIgnoresList(Decide(req).selected.value.entry, ns, req, ns);
  }

  lemma OneHostSteady(req: RouteRequest, ns: seq<NodeView>)
    requires DistinctIDs(req.nodes) && Decide(req).usedFallback && SameNodes(ns, req.nodes)
    requires OneHost(Decide(req).selected.value.entry, req)
    ensures Decide(req.(nodes := ns)) == Decide(req)
  {
    var e := Decide(req).selected.value.entry;
    FallbackShape(CatalogOf(req), req.nodes, req);
    FallbackElsewhere(req, ns);
    var h, first := FirstHost(e, ns, req).value, FirstHost(e, req.nodes, req).value;
    assert h in multiset(ns);
    var i :| 0 <= i < |req.nodes| && req.nodes[i] == h;
    var j :| 0 <= j < |req.nodes| && req.nodes[j] == first;
    assert i == j;
  }

  lemma MovedToFront(nodes: seq<NodeView>, i: nat)
    requires i < |nodes|
    ensures SameNodes([nodes[i]] + Without(nodes, i), nodes)
  {
    assert nodes == nodes[..i] + [nodes[i]] + nodes[i + 1..];
  }

  lemma AnotherHostSways(req: RouteRequest, i: nat) returns (ns: seq<NodeView>)
    requires DistinctIDs(req.nodes) && Decide(req).usedFallback && i < |req.nodes|
    requires Hosts(Decide(req).selected.value.entry, req.nodes[i], req) && req.nodes[i].nodeID != Decide(req).selected.value.nodeID
    ensures SameNodes(ns, req.nodes) && Decide(req.(nodes := ns)) != Decide(req)
  {
    var n := req.nodes[i];
    ns := [n] + Without(req.nodes, i);
    MovedToFront(req.nodes, i);
    FallbackElsewhere(req, ns);
    FrontHostWins(Decide(req).selected.value.entry, n, Without(req.nodes, i), req);
  }

  /** A fallback decision is the same for every order in which the nodes are walked exactly when only
      one eligible node holds the chosen model. */
  lemma FallbackOrder(req: RouteRequest)
    requires DistinctIDs(req.nodes) && Decide(req).usedFallback
    ensures (forall ns :: SameNodes(ns, req.nodes) ==> Decide(req.(nodes := ns)) == Decide(req))
            <==> OneHost(Decide(req).selected.value.entry, req)
  {
    if OneHost(Decide(req).selected.value.entry, req) {
      forall ns | SameNodes(ns, req.nodes)
        ensures Decide(req.(nodes := ns)) == Decide(req)
      {
        OneHostSteady(req, ns);
      }
    } else {
      var i := SecondHost(req, Decide(req).selected.value);
      var ns := AnotherHostSways(req, i);
    }
  }

  lemma SecondHost(req: RouteRequest, c: Candidate) returns (i: nat)
    requires DistinctIDs(req.nodes) && !OneHost(c.entry, req)
    ensures i < |req.nodes| && Hosts(c.entry, req.nodes[i], req) && req.nodes[i].nodeID != c.nodeID
  {
    var j, k :| 0 <= j < k < |req.nodes| && Hosts(c.entry, req.nodes[j], req) && Hosts(c.entry, req.nodes[k], req);
    i := if req.nodes[j].nodeID == c.nodeID then k else j;
  }

  // ---------------------------------------------------------------- fallbacks that do happen

  /** A catalog of one chat entry without a runtime of its own. */
  predicate LoneEntry(req: RouteRequest, e: CatalogEntry) {
    req.catalog == [e] && e.runtime == "" && HasCap(e.capabilities, "chat") && (req.requireTools ==> EntrySupportsTools(e))
  }

  /** The caller prefers a runtime that none of the nodes lists. */
  predicate NobodyRuns(req: RouteRequest) {
    req.preferredRuntime != "" && forall i :: 0 <= i < |req.nodes| ==> req.preferredRuntime !in req.nodes[i].modelRuntimes
  }

  /** Then nothing is ranked, and the first node that holds the model is selected all the same. */
  lemma FallbackOnWrongRuntime(req: RouteRequest, e: CatalogEntry)
    requires LoneEntry(req, e) && NobodyRuns(req) && !NeedsVision(EffectiveProfile(req))
    requires FirstHost(e, req.nodes, req).Some?
    ensures var n := FirstHost(e, req.nodes, req).value; var d := Decide(req);
            && d.usedFallback && d.selected == Some(FallbackCandidate(e, n))
            && req.preferredRuntime !in n.modelRuntimes
  {
    NothingRanked(req);
    assert req.catalog[..0] == [];
    assert Fallback([], req.nodes, req) == None;
  }

  lemma NothingRanked(req: RouteRequest)
    requires NobodyRuns(req)
    ensures Ranked(req) == []
  {
    if Ranked(req) != [] {
      var c := Ranked(req)[0];
      RankedIsRearranged(req, c);
      var e, n := ListedIsPair(req, c);
      NoPairWithoutRuntime(e, n, req);
      assert false;
    }
  }

  lemma NoPairWithoutRuntime(e: CatalogEntry, n: NodeView, req: RouteRequest)
    requires req.preferredRuntime != "" && req.preferredRuntime !in n.modelRuntimes
    ensures !Pairs(e, n, req)
  {
  }

  lemma FallbackOnFirst(req: RouteRequest, e: CatalogEntry, m: NodeView, rest: seq<NodeView>)
    requires LoneEntry(req, e) && NobodyRuns(req) && !NeedsVision(EffectiveProfile(req))
    requires req.nodes == [m] + rest && Hosts(e, m, req)
    ensures Decide(req).usedFallback && Decide(req).selected == Some(FallbackCandidate(e, m))
  {
    FrontHostWins(e, m, rest, req);
    FallbackOnWrongRuntime(req, e);
  }

  lemma RearrangedSwitches(req: RouteRequest, e: CatalogEntry, n: NodeView, ns: seq<NodeView>)
    ensures EffectiveProfile(req.(nodes := ns)) == EffectiveProfile(req)
    ensures LoneEntry(req.(nodes := ns), e) <==> LoneEntry(req, e)
    ensures Hosts(e, n, req.(nodes := ns)) <==> Hosts(e, n, req)
  {
  }

  lemma NobodyRunsSwapped(req: RouteRequest, m: NodeView, n: NodeView)
    requires NobodyRuns(req) && req.nodes == [m, n]
    ensures NobodyRuns(req.(nodes := [n, m]))
  {
    assert req.nodes[0] == m && req.nodes[1] == n;
  }

  lemma OtherOneFirst(req: RouteRequest, e: CatalogEntry, m: NodeView, n: NodeView)
    requires LoneEntry(req, e) && req.nodes == [m, n]
    requires NobodyRuns(req) && !NeedsVision(EffectiveProfile(req)) && Hosts(e, n, req)
    ensures var d := Decide(req.(nodes := [n, m])); d.usedFallback && d.selected == Some(FallbackCandidate(e, n))
  {
    RearrangedSwitches(req, e, n, [n, m]);
    NobodyRunsSwapped(req, m, n);
    assert [n] + [m] == [n, m];
    FallbackOnFirst(req.(nodes := [n, m]), e, n, [m]);
  }

  /** With the model on two nodes, walking them the other way round selects the other one. */
  lemma TwoHostsSway(req: RouteRequest, e: CatalogEntry, m: NodeView, n: NodeView)
    requires LoneEntry(req, e) && req.nodes == [m, n]
    requires NobodyRuns(req) && !NeedsVision(EffectiveProfile(req)) && Hosts(e, m, req) && Hosts(e, n, req)
    ensures Decide(req).selected == Some(FallbackCandidate(e, m))
    ensures Decide(req.(nodes := [n, m])).selected == Some(FallbackCandidate(e, n))
  {
    FallbackOnFirst(req, e, m, [n]);
    OtherOneFirst(req, e, m, n);
  }

  lemma TwoHostsAreNotOne(req: RouteRequest, e: CatalogEntry, m: NodeView, n: NodeView)
    requires req.nodes == [m, n] && m.nodeID != n.nodeID && Hosts(e, m, req) && Hosts(e, n, req)
    ensures DistinctIDs(req.nodes) && !OneHost(e, req)
  {
    assert Hosts(e, req.nodes[0], req) && Hosts(e, req.nodes[1], req);
  }

  /** Then the order matters. */
  lemma TwoHostsOrderMatters(req: RouteRequest, e: CatalogEntry, m: NodeView, n: NodeView)
    requires LoneEntry(req, e) && req.nodes == [m, n] && m.nodeID != n.nodeID
    requires NobodyRuns(req) && !NeedsVision(EffectiveProfile(req)) && Hosts(e, m, req) && Hosts(e, n, req)
    ensures Decide(req).usedFallback
    ensures exists ns :: SameNodes(ns, req.nodes) && Decide(req.(nodes := ns)) != Decide(req)
  {
    FallbackOnFirst(req, e, m, [n]);
    TwoHostsAreNotOne(req, e, m, n);
    FallbackOrder(req);
  }

  /** Such a request: two nodes run ollama and hold the model, the caller prefers vllm. */
  lemma TwoHostsCase() returns (req: RouteRequest, e: CatalogEntry, m: NodeView, n: NodeView)
    ensures LoneEntry(req, e) && req.nodes == [m, n] && m.nodeID != n.nodeID
    ensures NobodyRuns(req) && !NeedsVision(EffectiveProfile(req)) && Hosts(e, m, req) && Hosts(e, n, req)
    ensures exists ns :: SameNodes(ns, req.nodes) && Decide(req.(nodes := ns)) != Decide(req)
  {
    var model := Model("a", "t", "ollama", Available, 0);
    e := CatalogEntry("a", "t", "", ["chat"], Low, 0, 0);
    m := NodeView("m", Ready, ["ollama"], [model], 0, 0);
    n := NodeView("n", Ready, ["ollama"], [model], 0, 0);
    req := RouteRequest(TaskProfile(TextTask, Low, ["chat"]), [e], [m, n], true, true, false, "vllm", false, false, false);
    assert Trimmed("a") && Normalize("a") != "";
    assert Match([model], EntryKey(e)) == Some(model);
    assert e.capabilities[0] == "chat";
    TwoHostsOrderMatters(req, e, m, n);
  }
}
