/** Which pairs are offered, at what score, and what the fallback takes, told of the request's own fields. */
module RouteFacts {
  import opened Text
  import opened ModelIdentity
  import opened Resources
  import opened Catalog
  import opened Routing
  import opened Ranking
  import opened Router
  import opened RouteGuarantees

  // ---------------------------------------------------------------- who takes part

  /** Only a READY node takes part, and a BUSY one where that is allowed; free-form statuses by their text. */
  predicate TakesPart(s: Status, allowBusy: bool) {
    match s
    case Ready => true
    case Busy => allowBusy
    case OtherStatus(text) => EqualFold(text, "READY") || (allowBusy && EqualFold(text, "BUSY"))
    case _ => false
  }

  lemma TakesPartIff(s: Status, allowBusy: bool)
    ensures NodeEligible(s, allowBusy) <==> TakesPart(s, allowBusy)
  {
    assert |ToLower("READY")| == 5 && |ToLower("BUSY")| == 4 && |ToLower("")| == 0;
    assert |ToLower("JOINED")| == 6 && |ToLower("DRAINING")| == 8 && |ToLower("OFFLINE")| == 7;
  }

  /** Every candidate, ranked or fallback, is on a node that takes part. */
  lemma CandidatesTakePart(req: RouteRequest, c: Candidate) returns (n: NodeView)
    requires c in Decide(req).candidates
    ensures n in req.nodes && n.nodeID == c.nodeID && TakesPart(n.status, req.allowBusy)
  {
    n := GatesHold(req, c);
    TakesPartIff(n.status, req.allowBusy);
  }

  // ---------------------------------------------------------------- which pairs are offered

  predicate Able(caps: seq<string>, want: string) {
    exists c :: c in caps && EqualFold(c, want)
  }

  lemma AbleIff(caps: seq<string>, want: string)
    ensures HasCap(caps, want) <==> Able(caps, want)
  {
  }

  /** A model of complexity c can take a task of complexity d; what is neither medium nor high counts as low. */
  predicate Reaches(c: Complexity, d: Complexity) {
    c == High || (d != High && (c == Medium || d != Medium))
  }

  predicate ForEyes(p: TaskProfile) {
    p.modality == VisionTask || p.modality == DocumentTask
  }

  /** The entry is up to the task: high enough, and sighted for images, or tool-capable where tools are among
      the needs and able to chat, to code for code, or to do something else the task needs. */
  ghost predicate UpTo(e: CatalogEntry, p: TaskProfile) {
    && Reaches(e.maxComplexity, p.complexity)
    && if ForEyes(p) then Able(e.capabilities, "vision")
       else
         && (Able(p.capabilities, "tools") ==> EntrySupportsTools(e))
         && (|| Able(e.capabilities, "chat")
             || (p.modality == CodeTask && Able(e.capabilities, "code"))
             || (p.modality == TextTask && exists need :: need in p.capabilities && need != "tools" && Able(e.capabilities, need)))
  }

  lemma UpToIff(e: CatalogEntry, p: TaskProfile)
    ensures EntrySupports(e, p) <==> UpTo(e, p)
  {
    AbleIff(e.capabilities, "vision");
    AbleIff(p.capabilities, "tools");
    AbleIff(e.capabilities, "chat");
    AbleIff(e.capabilities, "code");
    forall need | need in p.capabilities
      ensures HasCap(e.capabilities, need) <==> Able(e.capabilities, need)
    {
      AbleIff(e.capabilities, need);
    }
  }

  function WantedRuntime(e: CatalogEntry, req: RouteRequest): string {
    if req.preferredRuntime != "" then req.preferredRuntime else e.runtime
  }

  /** The node can run the entry: a runtime for it, room as far as is known, and the model if it must be there. */
  ghost predicate CanHold(n: NodeView, e: CatalogEntry, req: RouteRequest) {
    && (req.preferredRuntime == "" || e.runtime == "" || e.runtime == req.preferredRuntime)
    && (if WantedRuntime(e, req) == "" then n.modelRuntimes != [] else WantedRuntime(e, req) in n.modelRuntimes)
    && (|| e.minVRAM == 0
        || (if n.vramAvailable > 0 then n.vramAvailable >= e.minVRAM else n.vramTotal == 0 || n.vramTotal >= e.minVRAM))
    && (req.requirePresent || !req.allowPull ==> HasModel(n.models, Identity(e.name, e.tag, WantedRuntime(e, req))))
  }

  ghost predicate IsOffer(e: CatalogEntry, n: NodeView, req: RouteRequest) {
    && TakesPart(n.status, req.allowBusy) && UpTo(e, EffectiveProfile(req))
    && (req.requireTools ==> EntrySupportsTools(e)) && CanHold(n, e, req)
  }

  lemma IsOfferIff(e: CatalogEntry, n: NodeView, req: RouteRequest)
    ensures Considered(e, EffectiveProfile(req), req) && Pairs(e, n, req) <==> IsOffer(e, n, req)
  {
    TakesPartIff(n.status, req.allowBusy);
    UpToIff(e, EffectiveProfile(req));
  }

  /** Among distinct nodes exactly the offers are ranked. */
  lemma OfferedIff(req: RouteRequest, e: CatalogEntry, n: NodeView)
    requires DistinctIDs(req.nodes) && e in CatalogOf(req) && n in req.nodes
    ensures Scored(e, n, EffectiveProfile(req), req) in Ranked(req) <==> IsOffer(e, n, req)
  {
    var c := Scored(e, n, EffectiveProfile(req), req);
    RankedExactly(req, c);
    IsOfferIff(e, n, req);
    if f, m :| IsPair(c, f, m, req) {
      assert f == e && m.nodeID == n.nodeID;
      var i :| 0 <= i < |req.nodes| && req.nodes[i] == m;
      var j :| 0 <= j < |req.nodes| && req.nodes[j] == n;
      assert i == j;
    } else {
      assert IsPair(c, e, n, req) <==> IsOffer(e, n, req);
    }
  }

  /** The ranked list descends by score, then priority, then ascends by node id. */
  lemma RankedDescends(req: RouteRequest, i: nat, j: nat)
    requires i < j < |Ranked(req)|
    ensures var a, b := Ranked(req)[i], Ranked(req)[j];
            && a.score >= b.score && (a.score == b.score ==> a.entry.priority >= b.entry.priority)
            && (a.score == b.score && a.entry.priority == b.entry.priority ==> a.nodeID == b.nodeID || Less(a.nodeID, b.nodeID))
  {
    RankedExactly(req, Ranked(req)[i]);
    LessTotal(Ranked(req)[i].nodeID, Ranked(req)[j].nodeID);
  }

  // ---------------------------------------------------------------- the score

  /** How many tiers an entry that is up to the task lies above it. */
  function Above(c: Complexity, d: Complexity): nat {
    if c == High && d == Medium then 1
    else if c == High && d != High then 2
    else if c == Medium && d != Medium then 1
    else 0
  }

  ghost function Met(e: CatalogEntry, needs: seq<string>): set<int> {
    set i | 0 <= i < |needs| && Able(e.capabilities, needs[i])
  }

  lemma {:induction false} OverlapCounts(e: CatalogEntry, needs: seq<string>)
    ensures Overlap(e, needs) == |Met(e, needs)|
  {
    hide Able, HasCap;
    if needs != [] {
      var init, last := needs[..|needs| - 1], |needs| - 1;
      OverlapCounts(e, init);
      AbleIff(e.capabilities, needs[last]);
      assert Met(e, needs) == Met(e, init) + (if Able(e.capabilities, needs[last]) then {last} else {});
    }
  }

  function If(b: bool, points: int): int {
    if b then points else 0
  }

  predicate SaysBusy(s: Status) {
    s == Busy || (s.OtherStatus? && EqualFold(s.text, "BUSY"))
  }

  lemma SaysBusyIff(s: Status)
    ensures IsBusy(s) <==> SaysBusy(s)
  {
    assert |ToLower("READY")| == 5 && |ToLower("BUSY")| == 4 && |ToLower("")| == 0;
    assert |ToLower("JOINED")| == 6 && |ToLower("DRAINING")| == 8 && |ToLower("OFFLINE")| == 7;
  }

  /** What the entry brings to the task, in points. */
  ghost function Merit(e: CatalogEntry, p: TaskProfile, req: RouteRequest): int {
    var above := Above(e.maxComplexity, p.complexity);
    If(above == 0, 40) + If(above == 1, 15) + If(above == 2, 5) + 12 * |Met(e, p.capabilities)|
    + If(p.modality == CodeTask && Able(e.capabilities, "code"), 25)
    + If(p.complexity == Low && Able(e.capabilities, "simple"), 20)
    + If(req.requireTools && EntrySupportsTools(e), 35)
  }

  /** What it is worth that the model is in memory, on disk, or to be pulled. */
  function NearPoints(above: nat, loaded: bool, present: bool, req: RouteRequest): int {
    If(loaded && above == 0, 80) + If(loaded && above == 1, 25) + If(loaded && above == 2, 15)
    + If(!loaded && present, 25) + If(!loaded && !present && req.allowPull, 5) - If(!loaded && req.preferLoaded, 10)
  }

  lemma MeritIs(e: CatalogEntry, p: TaskProfile, req: RouteRequest)
    requires Reaches(e.maxComplexity, p.complexity)
    ensures EntryPoints(e, p, req) == Merit(e, p, req)
  {
    hide Able, HasCap, Overlap, Met, EntrySupportsTools;
    OverlapCounts(e, p.capabilities);
    AbleIff(e.capabilities, "code");
    AbleIff(e.capabilities, "simple");
  }

  lemma NearIs(e: CatalogEntry, p: TaskProfile, loaded: bool, present: bool, req: RouteRequest)
    requires Reaches(e.maxComplexity, p.complexity)
    ensures PresencePoints(Tiers(e, p), loaded, present, req) == NearPoints(Above(e.maxComplexity, p.complexity), loaded, present, req)
  {
  }

  /** The whole score of an offer. */
  lemma ScoreIs(e: CatalogEntry, n: NodeView, p: TaskProfile, req: RouteRequest)
    requires Reaches(e.maxComplexity, p.complexity)
    ensures var c := Scored(e, n, p, req); var model := Identity(e.name, e.tag, WantedRuntime(e, req));
            && c.entry == e && c.nodeID == n.nodeID && c.loaded == IsLoaded(n.models, model) && c.present == HasModel(n.models, model)
            && c.score == Merit(e, p, req) + NearPoints(Above(e.maxComplexity, p.complexity), c.loaded, c.present, req)
                          - If(SaysBusy(n.status), 50) + e.priority
  {
    hide EntryPoints, Merit, PresencePoints, NearPoints, IsBusy, SaysBusy, HasModel, IsLoaded, Reaches, Tiers, Above;
    MeritIs(e, p, req);
    NearIs(e, p, IsLoaded(n.models, PairKey(e, req)), HasModel(n.models, PairKey(e, req)), req);
    SaysBusyIff(n.status);
  }

  /** Of two nodes alike but for one being BUSY, the idle one comes first, by fifty points. */
  lemma IdleComesFirst(e: CatalogEntry, n: NodeView, busy: NodeView, p: TaskProfile, req: RouteRequest)
    requires Reaches(e.maxComplexity, p.complexity) && n.status == Ready && busy == n.(nodeID := busy.nodeID, status := Busy)
    ensures Scored(e, n, p, req).score == Scored(e, busy, p, req).score + 50
    ensures Before(Scored(e, n, p, req), Scored(e, busy, p, req))
  {
    ScoreIs(e, n, p, req);
    ScoreIs(e, busy, p, req);
  }

  /** Of two entries alike but that one can code, it comes first on a code task. */
  lemma CoderComesFirst(e: CatalogEntry, n: NodeView, p: TaskProfile, req: RouteRequest)
    requires Reaches(e.maxComplexity, p.complexity) && p.modality == CodeTask && !Able(e.capabilities, "code")
    ensures var coder := e.(capabilities := e.capabilities + ["code"]);
            Scored(coder, n, p, req).score >= Scored(e, n, p, req).score + 25 && Before(Scored(coder, n, p, req), Scored(e, n, p, req))
  {
    var coder := e.(capabilities := e.capabilities + ["code"]);
    ScoreIs(e, n, p, req);
    ScoreIs(coder, n, p, req);
    assert coder.capabilities[|e.capabilities|] == "code";
    forall want
      ensures Able(e.capabilities, want) ==> Able(coder.capabilities, want)
    {
    }
    MoreIsMet(e, coder, p.capabilities);
    ToolsStay(e, coder);
  }

  lemma ToolsStay(e: CatalogEntry, f: CatalogEntry)
    requires f.name == e.name && forall want :: Able(e.capabilities, want) ==> Able(f.capabilities, want)
    ensures EntrySupportsTools(e) ==> EntrySupportsTools(f)
  {
    AbleIff(e.capabilities, "tools");
    AbleIff(f.capabilities, "tools");
  }

  lemma MoreIsMet(e: CatalogEntry, f: CatalogEntry, needs: seq<string>)
    requires forall want :: Able(e.capabilities, want) ==> Able(f.capabilities, want)
    ensures |Met(e, needs)| <= |Met(f, needs)|
  {
    var rest := Met(f, needs) - Met(e, needs);
    assert Met(f, needs) == Met(e, needs) + rest;
  }

  // ---------------------------------------------------------------- the fallback

  /** The entry can chat or is simple, handles tools if they are required, and is on a node that takes part. */
  ghost predicate Falls(e: CatalogEntry, req: RouteRequest) {
    && (Able(e.capabilities, "chat") || Able(e.capabilities, "simple")) && (req.requireTools ==> EntrySupportsTools(e))
    && exists n :: n in req.nodes && HoldsIt(n, e, req)
  }

  predicate HoldsIt(n: NodeView, e: CatalogEntry, req: RouteRequest) {
    TakesPart(n.status, req.allowBusy) && HasModel(n.models, Identity(e.name, e.tag, e.runtime))
  }

  lemma FallsIff(e: CatalogEntry, req: RouteRequest)
    ensures Falls(e, req) <==> FallbackEntry(e, req) && FirstHost(e, req.nodes, req).Some?
  {
    AbleIff(e.capabilities, "chat");
    AbleIff(e.capabilities, "simple");
    forall n | n in req.nodes
      ensures Hosts(e, n, req) <==> HoldsIt(n, e, req)
    {
      HostsIff(n, e, req);
    }
  }

  /** Entry k is the first of the highest priority among those the fallback may take. */
  ghost predicate FirstOfHighest(catalog: seq<CatalogEntry>, k: int, req: RouteRequest) {
    && 0 <= k < |catalog| && Falls(catalog[k], req)
    && (forall j :: 0 <= j < k && Falls(catalog[j], req) ==> catalog[j].priority < catalog[k].priority)
    && (forall j :: k < j < |catalog| && Falls(catalog[j], req) ==> catalog[j].priority <= catalog[k].priority)
  }

  ghost predicate FirstHolder(n: NodeView, e: CatalogEntry, nodes: seq<NodeView>, req: RouteRequest) {
    exists k :: 0 <= k < |nodes| && nodes[k] == n && HoldsIt(n, e, req) && forall j :: 0 <= j < k ==> !HoldsIt(nodes[j], e, req)
  }

  lemma {:induction false} FirstHostIsFirst(e: CatalogEntry, nodes: seq<NodeView>, req: RouteRequest)
    ensures var h := FirstHost(e, nodes, req); h.Some? ==> FirstHolder(h.value, e, nodes, req)
  {
    hide Hosts, HoldsIt;
    if nodes != [] {
      var init, n := nodes[..|nodes| - 1], nodes[|nodes| - 1];
      FirstHostIsFirst(e, init, req);
      if FirstHost(e, init, req).Some? {
        HolderStays(FirstHost(e, init, req).value, e, nodes, req);
      } else {
        NoneHolds(e, init, req);
        HostsIff(n, e, req);
      }
    }
  }

  lemma HolderStays(h: NodeView, e: CatalogEntry, nodes: seq<NodeView>, req: RouteRequest)
    requires nodes != [] && FirstHolder(h, e, nodes[..|nodes| - 1], req)
    ensures FirstHolder(h, e, nodes, req)
  {
    hide HoldsIt;
    var init := nodes[..|nodes| - 1];
    var k :| 0 <= k < |init| && init[k] == h && HoldsIt(h, e, req) && forall j :: 0 <= j < k ==> !HoldsIt(init[j], e, req);
    assert nodes[k] == h && forall j :: 0 <= j < k ==> nodes[j] == init[j];
  }

  lemma HostsIff(n: NodeView, e: CatalogEntry, req: RouteRequest)
    ensures Hosts(e, n, req) <==> HoldsIt(n, e, req)
  {
    TakesPartIff(n.status, req.allowBusy);
  }

  lemma NoneHolds(e: CatalogEntry, nodes: seq<NodeView>, req: RouteRequest)
    requires FirstHost(e, nodes, req).None?
    ensures forall j :: 0 <= j < |nodes| ==> !HoldsIt(nodes[j], e, req)
  {
    forall j | 0 <= j < |nodes|
      ensures !HoldsIt(nodes[j], e, req)
    {
      assert !Hosts(e, nodes[j], req);
      HostsIff(nodes[j], e, req);
    }
  }

  /** What the fallback has settled on after some entries: the first of the highest priority, on its first
      holder, at ten points more than its priority. */
  ghost predicate Settled(fb: Option<Candidate>, catalog: seq<CatalogEntry>, req: RouteRequest) {
    if fb.None? then forall j :: 0 <= j < |catalog| ==> !Falls(catalog[j], req)
    else
      && fb.value.score == 10 + fb.value.entry.priority && fb.value.present
      && (exists k :: FirstOfHighest(catalog, k, req) && catalog[k] == fb.value.entry)
      && (exists n :: FirstHolder(n, fb.value.entry, req.nodes, req) && fb.value.nodeID == n.nodeID &&
                      fb.value.loaded == IsLoaded(n.models, Identity(fb.value.entry.name, fb.value.entry.tag, fb.value.entry.runtime)))
  }

  lemma SettlesNew(catalog: seq<CatalogEntry>, was: Option<Candidate>, req: RouteRequest)
    requires catalog != [] && Settled(was, catalog[..|catalog| - 1], req)
    requires var e := catalog[|catalog| - 1]; Falls(e, req) && (was.None? || e.priority > was.value.entry.priority)
    ensures FirstOfHighest(catalog, |catalog| - 1, req)
  {
    hide Falls, FirstHolder;
    var init, last := catalog[..|catalog| - 1], |catalog| - 1;
    assert forall j :: 0 <= j < last ==> init[j] == catalog[j];
    if was.Some? {
      var k :| FirstOfHighest(init, k, req) && init[k] == was.value.entry;
    }
  }

  lemma SettlesOld(catalog: seq<CatalogEntry>, was: Option<Candidate>, req: RouteRequest)
    requires catalog != [] && Settled(was, catalog[..|catalog| - 1], req)
    requires var e := catalog[|catalog| - 1]; Falls(e, req) ==> was.Some? && e.priority <= was.value.entry.priority
    ensures Settled(was, catalog, req)
  {
    hide Falls, FirstHolder;
    var init, last := catalog[..|catalog| - 1], |catalog| - 1;
    assert forall j :: 0 <= j < last ==> init[j] == catalog[j];
    if was.Some? {
      var k :| FirstOfHighest(init, k, req) && init[k] == was.value.entry;
      assert FirstOfHighest(catalog, k, req) && catalog[k] == was.value.entry;
    }
  }

  /** The fallback takes the first entry of the highest priority among those it may, on the first node that
      holds it; nothing exactly when there is no such entry. */
  lemma {:induction false} FallbackIsBest(catalog: seq<CatalogEntry>, req: RouteRequest)
    ensures Settled(Fallback(catalog, req.nodes, req), catalog, req)
  {
    if catalog != [] {
      var init, e := catalog[..|catalog| - 1], catalog[|catalog| - 1];
      var was := Fallback(init, req.nodes, req);
      FallbackIsBest(init, req);
      FallsIff(e, req);
      if Falls(e, req) && (was.None? || e.priority > was.value.entry.priority) {
        SettlesNew(catalog, was, req);
        FirstHostIsFirst(e, req.nodes, req);
        assert Fallback(catalog, req.nodes, req) == Some(FallbackCandidate(e, FirstHost(e, req.nodes, req).value));
      } else {
        SettlesOld(catalog, was, req);
        assert Fallback(catalog, req.nodes, req) == was;
      }
    }
  }

  // ---------------------------------------------------------------- the decision

  /** A decision in terms of what is offered: deferred when a task for eyes finds no sighted entry at all,
      otherwise the best offer; without one, and if the task needs no eyes, the fallback. */
  lemma DecisionIs(req: RouteRequest)
    ensures var d, catalog, p := Decide(req), CatalogOf(req), EffectiveProfile(req);
            && d.profile == p && catalog == (if req.catalog == [] then DEFAULT_CATALOG else req.catalog)
            && (d.deferred <==> ForEyes(p) && forall e :: e in catalog ==> !Able(e.capabilities, "vision"))
            && (d.deferred ==> d.selected == None && d.candidates == [])
            && (!d.deferred && Ranked(req) != [] ==> d.candidates == Ranked(req) && d.selected == Some(Ranked(req)[0]) && !d.usedFallback)
            && (!d.deferred && Ranked(req) == [] && ForEyes(p) ==> d.selected == None && d.candidates == [] && !d.usedFallback)
            && (!d.deferred && Ranked(req) == [] && !ForEyes(p) ==>
                  && Settled(d.selected, catalog, req) && (d.usedFallback <==> d.selected != None)
                  && d.candidates == if d.selected == None then [] else [d.selected.value])
  {
    hide EffectiveProfile, Ranked, Fallback, Settled, HasCap, Able;
    FallbackIsBest(CatalogOf(req), req);
    forall e | e in CatalogOf(req)
      ensures HasCap(e.capabilities, "vision") <==> Able(e.capabilities, "vision")
    {
      AbleIff(e.capabilities, "vision");
    }
    assert forall i :: 0 <= i < |CatalogOf(req)| ==> CatalogOf(req)[i] in CatalogOf(req);
  }
}
