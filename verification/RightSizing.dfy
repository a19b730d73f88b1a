/** Right-sizing: how far warmth can outbid the exact tier (internal/routing/router.go, catalog.go). */
module RightSizing {
  import opened Text
  import opened ModelIdentity
  import opened Resources
  import opened Catalog
  import opened Routing
  import opened Ranking
  import opened Router
  import opened RouteGuarantees

  /** e covers the task at least as well as f: needs met, and modality, simplicity and tool bonuses. */
  predicate CoversAsWell(e: CatalogEntry, f: CatalogEntry, p: TaskProfile, req: RouteRequest) {
    Overlap(e, p.capabilities) >= Overlap(f, p.capabilities) && Bonus(e, p, req) >= Bonus(f, p, req)
  }

  /** An entry of exactly the needed tier, on disk, against an oversized one that may even be warm. */
  predicate ExactAgainstOversized(e: CatalogEntry, n: NodeView, f: CatalogEntry, m: NodeView, p: TaskProfile, req: RouteRequest) {
    && Tiers(e, p) == 0 && Tiers(f, p) >= 1
    && HasModel(n.models, PairKey(e, req))
    && BusyPenalty(n) <= BusyPenalty(m)
    && CoversAsWell(e, f, p, req)
  }

  lemma Margin(e: CatalogEntry, n: NodeView, f: CatalogEntry, m: NodeView, p: TaskProfile, req: RouteRequest)
    requires ExactAgainstOversized(e, n, f, m, p, req)
    ensures Scored(e, n, p, req).score - Scored(f, m, p, req).score >= 15 + e.priority - f.priority
  {
    var cold := PresencePoints(0, false, true, req);
    assert PresencePoints(Tiers(e, p), IsLoaded(n.models, PairKey(e, req)), true, req) >= cold;
    assert FitPoints(Tiers(f, p)) + PresencePoints(Tiers(f, p), IsLoaded(m.models, PairKey(f, req)), HasModel(m.models, PairKey(f, req)), req)
           <= FitPoints(0) + cold - 15;
  }

  /** The closest call: the exact tier is only on disk, the other is warm and one tier up, and the
      two cover the task equally well on equally busy nodes. */
  predicate ClosestCall(e: CatalogEntry, n: NodeView, f: CatalogEntry, m: NodeView, p: TaskProfile, req: RouteRequest) {
    && ExactAgainstOversized(e, n, f, m, p, req) && CoversAsWell(f, e, p, req)
    && Tiers(f, p) == 1 && BusyPenalty(n) == BusyPenalty(m) && req.preferLoaded
    && !IsLoaded(n.models, PairKey(e, req)) && IsLoaded(m.models, PairKey(f, req))
  }

  /** In the closest call the right size wins exactly when the other's priority is less than 15 ahead. */
  lemma RightSizeWinsIff(e: CatalogEntry, n: NodeView, f: CatalogEntry, m: NodeView, p: TaskProfile, req: RouteRequest)
    requires ClosestCall(e, n, f, m, p, req)
    ensures Before(Scored(e, n, p, req), Scored(f, m, p, req)) <==> f.priority - e.priority < 15
    ensures Before(Scored(f, m, p, req), Scored(e, n, p, req)) <==> f.priority - e.priority >= 15
  {
    var small, big := Scored(e, n, p, req), Scored(f, m, p, req);
    assert small.score - big.score == 15 + e.priority - f.priority;
  }

  /** Over a catalog made from the inventory, an oversized model is never selected while a model of
      the exact tier is on disk somewhere as idle and covers the task as well. */
  lemma InventoryRoutesAreRightSized(req: RouteRequest, small: Candidate, e: CatalogEntry, n: NodeView,
                                     big: Candidate, f: CatalogEntry, m: NodeView)
    requires FromInventory(CatalogOf(req)) && !NothingCanSee(req)
    requires IsPair(small, e, n, req) && IsPair(big, f, m, req)
    requires ExactAgainstOversized(e, n, f, m, EffectiveProfile(req), req)
    ensures Before(small, big)
    ensures Decide(req).selected.Some? && Decide(req).selected != Some(big)
  {
    Margin(e, n, f, m, EffectiveProfile(req), req);
    InventoryPriorities(CatalogOf(req), e, f);
    SelectedBeatsEveryPair(req, e, n, small);
  }

  lemma MediumAgainstHigh(e: CatalogEntry, f: CatalogEntry, p: TaskProfile, req: RouteRequest)
    requires p.modality.TextTask? && p.complexity.Medium? && !req.requireTools
    requires e.maxComplexity.Medium? && f.maxComplexity.High?
    ensures Tiers(e, p) == 0 && Tiers(f, p) == 1 && Bonus(e, p, req) == Bonus(f, p, req)
  {
  }

  /** The built-in catalog is not made that way: its priorities reach 50, so for a medium task that
      needs chat and reasoning a warm 7B coder outranks the 3B general model on disk. */
  lemma BuiltInCatalogOversizes(n: NodeView, req: RouteRequest)
    requires EffectiveProfile(req) == TaskProfile(TextTask, Medium, ["chat", "reasoning"])
    requires req.preferLoaded && !req.requireTools
    requires HasModel(n.models, PairKey(DEFAULT_CATALOG[3], req)) && !IsLoaded(n.models, PairKey(DEFAULT_CATALOG[3], req))
    requires IsLoaded(n.models, PairKey(DEFAULT_CATALOG[4], req))
    ensures Before(Scored(DEFAULT_CATALOG[4], n, EffectiveProfile(req), req), Scored(DEFAULT_CATALOG[3], n, EffectiveProfile(req), req))
  {
    var e, f, p := DEFAULT_CATALOG[3], DEFAULT_CATALOG[4], EffectiveProfile(req);
    BothNeedsMet(e, 0, 1);
    BothNeedsMet(f, 1, 2);
    MediumAgainstHigh(e, f, p, req);
    assert ClosestCall(e, n, f, n, p, req);
    RightSizeWinsIff(e, n, f, n, p, req);
  }

  lemma BothNeedsMet(e: CatalogEntry, i: nat, j: nat)
    requires i < |e.capabilities| && j < |e.capabilities|
    requires e.capabilities[i] == "chat" && e.capabilities[j] == "reasoning"
    ensures Overlap(e, ["chat", "reasoning"]) == 2
  {
    var needs := ["chat", "reasoning"];
    assert needs[..1] == ["chat"] && needs[..1][..0] == [];
    assert HasCap(e.capabilities, "chat") && HasCap(e.capabilities, "reasoning");
    assert Overlap(e, needs[..1]) == 1;
  }

  const GENERAL := Model("llama3.2", "3b", "", Available, 0)
  const CODER := Model("qwen2.5-coder", "7b", "", Loaded, 0)

  lemma GeneralIsCold()
    ensures Match([GENERAL, CODER], Identity("llama3.2", "3b", "")) == Some(GENERAL)
  {
    MatchedFirst(GENERAL, [CODER], Identity("llama3.2", "3b", ""));
    assert [GENERAL] + [CODER] == [GENERAL, CODER];
  }

  lemma CoderIsWarm()
    ensures Match([GENERAL, CODER], Identity("qwen2.5-coder", "7b", "")) == Some(CODER)
  {
    var want := Identity("qwen2.5-coder", "7b", "");
    MatchedFirst(CODER, [], want);
    OtherName(want, IdentityOf(GENERAL));
    assert [GENERAL, CODER][1..] == [CODER] && [CODER] + [] == [CODER];
  }

  /** Names of different lengths do not match. */
  lemma OtherName(want: Identity, have: Identity)
    requires Trimmed(want.name) && Trimmed(have.name) && |want.name| != |have.name|
    ensures !Matches(want, have)
  {
  }

  /** Such a node: the general model on disk, the coder in memory. */
  lemma BuiltInCatalogCase() returns (n: NodeView, req: RouteRequest)
    ensures EffectiveProfile(req) == TaskProfile(TextTask, Medium, ["chat", "reasoning"])
    ensures req.preferLoaded && !req.requireTools && req.catalog == []
    ensures HasModel(n.models, PairKey(DEFAULT_CATALOG[3], req)) && !IsLoaded(n.models, PairKey(DEFAULT_CATALOG[3], req))
    ensures IsLoaded(n.models, PairKey(DEFAULT_CATALOG[4], req))
  {
    n := NodeView("n", Ready, ["ollama"], [GENERAL, CODER], 0, 0);
    req := RouteRequest(TaskProfile(TextTask, Medium, ["chat", "reasoning"]), [], [n], true, false, true, "", false, false, false);
    GeneralIsCold();
    CoderIsWarm();
    assert PairKey(DEFAULT_CATALOG[3], req) == Identity("llama3.2", "3b", "");
    assert PairKey(DEFAULT_CATALOG[4], req) == Identity("qwen2.5-coder", "7b", "");
  }

  lemma MatchedFirst(m: Model, rest: seq<Model>, want: Identity)
    requires Trimmed(want.name) && want.name != "" && want.name == m.name && want.tag == m.tag && want.runtime == ""
    ensures Match([m] + rest, want) == Some(m)
  {
    assert ([m] + rest)[0] == m;
  }
}
