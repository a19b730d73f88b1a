/** Picking a model for a node by size (internal/routing/router.go). */
module FittingModel {
  import opened Text
  import opened ModelIdentity
  import opened Catalog
  import opened Routing

  /** The catalog's entry for an inventory row, or a bare one. */
  function EntryOf(m: Model, catalog: seq<CatalogEntry>): CatalogEntry {
    if catalog == [] then CatalogEntry(m.name, m.tag, "", [], OtherComplexity(""), 0, 0)
    else if EqualFold(catalog[0].name, m.name) && EqualFold(catalog[0].tag, m.tag) then catalog[0]
    else EntryOf(m, catalog[1..])
  }

  function Need(m: Model, catalog: seq<CatalogEntry>): nat {
    if EntryOf(m, catalog).minVRAM == 0 then m.sizeBytes else EntryOf(m, catalog).minVRAM
  }

  function Size(m: Model, catalog: seq<CatalogEntry>): nat {
    if m.sizeBytes == 0 then Need(m, catalog) else m.sizeBytes
  }

  /** Named, tool-capable when tools are asked for, and within the memory the node is known to have. */
  predicate Suits(m: Model, avail: nat, tools: bool, catalog: seq<CatalogEntry>) {
    && TrimSpace(m.name) != ""
    && (tools ==> EntrySupportsTools(EntryOf(m, catalog)))
    && (avail > 0 ==> Need(m, catalog) <= avail && m.sizeBytes <= avail)
  }

  predicate Smaller(a: Model, b: Model, catalog: seq<CatalogEntry>) {
    Size(a, catalog) < Size(b, catalog) || (Size(a, catalog) == Size(b, catalog) && Need(a, catalog) < Need(b, catalog))
  }

  function Better(best: Option<Model>, m: Model, avail: nat, tools: bool, catalog: seq<CatalogEntry>): Option<Model> {
    if Suits(m, avail, tools, catalog) && (best.None? || Smaller(m, best.value, catalog)) then Some(m) else best
  }

  function Pick(models: seq<Model>, avail: nat, tools: bool, catalog: seq<CatalogEntry>): Option<Model> {
    if models == [] then None
    else Better(Pick(models[..|models| - 1], avail, tools, catalog), models[|models| - 1], avail, tools, catalog)
  }

  method LookUp(m: Model, catalog: seq<CatalogEntry>) returns (e: CatalogEntry)
    ensures e == EntryOf(m, catalog)
  {
    e := CatalogEntry(m.name, m.tag, "", [], OtherComplexity(""), 0, 0);
    for i := 0 to |catalog|
      invariant EntryOf(m, catalog) == EntryOf(m, catalog[i..])
    {
      assert catalog[i..][0] == catalog[i] && catalog[i..][1..] == catalog[i + 1..];
      if EqualFold(catalog[i].name, m.name) && EqualFold(catalog[i].tag, m.tag) {
        return catalog[i];
      }
    }
    assert catalog[|catalog|..] == [];
  }

  /** The loop body: one inventory row against the best so far. */
  method Consider(was: Option<Model>, m: Model, avail: nat, tools: bool, catalog: seq<CatalogEntry>) returns (best: Option<Model>)
    ensures best == Better(was, m, avail, tools, catalog)
  {
    if TrimSpace(m.name) == "" {
      return was;
    }
    var entry := LookUp(m, catalog);
    if tools && !EntrySupportsTools(entry) {
      return was;
    }
    var minVRAM := entry.minVRAM;
    if minVRAM == 0 {
      minVRAM := m.sizeBytes;
    }
    if avail > 0 && minVRAM > 0 && avail < minVRAM {
      return was;
    }
    if avail > 0 && m.sizeBytes > 0 && avail < m.sizeBytes {
      return was;
    }
    best := if was.None? || Smaller(m, was.value, catalog) then Some(m) else was;
  }

  method PickFittingModel(node: NodeView, tools: bool, entries: seq<CatalogEntry>) returns (name: string, tag: string)
    ensures var catalog := if entries == [] then DEFAULT_CATALOG else entries;
            var best := Pick(node.models, BestEffortVRAM(node), tools, catalog);
            (name, tag) == if best.Some? then (best.value.name, best.value.tag) else ("", "")
  {
    hide EntryOf, Suits, Smaller, Need, Size;
    var catalog := if entries == [] then DEFAULT_CATALOG else entries;
    var avail := node.vramAvailable;
    if avail == 0 {
      avail := node.vramTotal;
    }
    var best := None;
    for k := 0 to |node.models|
      invariant best == Pick(node.models[..k], avail, tools, catalog)
    {
      assert node.models[..k + 1][..k] == node.models[..k];
      best := Consider(best, node.models[k], avail, tools, catalog);
    }
    assert node.models[..|node.models|] == node.models;
    if best.None? {
      return "", "";
    }
    return best.value.name, best.value.tag;
  }

  lemma SmallerOrder(a: Model, b: Model, c: Model, catalog: seq<CatalogEntry>)
    ensures Smaller(a, b, catalog) && Smaller(b, c, catalog) ==> Smaller(a, c, catalog)
    ensures Smaller(a, b, catalog) && !Smaller(c, b, catalog) ==> Smaller(a, c, catalog)
    ensures !Smaller(a, a, catalog)
  {
  }

  ghost predicate NoneSuits(models: seq<Model>, avail: nat, tools: bool, catalog: seq<CatalogEntry>) {
    forall m :: m in models ==> !Suits(m, avail, tools, catalog)
  }

  /** Nothing is picked exactly when nothing suits. */
  lemma {:induction false} NothingPicked(models: seq<Model>, avail: nat, tools: bool, catalog: seq<CatalogEntry>)
    ensures Pick(models, avail, tools, catalog).None? <==> NoneSuits(models, avail, tools, catalog)
  {
    if models != [] {
      var init, m := models[..|models| - 1], models[|models| - 1];
      NothingPicked(init, avail, tools, catalog);
      assert forall x :: x in models <==> x in init || x == m;
    }
  }

  lemma KeepsFirst(models: seq<Model>, k: int, best: Model, avail: nat, tools: bool, catalog: seq<CatalogEntry>)
    requires models != [] && IsFirstSmallest(models[..|models| - 1], k, best, avail, tools, catalog)
    requires Suits(models[|models| - 1], avail, tools, catalog) ==> !Smaller(models[|models| - 1], best, catalog)
    ensures IsFirstSmallest(models, k, best, avail, tools, catalog)
  {
    var init := models[..|models| - 1];
    assert forall i :: 0 <= i < |init| ==> init[i] == models[i];
  }

  lemma TakesLead(models: seq<Model>, k: int, best: Model, avail: nat, tools: bool, catalog: seq<CatalogEntry>)
    requires models != [] && IsFirstSmallest(models[..|models| - 1], k, best, avail, tools, catalog)
    requires Suits(models[|models| - 1], avail, tools, catalog) && Smaller(models[|models| - 1], best, catalog)
    ensures IsFirstSmallest(models, |models| - 1, models[|models| - 1], avail, tools, catalog)
  {
    var init, m := models[..|models| - 1], models[|models| - 1];
    forall i | 0 <= i < |init| && Suits(models[i], avail, tools, catalog)
      ensures Smaller(m, models[i], catalog)
    {
      assert init[i] == models[i];
      SmallerOrder(m, best, models[i], catalog);
    }
  }

  /** The pick suits the node, no suitable model is smaller, and among equals it is the first. */
  lemma {:induction false} PickIsTheSmallest(models: seq<Model>, avail: nat, tools: bool, catalog: seq<CatalogEntry>) returns (k: int)
    requires Pick(models, avail, tools, catalog).Some?
    ensures IsFirstSmallest(models, k, Pick(models, avail, tools, catalog).value, avail, tools, catalog)
  {
    var init, m := models[..|models| - 1], models[|models| - 1];
    var was := Pick(init, avail, tools, catalog);
    if was.None? {
      NothingPicked(init, avail, tools, catalog);
      assert forall i :: 0 <= i < |init| ==> models[i] in init;
      k := |init|;
    } else {
      k := PickIsTheSmallest(init, avail, tools, catalog);
      if Suits(m, avail, tools, catalog) && Smaller(m, was.value, catalog) {
        TakesLead(models, k, was.value, avail, tools, catalog);
        k := |init|;
      } else {
        KeepsFirst(models, k, was.value, avail, tools, catalog);
      }
    }
  }

  ghost predicate IsFirstSmallest(models: seq<Model>, k: int, m: Model, avail: nat, tools: bool, catalog: seq<CatalogEntry>) {
    && 0 <= k < |models| && models[k] == m && Suits(m, avail, tools, catalog)
    && (forall i :: 0 <= i < k && Suits(models[i], avail, tools, catalog) ==> Smaller(m, models[i], catalog))
    && (forall i :: k < i < |models| && Suits(models[i], avail, tools, catalog) ==> !Smaller(models[i], m, catalog))
  }

  ghost predicate SameButForState(a: seq<Model>, b: seq<Model>) {
    |a| == |b| && forall i :: 0 <= i < |a| ==> b[i] == a[i].(state := b[i].state)
  }

  /** The comment speaks of present models, but whether a model is on disk, loaded, being downloaded
      or absent plays no part: two inventories that differ only in states give the same pick. */
  lemma {:induction false} PickIgnoresStates(a: seq<Model>, b: seq<Model>, avail: nat, tools: bool, catalog: seq<CatalogEntry>)
    requires SameButForState(a, b)
    ensures var p, q := Pick(a, avail, tools, catalog), Pick(b, avail, tools, catalog);
            p.Some? == q.Some? && (p.Some? ==> q.value == p.value.(state := q.value.state))
  {
    if a != [] {
      PickIgnoresStates(a[..|a| - 1], b[..|b| - 1], avail, tools, catalog);
      var m, n := a[|a| - 1], b[|b| - 1];
      StateIsIrrelevant(m, n, catalog);
      var p, q := Pick(a[..|a| - 1], avail, tools, catalog), Pick(b[..|b| - 1], avail, tools, catalog);
      if p.Some? {
        StateIsIrrelevant(p.value, q.value, catalog);
      }
    }
  }

  lemma {:induction false} StateIsIrrelevant(m: Model, n: Model, catalog: seq<CatalogEntry>)
    requires n == m.(state := n.state)
    ensures EntryOf(n, catalog) == EntryOf(m, catalog)
    ensures Need(n, catalog) == Need(m, catalog) && Size(n, catalog) == Size(m, catalog)
  {
    if catalog != [] {
      StateIsIrrelevant(m, n, catalog[1..]);
    }
  }

  // ---------------------------------------------------------------- the pick in terms of sizes

  /** Entry k is the first of the catalog with the row's name and tag. */
  ghost predicate Lists(catalog: seq<CatalogEntry>, m: Model, k: int) {
    && 0 <= k < |catalog| && EqualFold(catalog[k].name, m.name) && EqualFold(catalog[k].tag, m.tag)
    && forall j :: 0 <= j < k ==> !(EqualFold(catalog[j].name, m.name) && EqualFold(catalog[j].tag, m.tag))
  }

  lemma {:induction false} EntryIsFirst(m: Model, catalog: seq<CatalogEntry>)
    ensures forall k :: Lists(catalog, m, k) ==> EntryOf(m, catalog) == catalog[k]
    ensures (forall k :: !Lists(catalog, m, k)) ==> EntryOf(m, catalog) == CatalogEntry(m.name, m.tag, "", [], OtherComplexity(""), 0, 0)
  {
    hide EqualFold;
    if catalog != [] {
      var rest := catalog[1..];
      EntryIsFirst(m, rest);
      assert forall j :: 0 <= j < |rest| ==> rest[j] == catalog[j + 1];
      if EqualFold(catalog[0].name, m.name) && EqualFold(catalog[0].tag, m.tag) {
        assert Lists(catalog, m, 0);
      } else {
        assert forall k :: Lists(catalog, m, k) ==> Lists(rest, m, k - 1);
        forall k | Lists(rest, m, k)
          ensures Lists(catalog, m, k + 1)
        {
          assert forall j :: 0 < j < k + 1 ==> catalog[j] == rest[j - 1];
        }
      }
    }
  }

  /** The memory the catalog says the model needs; 0 when it says nothing. */
  ghost function Told(m: Model, catalog: seq<CatalogEntry>): nat {
    if k :| Lists(catalog, m, k) then catalog[k].minVRAM else 0
  }

  /** The row may be picked: it has a name, room by its own size and by what the catalog says, and tools. */
  ghost predicate MayPick(m: Model, avail: nat, tools: bool, catalog: seq<CatalogEntry>) {
    && TrimSpace(m.name) != "" && (avail == 0 || (m.sizeBytes <= avail && Told(m, catalog) <= avail))
    && (tools ==> if k :| Lists(catalog, m, k) then EntrySupportsTools(catalog[k])
                  else EntrySupportsTools(CatalogEntry(m.name, m.tag, "", [], OtherComplexity(""), 0, 0)))
  }

  ghost function Weight(m: Model, catalog: seq<CatalogEntry>): nat {
    if m.sizeBytes > 0 then m.sizeBytes else Told(m, catalog)
  }

  lemma MayPickIff(m: Model, avail: nat, tools: bool, catalog: seq<CatalogEntry>)
    ensures Suits(m, avail, tools, catalog) <==> MayPick(m, avail, tools, catalog)
    ensures Size(m, catalog) == Weight(m, catalog)
  {
    hide EqualFold, EntrySupportsTools;
    EntryIsFirst(m, catalog);
  }

  /** What is picked may be picked, is of least weight among all that may, and something is picked whenever
      anything may. */
  lemma PickIsLightest(models: seq<Model>, avail: nat, tools: bool, catalog: seq<CatalogEntry>)
    ensures var p := Pick(models, avail, tools, catalog);
            if p.None? then forall m :: m in models ==> !MayPick(m, avail, tools, catalog)
            else
              && p.value in models && MayPick(p.value, avail, tools, catalog)
              && forall m :: m in models && MayPick(m, avail, tools, catalog) ==> Weight(p.value, catalog) <= Weight(m, catalog)
  {
    hide Suits, MayPick, Weight, Size, Need;
    NothingPicked(models, avail, tools, catalog);
    var p := Pick(models, avail, tools, catalog);
    forall m | m in models
      ensures Suits(m, avail, tools, catalog) <==> MayPick(m, avail, tools, catalog)
      ensures Size(m, catalog) == Weight(m, catalog)
    {
      MayPickIff(m, avail, tools, catalog);
    }
    if p.Some? {
      var k := PickIsTheSmallest(models, avail, tools, catalog);
      forall m | m in models && MayPick(m, avail, tools, catalog)
        ensures Weight(p.value, catalog) <= Weight(m, catalog)
      {
        var i :| 0 <= i < |models| && models[i] == m;
        assert Suits(models[i], avail, tools, catalog);
      }
    }
  }

  // ---------------------------------------------------------------- present models

  /** The states in which the inventory look-up takes a model to be on the node. */
  predicate IsPresent(m: Model) {
    m.state.Available? || m.state.Loaded? || m.state.Unloaded? || m.state.Unspecified?
  }

  function PresentOnly(models: seq<Model>): seq<Model> {
    if models == [] then []
    else PresentOnly(models[..|models| - 1]) + (if IsPresent(models[|models| - 1]) then [models[|models| - 1]] else [])
  }

  lemma {:induction false} PresentPicks(models: seq<Model>, avail: nat, tools: bool, catalog: seq<CatalogEntry>)
    ensures var q := Pick(PresentOnly(models), avail, tools, catalog); q.Some? ==> IsPresent(q.value)
  {
    if models != [] {
      PresentPicks(models[..|models| - 1], avail, tools, catalog);
      PresentStep(models, avail, tools, catalog);
    }
  }

  lemma PresentStep(models: seq<Model>, avail: nat, tools: bool, catalog: seq<CatalogEntry>)
    requires models != []
    ensures var m, q := models[|models| - 1], Pick(PresentOnly(models[..|models| - 1]), avail, tools, catalog);
            Pick(PresentOnly(models), avail, tools, catalog) == if IsPresent(m) then Better(q, m, avail, tools, catalog) else q
  {
    var m, sofar := models[|models| - 1], PresentOnly(models[..|models| - 1]);
    assert (sofar + [m])[..|sofar|] == sofar;
    assert sofar + [] == sofar;
  }

  /** The pick p over all rows and the pick q over the present ones: equal where p is present, p ahead where it is not. */
  predicate Agree(p: Option<Model>, q: Option<Model>, catalog: seq<CatalogEntry>) {
    if p.None? || IsPresent(p.value) then p == q else q.None? || !Smaller(q.value, p.value, catalog)
  }

  lemma OneMoreRow(p: Option<Model>, q: Option<Model>, m: Model, avail: nat, tools: bool, catalog: seq<CatalogEntry>)
    requires Agree(p, q, catalog)
    ensures Agree(Better(p, m, avail, tools, catalog), if IsPresent(m) then Better(q, m, avail, tools, catalog) else q, catalog)
  {
    if p.Some? && q.Some? {
      SmallerOrder(m, p.value, q.value, catalog);
      SmallerOrder(m, q.value, p.value, catalog);
      SmallerOrder(q.value, m, p.value, catalog);
    }
  }

  lemma {:induction false} PickAgainstPresent(models: seq<Model>, avail: nat, tools: bool, catalog: seq<CatalogEntry>)
    ensures Agree(Pick(models, avail, tools, catalog), Pick(PresentOnly(models), avail, tools, catalog), catalog)
  {
    if models != [] {
      var init, m := models[..|models| - 1], models[|models| - 1];
      PickAgainstPresent(init, avail, tools, catalog);
      PresentStep(models, avail, tools, catalog);
      OneMoreRow(Pick(init, avail, tools, catalog), Pick(PresentOnly(init), avail, tools, catalog), m, avail, tools, catalog);
    }
  }

  /** Row i is smaller than row j, or as small and listed earlier. */
  predicate Ahead(models: seq<Model>, i: nat, j: nat, catalog: seq<CatalogEntry>)
    requires i < |models| && j < |models|
  {
    Smaller(models[i], models[j], catalog) || (!Smaller(models[j], models[i], catalog) && i < j)
  }

  /** An absent row that suits and is ahead of every present row that suits. */
  ghost predicate AbsentLeads(models: seq<Model>, i: int, avail: nat, tools: bool, catalog: seq<CatalogEntry>) {
    && 0 <= i < |models| && !IsPresent(models[i]) && Suits(models[i], avail, tools, catalog)
    && forall j :: 0 <= j < |models| && IsPresent(models[j]) && Suits(models[j], avail, tools, catalog) ==> Ahead(models, i, j, catalog)
  }

  lemma PickAheadOfAll(models: seq<Model>, k: int, best: Model, avail: nat, tools: bool, catalog: seq<CatalogEntry>)
    requires IsFirstSmallest(models, k, best, avail, tools, catalog)
    ensures forall j :: 0 <= j < |models| && j != k && Suits(models[j], avail, tools, catalog) ==>
              Ahead(models, k, j, catalog) && !Ahead(models, j, k, catalog)
  {
    forall j | 0 <= j < |models| && j != k && Suits(models[j], avail, tools, catalog)
      ensures Ahead(models, k, j, catalog) && !Ahead(models, j, k, catalog)
    {
      SmallerOrder(models[k], models[j], models[k], catalog);
    }
  }

  /** The pick is the smallest present model that suits, as the comment has it, exactly when no absent
      row that suits is ahead of every present one that does. */
  lemma PickIsThePresentOneIff(models: seq<Model>, avail: nat, tools: bool, catalog: seq<CatalogEntry>)
    ensures Pick(models, avail, tools, catalog) == Pick(PresentOnly(models), avail, tools, catalog)
            <==> forall i :: !AbsentLeads(models, i, avail, tools, catalog)
  {
    var p := Pick(models, avail, tools, catalog);
    PickAgainstPresent(models, avail, tools, catalog);
    PresentPicks(models, avail, tools, catalog);
    NothingPicked(models, avail, tools, catalog);
    if p.Some? {
      var k := PickIsTheSmallest(models, avail, tools, catalog);
      PickAheadOfAll(models, k, p.value, avail, tools, catalog);
      if !IsPresent(p.value) {
        assert AbsentLeads(models, k, avail, tools, catalog);
      } else {
        forall i
          ensures !AbsentLeads(models, i, avail, tools, catalog)
        {
          assert 0 <= i < |models| && i != k && Suits(models[i], avail, tools, catalog) ==> !Ahead(models, i, k, catalog);
        }
      }
    } else {
      forall i
        ensures !AbsentLeads(models, i, avail, tools, catalog)
      {
        assert 0 <= i < |models| ==> models[i] in models;
      }
    }
  }

  /** The catalog says nothing of models called a or b. */
  predicate NamesNeither(catalog: seq<CatalogEntry>) {
    forall i :: 0 <= i < |catalog| ==> !EqualFold(catalog[i].name, "a") && !EqualFold(catalog[i].name, "b")
  }

  lemma {:induction false} NotListed(m: Model, catalog: seq<CatalogEntry>)
    requires NamesNeither(catalog) && (m.name == "a" || m.name == "b")
    ensures EntryOf(m, catalog) == EntryOf(m, [])
  {
    if catalog != [] {
      assert forall i :: 0 <= i < |catalog[1..]| ==> catalog[1..][i] == catalog[i + 1];
      NotListed(m, catalog[1..]);
    }
  }

  lemma BuiltInNamesNeither()
    ensures NamesNeither(DEFAULT_CATALOG)
  {
    assert |ToLower("a")| == |ToLower("b")| == 1;
    assert forall i :: 0 <= i < |DEFAULT_CATALOG| ==> |ToLower(DEFAULT_CATALOG[i].name)| > 1;
  }

  lemma PickOne(m: Model, catalog: seq<CatalogEntry>)
    requires Suits(m, 0, false, catalog)
    ensures Pick([m], 0, false, catalog) == Some(m)
  {
    assert [m][..0] == [];
    assert Pick([], 0, false, catalog) == None;
  }

  lemma PickFirst(m: Model, n: Model, catalog: seq<CatalogEntry>)
    requires Suits(m, 0, false, catalog) && !Smaller(n, m, catalog)
    ensures Pick([m, n], 0, false, catalog) == Some(m)
  {
    assert [m, n][..1] == [m];
    PickOne(m, catalog);
  }

  /** A named row that the catalog says nothing of suits, and is as large as it says. */
  lemma BareRow(m: Model, catalog: seq<CatalogEntry>)
    requires NamesNeither(catalog) && (m.name == "a" || m.name == "b")
    ensures Suits(m, 0, false, catalog) && Size(m, catalog) == Need(m, catalog) == m.sizeBytes
  {
    NotListed(m, catalog);
    assert TrimSpace("a") == "a" && TrimSpace("b") == "b";
  }

  const ABSENT := Model("a", "t", "", NotPresent, 1)
  const PRESENT := Model("b", "t", "", Available, 2)

  /** A model that is not on the node is picked over a larger one that is, whatever else the catalog
      lists; with the built-in catalog, for one. */
  lemma AbsentModelIsPicked(catalog: seq<CatalogEntry>)
    ensures NamesNeither(DEFAULT_CATALOG)
    ensures NamesNeither(catalog) ==>
              && Pick([ABSENT, PRESENT], 0, false, catalog) == Some(ABSENT)
              && Pick(PresentOnly([ABSENT, PRESENT]), 0, false, catalog) == Some(PRESENT)
  {
    hide Pick, PresentOnly, EntryOf, Suits, Need, Size, NamesNeither;
    BuiltInNamesNeither();
    if NamesNeither(catalog) {
      BareRow(ABSENT, catalog);
      BareRow(PRESENT, catalog);
      OnlyThePresent(ABSENT, PRESENT);
      PickOne(PRESENT, catalog);
      PickFirst(ABSENT, PRESENT, catalog);
    }
  }

  lemma OnlyThePresent(absent: Model, present: Model)
    requires !IsPresent(absent) && IsPresent(present)
    ensures PresentOnly([absent, present]) == [present]
  {
    assert [absent, present][..1] == [absent] && [absent][..0] == [];
    assert PresentOnly([]) == [];
  }
}
