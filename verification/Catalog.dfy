/** Task profiles and the model catalog (internal/routing: types.go, catalog.go). */
module Catalog {
  import opened Text
  import opened ModelIdentity

  datatype Modality = TextTask | CodeTask | VisionTask | DocumentTask

  datatype Complexity = Low | Medium | High | OtherComplexity(text: string)

  function ComplexityRank(c: Complexity): nat {
    match c
    case Medium => 2
    case High => 3
    case _ => 1
  }

  datatype TaskProfile = TaskProfile(modality: Modality, complexity: Complexity, capabilities: seq<string>)

  datatype CatalogEntry = CatalogEntry(name: string, tag: string, runtime: string, capabilities: seq<string>,
    maxComplexity: Complexity, minVRAM: nat, priority: int)

  function EntryRef(e: CatalogEntry): string {
    if e.tag == "" then e.name else e.name + ":" + e.tag
  }

  const GIB := 0x4000_0000

  const DEFAULT_CATALOG := [
    CatalogEntry("tinyllama", "latest", "", ["chat", "simple"], Low, GIB, 10),
    CatalogEntry("qwen2.5", "0.5b", "", ["chat", "simple", "reasoning"], Low, GIB, 20),
    CatalogEntry("qwen2.5-coder", "1.5b", "", ["code", "chat", "tools"], Medium, 2 * GIB, 40),
    CatalogEntry("llama3.2", "3b", "", ["chat", "reasoning", "code", "tools"], Medium, 3 * GIB, 30),
    CatalogEntry("qwen2.5-coder", "7b", "", ["code", "chat", "reasoning", "tools"], High, 6 * GIB, 50)]

  // ---------------------------------------------------------------- what an entry can do

  predicate HasCap(caps: seq<string>, want: string) {
    exists i :: 0 <= i < |caps| && EqualFold(caps[i], want)
  }

  predicate EntrySupportsTools(e: CatalogEntry) {
    var n := ToLower(e.name);
    HasCap(e.capabilities, "tools") ||
    (!Contains(n, "tinyllama") &&
     (Contains(n, "coder") || "llama3.1" <= n || "llama3.2" <= n || "llama3.3" <= n || "qwen3" <= n))
  }

  /** By its abilities or else by its name: a coder, or of a family known for it, but never a tinyllama. */
  lemma ToolCapableIff(e: CatalogEntry)
    ensures var n := ToLower(e.name);
            EntrySupportsTools(e) <==>
            HasCap(e.capabilities, "tools") ||
            (!Contains(n, "tinyllama") && (Contains(n, "coder") || exists k :: 0 <= k < |TOOL_FAMILIES| && TOOL_FAMILIES[k] <= n))
  {
    hide HasCap, Contains;
    assert TOOL_FAMILIES[0] == "llama3.1" && TOOL_FAMILIES[1] == "llama3.2" && TOOL_FAMILIES[2] == "llama3.3" && TOOL_FAMILIES[3] == "qwen3";
  }

  const TOOL_FAMILIES := ["llama3.1", "llama3.2", "llama3.3", "qwen3"]

  predicate NeedsVision(p: TaskProfile) {
    p.modality.VisionTask? || p.modality.DocumentTask?
  }

  predicate EntrySupports(e: CatalogEntry, p: TaskProfile) {
    && ComplexityRank(e.maxComplexity) >= ComplexityRank(p.complexity)
    && if NeedsVision(p) then HasCap(e.capabilities, "vision")
       else
         && (HasCap(p.capabilities, "tools") ==> EntrySupportsTools(e))
         && if p.modality.CodeTask? then HasCap(e.capabilities, "code") || HasCap(e.capabilities, "chat")
            else HasCap(e.capabilities, "chat") ||
                 exists i :: 0 <= i < |p.capabilities| && p.capabilities[i] != "tools" && HasCap(e.capabilities, p.capabilities[i])
  }

  // ---------------------------------------------------------------- entries made from the inventory

  datatype Family = Family(needles: seq<string>, capabilities: seq<string>, tools: bool)

  const KNOWN_FAMILIES := [
    Family(["qwen2.5vl", "qwen-vl", "llava", "moondream", "minicpm-v"], ["vision", "ocr", "chat"], false),
    Family(["coder", "codellama", "codegemma", "starcoder"], ["code", "chat", "reasoning"], true),
    Family(["deepseek-r1", "qwq", "thinking", "o1", "marco-o1"], ["reasoning", "chat", "code"], false),
    Family(["llama3", "llama-3"], ["chat", "reasoning", "code"], true),
    Family(["qwen"], ["chat", "reasoning", "code"], true),
    Family(["mistral", "mixtral", "gemma", "phi"], ["chat", "reasoning"], false),
    Family(["tinyllama", "smollm"], ["chat", "simple"], false)]

  predicate Mentions(ref: string, f: Family) {
    exists i :: 0 <= i < |f.needles| && Contains(ref, f.needles[i])
  }

  /** Families are ordered: the first one the reference mentions decides. */
  function FamilyOf(ref: string, families: seq<Family>): Option<Family> {
    if families == [] then None
    else if Mentions(ref, families[0]) then Some(families[0])
    else FamilyOf(ref, families[1..])
  }

  /** Parameter count class: below 2, from 2 to 8, above 8 billion, or not known. */
  datatype SizeClass = Small | Mid | Large | UnknownSize

  function AppendCap(caps: seq<string>, c: string): seq<string> {
    if HasCap(caps, c) then caps else caps + [c]
  }

  function FamilyCaps(f: Option<Family>): seq<string> {
    match f
    case None => ["chat"]
    case Some(fam) => fam.capabilities + (if fam.tools then ["tools"] else [])
  }

  function InventoryRef(m: Model): string {
    ToLower(TrimSpace(m.name + ":" + m.tag))
  }

  function TierOf(size: SizeClass): (Complexity, int) {
    match size
    case Small => (Low, 2)
    case Mid => (Medium, 6)
    case Large => (High, 10)
    case UnknownSize => (Medium, 4)
  }

  function EntryFor(m: Model, size: SizeClass): CatalogEntry {
    var caps := FamilyCaps(FamilyOf(InventoryRef(m), KNOWN_FAMILIES));
    CatalogEntry(m.name, m.tag, m.runtime, if size.Small? then AppendCap(caps, "simple") else caps,
                 TierOf(size).0, m.sizeBytes, TierOf(size).1)
  }

  method EntryForModel(m: Model, size: SizeClass) returns (e: CatalogEntry)
    ensures e == EntryFor(m, size)
  {
    var ref := ToLower(TrimSpace(m.name + ":" + m.tag));
    var caps := ["chat"];
    var fams := KNOWN_FAMILIES;
    label families:
    for i := 0 to |fams|
      invariant caps == ["chat"] && FamilyOf(ref, fams) == FamilyOf(ref, fams[i..])
    {
      var fam := fams[i];
      assert fams[i..][0] == fam && fams[i..][1..] == fams[i + 1..];
      for j := 0 to |fam.needles|
        invariant forall k :: 0 <= k < j ==> !Contains(ref, fam.needles[k])
      {
        if Contains(ref, fam.needles[j]) {
          assert Mentions(ref, fam);
          caps := fam.capabilities;
          if fam.tools {
            caps := caps + ["tools"];
          }
          break families;
        }
      }
    }
    assert caps == FamilyCaps(FamilyOf(ref, fams));
    var tier, priority := Medium, 4;
    match size {
      case Small =>
        tier, priority := Low, 2;
        if !HasCap(caps, "simple") {
          caps := caps + ["simple"];
        }
      case Mid =>
        priority := 6;
      case Large =>
        tier, priority := High, 10;
      case UnknownSize =>
    }
    e := CatalogEntry(m.name, m.tag, m.runtime, caps, tier, m.sizeBytes, priority);
  }

  // ---------------------------------------------------------------- what such an entry can do

  predicate Names(ref: string, needles: seq<string>) {
    exists k :: 0 <= k < |needles| && Contains(ref, needles[k])
  }

  predicate NamesEyes(ref: string) {
    Names(ref, ["qwen2.5vl", "qwen-vl", "llava", "moondream", "minicpm-v"])
  }

  predicate NamesCoder(ref: string) {
    Names(ref, ["coder", "codellama", "codegemma", "starcoder"])
  }

  predicate NamesThinker(ref: string) {
    Names(ref, ["deepseek-r1", "qwq", "thinking", "o1", "marco-o1"])
  }

  predicate NamesGeneral(ref: string) {
    Names(ref, ["llama3", "llama-3"]) || Names(ref, ["qwen"])
  }

  predicate NamesPlain(ref: string) {
    Names(ref, ["mistral", "mixtral", "gemma", "phi"])
  }

  predicate NamesTiny(ref: string) {
    Names(ref, ["tinyllama", "smollm"])
  }

  const CAN_SEE := ["vision", "ocr", "chat"]
  const CAN_CODE := ["code", "chat", "reasoning"]
  const CAN_THINK := ["reasoning", "chat", "code"]
  const CAN_TALK := ["chat", "reasoning", "code"]
  const CAN_REASON := ["chat", "reasoning"]
  const CAN_CHAT := ["chat", "simple"]

  /** Sight comes before code, code before thinking, thinking before general talk; and only coders and general
      models that do none of the former are taken to handle tools. */
  lemma FamilyDecides(ref: string)
    ensures FamilyCaps(FamilyOf(ref, KNOWN_FAMILIES)) ==
            if NamesEyes(ref) then CAN_SEE
            else if NamesCoder(ref) then CAN_CODE + ["tools"]
            else if NamesThinker(ref) then CAN_THINK
            else if NamesGeneral(ref) then CAN_TALK + ["tools"]
            else if NamesPlain(ref) then CAN_REASON
            else if NamesTiny(ref) then CAN_CHAT
            else ["chat"]
  {
    var f := KNOWN_FAMILIES;
    FamilyStep(ref, f[0], f[1..]);
    FamilyStep(ref, f[1], f[2..]);
    FamilyStep(ref, f[2], f[3..]);
    FamilyStep(ref, f[3], f[4..]);
    FamilyStep(ref, f[4], f[5..]);
    FamilyStep(ref, f[5], f[6..]);
    FamilyStep(ref, f[6], f[7..]);
    assert CAN_SEE + [] == CAN_SEE && CAN_THINK + [] == CAN_THINK && CAN_REASON + [] == CAN_REASON && CAN_CHAT + [] == CAN_CHAT;
  }

  lemma FamilyStep(ref: string, f: Family, rest: seq<Family>)
    ensures FamilyOf(ref, [f] + rest) == if Names(ref, f.needles) then Some(f) else FamilyOf(ref, rest)
  {
    assert ([f] + rest)[1..] == rest;
  }

  /** The rest of the entry: the model itself, its size as its need, and tier and priority by parameter count. */
  lemma EntryShows(m: Model, size: SizeClass)
    ensures var e := EntryFor(m, size);
            && e.name == m.name && e.tag == m.tag && e.runtime == m.runtime && e.minVRAM == m.sizeBytes
            && e.maxComplexity == (if size == Small then Low else if size == Large then High else Medium)
            && e.priority == (if size == Small then 2 else if size == UnknownSize then 4 else if size == Mid then 6 else 10)
            && (size == Small ==> HasCap(e.capabilities, "simple"))
            && (size != Small ==> e.capabilities == FamilyCaps(FamilyOf(InventoryRef(m), KNOWN_FAMILIES)))
  {
    var caps := FamilyCaps(FamilyOf(InventoryRef(m), KNOWN_FAMILIES));
    assert (caps + ["simple"])[|caps|] == "simple";
  }

  /** A catalog whose entries all come from the inventory. */
  ghost predicate FromInventory(catalog: seq<CatalogEntry>) {
    forall e :: e in catalog ==> exists m, size :: e == EntryFor(m, size)
  }

  /** Priority is a tie-breaker: between inventory entries it spans at most 8 points, and it never
      decreases as the tier goes up. */
  lemma InventoryPriorities(catalog: seq<CatalogEntry>, a: CatalogEntry, b: CatalogEntry)
    requires FromInventory(catalog) && a in catalog && b in catalog
    ensures b.priority - a.priority <= 8
    ensures ComplexityRank(b.maxComplexity) > ComplexityRank(a.maxComplexity) ==> b.priority > a.priority
  {
  }
}
