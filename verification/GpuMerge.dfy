/** Merging the records of several detectors into one row per card (internal/gpu/detect.go). */
module GpuMerge {
  import opened Text
  import opened ModelIdentity
  import opened Gpu

  const VENDOR_OTHER := "other"

  // ---------------------------------------------------------------- keys

  /** s without the occurrences of sub, found from the left. */
  function Removed(s: string, sub: string): string
    requires sub != ""
  {
    if s == "" then ""
    else if sub <= s then Removed(s[|sub|..], sub)
    else [s[0]] + Removed(s[1..], sub)
  }

  /** Length of the first word of a text that does not start with white space. */
  function WordLength(s: string): (n: nat)
    ensures n <= |s|
    ensures s != "" && !IsSpace(s[0]) ==> n > 0
  {
    if s == "" || IsSpace(s[0]) then 0 else 1 + WordLength(s[1..])
  }

  /** The words of s, with one blank between them. */
  function SingleSpaced(s: string): string
    decreases |s|
  {
    var t := TrimLeft(s);
    if t == "" then ""
    else
      var n := WordLength(t);
      var rest := SingleSpaced(t[n..]);
      if rest == "" then t[..n] else t[..n] + " " + rest
  }

  function NormalizeName(name: string): string {
    SingleSpaced(Removed(Removed(ToLower(name), "(r)"), "(tm)"))
  }

  predicate LooksGeneric(name: string) {
    var n := ToLower(name);
    "pci " <= n || n == "unknown" || n == "" || Contains(n, "vga compatible") || Contains(n, "3d controller")
  }

  /** "" when the card's vendor or name says too little to be matched on. */
  function VendorNameKey(g: GPU): string {
    var name := NormalizeName(g.name);
    if g.vendor == "" || name == "" || LooksGeneric(g.name) then "" else g.vendor + "|" + name
  }

  function NormalizePCI(id: string): string {
    TrimPrefix(TrimPrefix(ToLower(TrimSpace(id)), "00000000:"), "0000:")
  }

  function UuidKey(g: GPU): string {
    ToLower(g.uuid)
  }

  function PciKey(g: GPU): string {
    NormalizePCI(g.pciBusID)
  }

  predicate HasUuid(g: GPU) {
    g.uuid != ""
  }

  predicate HasPci(g: GPU) {
    g.pciBusID != ""
  }

  // ---------------------------------------------------------------- folding one record into another

  function Or(a: string, b: string): string {
    if a == "" then b else a
  }

  function OrElse<T>(a: Option<T>, b: Option<T>): Option<T> {
    if a.None? then b else a
  }

  function Max(a: nat, b: nat): nat {
    if b > a then b else a
  }

  /** Ids are kept once known, memory is the larger of the two. */
  function Richer(a: GPU, b: GPU): (r: GPU)
    ensures r.uuid == Or(a.uuid, b.uuid) && r.pciBusID == Or(a.pciBusID, b.pciBusID)
    ensures r.memoryTotal == Max(a.memoryTotal, b.memoryTotal)
  {
    GPU(a.id,
        Or(a.uuid, b.uuid),
        if a.vendor == VENDOR_OTHER && b.vendor != VENDOR_OTHER && b.vendor != "" then b.vendor else a.vendor,
        if a.name == "" || (LooksGeneric(a.name) && !LooksGeneric(b.name) && b.name != "") then b.name else a.name,
        if (a.memoryTotal == 0 || b.memoryTotal > a.memoryTotal) && b.memoryTotal > 0 then b.memoryTotal else a.memoryTotal,
        if a.memoryUsed == 0 then b.memoryUsed else a.memoryUsed,
        Or(a.driverVersion, b.driverVersion),
        Or(a.cudaVersion, b.cudaVersion),
        Or(a.computeCapability, b.computeCapability),
        OrElse(a.utilization, b.utilization),
        OrElse(a.utilizationMemory, b.utilizationMemory),
        OrElse(a.temperature, b.temperature),
        Or(a.pciBusID, b.pciBusID),
        if a.source != b.source && b.source != "" then a.source + "+" + b.source else a.source)
  }

  /** What is known stays and what is missing is filled in: vendor and name count as missing when they say
      nothing, and the sources are joined. */
  lemma RicherFills(a: GPU, b: GPU)
    ensures var r := Richer(a, b);
            && r.id == a.id
            && (a.driverVersion != "" ==> r.driverVersion == a.driverVersion) && (a.driverVersion == "" ==> r.driverVersion == b.driverVersion)
            && (a.cudaVersion != "" ==> r.cudaVersion == a.cudaVersion) && (a.cudaVersion == "" ==> r.cudaVersion == b.cudaVersion)
            && (a.computeCapability != "" ==> r.computeCapability == a.computeCapability)
            && (a.computeCapability == "" ==> r.computeCapability == b.computeCapability)
            && r.utilization == (if a.utilization != None then a.utilization else b.utilization)
            && r.utilizationMemory == (if a.utilizationMemory != None then a.utilizationMemory else b.utilizationMemory)
            && r.temperature == (if a.temperature != None then a.temperature else b.temperature)
            && r.memoryUsed == (if a.memoryUsed != 0 then a.memoryUsed else b.memoryUsed)
            && (r.memoryTotal == a.memoryTotal || r.memoryTotal == b.memoryTotal) && r.memoryTotal >= a.memoryTotal && r.memoryTotal >= b.memoryTotal
            && (if a.vendor == "other" && b.vendor != "" then r.vendor == b.vendor else r.vendor == a.vendor)
            && (if a.name == "" || (LooksGeneric(a.name) && b.name != "" && !LooksGeneric(b.name)) then r.name == b.name else r.name == a.name)
            && r.source == (if b.source == "" || b.source == a.source then a.source else a.source + "+" + b.source)
  {
  }

  /** A name is generic when it is missing, unknown, or what lspci prints for any card. */
  lemma GenericIff(name: string)
    ensures var n := ToLower(name);
            LooksGeneric(name) <==>
            n == "" || n == "unknown" || OccursAt(n, "pci ", 0) || (exists i :: OccursAt(n, "vga compatible", i)) || (exists i :: OccursAt(n, "3d controller", i))
  {
    ContainsIff(ToLower(name), "vga compatible");
    ContainsIff(ToLower(name), "3d controller");
  }

  // ---------------------------------------------------------------- the rows and their three indexes

  datatype Table = Table(rows: seq<GPU>, byUUID: map<string, nat>, byPCI: map<string, nat>, byName: map<string, nat>)

  const EMPTY := Table([], map[], map[], map[])

  /** The row a record belongs to: by UUID, else by PCI id, else, for a record with neither, by vendor and name. */
  function Find(t: Table, g: GPU): Option<nat> {
    if HasUuid(g) && UuidKey(g) in t.byUUID then Some(t.byUUID[UuidKey(g)])
    else if HasPci(g) && PciKey(g) in t.byPCI then Some(t.byPCI[PciKey(g)])
    else if !HasUuid(g) && !HasPci(g) && VendorNameKey(g) in t.byName then Some(t.byName[VendorNameKey(g)])
    else None
  }

  function Remember(t: Table, g: GPU, i: nat): Table {
    Table(t.rows,
          if HasUuid(g) then t.byUUID[UuidKey(g) := i] else t.byUUID,
          if HasPci(g) then t.byPCI[PciKey(g) := i] else t.byPCI,
          if (HasUuid(g) || HasPci(g)) && VendorNameKey(g) != "" then t.byName[VendorNameKey(g) := i] else t.byName)
  }

  function SetRow(rows: seq<GPU>, i: nat, row: GPU): seq<GPU>
    requires i <= |rows|
  {
    if i < |rows| then rows[i := row] else rows + [row]
  }

  /** What row i holds once g is put in it. */
  function RowWith(t: Table, g: GPU, i: nat): GPU {
    if i < |t.rows| then Richer(t.rows[i], g) else g
  }

  /** Row i made richer by g, or g as a new row; the indexes learn the ids of the row. */
  function Put(t: Table, g: GPU, i: nat): Table
    requires i <= |t.rows|
  {
    var row := RowWith(t, g, i);
    Remember(t.(rows := SetRow(t.rows, i, row)), row, i)
  }

  /** UUID keys point at the one row that holds them. */
  ghost predicate UuidIndexed(rows: seq<GPU>, byUUID: map<string, nat>) {
    && (forall k :: k in byUUID ==> byUUID[k] < |rows| && HasUuid(rows[byUUID[k]]) && UuidKey(rows[byUUID[k]]) == k)
    && (forall i :: 0 <= i < |rows| && HasUuid(rows[i]) ==> UuidKey(rows[i]) in byUUID && byUUID[UuidKey(rows[i])] == i)
  }

  /** PCI keys point at a row that holds them, and every PCI id held is indexed. */
  ghost predicate PciIndexed(rows: seq<GPU>, byPCI: map<string, nat>) {
    && (forall k :: k in byPCI ==> byPCI[k] < |rows| && HasPci(rows[byPCI[k]]) && PciKey(rows[byPCI[k]]) == k)
    && (forall i :: 0 <= i < |rows| && HasPci(rows[i]) ==> PciKey(rows[i]) in byPCI)
  }

  /** Names never point at a row without ids. */
  ghost predicate NameIndexed(rows: seq<GPU>, byName: map<string, nat>) {
    forall k :: k in byName ==> byName[k] < |rows| && (HasUuid(rows[byName[k]]) || HasPci(rows[byName[k]]))
  }

  ghost predicate Indexed(t: Table) {
    UuidIndexed(t.rows, t.byUUID) && PciIndexed(t.rows, t.byPCI) && NameIndexed(t.rows, t.byName)
  }

  /** The row a record is put in: the one found, or the next new one. */
  function Target(t: Table, g: GPU): nat {
    match Find(t, g)
    case Some(i) => i
    case None => |t.rows|
  }

  lemma FoundRowHasIds(t: Table, g: GPU)
    requires Indexed(t)
    ensures Target(t, g) <= |t.rows|
    ensures Target(t, g) < |t.rows| ==> HasUuid(t.rows[Target(t, g)]) || HasPci(t.rows[Target(t, g)])
    ensures Find(t, g).None? <==> Target(t, g) == |t.rows|
  {
  }

  /** A row's ids never change once set, and a UUID that is set now was not known before. */
  lemma RowKeepsIds(t: Table, g: GPU)
    requires Indexed(t)
    ensures var i := Target(t, g);
            && i <= |t.rows|
            && var row := RowWith(t, g, i);
               && (i < |t.rows| && HasUuid(t.rows[i]) ==> row.uuid == t.rows[i].uuid)
               && (i < |t.rows| && HasPci(t.rows[i]) ==> row.pciBusID == t.rows[i].pciBusID)
               && (HasUuid(row) && !(i < |t.rows| && HasUuid(t.rows[i])) ==> row.uuid == g.uuid && UuidKey(row) !in t.byUUID)
  {
    FoundRowHasIds(t, g);
  }

  lemma UuidIndexKept(rows: seq<GPU>, byUUID: map<string, nat>, i: nat, row: GPU)
    requires UuidIndexed(rows, byUUID) && i <= |rows|
    requires i < |rows| && HasUuid(rows[i]) ==> row.uuid == rows[i].uuid
    requires HasUuid(row) && !(i < |rows| && HasUuid(rows[i])) ==> UuidKey(row) !in byUUID
    ensures UuidIndexed(SetRow(rows, i, row), if HasUuid(row) then byUUID[UuidKey(row) := i] else byUUID)
  {
  }

  lemma PciIndexKept(rows: seq<GPU>, byPCI: map<string, nat>, i: nat, row: GPU)
    requires PciIndexed(rows, byPCI) && i <= |rows|
    requires i < |rows| && HasPci(rows[i]) ==> row.pciBusID == rows[i].pciBusID
    ensures PciIndexed(SetRow(rows, i, row), if HasPci(row) then byPCI[PciKey(row) := i] else byPCI)
  {
    var after := SetRow(rows, i, row);
    var index := if HasPci(row) then byPCI[PciKey(row) := i] else byPCI;
    assert after[i] == row && forall j :: 0 <= j < |rows| && j != i ==> after[j] == rows[j];
    assert i < |rows| && HasPci(rows[i]) ==> HasPci(row) && PciKey(row) == PciKey(rows[i]);
    forall k | k in index
      ensures index[k] < |after| && HasPci(after[index[k]]) && PciKey(after[index[k]]) == k
    {
    }
  }

  lemma NameIndexKept(rows: seq<GPU>, byName: map<string, nat>, i: nat, row: GPU, name: string)
    requires NameIndexed(rows, byName) && i <= |rows|
    requires i < |rows| && (HasUuid(rows[i]) || HasPci(rows[i])) ==> HasUuid(row) || HasPci(row)
    ensures NameIndexed(SetRow(rows, i, row), if (HasUuid(row) || HasPci(row)) && name != "" then byName[name := i] else byName)
  {
  }

  lemma PutKeepsIndexed(t: Table, g: GPU)
    requires Indexed(t)
    ensures Target(t, g) <= |t.rows| && Indexed(Put(t, g, Target(t, g)))
  {
    var i := Target(t, g);
    RowKeepsIds(t, g);
    var row := RowWith(t, g, i);
    UuidIndexKept(t.rows, t.byUUID, i, row);
    PciIndexKept(t.rows, t.byPCI, i, row);
    NameIndexKept(t.rows, t.byName, i, row, VendorNameKey(row));
    RememberParts(t, row, i);
  }

  lemma RememberParts(t: Table, row: GPU, i: nat)
    requires i <= |t.rows|
    ensures var u := Remember(t.(rows := SetRow(t.rows, i, row)), row, i);
            && u.rows == SetRow(t.rows, i, row)
            && u.byUUID == (if HasUuid(row) then t.byUUID[UuidKey(row) := i] else t.byUUID)
            && u.byPCI == (if HasPci(row) then t.byPCI[PciKey(row) := i] else t.byPCI)
            && u.byName == (if (HasUuid(row) || HasPci(row)) && VendorNameKey(row) != "" then t.byName[VendorNameKey(row) := i] else t.byName)
  {
  }
}
