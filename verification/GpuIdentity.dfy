/** When rows and ids correspond one to one, and how the order of the detectors can break it
    (internal/gpu/detect.go, docs/GPU-discovery.md). */
module GpuIdentity {
  import opened Gpu
  import opened GpuMerge
  import opened GpuRows

  /** No two rows carry the same UUID, letter case aside. */
  lemma UuidsAreDistinct(records: seq<GPU>, ts: seq<Table>, rows: seq<nat>, i: nat, j: nat)
    requires IsRun(records, ts, rows)
    requires var out := ts[|records|].rows; i < j < |out| && HasUuid(out[i]) && HasUuid(out[j])
    ensures var out := ts[|records|].rows; UuidKey(out[i]) != UuidKey(out[j])
  {
    RunIndexed(records, ts, rows, |records|);
    var t := ts[|records|];
    assert t.byUUID[UuidKey(t.rows[i])] == i && t.byUUID[UuidKey(t.rows[j])] == j;
  }

  // ---------------------------------------------------------------- rows and UUIDs

  /** The record is put, by its PCI id, in a row that already has another UUID. */
  predicate UuidClash(t: Table, g: GPU, r: nat) {
    HasUuid(g) && r < |t.rows| && HasUuid(t.rows[r]) && UuidKey(t.rows[r]) != UuidKey(g)
  }

  /** Records with UUIDs share a row exactly when they share the UUID. */
  ghost predicate OneRowPerUuid(records: seq<GPU>, rows: seq<nat>)
    requires |rows| == |records|
  {
    forall j, k :: 0 <= j < |records| && 0 <= k < |records| && HasUuid(records[j]) && HasUuid(records[k]) ==>
      (rows[j] == rows[k] <==> UuidKey(records[j]) == UuidKey(records[k]))
  }

  lemma {:induction false} RowsShowUuids(records: seq<GPU>, ts: seq<Table>, rows: seq<nat>, n: nat)
    requires IsRun(records, ts, rows) && n <= |records|
    requires forall k :: 0 <= k < n ==> !UuidClash(ts[k], records[k], rows[k])
    ensures forall k :: 0 <= k < n && HasUuid(records[k]) ==>
              rows[k] < |ts[n].rows| && HasUuid(ts[n].rows[rows[k]]) && UuidKey(ts[n].rows[rows[k]]) == UuidKey(records[k])
  {
    if n > 0 {
      var m := n - 1;
      RowsShowUuids(records, ts, rows, m);
      RunSteps(records, ts, rows);
      assert Placed(History(ts)[m], records[m], rows[m], History(ts)[n]);
    }
  }

  /** Rows and UUIDs correspond one to one exactly when no record is put in a row of another UUID. */
  lemma UuidsMatchRowsIff(records: seq<GPU>, ts: seq<Table>, rows: seq<nat>)
    requires IsRun(records, ts, rows)
    ensures OneRowPerUuid(records, rows) <==> forall k :: 0 <= k < |records| ==> !UuidClash(ts[k], records[k], rows[k])
  {
    RunSteps(records, ts, rows);
    var n := |records|;
    if k :| 0 <= k < n && UuidClash(ts[k], records[k], rows[k]) {
      var j := UuidComesFrom(records, History(ts), rows, k, rows[k]);
      assert UuidKey(records[j]) == UuidKey(ts[k].rows[rows[k]]);
    } else {
      RowsShowUuids(records, ts, rows, n);
      RunIndexed(records, ts, rows, n);
    }
  }

  // ---------------------------------------------------------------- rows and PCI ids

  /** The record brings a PCI id, already indexed for another row, to a row that has none. */
  predicate Bridges(t: Table, g: GPU, r: nat) {
    HasPci(g) && r < |t.rows| && !HasPci(t.rows[r]) && PciKey(g) in t.byPCI
  }

  ghost predicate PciDistinct(out: seq<GPU>) {
    forall i, j :: 0 <= i < j < |out| && HasPci(out[i]) && HasPci(out[j]) ==> PciKey(out[i]) != PciKey(out[j])
  }

  /** One step: ids that were distinct stay so exactly when the record does not bridge two rows. */
  lemma PciStep(t: Table, g: GPU, r: nat)
    requires Indexed(t) && r == Target(t, g) && r <= |t.rows|
    ensures PciDistinct(Put(t, g, r).rows) <==> PciDistinct(t.rows) && !Bridges(t, g, r)
  {
    PutPlaces(t, g, r);
    PciStepOn(t.rows, t.byPCI, g, r, Put(t, g, r).rows);
  }

  lemma PciStepOn(before: seq<GPU>, byPCI: map<string, nat>, g: GPU, r: nat, after: seq<GPU>)
    requires PciIndexed(before, byPCI) && Placed(before, g, r, after)
    requires r == |before| && HasPci(g) ==> PciKey(g) !in byPCI
    ensures PciDistinct(after) <==> PciDistinct(before) && !(HasPci(g) && r < |before| && !HasPci(before[r]) && PciKey(g) in byPCI)
  {
    if HasPci(g) && r < |before| && !HasPci(before[r]) && PciKey(g) in byPCI {
      BridgeSpoils(before, byPCI, g, r, after);
    } else if PciDistinct(before) {
      DistinctStays(before, byPCI, g, r, after);
    } else {
      var i, j :| 0 <= i < j < |before| && HasPci(before[i]) && HasPci(before[j]) && PciKey(before[i]) == PciKey(before[j]);
      SpoiledStays(before, g, r, after, i, j);
    }
  }

  lemma SpoiledStays(before: seq<GPU>, g: GPU, r: nat, after: seq<GPU>, i: nat, j: nat)
    requires Placed(before, g, r, after) && i < j < |before|
    requires HasPci(before[i]) && HasPci(before[j]) && PciKey(before[i]) == PciKey(before[j])
    ensures !PciDistinct(after)
  {
    SamePci(before, g, r, after, i);
    SamePci(before, g, r, after, j);
  }

  lemma SamePci(before: seq<GPU>, g: GPU, r: nat, after: seq<GPU>, i: nat)
    requires Placed(before, g, r, after) && i < |before| && HasPci(before[i])
    ensures i < |after| && HasPci(after[i]) && PciKey(after[i]) == PciKey(before[i])
  {
    assert after[i].pciBusID == before[i].pciBusID;
  }

  lemma BridgeSpoils(before: seq<GPU>, byPCI: map<string, nat>, g: GPU, r: nat, after: seq<GPU>)
    requires PciIndexed(before, byPCI) && Placed(before, g, r, after)
    requires HasPci(g) && r < |before| && !HasPci(before[r]) && PciKey(g) in byPCI
    ensures !PciDistinct(after)
  {
    var o := byPCI[PciKey(g)];
    assert o != r && after[o] == before[o] && after[r].pciBusID == g.pciBusID;
    var i, j := if o < r then o else r, if o < r then r else o;
    assert HasPci(after[i]) && HasPci(after[j]) && PciKey(after[i]) == PciKey(after[j]);
  }

  lemma DistinctStays(before: seq<GPU>, byPCI: map<string, nat>, g: GPU, r: nat, after: seq<GPU>)
    requires PciIndexed(before, byPCI) && Placed(before, g, r, after) && PciDistinct(before)
    requires HasPci(g) && (r == |before| || !HasPci(before[r])) ==> PciKey(g) !in byPCI
    ensures PciDistinct(after)
  {
    forall i, j | 0 <= i < j < |after| && HasPci(after[i]) && HasPci(after[j])
      ensures PciKey(after[i]) != PciKey(after[j])
    {
      if i == r {
        OtherKey(before, byPCI, g, r, after, j);
      } else if j == r {
        OtherKey(before, byPCI, g, r, after, i);
      } else {
        assert after[i] == before[i] && after[j] == before[j];
      }
    }
  }

  /** A row's PCI id, and how it compares with the one row r now shows. */
  lemma OtherKey(before: seq<GPU>, byPCI: map<string, nat>, g: GPU, r: nat, after: seq<GPU>, i: nat)
    requires PciIndexed(before, byPCI) && Placed(before, g, r, after) && PciDistinct(before)
    requires HasPci(g) && (r == |before| || !HasPci(before[r])) ==> PciKey(g) !in byPCI
    requires i < |after| && i != r && HasPci(after[i])
    ensures i < |before| && after[i] == before[i]
    ensures HasPci(after[r]) ==> PciKey(after[r]) != PciKey(after[i])
  {
    if r < |before| && HasPci(before[r]) {
      assert after[r].pciBusID == before[r].pciBusID;
      assert PciKey(before[if i < r then i else r]) != PciKey(before[if i < r then r else i]);
    } else if HasPci(after[r]) {
      assert after[r].pciBusID == g.pciBusID;
    }
  }

  /** The rows of the result have distinct PCI ids exactly when no record bridged two rows. */
  lemma {:induction false} PciDistinctIff(records: seq<GPU>, ts: seq<Table>, rows: seq<nat>, n: nat)
    requires IsRun(records, ts, rows) && n <= |records|
    ensures PciDistinct(ts[n].rows) <==> forall k :: 0 <= k < n ==> !Bridges(ts[k], records[k], rows[k])
  {
    if n > 0 {
      PciDistinctIff(records, ts, rows, n - 1);
      RunIndexed(records, ts, rows, n - 1);
      PciStep(ts[n - 1], records[n - 1], rows[n - 1]);
    }
  }

  /** The record is put, by its UUID, in a row of another PCI id, or bridges two rows. */
  predicate PciClash(t: Table, g: GPU, r: nat) {
    HasPci(g) && r < |t.rows| && if HasPci(t.rows[r]) then PciKey(t.rows[r]) != PciKey(g) else PciKey(g) in t.byPCI
  }

  ghost predicate OneRowPerPci(records: seq<GPU>, rows: seq<nat>)
    requires |rows| == |records|
  {
    forall j, k :: 0 <= j < |records| && 0 <= k < |records| && HasPci(records[j]) && HasPci(records[k]) ==>
      (rows[j] == rows[k] <==> PciKey(records[j]) == PciKey(records[k]))
  }

  lemma {:induction false} RowsShowPcis(records: seq<GPU>, ts: seq<Table>, rows: seq<nat>, n: nat)
    requires IsRun(records, ts, rows) && n <= |records|
    requires forall k :: 0 <= k < n ==> !PciClash(ts[k], records[k], rows[k])
    ensures forall k :: 0 <= k < n && HasPci(records[k]) ==>
              rows[k] < |ts[n].rows| && HasPci(ts[n].rows[rows[k]]) && PciKey(ts[n].rows[rows[k]]) == PciKey(records[k])
  {
    if n > 0 {
      var m := n - 1;
      RowsShowPcis(records, ts, rows, m);
      RunSteps(records, ts, rows);
      assert Placed(History(ts)[m], records[m], rows[m], History(ts)[n]);
    }
  }

  /** Rows and PCI ids correspond one to one exactly when no record is put in a row of another PCI id
      or bridges two rows. */
  lemma PcisMatchRowsIff(records: seq<GPU>, ts: seq<Table>, rows: seq<nat>)
    requires IsRun(records, ts, rows)
    ensures OneRowPerPci(records, rows) <==> forall k :: 0 <= k < |records| ==> !PciClash(ts[k], records[k], rows[k])
  {
    RunSteps(records, ts, rows);
    var n := |records|;
    if k :| 0 <= k < n && PciClash(ts[k], records[k], rows[k]) {
      RunIndexed(records, ts, rows, k);
      var r := if HasPci(ts[k].rows[rows[k]]) then rows[k] else ts[k].byPCI[PciKey(records[k])];
      var j := PciComesFrom(records, History(ts), rows, k, r);
      assert PciKey(records[j]) == PciKey(ts[k].rows[r]);
    } else {
      RowsShowPcis(records, ts, rows, n);
      PciDistinctIff(records, ts, rows, n);
    }
  }

  lemma BridgedLast(a: GPU, b: GPU, c: GPU, ts: seq<Table>, rows: seq<nat>)
    requires !HasUuid(a) && HasPci(a) && HasUuid(b) && !HasPci(b) && HasUuid(c) && HasPci(c)
    requires UuidKey(c) == UuidKey(b) && PciKey(c) == PciKey(a)
    requires IsRun([a, b, c], ts, rows)
    ensures rows == [0, 1, 1] && |ts[3].rows| == 2 && Bridges(ts[2], c, 1)
  {
    var records := [a, b, c];
    assert records[0] == a && records[1] == b && records[2] == c;
    assert rows[0] == 0 && ts[1] == Put(EMPTY, a, 0);
    assert ts[1].rows == [a] && ts[1].byUUID == map[] && ts[1].byPCI == map[PciKey(a) := 0];
    assert rows[1] == 1 && ts[2] == Put(ts[1], b, 1);
    assert ts[2].rows == [a, b] && ts[2].byUUID == map[UuidKey(b) := 1] && ts[2].byPCI == ts[1].byPCI;
    assert rows[2] == 1 && ts[3] == Put(ts[2], c, 1);
  }

  lemma BridgedFirst(a: GPU, b: GPU, c: GPU, us: seq<Table>, cols: seq<nat>)
    requires !HasUuid(a) && HasPci(a) && HasUuid(b) && !HasPci(b) && HasUuid(c) && HasPci(c)
    requires UuidKey(c) == UuidKey(b) && PciKey(c) == PciKey(a)
    requires IsRun([c, a, b], us, cols)
    ensures cols == [0, 0, 0] && |us[3].rows| == 1
  {
    var records := [c, a, b];
    assert records[0] == c && records[1] == a && records[2] == b;
    assert cols[0] == 0 && us[1] == Put(EMPTY, c, 0);
    assert us[1].rows == [c] && us[1].byUUID == map[UuidKey(c) := 0] && us[1].byPCI == map[PciKey(c) := 0];
    assert cols[1] == 0 && us[2] == Put(us[1], a, 0);
    assert us[2].byUUID == us[1].byUUID && |us[2].rows| == 1;
  }

  /** One card seen by three detectors, by PCI id, by UUID and by both, is one row when the fullest
      record comes first and two rows of the same PCI id when it comes last. */
  lemma DetectorOrderMatters(a: GPU, b: GPU, c: GPU, ts: seq<Table>, rows: seq<nat>, us: seq<Table>, cols: seq<nat>)
    requires !HasUuid(a) && HasPci(a) && HasUuid(b) && !HasPci(b) && HasUuid(c) && HasPci(c)
    requires UuidKey(c) == UuidKey(b) && PciKey(c) == PciKey(a)
    requires IsRun([a, b, c], ts, rows) && IsRun([c, a, b], us, cols)
    ensures |ts[3].rows| == 2 && !PciDistinct(ts[3].rows) && |us[3].rows| == 1
  {
    BridgedLast(a, b, c, ts, rows);
    BridgedFirst(a, b, c, us, cols);
    PciDistinctIff([a, b, c], ts, rows, 3);
  }
}
