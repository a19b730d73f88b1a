/** The whole merge: which record goes to which row, and what each row ends up holding (internal/gpu/detect.go). */
module GpuRows {
  import opened Gpu
  import opened GpuMerge

  /** A run of the merge: the tables it goes through, and the row each record is put in. */
  ghost predicate IsRun(records: seq<GPU>, ts: seq<Table>, rows: seq<nat>) {
    && |ts| == |records| + 1 && |rows| == |records| && ts[0] == EMPTY
    && forall k :: 0 <= k < |records| ==>
         rows[k] == Target(ts[k], records[k]) && rows[k] <= |ts[k].rows| && ts[k + 1] == Put(ts[k], records[k], rows[k])
  }

  method Locate(t: Table, g: GPU) returns (i: nat)
    requires Indexed(t)
    ensures i == Target(t, g) && i <= |t.rows|
  {
    FoundRowHasIds(t, g);
    if g.uuid != "" {
      if UuidKey(g) in t.byUUID {
        return t.byUUID[UuidKey(g)];
      }
    }
    if g.pciBusID != "" {
      if PciKey(g) in t.byPCI {
        return t.byPCI[PciKey(g)];
      }
    }
    if g.uuid == "" && g.pciBusID == "" {
      if VendorNameKey(g) in t.byName {
        return t.byName[VendorNameKey(g)];
      }
    }
    i := |t.rows|;
  }

  /** The table after all records, in order. */
  function Merged(records: seq<GPU>): (t: Table)
    ensures Indexed(t)
  {
    if records == [] then EMPTY
    else
      var t, g := Merged(records[..|records| - 1]), records[|records| - 1];
      PutKeepsIndexed(t, g);
      Put(t, g, Target(t, g))
  }

  lemma MergedStep(records: seq<GPU>, k: nat)
    requires k < |records|
    ensures var t := Merged(records[..k]);
            Target(t, records[k]) <= |t.rows| && Merged(records[..k + 1]) == Put(t, records[k], Target(t, records[k]))
  {
    assert records[..k + 1][..k] == records[..k];
    FoundRowHasIds(Merged(records[..k]), records[k]);
  }

  /** One turn of the loop: fold the record into the row found, or open a row for it. */
  method Take(t: Table, g: GPU, ghost records: seq<GPU>, ghost k: nat) returns (u: Table)
    requires k < |records| && g == records[k] && t == Merged(records[..k])
    ensures u == Merged(records[..k + 1])
  {
    MergedStep(records, k);
    var i := Locate(t, g);
    if i < |t.rows| {
      u := t.(rows := t.rows[i := Richer(t.rows[i], g)]);
      u := Remember(u, u.rows[i], i);
    } else {
      u := Remember(t, g, |t.rows|);
      u := u.(rows := u.rows + [g]);
    }
  }

  method MergeGPUs(records: seq<GPU>) returns (out: seq<GPU>)
    ensures out == Merged(records).rows
  {
    var t := EMPTY;
    for k := 0 to |records|
      invariant t == Merged(records[..k])
    {
      t := Take(t, records[k], records, k);
    }
    assert records[..|records|] == records;
    out := t.rows;
  }

  /** Every list of records has its run, which ends in the merged table. */
  lemma {:induction false} RunExists(records: seq<GPU>) returns (ts: seq<Table>, rows: seq<nat>)
    ensures IsRun(records, ts, rows) && ts[|records|] == Merged(records)
  {
    if records == [] {
      ts, rows := [EMPTY], [];
    } else {
      var before, g := records[..|records| - 1], records[|records| - 1];
      var t := Merged(before);
      ts, rows := RunExists(before);
      FoundRowHasIds(t, g);
      RunGrows(before, ts, rows, g, Target(t, g));
      assert records == before + [g];
      ts, rows := ts + [Put(t, g, Target(t, g))], rows + [Target(t, g)];
    }
  }

  /** What is said of runs is said of the merge: there is no other run. */
  lemma {:induction false} RunIsMerged(records: seq<GPU>, ts: seq<Table>, rows: seq<nat>, n: nat)
    requires IsRun(records, ts, rows) && n <= |records|
    ensures ts[n] == Merged(records[..n])
  {
    if n > 0 {
      RunIsMerged(records, ts, rows, n - 1);
      MergedStep(records, n - 1);
    }
  }

  lemma RunGrows(records: seq<GPU>, ts: seq<Table>, rows: seq<nat>, g: GPU, i: nat)
    requires IsRun(records, ts, rows)
    requires i == Target(ts[|records|], g) && i <= |ts[|records|].rows|
    ensures IsRun(records + [g], ts + [Put(ts[|records|], g, i)], rows + [i])
  {
    hide Put, Target;
    var all, us, at := records + [g], ts + [Put(ts[|records|], g, i)], rows + [i];
    forall k | 0 <= k < |all|
      ensures at[k] == Target(us[k], all[k]) && at[k] <= |us[k].rows| && us[k + 1] == Put(us[k], all[k], at[k])
    {
      assert us[k] == ts[k] && (k < |records| ==> us[k + 1] == ts[k + 1] && all[k] == records[k] && at[k] == rows[k]);
    }
  }

  // ---------------------------------------------------------------- one step, seen from the rows

  predicate Idless(g: GPU) {
    !HasUuid(g) && !HasPci(g)
  }

  /** `after` is `before` with g put in row r: a new last row, or folded into a row that has an id. */
  ghost predicate Placed(before: seq<GPU>, g: GPU, r: nat, after: seq<GPU>) {
    && r <= |before| && |after| == (if r < |before| then |before| else r + 1)
    && (forall i :: 0 <= i < |before| && i != r ==> after[i] == before[i])
    && (r == |before| ==> after[r] == g)
    && (r < |before| ==>
          && !Idless(before[r])
          && after[r].uuid == Or(before[r].uuid, g.uuid) && after[r].pciBusID == Or(before[r].pciBusID, g.pciBusID)
          && after[r].memoryTotal == Max(before[r].memoryTotal, g.memoryTotal))
  }

  ghost predicate Steps(records: seq<GPU>, hist: seq<seq<GPU>>, rows: seq<nat>) {
    && |hist| == |records| + 1 && |rows| == |records| && hist[0] == []
    && forall k :: 0 <= k < |records| ==> Placed(hist[k], records[k], rows[k], hist[k + 1])
  }

  function History(ts: seq<Table>): seq<seq<GPU>> {
    seq(|ts|, k requires 0 <= k < |ts| => ts[k].rows)
  }

  lemma {:induction false} RunIndexed(records: seq<GPU>, ts: seq<Table>, rows: seq<nat>, n: nat)
    requires IsRun(records, ts, rows) && n <= |records|
    ensures Indexed(ts[n])
  {
    if n > 0 {
      RunIndexed(records, ts, rows, n - 1);
      PutKeepsIndexed(ts[n - 1], records[n - 1]);
    }
  }

  lemma PutPlaces(t: Table, g: GPU, r: nat)
    requires Indexed(t) && r == Target(t, g) && r <= |t.rows|
    ensures Placed(t.rows, g, r, Put(t, g, r).rows)
  {
    FoundRowHasIds(t, g);
  }

  lemma RunSteps(records: seq<GPU>, ts: seq<Table>, rows: seq<nat>)
    requires IsRun(records, ts, rows)
    ensures Steps(records, History(ts), rows)
  {
    var hist := History(ts);
    forall k | 0 <= k < |records|
      ensures Placed(hist[k], records[k], rows[k], hist[k + 1])
    {
      RunIndexed(records, ts, rows, k);
      PutPlaces(ts[k], records[k], rows[k]);
    }
  }

  // ---------------------------------------------------------------- every record in one row, in first-seen order

  /** A row, once open, stays, and every record so far is in an open row. */
  lemma {:induction false} RowsInRange(records: seq<GPU>, hist: seq<seq<GPU>>, rows: seq<nat>, n: nat)
    requires Steps(records, hist, rows) && n <= |records|
    ensures forall k :: 0 <= k < n ==> rows[k] < |hist[n]|
  {
    if n > 0 {
      RowsInRange(records, hist, rows, n - 1);
      assert Placed(hist[n - 1], records[n - 1], rows[n - 1], hist[n]);
    }
  }

  lemma {:induction false} OpenedBy(records: seq<GPU>, hist: seq<seq<GPU>>, rows: seq<nat>, n: nat, r: nat) returns (k: nat)
    requires Steps(records, hist, rows) && n <= |records| && r < |hist[n]|
    ensures k < n && rows[k] == r && |hist[k]| == r
    ensures forall j :: 0 <= j < k ==> rows[j] < r
  {
    assert n > 0;
    assert Placed(hist[n - 1], records[n - 1], rows[n - 1], hist[n]);
    if r < |hist[n - 1]| {
      k := OpenedBy(records, hist, rows, n - 1, r);
    } else {
      k := n - 1;
      RowsInRange(records, hist, rows, n - 1);
    }
  }

  /** Record k opened row r: whatever came before it is in an earlier row. */
  ghost predicate Opens(rows: seq<nat>, k: int, r: nat) {
    0 <= k < |rows| && rows[k] == r && forall j :: 0 <= j < k ==> rows[j] < r
  }

  ghost predicate Opened(rows: seq<nat>, r: nat) {
    exists k :: Opens(rows, k, r)
  }

  /** Every record lands in exactly one row of the result, and rows appear in the order in which
      their first record was seen. */
  lemma FirstSeenOrder(records: seq<GPU>, ts: seq<Table>, rows: seq<nat>)
    requires IsRun(records, ts, rows)
    ensures var out := ts[|records|].rows;
            (forall k :: 0 <= k < |records| ==> rows[k] < |out|) &&
            (forall r :: 0 <= r < |out| ==> Opened(rows, r))
  {
    RunSteps(records, ts, rows);
    var hist := History(ts);
    RowsInRange(records, hist, rows, |records|);
    assert hist[|records|] == ts[|records|].rows;
    forall r | 0 <= r < |hist[|records|]|
      ensures Opened(rows, r)
    {
      var k := OpenedBy(records, hist, rows, |records|, r);
      assert Opens(rows, k, r);
    }
  }

  // ---------------------------------------------------------------- what a row holds

  lemma {:induction false} MemoryAfter(records: seq<GPU>, hist: seq<seq<GPU>>, rows: seq<nat>, n: nat, r: nat) returns (k: nat)
    requires Steps(records, hist, rows) && n <= |records| && r < |hist[n]|
    ensures k < n && rows[k] == r && records[k].memoryTotal == hist[n][r].memoryTotal
    ensures forall j :: 0 <= j < n && rows[j] == r ==> records[j].memoryTotal <= hist[n][r].memoryTotal
  {
    assert n > 0;
    var m := n - 1;
    assert Placed(hist[m], records[m], rows[m], hist[n]);
    if r < |hist[m]| {
      k := MemoryAfter(records, hist, rows, m, r);
      if rows[m] == r && records[m].memoryTotal > hist[m][r].memoryTotal {
        k := m;
      }
    } else {
      k := m;
      RowsInRange(records, hist, rows, m);
    }
  }

  /** A row's total memory is the largest any of its records reports. */
  lemma MemoryIsTheMaximum(records: seq<GPU>, ts: seq<Table>, rows: seq<nat>, r: nat)
    requires IsRun(records, ts, rows) && r < |ts[|records|].rows|
    ensures var total := ts[|records|].rows[r].memoryTotal;
            && (forall k :: 0 <= k < |records| && rows[k] == r ==> records[k].memoryTotal <= total)
            && (exists k :: 0 <= k < |records| && rows[k] == r && records[k].memoryTotal == total)
  {
    RunSteps(records, ts, rows);
    var k := MemoryAfter(records, History(ts), rows, |records|, r);
  }

  lemma {:induction false} UuidComesFrom(records: seq<GPU>, hist: seq<seq<GPU>>, rows: seq<nat>, n: nat, r: nat) returns (k: nat)
    requires Steps(records, hist, rows) && n <= |records| && r < |hist[n]| && HasUuid(hist[n][r])
    ensures k < n && rows[k] == r && records[k].uuid == hist[n][r].uuid
  {
    assert n > 0;
    var m := n - 1;
    assert Placed(hist[m], records[m], rows[m], hist[n]);
    if r < |hist[m]| && HasUuid(hist[m][r]) {
      k := UuidComesFrom(records, hist, rows, m, r);
    } else {
      k := m;
    }
  }

  lemma {:induction false} PciComesFrom(records: seq<GPU>, hist: seq<seq<GPU>>, rows: seq<nat>, n: nat, r: nat) returns (k: nat)
    requires Steps(records, hist, rows) && n <= |records| && r < |hist[n]| && HasPci(hist[n][r])
    ensures k < n && rows[k] == r && records[k].pciBusID == hist[n][r].pciBusID
  {
    assert n > 0;
    var m := n - 1;
    assert Placed(hist[m], records[m], rows[m], hist[n]);
    if r < |hist[m]| && HasPci(hist[m][r]) {
      k := PciComesFrom(records, hist, rows, m, r);
    } else {
      k := m;
    }
  }

  // ---------------------------------------------------------------- cards without ids

  lemma {:induction false} AloneAfter(records: seq<GPU>, hist: seq<seq<GPU>>, rows: seq<nat>, n: nat, r: nat) returns (k: nat)
    requires Steps(records, hist, rows) && n <= |records| && r < |hist[n]| && Idless(hist[n][r])
    ensures k < n && rows[k] == r && hist[n][r] == records[k]
    ensures forall j :: 0 <= j < n && rows[j] == r ==> j == k
  {
    assert n > 0;
    var m := n - 1;
    assert Placed(hist[m], records[m], rows[m], hist[n]);
    if r < |hist[m]| {
      assert rows[m] != r;
      k := AloneAfter(records, hist, rows, m, r);
    } else {
      k := m;
      RowsInRange(records, hist, rows, m);
    }
  }

  lemma {:induction false} OpenerKept(records: seq<GPU>, hist: seq<seq<GPU>>, rows: seq<nat>, n: nat, k: nat)
    requires Steps(records, hist, rows) && k < n <= |records| && Idless(records[k]) && rows[k] == |hist[k]|
    ensures rows[k] < |hist[n]| && hist[n][rows[k]] == records[k]
  {
    assert Placed(hist[n - 1], records[n - 1], rows[n - 1], hist[n]);
    if k < n - 1 {
      OpenerKept(records, hist, rows, n - 1, k);
    }
  }

  /** A record without ids that opens a row stays alone in it, untouched; and a row without ids is
      such a record. Identical cards that only id-less detectors report therefore stay separate. */
  lemma IdlessRowsStayAlone(records: seq<GPU>, ts: seq<Table>, rows: seq<nat>, k: nat)
    requires IsRun(records, ts, rows) && k < |records|
    ensures var out := ts[|records|].rows;
            rows[k] < |out| &&
            (Idless(out[rows[k]]) <==> Idless(records[k]) && Find(ts[k], records[k]).None?) &&
            (Idless(out[rows[k]]) ==> out[rows[k]] == records[k] && forall j :: 0 <= j < |records| && rows[j] == rows[k] ==> j == k)
  {
    RunSteps(records, ts, rows);
    var hist := History(ts);
    RowsInRange(records, hist, rows, |records|);
    RunIndexed(records, ts, rows, k);
    FoundRowHasIds(ts[k], records[k]);
    if Idless(records[k]) && Find(ts[k], records[k]).None? {
      OpenerKept(records, hist, rows, |records|, k);
    }
    if Idless(hist[|records|][rows[k]]) {
      var only := AloneAfter(records, hist, rows, |records|, rows[k]);
      var opener := OpenedBy(records, hist, rows, |records|, rows[k]);
    }
  }
}
