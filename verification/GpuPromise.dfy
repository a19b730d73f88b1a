/** The documented promise of the merge, that records which share a UUID or a PCI id become one row, and
    exactly when it holds whatever the order of the detectors (docs/GPU-discovery.md). */
module GpuPromise {
  import opened Gpu
  import opened Lists
  import opened GpuMerge
  import opened GpuRows

  predicate SharesId(a: GPU, b: GPU) {
    (HasUuid(a) && HasUuid(b) && UuidKey(a) == UuidKey(b)) || (HasPci(a) && HasPci(b) && PciKey(a) == PciKey(b))
  }

  /** The promise: records that share an id are in one row. */
  ghost predicate SharersMerge(records: seq<GPU>, rows: seq<nat>)
    requires |rows| == |records|
  {
    forall j, k :: 0 <= j < |records| && 0 <= k < |records| && SharesId(records[j], records[k]) ==> rows[j] == rows[k]
  }

  /** Two records that share an id with a third share one with each other. */
  ghost predicate SharingIsTransitive(records: seq<GPU>) {
    forall a, b, c :: a in records && b in records && c in records && SharesId(a, b) && SharesId(b, c) ==> SharesId(a, c)
  }

  // ---------------------------------------------------------------- transitive sharing is enough

  lemma {:induction false} MembersShowIds(records: seq<GPU>, hist: seq<seq<GPU>>, rows: seq<nat>, n: nat, j: nat)
    requires Steps(records, hist, rows) && j < n <= |records|
    ensures rows[j] < |hist[n]|
    ensures HasUuid(records[j]) ==> HasUuid(hist[n][rows[j]])
    ensures HasPci(records[j]) ==> HasPci(hist[n][rows[j]])
  {
    assert Placed(hist[n - 1], records[n - 1], rows[n - 1], hist[n]);
    if j < n - 1 {
      MembersShowIds(records, hist, rows, n - 1, j);
    }
  }

  /** Up to record n: sharers are in one row, and records with ids that are in one row share. */
  ghost predicate RowsAreSharers(records: seq<GPU>, rows: seq<nat>, n: nat)
    requires |rows| == |records| && n <= |records|
  {
    && (forall j, k :: 0 <= j < n && 0 <= k < n && SharesId(records[j], records[k]) ==> rows[j] == rows[k])
    && (forall j, k :: 0 <= j < n && 0 <= k < n && rows[j] == rows[k] && !Idless(records[j]) && !Idless(records[k]) ==> SharesId(records[j], records[k]))
  }

  /** A row shares an id with g as soon as g shares one with each record behind the row's own ids. */
  lemma RowSharesToo(row: GPU, g: GPU, x: GPU, y: GPU)
    requires SharesId(x, g) && SharesId(y, g) && SharesId(x, y)
    requires if HasUuid(row) then x.uuid == row.uuid else !HasUuid(x) && !HasUuid(y)
    requires if HasPci(row) then y.pciBusID == row.pciBusID else !HasPci(x) && !HasPci(y)
    ensures SharesId(row, g)
  {
  }

  /** A row that holds an id of g is found for g, and what is found holds an id of g. */
  lemma FoundBySharing(t: Table, g: GPU, q: nat)
    requires Indexed(t) && q < |t.rows| && SharesId(t.rows[q], g)
    ensures Find(t, g).Some? && Find(t, g).value < |t.rows| && SharesId(t.rows[Find(t, g).value], g)
  {
  }

  lemma FoundShares(t: Table, g: GPU)
    requires Indexed(t) && !Idless(g) && Find(t, g).Some?
    ensures Find(t, g).value < |t.rows| && SharesId(t.rows[Find(t, g).value], g)
  {
  }

  /** Some record of the row shares the id that the row shares. */
  lemma MemberShares(records: seq<GPU>, hist: seq<seq<GPU>>, rows: seq<nat>, n: nat, r: nat, g: GPU) returns (k: nat)
    requires Steps(records, hist, rows) && n <= |records| && r < |hist[n]| && SharesId(hist[n][r], g)
    ensures k < n && rows[k] == r && SharesId(records[k], g)
  {
    var row := hist[n][r];
    if HasUuid(row) && HasUuid(g) && UuidKey(row) == UuidKey(g) {
      k := UuidComesFrom(records, hist, rows, n, r);
    } else {
      k := PciComesFrom(records, hist, rows, n, r);
    }
  }

  /** The row of an earlier sharer of g shares an id with g. */
  lemma SharersRowShares(records: seq<GPU>, hist: seq<seq<GPU>>, rows: seq<nat>, n: nat, j: nat)
    requires Steps(records, hist, rows) && j < n < |records| && RowsAreSharers(records, rows, n)
    requires SharingIsTransitive(records) && SharesId(records[j], records[n])
    ensures rows[j] < |hist[n]| && SharesId(hist[n][rows[j]], records[n])
  {
    var q, g := rows[j], records[n];
    MembersShowIds(records, hist, rows, n, j);
    var row := hist[n][q];
    var x, y := j, j;
    if HasUuid(row) {
      x := UuidComesFrom(records, hist, rows, n, q);
    }
    if HasPci(row) {
      y := PciComesFrom(records, hist, rows, n, q);
    }
    MembersShowIds(records, hist, rows, n, x);
    MembersShowIds(records, hist, rows, n, y);
    assert SharesId(records[x], records[j]) && SharesId(records[y], records[j]) && SharesId(records[x], records[y]);
    assert SharesId(records[x], g) && SharesId(records[y], g);
    RowSharesToo(row, g, records[x], records[y]);
  }

  lemma SharerIsJoined(records: seq<GPU>, ts: seq<Table>, rows: seq<nat>, n: nat, j: nat)
    requires IsRun(records, ts, rows) && j < n < |records| && RowsAreSharers(records, rows, n) && SharingIsTransitive(records)
    requires Steps(records, History(ts), rows) && Indexed(ts[n]) && SharesId(records[j], records[n])
    ensures rows[j] == rows[n]
  {
    var g := records[n];
    SharersRowShares(records, History(ts), rows, n, j);
    FoundBySharing(ts[n], g, rows[j]);
    var k := MemberShares(records, History(ts), rows, n, rows[n], g);
    assert SharesId(records[j], g) && SharesId(g, records[k]);
    assert SharesId(records[j], records[k]);
  }

  lemma JoinedIsSharer(records: seq<GPU>, ts: seq<Table>, rows: seq<nat>, n: nat, j: nat)
    requires IsRun(records, ts, rows) && j < n < |records| && RowsAreSharers(records, rows, n) && SharingIsTransitive(records)
    requires Steps(records, History(ts), rows) && Indexed(ts[n]) && rows[j] == rows[n] && !Idless(records[j]) && !Idless(records[n])
    ensures SharesId(records[j], records[n])
  {
    var g := records[n];
    RowsInRange(records, History(ts), rows, n);
    FoundRowHasIds(ts[n], g);
    FoundShares(ts[n], g);
    var k := MemberShares(records, History(ts), rows, n, rows[n], g);
    assert SharesId(records[j], records[k]) && SharesId(records[k], g);
  }

  /** Sharing is symmetric, and a record with an id shares it with itself. */
  lemma SharingIsMutual(a: GPU, b: GPU)
    ensures SharesId(a, b) <==> SharesId(b, a)
    ensures !Idless(a) ==> SharesId(a, a)
  {
  }

  lemma Extend(records: seq<GPU>, rows: seq<nat>, n: nat)
    requires |rows| == |records| && n < |records| && RowsAreSharers(records, rows, n)
    requires forall j :: 0 <= j < n && SharesId(records[j], records[n]) ==> rows[j] == rows[n]
    requires forall j :: 0 <= j < n && rows[j] == rows[n] && !Idless(records[j]) && !Idless(records[n]) ==> SharesId(records[j], records[n])
    ensures RowsAreSharers(records, rows, n + 1)
  {
    forall j, k | 0 <= j <= n && 0 <= k <= n
      ensures SharesId(records[j], records[k]) ==> rows[j] == rows[k]
      ensures rows[j] == rows[k] && !Idless(records[j]) && !Idless(records[k]) ==> SharesId(records[j], records[k])
    {
      SharingIsMutual(records[j], records[k]);
    }
  }

  lemma OneMoreRecord(records: seq<GPU>, ts: seq<Table>, rows: seq<nat>, n: nat)
    requires IsRun(records, ts, rows) && n < |records| && RowsAreSharers(records, rows, n) && SharingIsTransitive(records)
    ensures RowsAreSharers(records, rows, n + 1)
  {
    RunSteps(records, ts, rows);
    RunIndexed(records, ts, rows, n);
    forall j | 0 <= j < n && SharesId(records[j], records[n])
      ensures rows[j] == rows[n]
    {
      SharerIsJoined(records, ts, rows, n, j);
    }
    forall j | 0 <= j < n && rows[j] == rows[n] && !Idless(records[j]) && !Idless(records[n])
      ensures SharesId(records[j], records[n])
    {
      JoinedIsSharer(records, ts, rows, n, j);
    }
    Extend(records, rows, n);
  }

  lemma {:induction false} TransitiveRowsAreSharers(records: seq<GPU>, ts: seq<Table>, rows: seq<nat>, n: nat)
    requires IsRun(records, ts, rows) && n <= |records| && SharingIsTransitive(records)
    ensures RowsAreSharers(records, rows, n)
  {
    if n > 0 {
      TransitiveRowsAreSharers(records, ts, rows, n - 1);
      OneMoreRecord(records, ts, rows, n - 1);
    }
  }

  /** Where sharing is transitive the promise holds, and a row holds no two records with ids that do not share one. */
  lemma TransitiveSharingSuffices(records: seq<GPU>, ts: seq<Table>, rows: seq<nat>)
    requires IsRun(records, ts, rows) && SharingIsTransitive(records)
    ensures SharersMerge(records, rows)
    ensures forall j, k :: 0 <= j < |records| && 0 <= k < |records| && !Idless(records[j]) && !Idless(records[k]) ==>
              (rows[j] == rows[k] <==> SharesId(records[j], records[k]))
  {
    TransitiveRowsAreSharers(records, ts, rows, |records|);
  }

  // ---------------------------------------------------------------- and needed, in some order

  lemma ToFront(xs: seq<GPU>, x: GPU) returns (rest: seq<GPU>)
    requires x in xs
    ensures multiset([x] + rest) == multiset(xs)
    ensures forall y :: y in xs && y != x ==> y in rest
  {
    var i :| 0 <= i < |xs| && xs[i] == x;
    rest := Without(xs, i);
    assert xs == xs[..i] + [x] + xs[i + 1..];
    forall y | y in xs && y != x
      ensures y in rest
    {
      assert y in multiset(xs);
      assert y in multiset([x] + rest);
    }
  }

  lemma ThreeToFront(xs: seq<GPU>, a: GPU, c: GPU, b: GPU) returns (order: seq<GPU>)
    requires a in xs && b in xs && c in xs && a != b && b != c && a != c
    ensures |order| >= 3 && order[0] == a && order[1] == c && order[2] == b && multiset(order) == multiset(xs)
  {
    var r1 := ToFront(xs, a);
    var r2 := ToFront(r1, c);
    var r3 := ToFront(r2, b);
    order := [a] + ([c] + ([b] + r3));
    assert multiset([b] + r3) == multiset(r2) && multiset([c] + r2) == multiset(r1);
    assert multiset([c] + ([b] + r3)) == multiset([c] + r2);
    assert multiset(order) == multiset([a] + r1);
  }

  /** Two records that share nothing open two rows if they come first. */
  lemma FirstTwoRows(order: seq<GPU>, ts: seq<Table>, rows: seq<nat>)
    requires IsRun(order, ts, rows) && |order| >= 2
    requires !Idless(order[1]) && !SharesId(order[0], order[1])
    ensures rows[0] == 0 && rows[1] == 1
  {
    var a, c := order[0], order[1];
    assert rows[0] == Target(EMPTY, a) == 0 && ts[1] == Put(EMPTY, a, 0);
    FirstTable(a);
    assert rows[1] == Target(ts[1], c);
    NotFound(a, c);
  }

  lemma FirstTable(a: GPU)
    ensures var t := Put(EMPTY, a, 0);
            && |t.rows| == 1
            && t.byUUID == (if HasUuid(a) then map[UuidKey(a) := 0] else map[])
            && t.byPCI == (if HasPci(a) then map[PciKey(a) := 0] else map[])
  {
  }

  lemma NotFound(a: GPU, c: GPU)
    requires !Idless(c) && !SharesId(a, c)
    ensures Target(Put(EMPTY, a, 0), c) == 1
  {
    FirstTable(a);
  }

  /** Where sharing is not transitive some order of the same records breaks the promise. */
  lemma IntransitiveSharingBreaks(records: seq<GPU>) returns (order: seq<GPU>, ts: seq<Table>, rows: seq<nat>)
    requires !SharingIsTransitive(records)
    ensures multiset(order) == multiset(records) && IsRun(order, ts, rows) && !SharersMerge(order, rows)
  {
    var a, b, c :| a in records && b in records && c in records && SharesId(a, b) && SharesId(b, c) && !SharesId(a, c);
    order := ThreeToFront(records, a, c, b);
    ts, rows := RunExists(order);
    FirstTwoRows(order, ts, rows);
    assert SharesId(order[0], order[2]) && SharesId(order[1], order[2]);
  }

  lemma SameRecordsSameSharing(a: seq<GPU>, b: seq<GPU>)
    requires multiset(a) == multiset(b) && SharingIsTransitive(a)
    ensures SharingIsTransitive(b)
  {
    assert forall x :: x in b ==> x in multiset(b);
    assert forall x :: x in multiset(a) ==> x in a;
  }

  /** Records that share a UUID or a PCI id are merged, whatever the order in which the detectors report
      them, exactly when sharing is transitive. */
  lemma MergedInEveryOrderIff(records: seq<GPU>)
    ensures (forall order, ts, rows :: multiset(order) == multiset(records) && IsRun(order, ts, rows) ==> SharersMerge(order, rows))
            <==> SharingIsTransitive(records)
  {
    if SharingIsTransitive(records) {
      forall order, ts, rows | multiset(order) == multiset(records) && IsRun(order, ts, rows)
        ensures SharersMerge(order, rows)
      {
        SameRecordsSameSharing(records, order);
        TransitiveSharingSuffices(order, ts, rows);
      }
    } else {
      var order, ts, rows := IntransitiveSharingBreaks(records);
    }
  }

  /** A way to be sure of it: every record with an id has a PCI id, and the same UUID means the same PCI id. */
  lemma CommonPciSuffices(records: seq<GPU>)
    requires forall g :: g in records && !Idless(g) ==> HasPci(g)
    requires forall a, b :: a in records && b in records && HasUuid(a) && HasUuid(b) && UuidKey(a) == UuidKey(b) ==> PciKey(a) == PciKey(b)
    ensures SharingIsTransitive(records)
  {
    assert forall a, b :: a in records && b in records && SharesId(a, b) ==> HasPci(a) && HasPci(b) && PciKey(a) == PciKey(b);
  }

  /** A failing case for UUIDs: two cards reported in one slot, then the second by its UUID alone, which
      opens a row of its own because the slot's row kept the first UUID. */
  lemma SecondUuidIsLost(a: GPU, b: GPU, c: GPU, ts: seq<Table>, rows: seq<nat>)
    requires HasUuid(a) && HasUuid(b) && HasUuid(c) && UuidKey(a) != UuidKey(b) && UuidKey(b) == UuidKey(c)
    requires HasPci(a) && HasPci(b) && PciKey(a) == PciKey(b) && !HasPci(c)
    requires IsRun([a, b, c], ts, rows)
    ensures rows == [0, 0, 1] && SharesId(b, c)
  {
    var records := [a, b, c];
    assert records[0] == a && records[1] == b && records[2] == c;
    assert rows[0] == 0 && ts[1] == Put(EMPTY, a, 0);
    SameSlot(a, b);
    assert rows[1] == 0 && ts[2] == Put(ts[1], b, 0);
  }

  lemma SameSlot(a: GPU, b: GPU)
    requires HasUuid(a) && HasUuid(b) && UuidKey(a) != UuidKey(b) && HasPci(a) && HasPci(b) && PciKey(a) == PciKey(b)
    ensures var t := Put(EMPTY, a, 0);
            && Target(t, b) == 0 && |t.rows| == 1
            && |Put(t, b, 0).rows| == 1 && Put(t, b, 0).byUUID == map[UuidKey(a) := 0]
  {
    FirstTable(a);
  }
}
