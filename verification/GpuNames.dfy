/** Cards known by vendor and name only, and which ids, slots and names the merge takes for the same
    (internal/gpu/detect.go). */
module GpuNames {
  import opened Text
  import opened Gpu
  import opened GpuMerge
  import opened GpuRows

  // ---------------------------------------------------------------- what counts as the same

  /** The record says enough of its card to be matched by: a vendor and a name that is not generic. */
  predicate Specific(g: GPU) {
    g.vendor != "" && NormalizeName(g.name) != "" && !LooksGeneric(g.name)
  }

  /** Both say enough, and the same: equal vendors, and names equal once cleaned up. */
  predicate SameCard(a: GPU, b: GPU) {
    Specific(a) && Specific(b) && a.vendor + "|" + NormalizeName(a.name) == b.vendor + "|" + NormalizeName(b.name)
  }

  /** For vendors without a bar in them that is just equality of both. */
  lemma SameCardIff(a: GPU, b: GPU)
    requires '|' !in a.vendor && '|' !in b.vendor
    ensures SameCard(a, b) <==> Specific(a) && Specific(b) && a.vendor == b.vendor && NormalizeName(a.name) == NormalizeName(b.name)
  {
    var (v, w, m, n) := (a.vendor, b.vendor, NormalizeName(a.name), NormalizeName(b.name));
    if v + "|" + m == w + "|" + n {
      FirstBar(v, m);
      FirstBar(w, n);
      assert v == (v + "|" + m)[..|v|] && w == (w + "|" + n)[..|w|];
      assert m == (v + "|" + m)[|v| + 1..] && n == (w + "|" + n)[|w| + 1..];
    }
  }

  lemma FirstBar(v: string, m: string)
    requires '|' !in v
    ensures (v + "|" + m)[|v|] == '|' && forall k :: 0 <= k < |v| ==> (v + "|" + m)[k] != '|'
  {
  }

  lemma KeyOfSpecific(g: GPU)
    ensures VendorNameKey(g) != "" <==> Specific(g)
    ensures Specific(g) ==> VendorNameKey(g) == g.vendor + "|" + NormalizeName(g.name)
  {
  }

  /** Letter case does not matter to a name. */
  lemma CaseIsNoMatter(name: string)
    ensures NormalizeName(ToLower(name)) == NormalizeName(name) && (LooksGeneric(ToLower(name)) <==> LooksGeneric(name))
  {
    assert ToLower(ToLower(name)) == ToLower(name);
  }

  /** Nor to a UUID. */
  lemma UuidsAgreeIff(a: GPU, b: GPU)
    ensures UuidKey(a) == UuidKey(b) <==> EqualFold(a.uuid, b.uuid)
  {
  }

  lemma {:induction false} RemovedBehind(s: string, y: string, mark: string)
    requires mark != "" && mark[0] == '(' && '(' !in s
    ensures Removed(s + y, mark) == s + Removed(y, mark)
  {
    if s == "" {
      assert s + y == y;
    } else {
      assert (s + y)[0] == s[0] && (s + y)[1..] == s[1..] + y;
      RemovedBehind(s[1..], y, mark);
      assert s == [s[0]] + s[1..];
    }
  }

  /** Trade marks do not matter to a name either. */
  lemma MarksAreNoMatter(name: string)
    requires '(' !in name
    ensures NormalizeName(name + "(R)") == NormalizeName(name) && NormalizeName(name + "(TM)") == NormalizeName(name)
  {
    var low := ToLower(name);
    assert ToLower(name + "(R)") == low + "(r)" && ToLower(name + "(TM)") == low + "(tm)";
    RemovedBehind(low, "", "(r)");
    RemovedBehind(low, "", "(tm)");
    RemovedBehind(low, "(r)", "(r)");
    RemovedBehind(low, "(tm)", "(r)");
    RemovedBehind(low, "(tm)", "(tm)");
    MarksGo();
    assert low + "" == low;
  }

  lemma MarksGo()
    ensures Removed("(r)", "(r)") == "" && Removed("(tm)", "(tm)") == "" && Removed("(tm)", "(r)") == "(tm)"
    ensures Removed("", "(r)") == "" && Removed("", "(tm)") == ""
  {
    var t := "(tm)";
    assert t[1..][1..] == "m)" && "m)"[1..] == ")" && ")"[1..] == "";
    assert Removed(")", "(r)") == [')'] + Removed("", "(r)");
    assert Removed("m)", "(r)") == ['m'] + Removed(")", "(r)");
    assert Removed("tm)", "(r)") == ['t'] + Removed("m)", "(r)");
  }

  /** A name without marks is only put in lower case and single blanks. */
  lemma PlainNameIs(name: string)
    requires '(' !in name
    ensures NormalizeName(name) == SingleSpaced(ToLower(name))
  {
    var low := ToLower(name);
    RemovedBehind(low, "", "(r)");
    RemovedBehind(low, "", "(tm)");
    MarksGo();
    assert low + "" == low;
  }

  predicate AllSpace(s: string) {
    forall i :: 0 <= i < |s| ==> IsSpace(s[i])
  }

  predicate NoSpace(s: string) {
    forall i :: 0 <= i < |s| ==> !IsSpace(s[i])
  }

  lemma {:induction false} SpaceGoes(v: string, rest: string)
    requires AllSpace(v)
    ensures TrimLeft(v + rest) == TrimLeft(rest)
  {
    if v == "" {
      assert v + rest == rest;
    } else {
      assert (v + rest)[0] == v[0] && (v + rest)[1..] == v[1..] + rest;
      SpaceGoes(v[1..], rest);
    }
  }

  lemma {:induction false} WordEnds(w: string, x: string)
    requires NoSpace(w) && (x == "" || IsSpace(x[0]))
    ensures WordLength(w + x) == |w|
  {
    if w == "" {
      assert w + x == x;
    } else {
      assert (w + x)[0] == w[0] && (w + x)[1..] == w[1..] + x;
      WordEnds(w[1..], x);
    }
  }

  /** Blanks around a name and between its words do not matter: word by word, one blank is put between them. */
  lemma WordByWord(before: string, w: string, behind: string, rest: string)
    requires AllSpace(before) && w != "" && NoSpace(w) && AllSpace(behind) && (rest != "" ==> behind != "")
    ensures SingleSpaced(before) == ""
    ensures SingleSpaced(before + (w + (behind + rest))) ==
            if SingleSpaced(rest) == "" then w else w + " " + SingleSpaced(rest)
  {
    var x := behind + rest;
    SpaceGoes(before, "");
    assert before + "" == before;
    SpaceGoes(before, w + x);
    assert (w + x)[0] == w[0] && TrimLeft(w + x) == w + x;
    WordEnds(w, x);
    assert (w + x)[..|w|] == w && (w + x)[|w|..] == x;
    SameAfterTrim(before + (w + x), w + x);
    SpaceGoes(behind, rest);
    SameAfterTrim(x, rest);
  }

  lemma SameAfterTrim(a: string, b: string)
    requires TrimLeft(a) == TrimLeft(b)
    ensures SingleSpaced(a) == SingleSpaced(b)
  {
  }

  /** A slot is the same with its domain written in eight digits, in four, or not at all, in either case. */
  lemma SameSlot(slot: string)
    requires Trimmed(slot) && slot != "" && !("0000:" <= ToLower(slot)) && !("00000000:" <= ToLower(slot))
    ensures NormalizePCI(slot) == ToLower(slot)
    ensures NormalizePCI("0000:" + slot) == ToLower(slot) && NormalizePCI("00000000:" + slot) == ToLower(slot)
  {
    Prefixed("0000:", slot);
    Prefixed("00000000:", slot);
    var low := ToLower(slot);
    assert !("00000000:" <= "0000:" + low) by {
      assert ("0000:" + low)[4] == ':' && "00000000:"[4] == '0';
    }
    assert ("0000:" + low)[5..] == low && ("00000000:" + low)[9..] == low;
  }

  lemma Prefixed(p: string, slot: string)
    requires p == "0000:" || p == "00000000:"
    requires Trimmed(slot) && slot != ""
    ensures ToLower(TrimSpace(p + slot)) == p + ToLower(slot) && TrimSpace(slot) == slot
  {
    assert (p + slot)[0] == '0' && (p + slot)[|p + slot| - 1] == slot[|slot| - 1];
    assert Trimmed(p + slot);
    assert ToLower(p) == p;
    assert ToLower(p + slot) == ToLower(p) + ToLower(slot);
  }

  // ---------------------------------------------------------------- where a card without ids lands

  /** Step j of the run left, in the row of its record, ids and the vendor and name of g. */
  ghost predicate Shown(ts: seq<Table>, rows: seq<nat>, j: int, g: GPU) {
    && 0 <= j < |rows| && j + 1 < |ts| && rows[j] < |ts[j + 1].rows|
    && var row := ts[j + 1].rows[rows[j]]; !Idless(row) && SameCard(row, g)
  }

  /** The last of the first n steps to show it. */
  ghost predicate LastShown(ts: seq<Table>, rows: seq<nat>, n: nat, j: int, g: GPU) {
    0 <= j < n && Shown(ts, rows, j, g) && forall i :: j < i < n ==> !Shown(ts, rows, i, g)
  }

  lemma PutShows(t: Table, g: GPU, i: nat, key: string)
    requires i <= |t.rows|
    ensures var u := Put(t, g, i); var row := RowWith(t, g, i);
            && i < |u.rows| && u.rows[i] == row
            && (if !Idless(row) && Specific(row) && key == row.vendor + "|" + NormalizeName(row.name) then key in u.byName && u.byName[key] == i
                else (key in u.byName <==> key in t.byName) && (key in t.byName ==> u.byName[key] == t.byName[key]))
  {
    KeyOfSpecific(RowWith(t, g, i));
    RememberParts(t, RowWith(t, g, i), i);
  }

  /** That step, or -1. */
  ghost function LastAt(ts: seq<Table>, rows: seq<nat>, n: nat, g: GPU): (j: int)
    ensures -1 <= j < n
    ensures j >= 0 ==> Shown(ts, rows, j, g)
    ensures forall i :: j < i < n ==> !Shown(ts, rows, i, g)
  {
    if n == 0 then -1 else if Shown(ts, rows, n - 1, g) then n - 1 else LastAt(ts, rows, n - 1, g)
  }

  lemma NameAfterStep(records: seq<GPU>, ts: seq<Table>, rows: seq<nat>, m: nat, g: GPU)
    requires IsRun(records, ts, rows) && m < |records| && Specific(g)
    ensures var key := g.vendor + "|" + NormalizeName(g.name);
            if Shown(ts, rows, m, g) then key in ts[m + 1].byName && ts[m + 1].byName[key] == rows[m]
            else (key in ts[m + 1].byName <==> key in ts[m].byName) && (key in ts[m].byName ==> ts[m + 1].byName[key] == ts[m].byName[key])
  {
    PutShows(ts[m], records[m], rows[m], g.vendor + "|" + NormalizeName(g.name));
  }

  /** The index by name after n records: it knows a card exactly when some step has shown it, and points at the
      row of the last that did. */
  lemma {:induction false} NamesAreLastShown(records: seq<GPU>, ts: seq<Table>, rows: seq<nat>, n: nat, g: GPU)
    requires IsRun(records, ts, rows) && n <= |records| && Specific(g)
    ensures var key, j := g.vendor + "|" + NormalizeName(g.name), LastAt(ts, rows, n, g);
            if j < 0 then key !in ts[n].byName else key in ts[n].byName && j < |rows| && ts[n].byName[key] == rows[j]
  {
    hide Shown, Specific;
    if n > 0 {
      NamesAreLastShown(records, ts, rows, n - 1, g);
      NameAfterStep(records, ts, rows, n - 1, g);
    }
  }

  lemma {:induction false} NoBlankName(records: seq<GPU>, ts: seq<Table>, rows: seq<nat>, n: nat)
    requires IsRun(records, ts, rows) && n <= |records|
    ensures "" !in ts[n].byName
  {
    if n > 0 {
      NoBlankName(records, ts, rows, n - 1);
      KeyOfSpecific(RowWith(ts[n - 1], records[n - 1], rows[n - 1]));
      RememberParts(ts[n - 1], RowWith(ts[n - 1], records[n - 1], rows[n - 1]), rows[n - 1]);
    }
  }

  /** A record without ids is folded into the row that last showed ids together with its vendor and name, and
      opens a row of its own exactly when no row has, or when it does not say enough. */
  lemma IdlessLandsWhere(records: seq<GPU>, ts: seq<Table>, rows: seq<nat>, k: nat)
    requires IsRun(records, ts, rows) && k < |records| && records[k].uuid == "" && records[k].pciBusID == ""
    ensures rows[k] == |ts[k].rows| <==> !exists j :: j < k && Shown(ts, rows, j, records[k])
    ensures forall j :: LastShown(ts, rows, k, j, records[k]) ==> rows[k] == rows[j]
  {
    var g := records[k];
    RunIndexed(records, ts, rows, k);
    FoundByName(ts[k], g);
    KeyOfSpecific(g);
    hide Shown, Specific, VendorNameKey, NormalizeName, Target, Put, Indexed, LastAt;
    if Specific(g) {
      NamesAreLastShown(records, ts, rows, k, g);
    } else {
      NoBlankName(records, ts, rows, k);
      UnspecificNeverShown(ts, rows, g);
    }
  }

  lemma UnspecificNeverShown(ts: seq<Table>, rows: seq<nat>, g: GPU)
    requires !Specific(g)
    ensures forall j :: !Shown(ts, rows, j, g)
  {
  }

  lemma FoundByName(t: Table, g: GPU)
    requires Indexed(t) && Idless(g)
    ensures VendorNameKey(g) in t.byName ==> t.byName[VendorNameKey(g)] < |t.rows|
    ensures Target(t, g) == if VendorNameKey(g) in t.byName then t.byName[VendorNameKey(g)] else |t.rows|
  {
    hide VendorNameKey;
  }

  /** In particular a card with ids, and then the same by name alone: one row. Two copies by name alone: two. */
  lemma CopyByNameFolds(a: GPU, b: GPU, ts: seq<Table>, rows: seq<nat>)
    requires IsRun([a, b], ts, rows) && b.uuid == "" && b.pciBusID == "" && SameCard(a, b)
    ensures rows == if a.uuid == "" && a.pciBusID == "" then [0, 1] else [0, 0]
    ensures |ts[2].rows| == if a.uuid == "" && a.pciBusID == "" then 2 else 1
  {
    var records := [a, b];
    assert records[0] == a && records[1] == b;
    assert rows[0] == 0 && ts[1] == Put(EMPTY, a, 0);
    PutShows(EMPTY, a, 0, "");
    assert ts[1].rows[0] == a && |ts[1].rows| == 1;
    IdlessLandsWhere(records, ts, rows, 1);
    assert Shown(ts, rows, 0, b) <==> !Idless(a);
    assert Shown(ts, rows, 0, b) ==> LastShown(ts, rows, 1, 0, b);
  }
}
