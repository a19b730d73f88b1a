/** The per-address limit on enrolment attempts (internal/server/enroll.go). Instants are in nanoseconds. */
module EnrollLimiter {

  const WINDOW: int := 60 * 1_000_000_000

  /** The hits after the cut, in order. */
  function Kept(hits: seq<int>, cut: int): (r: seq<int>)
    ensures |r| <= |hits|
  {
    if hits == [] then []
    else
      var t := hits[|hits| - 1];
      Kept(hits[..|hits| - 1], cut) + (if t > cut then [t] else [])
  }

  predicate Admits(hits: seq<int>, now: int, max: nat) {
    |Kept(hits, now - WINDOW)| < max
  }

  /** The hit list after an attempt: old hits are dropped, an admitted attempt is added. */
  function Noted(hits: seq<int>, now: int, max: nat): seq<int> {
    if Admits(hits, now, max) then Kept(hits, now - WINDOW) + [now] else Kept(hits, now - WINDOW)
  }

  // ---------------------------------------------------------------- the limiter itself

  type HitTable = map<string, seq<int>>

  function HitsOf(t: HitTable, ip: string): seq<int> {
    if ip in t then t[ip] else []
  }

  /** The first `len` cells of a buffer. */
  datatype Slice = Slice(data: array<int>, len: nat)

  ghost predicate Shows(s: Slice, hits: seq<int>)
    reads s.data
  {
    s.len <= s.data.Length && s.data[..s.len] == hits
  }

  /** Keeps the hits after the cut, in place: the survivors move to the front of the same buffer. */
  method Filter(s: Slice, cut: int, ghost was: seq<int>) returns (n: Slice)
    requires Shows(s, was)
    modifies s.data
    ensures n.data == s.data && Shows(n, Kept(was, cut))
  {
    var j := 0;
    for k := 0 to s.len
      invariant j <= k
      invariant s.data[..j] == Kept(was[..k], cut)
      invariant forall i :: k <= i < s.len ==> s.data[i] == was[i]
    {
      assert s.data[k] == was[k] && was[..k + 1][..k] == was[..k];
      if s.data[k] > cut {
        ghost var kept := s.data[..j];
        s.data[j] := s.data[k];
        j := j + 1;
        assert s.data[..j] == kept + [was[k]];
      }
    }
    assert was[..s.len] == was;
    n := Slice(s.data, j);
  }

  /** Writes into the spare part of the buffer, or moves to a larger one. */
  method Append(s: Slice, t: int, ghost was: seq<int>) returns (n: Slice)
    requires Shows(s, was)
    modifies s.data
    ensures (n.data == s.data || fresh(n.data)) && Shows(n, was + [t])
  {
    var data := s.data;
    if s.len == data.Length {
      data := new int[2 * s.len + 1];
      for k := 0 to s.len
        invariant s.data[..] == old(s.data[..])
        invariant data[..k] == s.data[..k]
      {
        data[k] := s.data[k];
      }
    }
    data[s.len] := t;
    n := Slice(data, s.len + 1);
  }

  class IpLimiter {
    const max: nat
    var hits: map<string, Slice>
    ghost var table: HitTable
    ghost var Repr: set<array<int>>

    ghost predicate ShowsFor(ip: string)
      requires ip in hits && ip in table
      reads this, hits[ip].data
    {
      hits[ip].data in Repr && Shows(hits[ip], table[ip])
    }

    /** `table` shows the hits, and no two addresses share a buffer. */
    ghost predicate Valid()
      reads this, Repr
    {
      && hits.Keys == table.Keys
      && (forall ip :: ip in hits ==> hits[ip].data in Repr && ShowsFor(ip))
      && (forall a, b :: a in hits && b in hits && hits[a].data == hits[b].data ==> a == b)
    }

    constructor (limit: int)
      ensures Valid() && Repr == {} && table == map[] && max == if limit > 0 then limit else 5
    {
      max := if limit <= 0 then 5 else limit;
      hits, table, Repr := map[], map[], {};
    }

    /** Files the slice under the address; its buffer is its own. */
    method File(ip: string, n: Slice, ghost shown: seq<int>)
      requires hits.Keys == table.Keys && Shows(n, shown)
      requires forall a :: a in hits && a != ip ==> hits[a].data in Repr && ShowsFor(a) && hits[a].data != n.data
      requires forall a, b :: a in hits && b in hits && hits[a].data == hits[b].data ==> a == b
      modifies this
      ensures Valid() && Repr == old(Repr) + {n.data} && table == old(table)[ip := shown]
    {
      hits, table, Repr := hits[ip := n], table[ip := shown], Repr + {n.data};
    }

    method Allow(ip: string, now: int) returns (ok: bool)
      requires Valid()
      modifies this, Repr
      ensures Valid() && fresh(Repr - old(Repr))
      ensures ok == Admits(HitsOf(old(table), ip), now, max)
      ensures table == old(table)[ip := Noted(HitsOf(old(table), ip), now, max)]
    {
      var cur: Slice;
      if ip in hits {
        cur := hits[ip];
        assert ShowsFor(ip);
      } else {
        var empty := new int[0];
        cur := Slice(empty, 0);
      }
      ghost var was := HitsOf(table, ip);
      var n := Filter(cur, now - WINDOW, was);
      ok := n.len < max;
      if ok {
        n := Append(n, now, Kept(was, now - WINDOW));
      }
      File(ip, n, Noted(was, now, max));
    }
  }

  // ---------------------------------------------------------------- whole runs

  datatype Attempt = Attempt(ip: string, now: int)

  /** The limiter's memory after a run of attempts. */
  function HitsAfter(run: seq<Attempt>, max: nat): HitTable {
    if run == [] then map[]
    else
      var a, t := run[|run| - 1], HitsAfter(run[..|run| - 1], max);
      t[a.ip := Noted(HitsOf(t, a.ip), a.now, max)]
  }

  /** When the attempts of an address were let through, over the whole run. */
  function Admitted(run: seq<Attempt>, max: nat, ip: string): seq<int> {
    if run == [] then []
    else
      var a, before := run[|run| - 1], run[..|run| - 1];
      Admitted(before, max, ip) + (if a.ip == ip && Admits(HitsOf(HitsAfter(before, max), ip), a.now, max) then [a.now] else [])
  }

  /** No attempt of the address has a reading more than `lag` behind that of one served before it. */
  ghost predicate LagsAtMost(run: seq<Attempt>, ip: string, lag: nat) {
    forall i, j :: 0 <= i < j < |run| && run[i].ip == ip && run[j].ip == ip ==> run[i].now <= run[j].now + lag
  }

  ghost predicate NoneLater(run: seq<Attempt>, ip: string, now: int) {
    forall i :: 0 <= i < |run| && run[i].ip == ip ==> run[i].now <= now
  }

  lemma {:induction false} KeptAppend(a: seq<int>, t: int, cut: int)
    ensures Kept(a + [t], cut) == Kept(a, cut) + (if t > cut then [t] else [])
  {
    assert (a + [t])[..|a|] == a;
  }

  /** Forgetting early loses nothing: a later cut keeps the same hits. */
  lemma {:induction false} KeptTwice(a: seq<int>, c: int, d: int)
    requires c <= d
    ensures Kept(Kept(a, c), d) == Kept(a, d)
  {
    if a != [] {
      var init, t := a[..|a| - 1], a[|a| - 1];
      KeptTwice(init, c, d);
      if t > c {
        KeptAppend(Kept(init, c), t, d);
      } else {
        assert Kept(a, c) == Kept(init, c);
      }
    }
  }

  lemma LagSoFar(before: seq<Attempt>, a: Attempt, ip: string, lag: nat)
    requires LagsAtMost(before + [a], ip, lag)
    ensures LagsAtMost(before, ip, lag)
    ensures a.ip == ip ==> NoneLater(before, ip, a.now + lag)
  {
    var run := before + [a];
    assert run[|before|] == a && forall i :: 0 <= i < |before| ==> run[i] == before[i];
  }

  lemma NotedKept(hits: seq<int>, all: seq<int>, now: int, max: nat, cut: int)
    requires Kept(hits, cut) == Kept(all, cut) && now - WINDOW <= cut
    ensures Kept(Noted(hits, now, max), cut) == Kept(all + (if Admits(hits, now, max) then [now] else []), cut)
  {
    var kept := Kept(hits, now - WINDOW);
    KeptTwice(hits, now - WINDOW, cut);
    KeptAppend(kept, now, cut);
    KeptAppend(all, now, cut);
    assert kept + [] == kept && all + [] == all;
  }

  /** For any cut no earlier than those made so far, the forgetful hit list and a full record of the
      admissions show the same hits. */
  lemma {:induction false} MemorySuffices(run: seq<Attempt>, max: nat, ip: string, cut: int)
    requires NoneLater(run, ip, cut + WINDOW)
    ensures Kept(HitsOf(HitsAfter(run, max), ip), cut) == Kept(Admitted(run, max, ip), cut)
  {
    if run != [] {
      var before, a := run[..|run| - 1], run[|run| - 1];
      MemorySuffices(before, max, ip, cut);
      if a.ip == ip {
        NotedKept(HitsOf(HitsAfter(before, max), ip), Admitted(before, max, ip), a.now, max, cut);
      } else {
        assert Admitted(run, max, ip) == Admitted(before, max, ip);
      }
    }
  }

  /** Each decision is that of a limiter that forgets nothing and counts the last minute. */
  lemma DecidesLikeAFullRecord(before: seq<Attempt>, max: nat, a: Attempt)
    requires NoneLater(before, a.ip, a.now)
    ensures Admits(HitsOf(HitsAfter(before, max), a.ip), a.now, max) <==>
            |Kept(Admitted(before, max, a.ip), a.now - WINDOW)| < max
  {
    MemorySuffices(before, max, a.ip, a.now - WINDOW);
  }

  /** How many of the instants lie in the span of this width that ends at `end`, its start excluded. */
  function InSpan(times: seq<int>, end: int, width: int): nat {
    if times == [] then 0
    else InSpan(times[..|times| - 1], end, width) + (if end - width < times[|times| - 1] <= end then 1 else 0)
  }

  lemma SpanAppend(times: seq<int>, t: int, end: int, width: int)
    ensures InSpan(times + [t], end, width) == InSpan(times, end, width) + (if end - width < t <= end then 1 else 0)
  {
    assert (times + [t])[..|times|] == times;
  }

  lemma {:induction false} SpanIsKept(times: seq<int>, end: int, width: int, cut: int)
    requires cut <= end - width
    ensures InSpan(times, end, width) <= |Kept(times, cut)|
  {
    if times != [] {
      SpanIsKept(times[..|times| - 1], end, width, cut);
    }
  }

  lemma {:induction false} KeptShrinks(hits: seq<int>, c: int, d: int)
    requires c <= d
    ensures |Kept(hits, d)| <= |Kept(hits, c)|
  {
    if hits != [] {
      KeptShrinks(hits[..|hits| - 1], c, d);
    }
  }

  /** What an admitted attempt finds in a span that holds it and is short enough for the lag. */
  lemma RoomInSpan(before: seq<Attempt>, max: nat, a: Attempt, lag: nat, end: int)
    requires NoneLater(before, a.ip, a.now + lag) && Admits(HitsOf(HitsAfter(before, max), a.ip), a.now, max) && a.now <= end
    ensures InSpan(Admitted(before, max, a.ip), end, WINDOW - lag) < max
  {
    hide HitsAfter, Admitted, Kept, InSpan, HitsOf;
    var cut := a.now + lag - WINDOW;
    MemorySuffices(before, max, a.ip, cut);
    KeptShrinks(HitsOf(HitsAfter(before, max), a.ip), a.now - WINDOW, cut);
    SpanIsKept(Admitted(before, max, a.ip), end, WINDOW - lag, cut);
  }

  /** With readings that lag by no more than `lag`, no address gets more than `max` attempts through in
      any span of a minute less the lag. */
  lemma {:induction false} AtMostMaxInAnySpan(run: seq<Attempt>, max: nat, ip: string, lag: nat, end: int)
    requires LagsAtMost(run, ip, lag)
    ensures InSpan(Admitted(run, max, ip), end, WINDOW - lag) <= max
  {
    if run != [] {
      var before, a := run[..|run| - 1], run[|run| - 1];
      var all := Admitted(before, max, ip);
      assert run == before + [a];
      LagSoFar(before, a, ip, lag);
      AtMostMaxInAnySpan(before, max, ip, lag, end);
      if a.ip == ip && Admits(HitsOf(HitsAfter(before, max), ip), a.now, max) {
        SpanAppend(all, a.now, end, WINDOW - lag);
        if a.now <= end {
          RoomInSpan(before, max, a, lag, end);
        }
      } else {
        assert Admitted(run, max, ip) == all;
      }
    }
  }

  /** The limit as it is meant: with readings that never go back, in any one minute, however it is laid. */
  lemma AtMostMaxInAnyMinute(run: seq<Attempt>, max: nat, ip: string, end: int)
    requires LagsAtMost(run, ip, 0)
    ensures InSpan(Admitted(run, max, ip), end, 60_000_000_000) <= max
  {
    AtMostMaxInAnySpan(run, max, ip, 0, end);
  }

  lemma {:induction false} NarrowerSpan(times: seq<int>, end: int, v: int, w: int)
    requires v <= w
    ensures InSpan(times, end, v) <= InSpan(times, end, w)
  {
    if times != [] {
      NarrowerSpan(times[..|times| - 1], end, v, w);
    }
  }

  /** The limit is kept in spans of this width by every run with this much lag. */
  ghost predicate KeepsLimit(lag: nat, width: int) {
    forall run, max, ip, end :: LagsAtMost(run, ip, lag) ==> InSpan(Admitted(run, max, ip), end, width) <= max
  }

  /** Exactly the spans of a minute less the lag are safe. For whole minutes that means no lag at all. */
  lemma KeepsLimitIff(lag: nat, width: int)
    requires lag <= WINDOW
    ensures KeepsLimit(lag, width) <==> width <= WINDOW - lag
  {
    if width <= WINDOW - lag {
      forall run, max, ip, end | LagsAtMost(run, ip, lag)
        ensures InSpan(Admitted(run, max, ip), end, width) <= max
      {
        AtMostMaxInAnySpan(run, max, ip, lag, end);
        NarrowerSpan(Admitted(run, max, ip), end, width, WINDOW - lag);
      }
    } else {
      var run := LaggingReadingExceedsTheLimit("", lag);
      NarrowerSpan(Admitted(run, 2, ""), WINDOW - lag, WINDOW - lag + 1, width);
    }
  }

  /** The run so far leaves these hits and admitted these attempts. */
  ghost predicate Stands(run: seq<Attempt>, max: nat, ip: string, hits: seq<int>, all: seq<int>) {
    HitsOf(HitsAfter(run, max), ip) == hits && Admitted(run, max, ip) == all
  }

  lemma OneMore(run: seq<Attempt>, max: nat, ip: string, hits: seq<int>, all: seq<int>, now: int)
    requires Stands(run, max, ip, hits, all) && Admits(hits, now, max)
    ensures Stands(run + [Attempt(ip, now)], max, ip, Kept(hits, now - WINDOW) + [now], all + [now])
  {
    StepOf(run, Attempt(ip, now), max);
  }

  lemma ThreeOfFour(c: int, d: int, width: int)
    requires 0 <= d < width
    ensures InSpan([0, 0, c, d], d, width) >= 3
  {
    SpanAppend([], 0, d, width);
    SpanAppend([0], 0, d, width);
    SpanAppend([0, 0], c, d, width);
    SpanAppend([0, 0, c], d, d, width);
    assert [] + [0] == [0] && [0] + [0] == [0, 0] && [0, 0] + [c] == [0, 0, c] && [0, 0, c] + [d] == [0, 0, c, d];
  }

  lemma TwoAtOnce(ip: string)
    ensures Stands([Attempt(ip, 0), Attempt(ip, 0)], 2, ip, [0, 0], [0, 0])
  {
    var a := Attempt(ip, 0);
    KeptPair(0, 0, 0 - WINDOW);
    assert Kept([], 0 - WINDOW) == [] && [] + [0] == [0] && [0] + [0] == [0, 0];
    OneMore([], 2, ip, [], [], 0);
    assert [] + [a] == [a] && [a] + [a] == [a, a];
    OneMore([a], 2, ip, [0], [0], 0);
  }

  lemma ThirdForgets(ip: string)
    ensures Stands([Attempt(ip, 0), Attempt(ip, 0), Attempt(ip, WINDOW)], 2, ip, [WINDOW], [0, 0, WINDOW])
  {
    var a, b := Attempt(ip, 0), Attempt(ip, WINDOW);
    TwoAtOnce(ip);
    KeptPair(0, 0, 0);
    assert [] + [WINDOW] == [WINDOW] && [0, 0] + [WINDOW] == [0, 0, WINDOW] && [a, a] + [b] == [a, a, b];
    OneMore([a, a], 2, ip, [0, 0], [0, 0], WINDOW);
  }

  /** The clock is read before the lock is taken, so two attempts may be served against the order of
      their readings: two attempts at 0, one a minute later, which makes the limiter forget them, and one
      whose reading lags behind that are all admitted under a limit of two. */
  lemma LaggingReadingExceedsTheLimit(ip: string, lag: nat) returns (run: seq<Attempt>)
    requires lag <= WINDOW
    ensures LagsAtMost(run, ip, lag)
    ensures InSpan(Admitted(run, 2, ip), WINDOW - lag, WINDOW - lag + 1) > 2
  {
    hide HitsAfter, Admitted, InSpan, HitsOf;
    var a, b, c := Attempt(ip, 0), Attempt(ip, WINDOW), Attempt(ip, WINDOW - lag);
    ThirdForgets(ip);
    KeptPair(WINDOW, 0, c.now - WINDOW);
    OneMore([a, a, b], 2, ip, [WINDOW], [0, 0, WINDOW], c.now);
    run := [a, a, b] + [c];
    assert [0, 0, WINDOW] + [c.now] == [0, 0, WINDOW, c.now];
    ThreeOfFour(WINDOW, c.now, WINDOW - lag + 1);
  }

  lemma KeptPair(x: int, y: int, cut: int)
    ensures Kept([x], cut) == if x > cut then [x] else []
    ensures Kept([x, y], cut) == (if x > cut then [x] else []) + (if y > cut then [y] else [])
  {
    assert [x][..0] == [] && [x, y][..1] == [x];
  }

  /** One more attempt, seen from its own address. */
  lemma StepOf(before: seq<Attempt>, a: Attempt, max: nat)
    ensures var hits := HitsOf(HitsAfter(before, max), a.ip);
            && HitsOf(HitsAfter(before + [a], max), a.ip) == Noted(hits, a.now, max)
            && Admitted(before + [a], max, a.ip) == Admitted(before, max, a.ip) + (if Admits(hits, a.now, max) then [a.now] else [])
  {
    assert (before + [a])[..|before|] == before;
  }
}
