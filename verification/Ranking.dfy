/** The stable sort of the router's candidates, and what it does not depend on. */
module Ranking {
  import opened Text
  import opened Lists
  import opened Routing

  /** The sort key: score, then priority, both descending, then node id. */
  predicate Before(a: Candidate, b: Candidate) {
    || a.score > b.score
    || (a.score == b.score && a.entry.priority > b.entry.priority)
    || (a.score == b.score && a.entry.priority == b.entry.priority && Less(a.nodeID, b.nodeID))
  }

  predicate Tied(a: Candidate, b: Candidate) {
    !Before(a, b) && !Before(b, a)
  }

  lemma BeforeTransitive(a: Candidate, b: Candidate, c: Candidate)
    requires Before(a, b) && Before(b, c)
    ensures Before(a, c) && !Before(b, a)
  {
    LessIrreflexive(a.nodeID);
    if Less(a.nodeID, b.nodeID) && Less(b.nodeID, c.nodeID) {
      LessTransitive(a.nodeID, b.nodeID, c.nodeID);
    }
    if Less(a.nodeID, b.nodeID) && Less(b.nodeID, a.nodeID) {
      LessTransitive(a.nodeID, b.nodeID, a.nodeID);
    }
  }

  /** Candidates the key cannot tell apart agree on all of it. */
  lemma TiedSameKey(a: Candidate, b: Candidate)
    ensures Tied(a, b) <==> a.score == b.score && a.entry.priority == b.entry.priority && a.nodeID == b.nodeID
  {
    LessTotal(a.nodeID, b.nodeID);
    LessIrreflexive(a.nodeID);
  }

  lemma BeforeOrTied(a: Candidate, b: Candidate, c: Candidate)
    requires !Before(b, a) && Before(b, c)
    ensures Before(a, c)
  {
    TiedSameKey(a, b);
    if Before(a, b) {
      BeforeTransitive(a, b, c);
    }
  }

  // ---------------------------------------------------------------- stable sort

  /** Puts x in front of the first element it does not have to follow. */
  function Insert(x: Candidate, s: seq<Candidate>): seq<Candidate> {
    if s != [] && Before(s[0], x) then [s[0]] + Insert(x, s[1..]) else [x] + s
  }

  function InsertAll(xs: seq<Candidate>, ranked: seq<Candidate>): seq<Candidate> {
    if xs == [] then ranked else Insert(xs[0], InsertAll(xs[1..], ranked))
  }

  function StableSort(s: seq<Candidate>): seq<Candidate> {
    InsertAll(s, [])
  }

  ghost predicate Sorted(s: seq<Candidate>) {
    forall i, j :: 0 <= i < j < |s| ==> !Before(s[j], s[i])
  }

  lemma {:induction false} InsertKeeps(x: Candidate, s: seq<Candidate>)
    ensures multiset(Insert(x, s)) == multiset{x} + multiset(s)
  {
    if s != [] && Before(s[0], x) {
      InsertKeeps(x, s[1..]);
      assert s == [s[0]] + s[1..];
    }
  }

  lemma {:induction false} InsertSorted(x: Candidate, s: seq<Candidate>)
    requires Sorted(s)
    ensures Sorted(Insert(x, s))
  {
    if s != [] && Before(s[0], x) {
      var r := Insert(x, s[1..]);
      InsertSorted(x, s[1..]);
      InsertKeeps(x, s[1..]);
      forall k | 0 <= k < |r|
        ensures !Before(r[k], s[0])
      {
        assert r[k] in multiset(r);
        if r[k] == x {
          TiedSameKey(x, x);
          BeforeNotBack(s[0], x);
        } else {
          assert r[k] in s[1..];
        }
      }
    } else {
      forall k | 0 <= k < |s|
        ensures !Before(s[k], x)
      {
        if Before(s[k], x) {
          BeforeOrTied(s[0], s[k], x);
        }
      }
    }
  }

  lemma BeforeNotBack(a: Candidate, b: Candidate)
    requires Before(a, b)
    ensures !Before(b, a)
  {
    if Before(b, a) {
      BeforeTransitive(a, b, a);
    }
  }

  lemma {:induction false} InsertAllSorted(xs: seq<Candidate>, ranked: seq<Candidate>)
    requires Sorted(ranked)
    ensures Sorted(InsertAll(xs, ranked)) && multiset(InsertAll(xs, ranked)) == multiset(xs) + multiset(ranked)
  {
    if xs != [] {
      InsertAllSorted(xs[1..], ranked);
      InsertSorted(xs[0], InsertAll(xs[1..], ranked));
      InsertKeeps(xs[0], InsertAll(xs[1..], ranked));
      assert xs == [xs[0]] + xs[1..];
    }
  }

  /** The elements of s that tie with c, in order. */
  function TiesWith(c: Candidate, s: seq<Candidate>): seq<Candidate> {
    if s == [] then [] else (if Tied(s[0], c) then [s[0]] else []) + TiesWith(c, s[1..])
  }

  lemma {:induction false} InsertKeepsTies(c: Candidate, x: Candidate, s: seq<Candidate>)
    ensures TiesWith(c, Insert(x, s)) == TiesWith(c, [x] + s)
  {
    assert ([x] + s)[1..] == s;
    if s != [] && Before(s[0], x) {
      InsertKeepsTies(c, x, s[1..]);
      assert ([x] + s[1..])[1..] == s[1..];
      assert !(Tied(s[0], c) && Tied(x, c)) by {
        TiedSameKey(s[0], c);
        TiedSameKey(x, c);
        TiedSameKey(s[0], x);
      }
    }
  }

  /** What sort.SliceStable promises: a sorted rearrangement in which ties keep their order. */
  lemma {:induction false} StableSortIsStable(s: seq<Candidate>, c: Candidate)
    ensures Sorted(StableSort(s)) && multiset(StableSort(s)) == multiset(s)
    ensures TiesWith(c, StableSort(s)) == TiesWith(c, s)
  {
    InsertAllSorted(s, []);
    if s != [] {
      StableSortIsStable(s[1..], c);
      InsertKeepsTies(c, s[0], StableSort(s[1..]));
      assert ([s[0]] + StableSort(s[1..]))[1..] == StableSort(s[1..]);
    }
  }

  lemma {:induction false} TiesAreMembers(c: Candidate, s: seq<Candidate>)
    ensures forall x :: x in TiesWith(c, s) <==> x in s && Tied(x, c)
  {
    if s != [] {
      TiesAreMembers(c, s[1..]);
      assert s == [s[0]] + s[1..];
    }
  }

  ghost predicate SameTies(t: seq<Candidate>, u: seq<Candidate>) {
    forall c :: TiesWith(c, t) == TiesWith(c, u)
  }

  lemma TiesWithItself(s: seq<Candidate>)
    requires s != []
    ensures TiesWith(s[0], s) != [] && TiesWith(s[0], s)[0] == s[0]
  {
    TiedSameKey(s[0], s[0]);
  }

  /** The heads of two sorted lists with the same ties agree. */
  lemma SameHead(t: seq<Candidate>, u: seq<Candidate>)
    requires Sorted(t) && Sorted(u) && SameTies(t, u) && t != []
    ensures u != [] && u[0] == t[0]
  {
    TiesWithItself(t);
    TiesAreMembers(t[0], u);
    assert t[0] in TiesWith(t[0], u);
    TiesWithItself(u);
    TiesAreMembers(u[0], t);
    assert u[0] in TiesWith(u[0], t);
    assert Tied(u[0], t[0]);
    assert TiesWith(t[0], u)[0] == u[0];
  }

  /** Sorted and stable leaves no choice: any two such arrangements are the same list. */
  lemma {:induction false} StableOrderIsUnique(t: seq<Candidate>, u: seq<Candidate>)
    requires Sorted(t) && Sorted(u) && SameTies(t, u)
    ensures t == u
  {
    if t != [] {
      SameHead(t, u);
      forall c
        ensures TiesWith(c, t[1..]) == TiesWith(c, u[1..])
      {
        assert TiesWith(c, t) == TiesWith(c, u);
        var own := if Tied(t[0], c) then [t[0]] else [];
        assert TiesWith(c, t) == own + TiesWith(c, t[1..]) && TiesWith(c, u) == own + TiesWith(c, u[1..]);
        assert TiesWith(c, t[1..]) == TiesWith(c, t)[|own|..];
      }
      StableOrderIsUnique(t[1..], u[1..]);
      assert t == [t[0]] + t[1..] && u == [u[0]] + u[1..];
    } else if u != [] {
      TiesWithItself(u);
      assert false;
    }
  }

  // ---------------------------------------------------------------- order of arrival

  lemma {:induction false} InsertAllAppend(xs: seq<Candidate>, ys: seq<Candidate>, ranked: seq<Candidate>)
    ensures InsertAll(xs + ys, ranked) == InsertAll(xs, InsertAll(ys, ranked))
  {
    if xs == [] {
      assert xs + ys == ys;
    } else {
      InsertAllAppend(xs[1..], ys, ranked);
      assert (xs + ys)[0] == xs[0] && (xs + ys)[1..] == xs[1..] + ys;
    }
  }

  /** Inserting two candidates that the key tells apart gives the same list either way round. */
  lemma {:induction false} InsertCommutes(x: Candidate, y: Candidate, s: seq<Candidate>)
    requires Before(x, y)
    ensures Insert(x, Insert(y, s)) == Insert(y, Insert(x, s))
  {
    BeforeNotBack(x, y);
    if s != [] && Before(s[0], x) {
      BeforeTransitive(s[0], x, y);
      InsertCommutes(x, y, s[1..]);
    }
  }

  ghost predicate DistinctNodes(xs: seq<Candidate>) {
    forall i, j :: 0 <= i < j < |xs| ==> xs[i].nodeID != xs[j].nodeID
  }

  lemma SwapInserts(x: Candidate, y: Candidate, s: seq<Candidate>)
    requires x.nodeID != y.nodeID
    ensures Insert(x, Insert(y, s)) == Insert(y, Insert(x, s))
  {
    TiedSameKey(x, y);
    if Before(x, y) {
      InsertCommutes(x, y, s);
    } else {
      InsertCommutes(y, x, s);
    }
  }

  /** Element i may as well be inserted last. */
  lemma {:induction false} PullFront(xs: seq<Candidate>, i: nat, ranked: seq<Candidate>)
    requires i < |xs| && DistinctNodes(xs)
    ensures InsertAll(xs, ranked) == Insert(xs[i], InsertAll(Without(xs, i), ranked))
  {
    var rest := Without(xs, i);
    if i == 0 {
      assert rest == xs[1..];
    } else {
      var tail := xs[1..];
      PullFront(tail, i - 1, ranked);
      assert rest[0] == xs[0] && rest[1..] == Without(tail, i - 1);
      SwapInserts(xs[0], xs[i], InsertAll(rest[1..], ranked));
    }
  }

  lemma {:induction false} InsertAllPermuted(xs: seq<Candidate>, ys: seq<Candidate>, ranked: seq<Candidate>)
    requires multiset(xs) == multiset(ys) && DistinctNodes(ys)
    ensures InsertAll(xs, ranked) == InsertAll(ys, ranked)
  {
    if xs == [] {
      assert |multiset(ys)| == 0;
    } else {
      var i := RemoveOne(xs, ys);
      PullFront(ys, i, ranked);
      InsertAllPermuted(xs[1..], Without(ys, i), ranked);
    }
  }
}
