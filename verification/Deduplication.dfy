/** Dropping later duplicates of a key from a list. */
module Deduplication {

  predicate Seen<T>(cs: seq<T>, key: T -> string, k: string) {
    exists i :: 0 <= i < |cs| && key(cs[i]) == k
  }

  /** The elements whose key has not come up before. */
  function Firsts<T>(cs: seq<T>, key: T -> string): (r: seq<T>)
    ensures |r| <= |cs|
  {
    if cs == [] then []
    else
      var before, c := Firsts(cs[..|cs| - 1], key), cs[|cs| - 1];
      if Seen(before, key, key(c)) then before else before + [c]
  }

  lemma SeenOneMore<T>(cs: seq<T>, key: T -> string, c: T, k: string)
    ensures Seen(cs + [c], key, k) <==> Seen(cs, key, k) || k == key(c)
  {
    assert (cs + [c])[|cs|] == c;
    if Seen(cs, key, k) {
      var i :| 0 <= i < |cs| && key(cs[i]) == k;
      assert (cs + [c])[i] == cs[i];
    }
  }

  /** More elements only add to the end. */
  lemma {:induction false} FirstsGrow<T>(cs: seq<T>, key: T -> string, k: nat)
    requires k <= |cs|
    ensures Firsts(cs[..k], key) <= Firsts(cs, key)
  {
    if k < |cs| {
      var init := cs[..|cs| - 1];
      FirstsGrow(init, key, k);
      assert init[..k] == cs[..k];
    } else {
      assert cs[..k] == cs;
    }
  }

  ghost predicate DistinctKeys<T>(cs: seq<T>, key: T -> string) {
    forall i, j :: 0 <= i < j < |cs| ==> key(cs[i]) != key(cs[j])
  }

  lemma {:induction false} FirstsDistinct<T>(cs: seq<T>, key: T -> string)
    ensures DistinctKeys(Firsts(cs, key), key)
    ensures forall i :: 0 <= i < |Firsts(cs, key)| ==> Firsts(cs, key)[i] in cs
  {
    if cs != [] {
      var init, c := cs[..|cs| - 1], cs[|cs| - 1];
      FirstsDistinct(init, key);
      assert cs == init + [c];
    }
  }

  lemma {:induction false} FirstsCover<T>(cs: seq<T>, key: T -> string, i: nat)
    requires i < |cs|
    ensures Seen(Firsts(cs, key), key, key(cs[i]))
  {
    var init, c := cs[..|cs| - 1], cs[|cs| - 1];
    SeenOneMore(Firsts(init, key), key, c, key(cs[i]));
    if i < |init| {
      FirstsCover(init, key, i);
    }
  }

  /** `at` tells where the elements come from: their places ascend, and each is the first with its key. */
  ghost predicate ComesFrom<T>(out: seq<T>, cs: seq<T>, key: T -> string, at: seq<nat>) {
    && |at| == |out|
    && (forall i :: 0 <= i < |at| ==> at[i] < |cs| && cs[at[i]] == out[i])
    && (forall i, j :: 0 <= i < j < |at| ==> at[i] < at[j])
    && (forall i, m :: 0 <= i < |at| && 0 <= m < at[i] ==> key(cs[m]) != key(out[i]))
  }

  lemma {:induction false} FirstsInOrder<T>(cs: seq<T>, key: T -> string) returns (at: seq<nat>)
    ensures ComesFrom(Firsts(cs, key), cs, key, at)
  {
    if cs == [] {
      at := [];
    } else {
      var init, c := cs[..|cs| - 1], cs[|cs| - 1];
      var before := Firsts(init, key);
      at := FirstsInOrder(init, key);
      assert forall m :: 0 <= m < |init| ==> cs[m] == init[m];
      if !Seen(before, key, key(c)) {
        forall m | 0 <= m < |init|
          ensures key(cs[m]) != key(c)
        {
          FirstsCover(init, key, m);
        }
        at := at + [|init|];
      }
    }
  }

  function AtMost<T>(cs: seq<T>, n: nat): seq<T> {
    if |cs| <= n then cs else cs[..n]
  }

  lemma AtMostShape<T>(head: T, tail: seq<T>, key: T -> string, limit: nat)
    requires limit >= 1
    ensures var out := AtMost(Firsts([head] + tail, key), limit);
            && 1 <= |out| <= limit && out[0] == head && DistinctKeys(out, key)
            && (forall i :: 0 <= i < |out| ==> out[i] == head || out[i] in tail)
            && (|out| < limit ==> forall i :: 0 <= i < |tail| ==> Seen(out, key, key(tail[i])))
  {
    var ordered := [head] + tail;
    FirstsDistinct(ordered, key);
    FirstsGrow(ordered, key, 1);
    assert ordered[..1] == [head];
    assert [head][..0] == [];
    forall i | 0 <= i < |tail|
      ensures Seen(Firsts(ordered, key), key, key(tail[i]))
    {
      assert ordered[i + 1] == tail[i];
      FirstsCover(ordered, key, i + 1);
    }
  }

  method TakeFirsts<T>(ordered: seq<T>, key: T -> string, limit: nat) returns (out: seq<T>)
    requires limit >= 1
    ensures out == AtMost(Firsts(ordered, key), limit)
  {
    var seen: set<string> := {};
    out := [];
    for i := 0 to |ordered|
      invariant out == Firsts(ordered[..i], key) && |out| < limit
      invariant forall k :: k in seen <==> Seen(out, key, k)
    {
      var c := ordered[i];
      assert ordered[..i + 1][..i] == ordered[..i];
      var k := key(c);
      if k !in seen {
        forall other
          ensures Seen(out + [c], key, other) <==> Seen(out, key, other) || other == k
        {
          SeenOneMore(out, key, c, other);
        }
        seen := seen + {k};
        out := out + [c];
        if |out| == limit {
          FirstsGrow(ordered, key, i + 1);
          return;
        }
      }
    }
    assert ordered[..|ordered|] == ordered;
  }
}
