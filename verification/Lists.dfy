/** Sequences: concatenated images, and lists that hold the same elements. */
module Lists {

  function FlatMap<T, U>(xs: seq<T>, f: T -> seq<U>): seq<U> {
    if xs == [] then [] else FlatMap(xs[..|xs| - 1], f) + f(xs[|xs| - 1])
  }

  lemma FlatMapStep<T, U>(xs: seq<T>, k: nat, f: T -> seq<U>)
    requires k < |xs|
    ensures FlatMap(xs[..k + 1], f) == FlatMap(xs[..k], f) + f(xs[k])
  {
    assert xs[..k + 1][..k] == xs[..k];
  }

  lemma {:induction false} FlatMapMembers<T, U>(xs: seq<T>, f: T -> seq<U>, u: U)
    ensures u in FlatMap(xs, f) <==> exists x :: x in xs && u in f(x)
  {
    if xs != [] {
      var init, last := xs[..|xs| - 1], xs[|xs| - 1];
      FlatMapMembers(init, f, u);
      assert xs == init + [last];
    }
  }

  lemma {:induction false} FlatMapAppend<T, U>(a: seq<T>, b: seq<T>, f: T -> seq<U>)
    ensures FlatMap(a + b, f) == FlatMap(a, f) + FlatMap(b, f)
  {
    if b == [] {
      assert a + b == a;
    } else {
      var init := b[..|b| - 1];
      FlatMapAppend(a, init, f);
      assert (a + b)[..|a + b| - 1] == a + init;
    }
  }

  lemma {:induction false} FlatMapCongruent<T, U>(xs: seq<T>, f: T -> seq<U>, g: T -> seq<U>)
    requires forall x :: x in xs ==> f(x) == g(x)
    ensures FlatMap(xs, f) == FlatMap(xs, g)
  {
    if xs != [] {
      assert forall x :: x in xs[..|xs| - 1] ==> x in xs;
      FlatMapCongruent(xs[..|xs| - 1], f, g);
    }
  }

  /** s without its element i. */
  function Without<T>(s: seq<T>, i: nat): seq<T>
    requires i < |s|
  {
    s[..i] + s[i + 1..]
  }

  lemma RemoveOne<T>(xs: seq<T>, ys: seq<T>) returns (i: nat)
    requires xs != [] && multiset(xs) == multiset(ys)
    ensures i < |ys| && ys[i] == xs[0]
    ensures multiset(xs[1..]) == multiset(Without(ys, i))
  {
    assert xs == [xs[0]] + xs[1..];
    assert xs[0] in multiset(ys);
    i :| 0 <= i < |ys| && ys[i] == xs[0];
    assert ys == ys[..i] + ([ys[i]] + ys[i + 1..]);
    assert multiset(Without(ys, i)) == multiset(ys) - multiset{ys[i]};
    assert multiset(xs[1..]) == multiset(xs) - multiset{xs[0]};
  }

  lemma FlatMapOne<T, U>(x: T, f: T -> seq<U>)
    ensures FlatMap([x], f) == f(x)
  {
    assert [x][..0] == [];
    assert [] + f(x) == f(x);
  }

  lemma FlatMapInsert<T, U>(front: seq<T>, x: T, back: seq<T>, f: T -> seq<U>)
    ensures FlatMap(front + ([x] + back), f) == FlatMap(front, f) + (f(x) + FlatMap(back, f))
  {
    FlatMapOne(x, f);
    FlatMapAppend([x], back, f);
    FlatMapAppend(front, [x] + back, f);
  }

  lemma MiddleOut<U>(a: seq<U>, b: seq<U>, c: seq<U>)
    ensures multiset(a + (b + c)) == multiset(b) + multiset(a + c)
  {
  }

  lemma FlatMapSplit<T, U>(xs: seq<T>, i: nat, f: T -> seq<U>)
    requires i < |xs|
    ensures multiset(FlatMap(xs, f)) == multiset(f(xs[i])) + multiset(FlatMap(Without(xs, i), f))
  {
    var front, back := xs[..i], xs[i + 1..];
    assert xs == front + ([xs[i]] + back);
    FlatMapInsert(front, xs[i], back, f);
    FlatMapAppend(front, back, f);
    MiddleOut(FlatMap(front, f), f(xs[i]), FlatMap(back, f));
  }

  lemma {:induction false} FlatMapPermuted<T, U>(a: seq<T>, b: seq<T>, f: T -> seq<U>)
    requires multiset(a) == multiset(b)
    ensures multiset(FlatMap(a, f)) == multiset(FlatMap(b, f))
  {
    if a == [] {
      assert |multiset(b)| == 0;
    } else {
      var i := RemoveOne(a, b);
      FlatMapPermuted(a[1..], Without(b, i), f);
      FlatMapSplit(a, 0, f);
      FlatMapSplit(b, i, f);
      assert Without(a, 0) == a[1..];
    }
  }
}
