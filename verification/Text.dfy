/** String operations of the Go standard library that the rest of the model uses.
    Letter case is ASCII only; white space is the Unicode `White_Space` set of `unicode.IsSpace`. */
module Text {

  predicate IsSpace(c: char) {
    var n := c as int;
    || 9 <= n <= 13 || n == 32 || n == 0x85 || n == 0xA0 || n == 0x1680
    || 0x2000 <= n <= 0x200A || n == 0x2028 || n == 0x2029 || n == 0x202F || n == 0x205F || n == 0x3000
  }

  function LowerChar(c: char): char {
    if 'A' <= c <= 'Z' then (c as int + 32) as char else c
  }

  function ToLower(s: string): (t: string)
    ensures |t| == |s|
  {
    seq(|s|, i requires 0 <= i < |s| => LowerChar(s[i]))
  }

  /** Exactly the twenty-six capitals change, and by thirty-two. */
  lemma LowerIs(s: string, i: nat)
    requires i < |s|
    ensures ToLower(s)[i] as int == s[i] as int + if 0x41 <= s[i] as int <= 0x5A then 0x20 else 0
  {
  }

  predicate EqualFold(a: string, b: string) {
    ToLower(a) == ToLower(b)
  }

  function TrimLeft(s: string): (t: string)
    ensures |t| <= |s| && (|t| == |s| ==> t == s)
    ensures t != "" ==> !IsSpace(t[0])
    ensures t == s <==> (s == "" || !IsSpace(s[0]))
  {
    if s != "" && IsSpace(s[0]) then TrimLeft(s[1..]) else s
  }

  function TrimRight(s: string): (t: string)
    ensures t <= s
    ensures t != "" ==> !IsSpace(t[|t| - 1])
    ensures t == s <==> (s == "" || !IsSpace(s[|s| - 1]))
  {
    if s != "" && IsSpace(s[|s| - 1]) then TrimRight(s[..|s| - 1]) else s
  }

  /** No white space at either end. */
  predicate Trimmed(s: string) {
    s == "" || (!IsSpace(s[0]) && !IsSpace(s[|s| - 1]))
  }

  function TrimSpace(s: string): (t: string)
    ensures Trimmed(t)
    ensures |t| <= |s| && (|t| == |s| ==> t == s)
    ensures t == s <==> Trimmed(s)
  {
    TrimRight(TrimLeft(s))
  }

  function TrimPrefix(s: string, p: string): string {
    if p <= s then s[|p|..] else s
  }

  predicate Contains(s: string, sub: string) {
    if sub <= s then true else s != "" && Contains(s[1..], sub)
  }

  /** Position of the first occurrence of sub, or -1. */
  function Index(s: string, sub: string): (i: int)
    ensures -1 <= i
    ensures i >= 0 ==> i + |sub| <= |s| && s[i..i + |sub|] == sub
  {
    if sub <= s then 0
    else if s == "" then -1
    else
      var i := Index(s[1..], sub);
      if i < 0 then -1 else i + 1
  }

  predicate OccursAt(s: string, sub: string, i: int) {
    0 <= i && i + |sub| <= |s| && s[i..i + |sub|] == sub
  }

  /** Index finds the first occurrence, and is negative exactly when there is none. */
  lemma {:induction false} IndexIsFirst(s: string, sub: string)
    ensures Index(s, sub) >= 0 ==> OccursAt(s, sub, Index(s, sub))
    ensures forall i :: OccursAt(s, sub, i) ==> 0 <= Index(s, sub) <= i
  {
    if !(sub <= s) && s != "" {
      IndexIsFirst(s[1..], sub);
      forall i | OccursAt(s, sub, i)
        ensures OccursAt(s[1..], sub, i - 1)
      {
        assert i > 0 && s[1..][i - 1..i - 1 + |sub|] == s[i..i + |sub|];
      }
    }
  }

  lemma {:induction false} ContainsIff(s: string, sub: string)
    ensures Contains(s, sub) <==> exists i :: OccursAt(s, sub, i)
  {
    IndexIsFirst(s, sub);
    ContainsIndex(s, sub);
  }

  lemma {:induction false} ContainsIndex(s: string, sub: string)
    ensures Contains(s, sub) <==> Index(s, sub) >= 0
  {
    if s != "" {
      ContainsIndex(s[1..], sub);
    }
  }

  /** Where something is first found does not depend on what follows. */
  lemma {:induction false} IndexWithMore(s: string, more: string, sub: string)
    requires Index(s, sub) >= 0
    ensures Index(s + more, sub) == Index(s, sub)
  {
    assert |sub| <= |s| && (s + more)[..|sub|] == s[..|sub|];
    if !(sub <= s) {
      IndexWithMore(s[1..], more, sub);
      assert (s + more)[1..] == s[1..] + more;
    }
  }

  /** A prefix in which nothing begins only shifts the place. */
  lemma IndexPastPrefix(p: string, x: string, sub: string)
    requires Index(x, sub) >= 0 && forall k :: 0 <= k < |p| ==> !(sub <= (p + x)[k..])
    ensures Index(p + x, sub) == |p| + Index(x, sub)
  {
    hide Index;
    IndexIsFirst(x, sub);
    IndexIsFirst(p + x, sub);
    OccursPast(p, x, sub, Index(x, sub));
    var i := Index(p + x, sub);
    PrefixThere(p + x, sub, i);
    OccursPast(p, x, sub, i - |p|);
  }

  lemma PrefixThere(s: string, sub: string, i: int)
    requires OccursAt(s, sub, i)
    ensures sub <= s[i..]
  {
  }

  lemma OccursPast(p: string, x: string, sub: string, i: int)
    requires i >= 0
    ensures OccursAt(p + x, sub, |p| + i) <==> OccursAt(x, sub, i)
  {
    if i + |sub| <= |x| {
      assert (p + x)[|p| + i..|p| + i + |sub|] == x[i..i + |sub|];
    }
  }

  /** Position of the last occurrence of c, or -1. */
  function LastIndex(s: string, c: char): (i: int)
    ensures -1 <= i < |s|
    ensures i >= 0 ==> s[i] == c
    ensures forall k :: i < k < |s| ==> s[k] != c
  {
    if s == "" then -1
    else if s[|s| - 1] == c then |s| - 1
    else LastIndex(s[..|s| - 1], c)
  }

  /** Byte-wise lexicographic order, as Go's `<` on strings. */
  predicate Less(a: string, b: string) {
    if b == "" then false
    else if a == "" then true
    else a[0] < b[0] || (a[0] == b[0] && Less(a[1..], b[1..]))
  }

  /** a comes first where they part at k. */
  predicate PartAt(a: string, b: string, k: nat) {
    k < |a| && k < |b| && a[..k] == b[..k] && a[k] < b[k]
  }

  /** It is the order of the dictionary: a proper prefix, or the smaller character at the first difference. */
  lemma {:induction false} LessIff(a: string, b: string)
    ensures Less(a, b) <==> (a <= b && a != b) || exists k: nat :: PartAt(a, b, k)
  {
    if a != "" && b != "" && a[0] == b[0] {
      LessIff(a[1..], b[1..]);
      if k: nat :| PartAt(a, b, k) {
        assert k > 0 && a[1..][..k - 1] == a[..k][1..] == b[..k][1..] == b[1..][..k - 1];
        assert PartAt(a[1..], b[1..], k - 1);
      }
      if k: nat :| PartAt(a[1..], b[1..], k) {
        assert a[..k + 1] == [a[0]] + a[1..][..k] && b[..k + 1] == [b[0]] + b[1..][..k];
        assert PartAt(a, b, k + 1);
      }
      if a[1..] == b[1..] {
        assert a == [a[0]] + a[1..] && b == [b[0]] + b[1..];
      }
    } else if a != "" && b != "" && a[0] < b[0] {
      assert PartAt(a, b, 0);
    }
  }

  lemma {:induction false} LessIrreflexive(a: string)
    ensures !Less(a, a)
  {
    if a != "" {
      LessIrreflexive(a[1..]);
    }
  }

  lemma {:induction false} LessTransitive(a: string, b: string, c: string)
    requires Less(a, b) && Less(b, c)
    ensures Less(a, c)
  {
    if a != "" && a[0] == b[0] && b[0] == c[0] {
      LessTransitive(a[1..], b[1..], c[1..]);
    }
  }

  lemma {:induction false} LessTotal(a: string, b: string)
    ensures Less(a, b) || Less(b, a) || a == b
  {
    if a != "" && b != "" && a[0] == b[0] {
      LessTotal(a[1..], b[1..]);
      if a[1..] == b[1..] {
        assert a == [a[0]] + a[1..];
      }
    }
  }
}
