/** Texts at the level of bytes, as Go's `strings` functions see them: each character of a string stands
    for one byte of its UTF-8 form, well-formed or not. */
module Utf8 {
  import opened Text

  predicate ByteIn(s: string, i: nat, lo: int, hi: int) {
    i < |s| && lo <= s[i] as int <= hi
  }

  /** Length of the rune that s begins with; a byte that begins no well-formed rune stands alone. */
  function RuneLen(s: string): (n: nat)
    requires s != ""
    ensures 1 <= n <= |s|
  {
    var b := s[0] as int;
    if 0xC2 <= b <= 0xDF && ByteIn(s, 1, 0x80, 0xBF) then 2
    else if 0xE0 <= b <= 0xEF && ByteIn(s, 1, if b == 0xE0 then 0xA0 else 0x80, if b == 0xED then 0x9F else 0xBF)
            && ByteIn(s, 2, 0x80, 0xBF) then 3
    else if 0xF0 <= b <= 0xF4 && ByteIn(s, 1, if b == 0xF0 then 0x90 else 0x80, if b == 0xF4 then 0x8F else 0xBF)
            && ByteIn(s, 2, 0x80, 0xBF) && ByteIn(s, 3, 0x80, 0xBF) then 4
    else 1
  }

  // ---------------------------------------------------------------- lower case

  /** The lower case of a rune of two bytes or more, as bytes: it need not be as long as the rune. */
  type RuneCase = string -> string

  /** U+FFFD, which takes the place of a byte that belongs to no rune. */
  const REPLACEMENT: string := [0xEF as char, 0xBF as char, 0xBD as char]

  function LowerRune(rune: string, lower: RuneCase): string {
    if |rune| != 1 then lower(rune)
    else if rune[0] as int < 0x80 then [LowerChar(rune[0])]
    else REPLACEMENT
  }

  function LowerBytes(s: string, lower: RuneCase): string {
    if s == "" then "" else LowerRune(s[..RuneLen(s)], lower) + LowerBytes(s[RuneLen(s)..], lower)
  }

  predicate IsAscii(s: string) {
    forall i :: 0 <= i < |s| ==> s[i] as int < 0x80
  }

  lemma Regroup(a: string, b: string, c: string)
    ensures (a + b) + c == a + (b + c)
  {
  }

  /** The first rune of s, given to be h, lowers on its own. */
  lemma LowerFirst(h: string, rest: string, lower: RuneCase)
    requires h != "" && RuneLen(h + rest) == |h|
    ensures LowerBytes(h + rest, lower) == LowerRune(h, lower) + LowerBytes(rest, lower)
  {
    assert (h + rest)[..|h|] == h && (h + rest)[|h|..] == rest;
  }

  /** ASCII in front lowers byte by byte. */
  lemma {:induction false} LowerAsciiFirst(p: string, x: string, lower: RuneCase)
    requires IsAscii(p)
    ensures LowerBytes(p + x, lower) == ToLower(p) + LowerBytes(x, lower)
  {
    hide LowerBytes, RuneLen;
    if p == "" {
      assert p + x == x;
    } else {
      var h := [p[0]];
      LowerAsciiFirst(p[1..], x, lower);
      assert p + x == h + (p[1..] + x);
      AsciiRune(h + (p[1..] + x));
      LowerFirst(h, p[1..] + x, lower);
      assert ToLower(p) == [LowerChar(p[0])] + ToLower(p[1..]);
      Regroup([LowerChar(p[0])], ToLower(p[1..]), LowerBytes(x, lower));
    }
  }

  lemma AsciiRune(s: string)
    requires s != "" && s[0] as int < 0x80
    ensures RuneLen(s) == 1
  {
  }

  /** No rune reaches into what begins with an ASCII byte. */
  lemma RuneStops(x: string, y: string)
    requires x != "" && (y == "" || y[0] as int < 0x80)
    ensures RuneLen(x + y) == RuneLen(x)
  {
    assert forall i :: 0 <= i < |x| ==> (x + y)[i] == x[i];
    assert y != "" ==> (x + y)[|x|] == y[0];
  }

  lemma {:induction false} LowerBeforeAscii(x: string, y: string, lower: RuneCase)
    requires y == "" || y[0] as int < 0x80
    ensures LowerBytes(x + y, lower) == LowerBytes(x, lower) + LowerBytes(y, lower)
  {
    hide RuneLen;
    if x == "" {
      assert x + y == y;
    } else {
      var n := RuneLen(x);
      var h, rest := x[..n], x[n..];
      assert x == h + rest;
      RuneStops(x, y);
      LowerBeforeAscii(rest, y, lower);
      Regroup(h, rest, y);
      LowerFirst(h, rest + y, lower);
      LowerFirst(h, rest, lower);
      Regroup(LowerRune(h, lower), LowerBytes(rest, lower), LowerBytes(y, lower));
    }
  }

  lemma AsciiKeepsLength(s: string, lower: RuneCase)
    requires IsAscii(s)
    ensures |LowerBytes(s, lower)| == |s|
  {
    LowerAsciiFirst(s, "", lower);
    assert s + "" == s;
  }

  // ---------------------------------------------------------------- white space

  predicate AsciiSpace(c: char) {
    9 <= c as int <= 13 || c == ' '
  }

  predicate TwoByteSpace(a: char, b: char) {
    a as int == 0xC2 && (b as int == 0x85 || b as int == 0xA0)
  }

  predicate ThreeByteSpace(a: char, b: char, c: char) {
    var (p, q, r) := (a as int, b as int, c as int);
    || (p == 0xE1 && q == 0x9A && r == 0x80)
    || (p == 0xE2 && q == 0x80 && (0x80 <= r <= 0x8A || r == 0xA8 || r == 0xA9 || r == 0xAF))
    || (p == 0xE2 && q == 0x81 && r == 0x9F)
    || (p == 0xE3 && q == 0x80 && r == 0x80)
  }

  /** Bytes of the white space that s begins with. */
  function SpaceFirst(s: string): (n: nat)
    ensures n <= |s|
  {
    if s != "" && AsciiSpace(s[0]) then 1
    else if |s| >= 2 && TwoByteSpace(s[0], s[1]) then 2
    else if |s| >= 3 && ThreeByteSpace(s[0], s[1], s[2]) then 3
    else 0
  }

  /** Bytes of the white space that s ends with. */
  function SpaceLast(s: string): (n: nat)
    ensures n <= |s|
  {
    if s != "" && AsciiSpace(s[|s| - 1]) then 1
    else if |s| >= 2 && TwoByteSpace(s[|s| - 2], s[|s| - 1]) then 2
    else if |s| >= 3 && ThreeByteSpace(s[|s| - 3], s[|s| - 2], s[|s| - 1]) then 3
    else 0
  }

  function TrimFirst(s: string): (t: string)
    ensures |t| <= |s| && SpaceFirst(t) == 0
    ensures t == s[|s| - |t|..]
  {
    if SpaceFirst(s) == 0 then s else TrimFirst(s[SpaceFirst(s)..])
  }

  function TrimLast(s: string): (t: string)
    ensures t <= s && SpaceLast(t) == 0
    ensures SpaceLast(s) == 0 ==> t == s
  {
    if SpaceLast(s) == 0 then s else TrimLast(s[..|s| - SpaceLast(s)])
  }

  function TrimBytes(s: string): (t: string)
    ensures |t| <= |s|
    ensures SpaceFirst(s) == 0 && SpaceLast(s) == 0 ==> t == s
  {
    TrimLast(TrimFirst(s))
  }

  /** What starts with a tag has no white space before it, and a tag's end hides none behind it. */
  lemma SolidEnds(y: string, z: string)
    requires z != "" && SpaceLast(z) == 0
    ensures SpaceLast(y + ">" + z) == 0
  {
    var s := y + ">" + z;
    assert s[|s| - 1] == z[|z| - 1] && s[|y|] == '>';
    assert |z| >= 2 ==> s[|s| - 2] == z[|z| - 2];
    assert |z| >= 3 ==> s[|s| - 3] == z[|z| - 3];
    assert |z| == 1 ==> s[|s| - 2] == '>';
    assert |z| == 2 ==> s[|s| - 3] == '>';
  }

  lemma {:induction false} TrimFirstKeepsTag(y: string, z: string)
    ensures |TrimFirst(y + ">" + z)| > |z|
  {
    var s := y + ">" + z;
    var n := SpaceFirst(s);
    assert s[|y|] == '>';
    assert n <= |y|;
    if n > 0 {
      assert s[n..] == y[n..] + ">" + z;
      TrimFirstKeepsTag(y[n..], z);
    }
  }

  /** White space is not taken off past a closing bracket. */
  lemma TrimKeepsTag(y: string, z: string)
    requires z != "" && SpaceLast(z) == 0
    ensures |TrimBytes(y + ">" + z)| > |z|
  {
    hide TrimFirst, TrimLast, SpaceFirst, SpaceLast;
    var s := y + ">" + z;
    TrimFirstKeepsTag(y, z);
    var t := TrimFirst(s);
    TailHoldsTag(y, z, |s| - |t|);
    SolidEnds(y[|s| - |t|..], z);
  }

  lemma TailHoldsTag(y: string, z: string, k: nat)
    requires k <= |y|
    ensures (y + ">" + z)[k..] == y[k..] + ">" + z
  {
  }

  // ---------------------------------------------------------------- against the encoding itself

  /** The UTF-8 form of a character of the Basic Multilingual Plane. */
  function Encode(c: char): string
    requires c as int < 0x1_0000
  {
    var n := c as int;
    if n < 0x80 then [c]
    else if n < 0x800 then [(0xC0 + n / 64) as char, (0x80 + n % 64) as char]
    else [(0xE0 + n / 4096) as char, (0x80 + n / 64 % 64) as char, (0x80 + n % 64) as char]
  }

  /** A rune is as long as its encoding, whatever follows. */
  lemma RunesAreEncoded(c: char, rest: string)
    requires c as int < 0x1_0000
    ensures RuneLen(Encode(c) + rest) == |Encode(c)|
  {
    var s, e := Encode(c) + rest, Encode(c);
    assert s[0] == e[0] && (|e| > 1 ==> s[1] == e[1]) && (|e| > 2 ==> s[2] == e[2]);
  }

  /** What is taken off the front is white space in the sense of `unicode.IsSpace`, encoded, and only that. */
  lemma SpacesInFront(c: char, rest: string)
    requires c as int < 0x1_0000
    ensures SpaceFirst(Encode(c) + rest) == if IsSpace(c) then |Encode(c)| else 0
  {
    var s, e := Encode(c) + rest, Encode(c);
    assert s[0] == e[0] && (|e| > 1 ==> s[1] == e[1]) && (|e| > 2 ==> s[2] == e[2]);
  }

  /** The same at the end. */
  lemma SpacesBehind(rest: string, c: char)
    requires c as int < 0x1_0000
    ensures SpaceLast(rest + Encode(c)) == if IsSpace(c) then |Encode(c)| else 0
  {
    var s, e := rest + Encode(c), Encode(c);
    var n := |s|;
    assert s[n - 1] == e[|e| - 1] && (|e| > 1 ==> s[n - 2] == e[|e| - 2]) && (|e| > 2 ==> s[n - 3] == e[0]);
  }
}
