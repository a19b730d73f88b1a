/** Telling a model's reasoning preamble from its answer (internal/routerchat/service.go). Texts are byte
    strings: the tags are looked for in the lower-cased reply and cut out of the reply itself. */
module Reasoning {
  import opened Text
  import opened Utf8
  import opened ModelIdentity

  /** What becomes of a reply: taken apart, or a slice out of range. */
  datatype Fold = Crash | Reply(answer: string, thought: string)

  const OPENING := "<think>"
  const CLOSING := "</think>"

  /** Go's slice expression, None where it would panic. */
  function Slice(s: string, lo: int, hi: int): Option<string> {
    if 0 <= lo <= hi <= |s| then Some(s[lo..hi]) else None
  }

  /** The reply with its tags taken to begin at `start` and `end`. */
  function CutAt(trimmed: string, start: int, end: int): Fold {
    var thought := Slice(trimmed, start + |OPENING|, end);
    var before, after := Slice(trimmed, 0, start), Slice(trimmed, end + |CLOSING|, |trimmed|);
    if thought.None? || before.None? || after.None? then Crash
    else
      var answer := TrimBytes(before.value + after.value);
      if answer == "" then Reply(trimmed, "") else Reply(answer, TrimBytes(thought.value))
  }

  /** The trimmed reply cut where the tags are found in its lower case. */
  function SplitAgainst(trimmed: string, lowered: string): Fold {
    var start, end := Index(lowered, OPENING), Index(lowered, CLOSING);
    if start < 0 || end < 0 || end < start then Reply(trimmed, "") else CutAt(trimmed, start, end)
  }

  function SplitThink(text: string, lower: RuneCase): Fold {
    var trimmed := TrimBytes(text);
    SplitAgainst(trimmed, LowerBytes(trimmed, lower))
  }

  // ---------------------------------------------------------------- when the slices are in range

  /** The closing tag cannot begin inside the opening one. */
  lemma TagsDoNotOverlap(s: string, start: nat, end: nat)
    requires start <= end && start + 7 <= |s| && end + 8 <= |s|
    requires s[start..start + 7] == OPENING && s[end..end + 8] == CLOSING
    ensures start + 7 <= end
  {
    var open, close := s[start..start + 7], s[end..end + 8];
    assert s[end] == close[0] == '<' && s[end + 1] == close[1] == '/' && s[start + 1] == open[1] == 't';
    assert forall d :: 1 <= d < 7 ==> s[start + d] == open[d] != '<';
    assert end == start + (end - start);
  }

  /** Both tags are there, the opening one first. */
  predicate HasPreamble(lowered: string) {
    0 <= Index(lowered, OPENING) <= Index(lowered, CLOSING)
  }

  /** The slices are out of range exactly when the closing tag, as found in the lower case, ends behind
      the reply itself. */
  lemma CrashesIff(trimmed: string, lowered: string)
    ensures SplitAgainst(trimmed, lowered).Crash? <==> HasPreamble(lowered) && Index(lowered, CLOSING) + 8 > |trimmed|
  {
    if HasPreamble(lowered) {
      TagsDoNotOverlap(lowered, Index(lowered, OPENING), Index(lowered, CLOSING));
    }
  }

  /** So never where lower-casing does not lengthen the reply, as with ASCII. */
  lemma NeverLongerNeverCrashes(text: string, lower: RuneCase)
    requires |LowerBytes(TrimBytes(text), lower)| <= |TrimBytes(text)| || IsAscii(TrimBytes(text))
    ensures !SplitThink(text, lower).Crash?
  {
    var trimmed := TrimBytes(text);
    if IsAscii(trimmed) {
      AsciiKeepsLength(trimmed, lower);
    }
    CrashesIff(trimmed, LowerBytes(trimmed, lower));
  }

  /** Folding the reasoning away never swallows the reply: short of a crash, the answer is blank only if
      the text was. */
  lemma AnswerSurvives(text: string, lower: RuneCase)
    ensures var r := SplitThink(text, lower); r.Reply? ==> (r.answer == "" <==> TrimBytes(text) == "")
  {
  }

  // ---------------------------------------------------------------- a preamble in front of an answer

  function Tagged(thought: string, answer: string): string {
    OPENING + (thought + (CLOSING + answer))
  }

  lemma LowerAround(open: string, thought: string, close: string, answer: string, lower: RuneCase)
    requires IsAscii(open) && IsAscii(close) && close != ""
    ensures LowerBytes(open + (thought + (close + answer)), lower) ==
            ToLower(open) + ((LowerBytes(thought, lower) + ToLower(close)) + LowerBytes(answer, lower))
  {
    var x := close + answer;
    LowerAsciiFirst(open, thought + x, lower);
    LowerBeforeAscii(thought, x, lower);
    LowerAsciiFirst(close, answer, lower);
    Regroup(LowerBytes(thought, lower), ToLower(close), LowerBytes(answer, lower));
  }

  lemma LowerTagged(thought: string, answer: string, lower: RuneCase)
    ensures LowerBytes(Tagged(thought, answer), lower) ==
            OPENING + ((LowerBytes(thought, lower) + CLOSING) + LowerBytes(answer, lower))
  {
    LowerAround(OPENING, thought, CLOSING, answer, lower);
    TagsAreLower();
  }

  lemma TagsAreLower()
    ensures ToLower(OPENING) == OPENING && ToLower(CLOSING) == CLOSING
  {
  }

  /** Past the opening tag: no closing tag can begin in it. */
  lemma IndexPastOpening(x: string)
    requires Index(x, CLOSING) >= 0
    ensures Index(OPENING + x, CLOSING) == 7 + Index(x, CLOSING)
  {
    forall k | 0 <= k < |OPENING|
      ensures !(CLOSING <= (OPENING + x)[k..])
    {
      var rest := (OPENING + x)[k..];
      assert rest[0] == OPENING[k] && rest[1] == (OPENING + x)[k + 1];
      assert CLOSING[0] == '<' && CLOSING[1] == '/' && OPENING[1] == 't';
      assert rest[0] != CLOSING[0] || rest[1] != CLOSING[1];
    }
    IndexPastPrefix(OPENING, x, CLOSING);
  }

  /** The thought does not bring a closing tag of its own. */
  predicate NoEarlyClosing(thought: string, lower: RuneCase) {
    Index(LowerBytes(thought, lower) + CLOSING, CLOSING) == |LowerBytes(thought, lower)|
  }

  /** Where the tags of such a text are found. */
  lemma TagsFound(thought: string, answer: string, lower: RuneCase)
    requires NoEarlyClosing(thought, lower)
    ensures var lowered := LowerBytes(Tagged(thought, answer), lower);
            Index(lowered, OPENING) == 0 && Index(lowered, CLOSING) == 7 + |LowerBytes(thought, lower)|
  {
    var low := LowerBytes(thought, lower);
    LowerTagged(thought, answer, lower);
    IndexWithMore(low + CLOSING, LowerBytes(answer, lower), CLOSING);
    IndexPastOpening((low + CLOSING) + LowerBytes(answer, lower));
  }

  /** An answer without white space around it. */
  predicate Solid(answer: string) {
    answer != "" && SpaceFirst(answer) == 0 && SpaceLast(answer) == 0
  }

  lemma StartsSolid(text: string)
    requires text != "" && text[0] == '<'
    ensures SpaceFirst(text) == 0
  {
  }

  lemma TaggedEnds(thought: string, answer: string)
    ensures Tagged(thought, answer) == (OPENING + (thought + "</think")) + ">" + answer
    ensures |Tagged(thought, answer)| == |thought| + |answer| + 15
  {
    assert CLOSING == "</think" + ">";
  }

  lemma TaggedIsTrimmed(thought: string, answer: string)
    requires Solid(answer)
    ensures TrimBytes(Tagged(thought, answer)) == Tagged(thought, answer)
  {
    var text := Tagged(thought, answer);
    TaggedEnds(thought, answer);
    SolidEnds(OPENING + (thought + "</think"), answer);
    assert text[0] == '<';
    StartsSolid(text);
  }

  /** What is behind the closing tag when it is taken to end n bytes into the thought. */
  lemma TailTooEarly(thought: string, answer: string, n: nat)
    requires n < |thought| && n + 15 <= |Tagged(thought, answer)|
    ensures Tagged(thought, answer)[n + 15..] == (thought + "</think")[n + 8..] + ">" + answer
  {
    TaggedEnds(thought, answer);
    var x := thought + "</think";
    assert (OPENING + x)[n + 15..] == x[n + 8..];
  }

  lemma CutBehind(thought: string, answer: string, n: nat)
    requires Solid(answer) && n + 15 <= |Tagged(thought, answer)|
    ensures var rest := TrimBytes(Tagged(thought, answer)[n + 15..]);
            if n == |thought| then rest == answer else |rest| != |answer|
  {
    TaggedEnds(thought, answer);
    if n == |thought| {
      assert Tagged(thought, answer)[n + 15..] == answer;
    } else if n < |thought| {
      TailTooEarly(thought, answer, n);
      TrimKeepsTag((thought + "</think")[n + 8..], answer);
    }
  }

  lemma ThoughtBetween(thought: string, answer: string)
    ensures |Tagged(thought, answer)| >= 7 + |thought| && Tagged(thought, answer)[7..7 + |thought|] == thought
  {
  }

  /** The cut when the tags are found at 0 and 7 + n. */
  lemma CutFromStart(text: string, n: nat)
    requires |text| >= 7
    ensures CutAt(text, 0, 7 + n) ==
            if n + 15 > |text| then Crash
            else if TrimBytes(text[n + 15..]) == "" then Reply(text, "")
            else Reply(TrimBytes(text[n + 15..]), TrimBytes(text[7..7 + n]))
  {
    hide TrimBytes;
    if n + 15 <= |text| {
      assert text[0..0] + text[n + 15..|text|] == text[n + 15..];
    }
  }

  lemma SplitsFound(text: string, lower: RuneCase, n: nat)
    requires TrimBytes(text) == text
    requires Index(LowerBytes(text, lower), OPENING) == 0 && Index(LowerBytes(text, lower), CLOSING) == 7 + n
    ensures SplitThink(text, lower) == CutAt(text, 0, 7 + n)
  {
  }

  lemma SplitsThere(text: string, thought: string, answer: string, lower: RuneCase)
    requires Solid(answer) && NoEarlyClosing(thought, lower) && text == Tagged(thought, answer)
    ensures SplitThink(text, lower) == CutAt(text, 0, 7 + |LowerBytes(thought, lower)|)
  {
    hide *;
    TaggedIsTrimmed(thought, answer);
    TagsFound(thought, answer, lower);
    SplitsFound(text, lower, |LowerBytes(thought, lower)|);
  }

  /** A preamble in tags comes apart from the answer that follows it exactly when lower-casing keeps the
      length of the thought, and the program crashes exactly when it lengthens it by more than the answer. */
  lemma PreambleComesApartIff(thought: string, answer: string, lower: RuneCase)
    requires Solid(answer) && NoEarlyClosing(thought, lower)
    ensures var r, n := SplitThink(Tagged(thought, answer), lower), |LowerBytes(thought, lower)|;
            && (r == Reply(answer, TrimBytes(thought)) <==> n == |thought|)
            && (r.Crash? <==> n > |thought| + |answer|)
  {
    hide *;
    var n := |LowerBytes(thought, lower)|;
    SplitsThere(Tagged(thought, answer), thought, answer, lower);
    CutTagged(thought, answer, n);
  }

  lemma CutTagged(thought: string, answer: string, n: nat)
    requires Solid(answer)
    ensures var r := CutAt(Tagged(thought, answer), 0, 7 + n);
            && (r == Reply(answer, TrimBytes(thought)) <==> n == |thought|)
            && (r.Crash? <==> n > |thought| + |answer|)
  {
    var text := Tagged(thought, answer);
    TaggedEnds(thought, answer);
    CutFromStart(text, n);
    if n <= |thought| + |answer| {
      CutBehind(thought, answer, n);
      ThoughtBetween(thought, answer);
    }
  }

  // ---------------------------------------------------------------- replies for which it goes wrong

  const A_STROKE: string := [0xC8 as char, 0xBA as char]
  const SMALL_A_STROKE: string := [0xE2 as char, 0xB1 as char, 0xA5 as char]
  const KELVIN: string := [0xE2 as char, 0x84 as char, 0xAA as char]

  lemma LowerOne(rune: string, lower: RuneCase)
    requires |rune| >= 2 && RuneLen(rune) == |rune|
    ensures LowerBytes(rune, lower) == lower(rune)
  {
    LowerFirst(rune, "", lower);
    assert rune + "" == rune;
  }

  lemma LowerTwice(lower: RuneCase)
    requires lower(A_STROKE) == SMALL_A_STROKE
    ensures LowerBytes(A_STROKE + A_STROKE, lower) == SMALL_A_STROKE + SMALL_A_STROKE
  {
    hide LowerBytes;
    LowerOne(A_STROKE, lower);
    LowerFirst(A_STROKE, A_STROKE, lower);
  }

  /** Two letters U+023A, whose lower case U+2C65 is longer, and a short answer: out of range. */
  lemma LongerLowerCaseCrashes(lower: RuneCase)
    requires lower(A_STROKE) == SMALL_A_STROKE
    ensures SplitThink(Tagged(A_STROKE + A_STROKE, "x"), lower) == Crash
  {
    hide SplitThink, Tagged, LowerBytes;
    LowerTwice(lower);
    NotBefore(SMALL_A_STROKE + SMALL_A_STROKE);
    PreambleComesApartIff(A_STROKE + A_STROKE, "x", lower);
  }

  /** A Kelvin sign, whose lower case is a plain k: the answer is cut two bytes too early. */
  lemma ShorterLowerCaseMiscuts(lower: RuneCase)
    requires lower(KELVIN) == "k"
    ensures SplitThink(Tagged(KELVIN, "x"), lower) == Reply("k>x", [0xE2 as char])
  {
    hide SplitThink, Tagged, LowerBytes, CutAt, TrimBytes;
    LowerOne(KELVIN, lower);
    NotBefore("k");
    SplitsThere(Tagged(KELVIN, "x"), KELVIN, "x", lower);
    TaggedEnds(KELVIN, "x");
    CutFromStart(Tagged(KELVIN, "x"), 1);
    TailTooEarly(KELVIN, "x", 1);
    KelvinCut();
    KelvinCutOff();
  }

  lemma KelvinCutOff()
    ensures Tagged(KELVIN, "x")[7..8] == [0xE2 as char]
  {
    var rest := KELVIN + (CLOSING + "x");
    assert (OPENING + rest)[7] == rest[0];
  }

  lemma KelvinCut()
    ensures (KELVIN + "</think")[9..] + ">" + "x" == "k>x" && TrimBytes("k>x") == "k>x"
    ensures TrimBytes([0xE2 as char]) == [0xE2 as char]
  {
    assert (KELVIN + "</think")[9..] == "k";
    assert SpaceFirst("k>x") == 0 && SpaceLast("k>x") == 0;
    assert SpaceFirst([0xE2 as char]) == 0 && SpaceLast([0xE2 as char]) == 0;
  }

  lemma {:induction false} NotBefore(low: string)
    requires '<' !in low
    ensures Index(low + CLOSING, CLOSING) == |low|
  {
    if low == "" {
      assert low + CLOSING == CLOSING;
    } else {
      NotBefore(low[1..]);
      assert (low + CLOSING)[1..] == low[1..] + CLOSING;
      assert (low + CLOSING)[0] == low[0] && CLOSING[0] == '<';
    }
  }
}
