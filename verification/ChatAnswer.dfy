/** The shape of an answer stream, and the chat completion collected from it
    (internal/routerchat/service.go, internal/routeropenai/openai.go). */
module ChatAnswer {
  import opened ModelIdentity
  import opened Catalog
  import opened Routing
  import opened Router
  import opened FailoverOrder
  import opened Utf8
  import opened Reasoning
  import opened Streaming

  // ---------------------------------------------------------------- the grammar of the stream

  function Retries(events: seq<StreamEvent>): nat {
    if events == [] then 0
    else Retries(events[..|events| - 1]) + (if events[|events| - 1].Retry? then 1 else 0)
  }

  /** Deltas and retries only. */
  ghost predicate InProgress(events: seq<StreamEvent>) {
    forall i :: 0 <= i < |events| ==> events[i].Delta? || events[i].Retry?
  }

  lemma {:induction false} RetriesAppend(a: seq<StreamEvent>, b: seq<StreamEvent>)
    ensures Retries(a + b) == Retries(a) + Retries(b)
  {
    if b == [] {
      assert a + b == a;
    } else {
      RetriesAppend(a, b[..|b| - 1]);
      assert (a + b)[..|a + b| - 1] == a + b[..|b| - 1];
    }
  }

  lemma {:induction false} DeltasDoNotRetry(texts: seq<string>)
    ensures Retries(DeltaEvents(texts)) == 0 && InProgress(DeltaEvents(texts))
  {
    if texts != [] {
      DeltasDoNotRetry(texts[..|texts| - 1]);
      assert DeltaEvents(texts)[..|texts| - 1] == DeltaEvents(texts[..|texts| - 1]);
    }
  }

  lemma AttemptRetries(c: Candidate, a: Attempt, streaming: bool, k: nat, lastErr: string)
    ensures var seen := AttemptEvents(c, a, streaming, k, lastErr);
            InProgress(seen) && Retries(seen) == if k > 0 then 1 else 0
  {
    var retry := if k > 0 then [Retry(EntryRef(c.entry), lastErr)] else [];
    DeltasDoNotRetry(DeltasOf(a, streaming));
    RetriesAppend(retry, DeltaEvents(DeltasOf(a, streaming)));
  }

  /** The first attempt that answers before the caller gives up; |cands| when there is none. */
  function Winner(cands: seq<Candidate>, world: nat -> Attempt, k: nat): (w: nat)
    requires k <= |cands|
    ensures k <= w <= |cands|
    ensures w < |cands| ==> world(w).result.Ok? && !world(w).cancelledBefore
    decreases |cands| - k
  {
    if k == |cands| || world(k).cancelledBefore then |cands|
    else if world(k).result.Ok? then k
    else if world(k).cancelledAfter then |cands|
    else Winner(cands, world, k + 1)
  }

  /** A stream without its done event. */
  function Trail(cands: seq<Candidate>, world: nat -> Attempt, streaming: bool, k: nat, lastErr: string): seq<StreamEvent>
    requires k <= |cands|
    decreases |cands| - k
  {
    if k == |cands| || world(k).cancelledBefore then []
    else
      AttemptEvents(cands[k], world(k), streaming, k, lastErr) +
      (if world(k).result.Ok? || world(k).cancelledAfter then []
       else Trail(cands, world, streaming, k + 1, FailureText(cands[k], world(k))))
  }

  /** A stream ends in done, and only there, exactly when an attempt answers and its reply comes apart. */
  lemma {:induction false} StreamIsTrail(finish: Finisher, cands: seq<Candidate>, world: nat -> Attempt, streaming: bool, k: nat, lastErr: string)
    requires k <= |cands|
    ensures var (events, end) := StreamFrom(finish, cands, world, streaming, k, lastErr);
            var w := Winner(cands, world, k);
            && (end.Answered? <==> w < |cands| && finish(cands[w], world(w).result.text, w + 1).Some?)
            && (end.Crashed? <==> w < |cands| && finish(cands[w], world(w).result.text, w + 1).None?)
            && events == Trail(cands, world, streaming, k, lastErr) + Ending(finish, cands, world, w)
    decreases |cands| - k
  {
    if k < |cands| && !world(k).cancelledBefore {
      var seen := AttemptEvents(cands[k], world(k), streaming, k, lastErr);
      assert seen + [] == seen;
      if world(k).result.Err? && !world(k).cancelledAfter {
        var error := FailureText(cands[k], world(k));
        StreamIsTrail(finish, cands, world, streaming, k + 1, error);
        TrailJoins(seen, Trail(cands, world, streaming, k + 1, error), Ending(finish, cands, world, Winner(cands, world, k + 1)));
      }
    }
  }

  /** The done event of attempt w, if there is such an attempt and it gets that far. */
  function Ending(finish: Finisher, cands: seq<Candidate>, world: nat -> Attempt, w: nat): seq<StreamEvent>
    requires w < |cands| ==> world(w).result.Ok?
  {
    if w < |cands| then Alone(finish(cands[w], world(w).result.text, w + 1)) else []
  }

  lemma TrailJoins(seen: seq<StreamEvent>, trail: seq<StreamEvent>, ending: seq<StreamEvent>)
    ensures seen + (trail + ending) == (seen + trail) + ending
  {
  }

  function OwnRetry(k: nat): nat {
    if k > 0 then 1 else 0
  }

  lemma {:induction false} EarlierAttemptsFailed(cands: seq<Candidate>, world: nat -> Attempt, k: nat, i: nat)
    requires k <= |cands| && k <= i < Winner(cands, world, k) < |cands|
    ensures world(i).result.Err? && !world(i).cancelledBefore && !world(i).cancelledAfter
    decreases |cands| - k
  {
    if k < i {
      EarlierAttemptsFailed(cands, world, k + 1, i);
    }
  }

  lemma JoinShapes(seen: seq<StreamEvent>, rest: seq<StreamEvent>)
    requires InProgress(seen) && InProgress(rest)
    ensures InProgress(seen + rest) && Retries(seen + rest) == Retries(seen) + Retries(rest)
  {
    RetriesAppend(seen, rest);
  }

  /** A trail holds deltas and, for every attempt but the first, one retry. */
  lemma {:induction false} TrailShape(cands: seq<Candidate>, world: nat -> Attempt, streaming: bool, k: nat, lastErr: string)
    requires k <= |cands|
    ensures var w, trail := Winner(cands, world, k), Trail(cands, world, streaming, k, lastErr);
            InProgress(trail) && (w < |cands| ==> Retries(trail) == w - k + OwnRetry(k))
    decreases |cands| - k
  {
    if k < |cands| && !world(k).cancelledBefore {
      var a := world(k);
      var seen := AttemptEvents(cands[k], a, streaming, k, lastErr);
      var rest := if a.result.Ok? || a.cancelledAfter then [] else Trail(cands, world, streaming, k + 1, FailureText(cands[k], a));
      AttemptRetries(cands[k], a, streaming, k, lastErr);
      if a.result.Err? && !a.cancelledAfter {
        TrailShape(cands, world, streaming, k + 1, FailureText(cands[k], a));
      }
      JoinShapes(seen, rest);
      assert Trail(cands, world, streaming, k, lastErr) == seen + rest;
    }
  }

  /** When the candidates run out, every one of them was tried and failed. */
  lemma {:induction false} AllTriedBeforeGivingUp(finish: Finisher, cands: seq<Candidate>, world: nat -> Attempt,
                                                       streaming: bool, k: nat, lastErr: string)
    requires k <= |cands|
    ensures StreamFrom(finish, cands, world, streaming, k, lastErr).1.AllFailed? <==>
            forall i :: k <= i < |cands| ==> world(i).result.Err? && !world(i).cancelledBefore && !world(i).cancelledAfter
    decreases |cands| - k
  {
    if k < |cands| && !world(k).cancelledBefore && world(k).result.Err? && !world(k).cancelledAfter {
      AllTriedBeforeGivingUp(finish, cands, world, streaming, k + 1, FailureText(cands[k], world(k)));
    }
  }

  /** What a retry before attempt j says: the model now tried, and why the one before it failed. */
  ghost predicate Tells(e: StreamEvent, cands: seq<Candidate>, world: nat -> Attempt, k: nat, lastErr: string, j: int) {
    && k <= j < |cands| && e.Retry? && e.model == EntryRef(cands[j].entry)
    && if j == k then e.error == lastErr
       else world(j - 1).result.Err? && e.error == EntryRef(cands[j - 1].entry) + ": " + world(j - 1).result.error
  }

  lemma OwnRetryTells(cands: seq<Candidate>, world: nat -> Attempt, streaming: bool, k: nat, lastErr: string, i: nat)
    requires k < |cands| && i < |AttemptEvents(cands[k], world(k), streaming, k, lastErr)|
    requires AttemptEvents(cands[k], world(k), streaming, k, lastErr)[i].Retry?
    ensures Tells(AttemptEvents(cands[k], world(k), streaming, k, lastErr)[i], cands, world, k, lastErr, k)
  {
    DeltasDoNotRetry(DeltasOf(world(k), streaming));
  }

  lemma TellsFromBefore(e: StreamEvent, cands: seq<Candidate>, world: nat -> Attempt, k: nat, lastErr: string, j: int)
    requires k < |cands| && world(k).result.Err? && Tells(e, cands, world, k + 1, FailureText(cands[k], world(k)), j)
    ensures Tells(e, cands, world, k, lastErr, j)
  {
  }

  lemma {:induction false} RetriesTell(cands: seq<Candidate>, world: nat -> Attempt, streaming: bool, k: nat, lastErr: string, i: nat) returns (j: int)
    requires k <= |cands| && i < |Trail(cands, world, streaming, k, lastErr)| && Trail(cands, world, streaming, k, lastErr)[i].Retry?
    ensures Tells(Trail(cands, world, streaming, k, lastErr)[i], cands, world, k, lastErr, j)
    decreases |cands| - k
  {
    hide AttemptEvents, Tells;
    var seen := AttemptEvents(cands[k], world(k), streaming, k, lastErr);
    if i < |seen| {
      OwnRetryTells(cands, world, streaming, k, lastErr, i);
      j := k;
    } else {
      var error := FailureText(cands[k], world(k));
      j := RetriesTell(cands, world, streaming, k + 1, error, i - |seen|);
      TellsFromBefore(Trail(cands, world, streaming, k + 1, error)[i - |seen|], cands, world, k, lastErr, j);
    }
  }

  /** Giving up names the last candidate and its failure. */
  lemma {:induction false} GivingUpTells(finish: Finisher, cands: seq<Candidate>, world: nat -> Attempt, streaming: bool, k: nat, lastErr: string)
    requires k < |cands| && StreamFrom(finish, cands, world, streaming, k, lastErr).1.AllFailed?
    ensures var n := |cands| - 1;
            world(n).result.Err? && StreamFrom(finish, cands, world, streaming, k, lastErr).1 == AllFailed(EntryRef(cands[n].entry) + ": " + world(n).result.error)
    decreases |cands| - k
  {
    if k + 1 < |cands| {
      GivingUpTells(finish, cands, world, streaming, k + 1, FailureText(cands[k], world(k)));
    }
  }

  // ---------------------------------------------------------------- whole answers

  /** The stream of AnswerStream once a model could be selected. */
  function AnswerEvents(d: Decision, max: int, world: nat -> Attempt, streaming: bool, lower: RuneCase): (r: (seq<StreamEvent>, Outcome))
    requires d.selected.Some?
  {
    var run := StreamFrom(Finishing(d, lower), AttemptOrder(d.selected.value, d.candidates, max), world, streaming, 0, "");
    ([Decided(d)] + run.0, run.1)
  }

  /** The done event of an answer that attempt w completes. */
  function Completed(d: Decision, cands: seq<Candidate>, world: nat -> Attempt, w: nat, lower: RuneCase): StreamEvent
    requires w < |cands| && world(w).result.Ok? && SplitThink(world(w).result.text, lower).Reply?
  {
    Done(ResponseOf(d, cands[w], SplitThink(world(w).result.text, lower), w + 1))
  }

  lemma AnswerReads(d: Decision, max: int, world: nat -> Attempt, streaming: bool, lower: RuneCase)
    requires d.selected.Some? && AnswerEvents(d, max, world, streaming, lower).1.Answered?
    ensures var cands := AttemptOrder(d.selected.value, d.candidates, max); var w := Winner(cands, world, 0);
            && w < |cands| && SplitThink(world(w).result.text, lower).Reply?
            && AnswerEvents(d, max, world, streaming, lower).0 ==
               [Decided(d)] + (Trail(cands, world, streaming, 0, "") + [Completed(d, cands, world, w, lower)])
  {
    var cands := AttemptOrder(d.selected.value, d.candidates, max);
    StreamIsTrail(Finishing(d, lower), cands, world, streaming, 0, "");
  }

  /** A successful answer reads: decision, then deltas with a retry before each later attempt, then
      done; done names the candidate that answered, and its attempts are one more than the retries. */
  lemma SuccessfulAnswer(d: Decision, max: int, world: nat -> Attempt, streaming: bool, lower: RuneCase) returns (middle: seq<StreamEvent>, w: nat)
    requires d.selected.Some? && AnswerEvents(d, max, world, streaming, lower).1.Answered?
    ensures var cands := AttemptOrder(d.selected.value, d.candidates, max);
            && w < |cands| && world(w).result.Ok? && SplitThink(world(w).result.text, lower).Reply? && (forall i :: 0 <= i < w ==> world(i).result.Err?)
            && InProgress(middle) && Retries(middle) == w
            && (var r := Completed(d, cands, world, w, lower).response;
                r.answer == SplitThink(world(w).result.text, lower).answer && r.thought == SplitThink(world(w).result.text, lower).thought &&
                r.decision == d && r.nodeID == cands[w].nodeID && r.model == EntryRef(cands[w].entry) && r.attempts == w + 1)
            && AnswerEvents(d, max, world, streaming, lower).0 == [Decided(d)] + (middle + [Completed(d, cands, world, w, lower)])
  {
    var cands := AttemptOrder(d.selected.value, d.candidates, max);
    AnswerReads(d, max, world, streaming, lower);
    TrailShape(cands, world, streaming, 0, "");
    w := Winner(cands, world, 0);
    forall i | 0 <= i < w
      ensures world(i).result.Err?
    {
      EarlierAttemptsFailed(cands, world, 0, i);
    }
    middle := Trail(cands, world, streaming, 0, "");
  }

  /** An answer that fails never emits done. */
  lemma FailedAnswer(d: Decision, max: int, world: nat -> Attempt, streaming: bool, lower: RuneCase)
    requires d.selected.Some? && !AnswerEvents(d, max, world, streaming, lower).1.Answered?
    ensures AnswerEvents(d, max, world, streaming, lower).0[0] == Decided(d)
    ensures InProgress(AnswerEvents(d, max, world, streaming, lower).0[1..])
  {
    var cands := AttemptOrder(d.selected.value, d.candidates, max);
    StreamIsTrail(Finishing(d, lower), cands, world, streaming, 0, "");
    TrailShape(cands, world, streaming, 0, "");
  }

  /** The stream breaks off without done, and without an error, exactly when the first attempt to answer
      says something that crashes the split. */
  lemma CrashedAnswerIff(d: Decision, max: int, world: nat -> Attempt, streaming: bool, lower: RuneCase)
    requires d.selected.Some?
    ensures var cands := AttemptOrder(d.selected.value, d.candidates, max); var w := Winner(cands, world, 0);
            AnswerEvents(d, max, world, streaming, lower).1.Crashed? <==>
            w < |cands| && SplitThink(world(w).result.text, lower).Crash?
  {
    var cands := AttemptOrder(d.selected.value, d.candidates, max);
    StreamIsTrail(Finishing(d, lower), cands, world, streaming, 0, "");
  }

  // ---------------------------------------------------------------- the collected completion

  datatype Collected = Collected(text: string, model: string)

  function Absorb(c: Collected, e: StreamEvent): Collected {
    match e
    case Decided(_) => c
    case Delta(t) => c.(text := c.text + t)
    case Retry(_, _) => c.(text := "")
    case Done(r) => Collected(if r.answer != "" then r.answer else c.text, r.model)
  }

  function Collect(c: Collected, events: seq<StreamEvent>): Collected {
    if events == [] then c else Absorb(Collect(c, events[..|events| - 1]), events[|events| - 1])
  }

  /** The non-streaming handler's emit callback and the text it builds. */
  class Collector {
    var text: string
    var model: string

    constructor ()
      ensures Collected(text, model) == Collected("", "auto")
    {
      text, model := "", "auto";
    }

    method Emit(e: StreamEvent)
      modifies this
      ensures Collected(text, model) == Absorb(old(Collected(text, model)), e)
    {
      match e {
        case Delta(t) =>
          text := text + t;
        case Retry(_, _) =>
          text := "";
        case Done(r) =>
          model := r.model;
          if r.answer != "" {
            text := r.answer;
          }
        case Decided(_) =>
      }
    }
  }

  function Concat(texts: seq<string>): string {
    if texts == [] then "" else Concat(texts[..|texts| - 1]) + texts[|texts| - 1]
  }

  lemma {:induction false} CollectAppend(c: Collected, a: seq<StreamEvent>, b: seq<StreamEvent>)
    ensures Collect(c, a + b) == Collect(Collect(c, a), b)
  {
    if b == [] {
      assert a + b == a;
    } else {
      CollectAppend(c, a, b[..|b| - 1]);
      assert (a + b)[..|a + b| - 1] == a + b[..|b| - 1];
    }
  }

  lemma CollectOne(c: Collected, e: StreamEvent)
    ensures Collect(c, [e]) == Absorb(c, e)
  {
    assert [e][..0] == [];
  }

  lemma {:induction false} CollectDeltas(c: Collected, texts: seq<string>)
    ensures Collect(c, DeltaEvents(texts)) == Collected(c.text + Concat(texts), c.model)
  {
    if texts == [] {
      assert c.text + "" == c.text;
    } else {
      var init, last := texts[..|texts| - 1], texts[|texts| - 1];
      CollectDeltas(c, init);
      assert DeltaEvents(texts)[..|texts| - 1] == DeltaEvents(init);
      assert (c.text + Concat(init)) + last == c.text + (Concat(init) + last);
    }
  }

  /** After an attempt the collector holds that attempt's text and nothing older. */
  lemma CollectAttempt(c: Collected, cand: Candidate, a: Attempt, streaming: bool, k: nat, lastErr: string)
    requires k == 0 ==> c.text == ""
    ensures Collect(c, AttemptEvents(cand, a, streaming, k, lastErr)) == Collected(Concat(DeltasOf(a, streaming)), c.model)
  {
    var deltas := DeltasOf(a, streaming);
    var retry := if k > 0 then [Retry(EntryRef(cand.entry), lastErr)] else [];
    CollectAppend(c, retry, DeltaEvents(deltas));
    if k > 0 {
      CollectOne(c, Retry(EntryRef(cand.entry), lastErr));
    }
    CollectDeltas(Collected("", c.model), deltas);
    assert "" + Concat(deltas) == Concat(deltas);
  }

  lemma {:induction false} CollectTrail(c: Collected, cands: seq<Candidate>, world: nat -> Attempt, streaming: bool, k: nat, lastErr: string)
    requires k <= |cands| && Winner(cands, world, k) < |cands| && (k == 0 ==> c.text == "")
    ensures Collect(c, Trail(cands, world, streaming, k, lastErr)) ==
            Collected(Concat(DeltasOf(world(Winner(cands, world, k)), streaming)), c.model)
    decreases |cands| - k
  {
    var a := world(k);
    var seen := AttemptEvents(cands[k], a, streaming, k, lastErr);
    CollectAttempt(c, cands[k], a, streaming, k, lastErr);
    if a.result.Ok? {
      assert seen + [] == seen;
    } else {
      var error := FailureText(cands[k], a);
      CollectAppend(c, seen, Trail(cands, world, streaming, k + 1, error));
      CollectTrail(Collect(c, seen), cands, world, streaming, k + 1, error);
    }
  }

  /** What the caller of a non-streaming chat gets from the attempt that answered: its answer with the
      reasoning folded away, or its own deltas when that leaves nothing. */
  function FinalText(a: Attempt, streaming: bool, lower: RuneCase): string
    requires a.result.Ok? && SplitThink(a.result.text, lower).Reply?
  {
    var reply := SplitThink(a.result.text, lower);
    if reply.answer != "" then reply.answer else Concat(DeltasOf(a, streaming))
  }

  /** That is: the answer, or the text as it came. */
  lemma FinalTextIs(a: Attempt, streaming: bool, lower: RuneCase)
    requires a.result.Ok? && SplitThink(a.result.text, lower).Reply?
    ensures var answer := SplitThink(a.result.text, lower).answer;
            FinalText(a, streaming, lower) == if answer != "" then answer else if streaming then Concat(a.streamed) else a.result.text
  {
    hide SplitThink;
    if !streaming && a.result.text != "" {
      assert [a.result.text][..0] == [] && "" + a.result.text == a.result.text;
      assert Concat([a.result.text]) == Concat([]) + a.result.text;
    }
  }

  lemma CollectWhole(c: Collected, d: Decision, trail: seq<StreamEvent>, done: StreamEvent)
    ensures Collect(c, [Decided(d)] + (trail + [done])) == Absorb(Collect(c, trail), done)
  {
    CollectAppend(c, [Decided(d)], trail + [done]);
    CollectOne(c, Decided(d));
    CollectAppend(c, trail, [done]);
    CollectOne(Collect(c, trail), done);
  }

  /** However many attempts failed, and whatever they had streamed, the completion is the winning
      attempt's text alone. */
  lemma CompletionIsTheWinners(d: Decision, max: int, world: nat -> Attempt, streaming: bool, lower: RuneCase)
    requires d.selected.Some? && AnswerEvents(d, max, world, streaming, lower).1.Answered?
    ensures var cands := AttemptOrder(d.selected.value, d.candidates, max); var w := Winner(cands, world, 0);
            w < |cands| && SplitThink(world(w).result.text, lower).Reply? &&
            Collect(Collected("", "auto"), AnswerEvents(d, max, world, streaming, lower).0) ==
            Collected(FinalText(world(w), streaming, lower), EntryRef(cands[w].entry))
  {
    var cands := AttemptOrder(d.selected.value, d.candidates, max);
    AnswerReads(d, max, world, streaming, lower);
    var w := Winner(cands, world, 0);
    hide *;
    CollectWhole(Collected("", "auto"), d, Trail(cands, world, streaming, 0, ""), Completed(d, cands, world, w, lower));
    CollectTrail(Collected("", "auto"), cands, world, streaming, 0, "");
    AbsorbDone(d, cands, world, w, streaming, lower);
  }

  lemma AbsorbDone(d: Decision, cands: seq<Candidate>, world: nat -> Attempt, w: nat, streaming: bool, lower: RuneCase)
    requires w < |cands| && world(w).result.Ok? && SplitThink(world(w).result.text, lower).Reply?
    ensures Absorb(Collected(Concat(DeltasOf(world(w), streaming)), "auto"), Completed(d, cands, world, w, lower)) ==
            Collected(FinalText(world(w), streaming, lower), EntryRef(cands[w].entry))
  {
    hide SplitThink;
  }

  method FeedCollector(events: seq<StreamEvent>) returns (got: Collected)
    ensures got == Collect(Collected("", "auto"), events)
  {
    var c := new Collector();
    for k := 0 to |events|
      invariant Collected(c.text, c.model) == Collect(Collected("", "auto"), events[..k])
    {
      assert events[..k + 1][..k] == events[..k];
      c.Emit(events[k]);
    }
    assert events[..|events|] == events;
    got := Collected(c.text, c.model);
  }

  /** The non-streaming branch of ServeChat: run the stream into a collector, answer with what it holds. */
  method ServeChat(prompt: string, view: Option<Decision>, max: int, world: nat -> Attempt, streaming: bool, lower: RuneCase)
    returns (reply: Option<Collected>, end: Outcome)
    ensures reply.Some? <==> end.Answered?
    ensures end.Answered? ==>
              view.Some? && view.value.selected.Some? &&
              var cands := AttemptOrder(view.value.selected.value, view.value.candidates, max); var w := Winner(cands, world, 0);
              w < |cands| && SplitThink(world(w).result.text, lower).Reply? && reply.value == Collected(FinalText(world(w), streaming, lower), EntryRef(cands[w].entry))
  {
    var events;
    events, end := AnswerStream(prompt, view, max, world, streaming, lower);
    var got := FeedCollector(events);
    if !end.Answered? {
      return None, end;
    }
    CompletionIsTheWinners(view.value, max, world, streaming, lower);
    reply := Some(got);
  }
}
