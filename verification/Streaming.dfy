/** Executing a routed answer with failover, as a stream of events (internal/routerchat/service.go). What a
    model says is a byte string. */
module Streaming {
  import opened Text
  import opened Utf8
  import opened ModelIdentity
  import opened Catalog
  import opened Routing
  import opened Router
  import opened FailoverOrder
  import opened Reasoning

  // ---------------------------------------------------------------- one attempt

  datatype Result = Ok(text: string) | Err(error: string)

  /** What an inference does: the text it streams, how it ends, and whether the caller's context is
      found ended before it starts or after it failed. */
  datatype Attempt = Attempt(cancelledBefore: bool, streamed: seq<string>, result: Result, cancelledAfter: bool)

  datatype Response = Response(decision: Decision, model: string, nodeID: string, answer: string, thought: string, attempts: nat)

  datatype StreamEvent =
    | Decided(decision: Decision)
    | Delta(text: string)
    | Retry(model: string, error: string)
    | Done(response: Response)

  /** The texts a consumer sees of an attempt: an executor that cannot stream delivers its reply whole. */
  function DeltasOf(a: Attempt, streaming: bool): seq<string> {
    if streaming then a.streamed
    else if a.result.Ok? && a.result.text != "" then [a.result.text] else []
  }

  function DeltaEvents(texts: seq<string>): seq<StreamEvent> {
    seq(|texts|, i requires 0 <= i < |texts| => Delta(texts[i]))
  }

  method InferMaybeStreaming(a: Attempt, streaming: bool) returns (emitted: seq<StreamEvent>, res: Result)
    ensures emitted == DeltaEvents(DeltasOf(a, streaming)) && res == a.result
  {
    emitted := [];
    res := a.result;
    if streaming {
      for k := 0 to |a.streamed|
        invariant emitted == DeltaEvents(a.streamed[..k])
      {
        emitted := emitted + [Delta(a.streamed[k])];
      }
      assert a.streamed[..|a.streamed|] == a.streamed;
    } else if res.Ok? && res.text != "" {
      emitted := [Delta(res.text)];
    }
  }

  // ---------------------------------------------------------------- the stream

  /** How a stream ends; Crashed when taking the reply apart slices out of range. */
  datatype Outcome = Answered | Crashed | PromptRequired | NoClusterView | NoRoutableModel | Cancelled | AllFailed(error: string)

  function FailureText(c: Candidate, a: Attempt): string
    requires a.result.Err?
  {
    EntryRef(c.entry) + ": " + a.result.error
  }

  function ResponseOf(d: Decision, c: Candidate, reply: Fold, attempts: nat): Response
    requires reply.Reply?
  {
    Response(d, EntryRef(c.entry), c.nodeID, reply.answer, reply.thought, attempts)
  }

  /** What attempt k shows the consumer before it ends. */
  function AttemptEvents(c: Candidate, a: Attempt, streaming: bool, k: nat, lastErr: string): seq<StreamEvent> {
    (if k > 0 then [Retry(EntryRef(c.entry), lastErr)] else []) + DeltaEvents(DeltasOf(a, streaming))
  }

  /** How an answered attempt is reported, if its reply comes apart at all. */
  type Finisher = (Candidate, string, nat) -> Option<StreamEvent>

  function Finishing(d: Decision, lower: RuneCase): Finisher {
    (c: Candidate, text: string, attempts: nat) =>
      var reply := SplitThink(text, lower);
      if reply.Crash? then None else Some(Done(ResponseOf(d, c, reply, attempts)))
  }

  /** The end of a stream whose last attempt answered: with its done event, or without. */
  function Finished(seen: seq<StreamEvent>, done: Option<StreamEvent>): (seq<StreamEvent>, Outcome) {
    (seen + Alone(done), if done.Some? then Answered else Crashed)
  }

  function Alone(e: Option<StreamEvent>): seq<StreamEvent> {
    if e.Some? then [e.value] else []
  }

  /** What is emitted from attempt k on, and how it ends; `lastErr` is the failure of attempt k - 1. */
  function StreamFrom(finish: Finisher, cands: seq<Candidate>, world: nat -> Attempt,
                      streaming: bool, k: nat, lastErr: string): (r: (seq<StreamEvent>, Outcome))
    requires k <= |cands|
    decreases |cands| - k
  {
    if k == |cands| then ([], AllFailed(lastErr))
    else if world(k).cancelledBefore then ([], Cancelled)
    else
      var a, seen := world(k), AttemptEvents(cands[k], world(k), streaming, k, lastErr);
      if a.result.Ok? then Finished(seen, finish(cands[k], a.result.text, k + 1))
      else if a.cancelledAfter then (seen, Cancelled)
      else
        var rest := StreamFrom(finish, cands, world, streaming, k + 1, FailureText(cands[k], a));
        (seen + rest.0, rest.1)
  }

  method TryOne(c: Candidate, a: Attempt, streaming: bool, k: nat, lastErr: string) returns (emitted: seq<StreamEvent>, res: Result)
    ensures emitted == AttemptEvents(c, a, streaming, k, lastErr) && res == a.result
  {
    emitted := [];
    if k > 0 {
      emitted := [Retry(EntryRef(c.entry), lastErr)];
    }
    var deltas;
    deltas, res := InferMaybeStreaming(a, streaming);
    emitted := emitted + deltas;
  }

  method Finish(d: Decision, c: Candidate, text: string, attempts: nat, lower: RuneCase) returns (e: Option<StreamEvent>)
    ensures e == Finishing(d, lower)(c, text, attempts)
  {
    var reply := SplitThink(text, lower);
    if reply.Crash? {
      return None;
    }
    e := Some(Done(Response(d, EntryRef(c.entry), c.nodeID, reply.answer, reply.thought, attempts)));
  }

  /** `events` so far and what is emitted from attempt k on make up the whole stream. */
  ghost predicate OnTrack(events: seq<StreamEvent>, finish: Finisher, cands: seq<Candidate>, world: nat -> Attempt,
                          streaming: bool, k: nat, lastErr: string)
    requires k <= |cands|
  {
    var rest, whole := StreamFrom(finish, cands, world, streaming, k, lastErr), StreamFrom(finish, cands, world, streaming, 0, "");
    events + rest.0 == whole.0 && rest.1 == whole.1
  }

  lemma OnTrackStep(events: seq<StreamEvent>, finish: Finisher, cands: seq<Candidate>, world: nat -> Attempt,
                    streaming: bool, k: nat, lastErr: string)
    requires k < |cands| && OnTrack(events, finish, cands, world, streaming, k, lastErr)
    ensures var whole := StreamFrom(finish, cands, world, streaming, 0, "");
            var seen := events + AttemptEvents(cands[k], world(k), streaming, k, lastErr);
            if world(k).cancelledBefore then whole == (events, Cancelled)
            else if world(k).result.Ok? then whole == Finished(seen, finish(cands[k], world(k).result.text, k + 1))
            else if world(k).cancelledAfter then whole == (seen, Cancelled)
            else OnTrack(seen, finish, cands, world, streaming, k + 1, FailureText(cands[k], world(k)))
  {
    var a, seen := world(k), AttemptEvents(cands[k], world(k), streaming, k, lastErr);
    assert events + [] == events && seen + [] == seen;
    if !a.cancelledBefore {
      var tail := if a.result.Ok? then Alone(finish(cands[k], a.result.text, k + 1))
                  else if a.cancelledAfter then []
                  else StreamFrom(finish, cands, world, streaming, k + 1, FailureText(cands[k], a)).0;
      assert StreamFrom(finish, cands, world, streaming, k, lastErr).0 == seen + tail;
      Regroup(events, seen, tail);
    }
  }

  lemma Regroup(a: seq<StreamEvent>, b: seq<StreamEvent>, c: seq<StreamEvent>)
    ensures a + (b + c) == (a + b) + c
    ensures c == [] ==> a + (b + c) == a + b
  {
  }

  /** The failover loop. */
  method TryInTurn(d: Decision, cands: seq<Candidate>, world: nat -> Attempt, streaming: bool, lower: RuneCase)
    returns (events: seq<StreamEvent>, end: Outcome)
    ensures (events, end) == StreamFrom(Finishing(d, lower), cands, world, streaming, 0, "")
  {
    events := [];
    var lastErr := "";
    for k := 0 to |cands|
      invariant OnTrack(events, Finishing(d, lower), cands, world, streaming, k, lastErr)
    {
      OnTrackStep(events, Finishing(d, lower), cands, world, streaming, k, lastErr);
      if world(k).cancelledBefore {
        return events, Cancelled;
      }
      var emitted, res := TryOne(cands[k], world(k), streaming, k, lastErr);
      events := events + emitted;
      if res.Ok? {
        var done := Finish(d, cands[k], res.text, k + 1, lower);
        if done.None? {
          assert events + [] == events;
          return events, Crashed;
        }
        return events + [done.value], Answered;
      }
      lastErr := EntryRef(cands[k].entry) + ": " + res.error;
      if world(k).cancelledAfter {
        return events, Cancelled;
      }
    }
    assert events + [] == events;
    end := AllFailed(lastErr);
  }

  method AnswerStream(prompt: string, view: Option<Decision>, max: int, world: nat -> Attempt, streaming: bool, lower: RuneCase)
    returns (events: seq<StreamEvent>, end: Outcome)
    ensures TrimSpace(prompt) == "" ==> events == [] && end == PromptRequired
    ensures TrimSpace(prompt) != "" && view.None? ==> events == [] && end == NoClusterView
    ensures TrimSpace(prompt) != "" && view.Some? && view.value.selected.None? ==> events == [Decided(view.value)] && end == NoRoutableModel
    ensures TrimSpace(prompt) != "" && view.Some? && view.value.selected.Some? ==>
              var cands := AttemptOrder(view.value.selected.value, view.value.candidates, max);
              var run := StreamFrom(Finishing(view.value, lower), cands, world, streaming, 0, "");
              events == [Decided(view.value)] + run.0 && end == run.1
  {
    if TrimSpace(prompt) == "" {
      return [], PromptRequired;
    }
    if view.None? {
      return [], NoClusterView;
    }
    var d := view.value;
    if d.selected.None? {
      return [Decided(d)], NoRoutableModel;
    }
    var cands := PlanAttempts(d.selected.value, d.candidates, max);
    var shown;
    shown, end := TryInTurn(d, cands, world, streaming, lower);
    events := [Decided(d)] + shown;
  }
}
