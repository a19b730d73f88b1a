/** The order in which candidates are tried (internal/routerchat/service.go). */
module FailoverOrder {
  import opened Catalog
  import opened Routing
  import opened Deduplication

  function AttemptKey(c: Candidate): string {
    EntryRef(c.entry) + "@" + c.nodeID
  }

  function AttemptLimit(max: int): (n: nat)
    ensures n >= 1
  {
    if max <= 0 then 1 else max
  }

  /** The selected candidate, then the ranked list, without repeats, up to the limit. */
  function AttemptOrder(selected: Candidate, ranked: seq<Candidate>, max: int): seq<Candidate> {
    AtMost(Firsts([selected] + ranked, AttemptKey), AttemptLimit(max))
  }

  method PlanAttempts(selected: Candidate, ranked: seq<Candidate>, max: int) returns (out: seq<Candidate>)
    ensures out == AttemptOrder(selected, ranked, max)
  {
    var limit := if max <= 0 then 1 else max;
    out := TakeFirsts([selected] + ranked, AttemptKey, limit);
  }

  /** The attempts keep the order of the ranking: each is the first of its model and node, later ones come
      from further down, and what is left out of the list after the last attempt was cut off by the limit. */
  lemma AttemptsKeepOrder(selected: Candidate, ranked: seq<Candidate>, max: int) returns (at: seq<nat>)
    ensures ComesFrom(AttemptOrder(selected, ranked, max), [selected] + ranked, AttemptKey, at)
    ensures forall c, d :: AttemptKey(c) == AttemptKey(d) <==> EntryRef(c.entry) + "@" + c.nodeID == EntryRef(d.entry) + "@" + d.nodeID
  {
    at := FirstsInOrder([selected] + ranked, AttemptKey);
    var n := |AttemptOrder(selected, ranked, max)|;
    at := at[..n];
  }

  /** The selected candidate goes first; no model is tried twice on one node; at most max(1, limit)
      are tried; and a ranked candidate is passed over only when the limit is reached. */
  lemma AttemptOrderShape(selected: Candidate, ranked: seq<Candidate>, max: int)
    ensures var out := AttemptOrder(selected, ranked, max);
            && 1 <= |out| <= (if max > 1 then max else 1) && out[0] == selected && DistinctKeys(out, AttemptKey)
            && (forall i :: 0 <= i < |out| ==> out[i] == selected || out[i] in ranked)
            && (|out| < (if max > 1 then max else 1) ==> forall i :: 0 <= i < |ranked| ==> Seen(out, AttemptKey, AttemptKey(ranked[i])))
  {
    AtMostShape(selected, ranked, AttemptKey, AttemptLimit(max));
  }
}
