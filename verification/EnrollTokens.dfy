/** Use-counted enrolment tokens (internal/enrollment/store.go). Instants are in nanoseconds; a
    token stands for its own hash. */
module EnrollTokens {
  import opened ModelIdentity

  datatype Record = Record(id: string, token: string, expires: int, uses: int, createdAt: int,
    consumedAt: Option<int>, nodeID: string)

  datatype Verdict = Spent | TokenRequired | Expired | AlreadyUsed | Invalid

  /** Position of the first record of the token, or the number of records when it has none. */
  function FirstOf(records: seq<Record>, token: string): (i: nat)
    ensures i <= |records|
    ensures i < |records| ==> records[i].token == token
    ensures forall k :: 0 <= k < i ==> records[k].token != token
  {
    if records == [] then 0
    else
      var i := FirstOf(records[..|records| - 1], token);
      if i < |records| - 1 || records[|records| - 1].token == token then i else |records|
  }

  function Judge(records: seq<Record>, token: string, now: int): Verdict {
    var i := FirstOf(records, token);
    if token == "" then TokenRequired
    else if i == |records| then Invalid
    else if now > records[i].expires then Expired
    else if records[i].uses <= 0 then AlreadyUsed
    else Spent
  }

  function OneUseLess(r: Record, node: string, now: int): Record {
    Record(r.id, r.token, r.expires, r.uses - 1, r.createdAt, if r.uses == 1 then Some(now) else r.consumedAt, node)
  }

  function AfterConsume(records: seq<Record>, token: string, node: string, now: int): seq<Record> {
    if Judge(records, token, now).Spent?
    then var i := FirstOf(records, token); records[i := OneUseLess(records[i], node, now)] else records
  }

  function NewRecord(id: string, token: string, now: int, ttl: int, uses: int): Record {
    Record(id, token, now + ttl, uses, now, None, "")
  }

  class Store {
    var records: seq<Record>
    const ttl: int
    const uses: int

    /** Ten minutes and a single use, unless told otherwise. */
    constructor (ttlWanted: int, usesWanted: int)
      ensures records == []
      ensures ttl == if ttlWanted > 0 then ttlWanted else 600_000_000_000
      ensures uses == if usesWanted > 0 then usesWanted else 1
    {
      records := [];
      ttl := if ttlWanted <= 0 then 10 * 60 * 1_000_000_000 else ttlWanted;
      uses := if usesWanted <= 0 then 1 else usesWanted;
    }

    method Create(id: string, token: string, now: int) returns (rec: Record)
      modifies this
      ensures rec == NewRecord(id, token, now, ttl, uses)
      ensures records == old(records) + [rec]
    {
      rec := Record(id, token, now + ttl, uses, now, None, "");
      records := records + [rec];
    }

    /** Walks the records to the first of the token, which alone decides. */
    method Consume(token: string, node: string, now: int) returns (v: Verdict)
      modifies this
      ensures v == Judge(old(records), token, now)
      ensures records == AfterConsume(old(records), token, node, now)
    {
      if token == "" {
        return TokenRequired;
      }
      for i := 0 to |records|
        invariant records == old(records)
        invariant forall k :: 0 <= k < i ==> records[k].token != token
      {
        var r := records[i];
        if r.token == token {
          assert FirstOf(records, token) == i;
          if now > r.expires {
            return Expired;
          }
          if r.uses <= 0 {
            return AlreadyUsed;
          }
          r := r.(uses := r.uses - 1, nodeID := node);
          if r.uses == 0 {
            r := r.(consumedAt := Some(now));
          }
          records := records[i := r];
          return Spent;
        }
      }
      v := Invalid;
    }
  }

  // ---------------------------------------------------------------- whole runs

  datatype Event = Issue(id: string, token: string, now: int) | Spend(token: string, node: string, now: int)

  function RecordsAfter(run: seq<Event>, ttl: int, uses: int): seq<Record> {
    if run == [] then []
    else
      var before := RecordsAfter(run[..|run| - 1], ttl, uses);
      match run[|run| - 1]
      case Issue(id, token, now) => before + [NewRecord(id, token, now, ttl, uses)]
      case Spend(token, node, now) => AfterConsume(before, token, node, now)
  }

  /** Does the event, after the run, spend a use of record i? */
  predicate Wins(before: seq<Record>, e: Event, i: nat) {
    e.Spend? && Judge(before, e.token, e.now).Spent? && FirstOf(before, e.token) == i
  }

  /** The events of the run that spent a use of record i, in order. */
  function WinsOf(run: seq<Event>, ttl: int, uses: int, i: nat): seq<Event> {
    if run == [] then []
    else
      var before, e := run[..|run| - 1], run[|run| - 1];
      WinsOf(before, ttl, uses, i) + (if Wins(RecordsAfter(before, ttl, uses), e, i) then [e] else [])
  }

  /** What the record shows agrees with the events that spent it. */
  ghost predicate Balanced(r: Record, wins: seq<Event>, uses: int) {
    && |wins| + r.uses == uses && r.uses >= 0
    && (r.consumedAt.Some? <==> r.uses == 0)
    && (forall k :: 0 <= k < |wins| ==> wins[k].Spend? && wins[k].token == r.token && wins[k].now <= r.expires)
    && (wins == [] ==> r.nodeID == "")
    && (wins != [] ==> r.nodeID == wins[|wins| - 1].node)
    && (r.consumedAt.Some? ==> wins != [] && r.consumedAt.value == wins[|wins| - 1].now)
  }

  lemma SpendBalances(r: Record, wins: seq<Event>, uses: int, e: Event)
    requires Balanced(r, wins, uses) && e.Spend? && e.token == r.token && e.now <= r.expires && r.uses > 0
    ensures Balanced(OneUseLess(r, e.node, e.now), wins + [e], uses)
  {
  }

  /** Records are only ever added; a record that is not there yet has not been spent. */
  lemma {:induction false} RecordsGrow(run: seq<Event>, ttl: int, uses: int, i: nat)
    ensures i >= |RecordsAfter(run, ttl, uses)| ==> WinsOf(run, ttl, uses, i) == []
  {
    if run != [] {
      RecordsGrow(run[..|run| - 1], ttl, uses, i);
    }
  }

  /** Conservation: for every record, the consumes that succeeded and the uses left make up the uses
      issued; uses never go negative; consumedAt is set exactly at zero, by the last success; and no
      success came after the expiry. */
  lemma {:induction false} Conservation(run: seq<Event>, ttl: int, uses: int, i: nat)
    requires uses > 0 && i < |RecordsAfter(run, ttl, uses)|
    ensures Balanced(RecordsAfter(run, ttl, uses)[i], WinsOf(run, ttl, uses, i), uses)
  {
    var before, e := run[..|run| - 1], run[|run| - 1];
    var records := RecordsAfter(before, ttl, uses);
    if i < |records| {
      Conservation(before, ttl, uses, i);
      if Wins(records, e, i) {
        SpendBalances(records[i], WinsOf(before, ttl, uses, i), uses, e);
      }
    } else {
      RecordsGrow(before, ttl, uses, i);
    }
  }

  // ---------------------------------------------------------------- seen from the token

  ghost predicate IssuedAt(run: seq<Event>, k: int, token: string) {
    0 <= k < |run| && run[k].Issue? && run[k].token == token
  }

  /** Tokens are drawn at random: none is issued twice. */
  ghost predicate FreshTokens(run: seq<Event>) {
    forall j, k, token :: IssuedAt(run, j, token) && IssuedAt(run, k, token) ==> j == k
  }

  /** Every record comes from an issue of its token, which fixed its expiry. */
  lemma {:induction false} RecordsAreIssued(run: seq<Event>, ttl: int, uses: int, i: nat) returns (k: nat)
    requires i < |RecordsAfter(run, ttl, uses)|
    ensures IssuedAt(run, k, RecordsAfter(run, ttl, uses)[i].token)
    ensures RecordsAfter(run, ttl, uses)[i].expires == run[k].now + ttl
  {
    var before := run[..|run| - 1];
    if i < |RecordsAfter(before, ttl, uses)| {
      k := RecordsAreIssued(before, ttl, uses, i);
    } else {
      k := |run| - 1;
    }
  }

  /** A consume succeeds only with a token that was issued and has not expired. */
  lemma SuccessNeedsALiveIssue(run: seq<Event>, ttl: int, uses: int, token: string, now: int) returns (k: nat)
    requires Judge(RecordsAfter(run, ttl, uses), token, now).Spent?
    ensures IssuedAt(run, k, token) && now <= run[k].now + ttl
  {
    k := RecordsAreIssued(run, ttl, uses, FirstOf(RecordsAfter(run, ttl, uses), token));
  }

  lemma {:induction false} OneRecordPerToken(run: seq<Event>, ttl: int, uses: int, i: nat, j: nat)
    requires FreshTokens(run) && i < j < |RecordsAfter(run, ttl, uses)|
    ensures RecordsAfter(run, ttl, uses)[i].token != RecordsAfter(run, ttl, uses)[j].token
  {
    var before := run[..|run| - 1];
    var records := RecordsAfter(before, ttl, uses);
    assert forall k, token :: IssuedAt(before, k, token) ==> IssuedAt(run, k, token);
    if j < |records| {
      OneRecordPerToken(before, ttl, uses, i, j);
    } else {
      var k := RecordsAreIssued(before, ttl, uses, i);
      assert IssuedAt(run, |run| - 1, run[|run| - 1].token);
    }
  }

  /** How often consuming the token succeeded in the run. */
  function Successes(run: seq<Event>, ttl: int, uses: int, token: string): nat {
    if run == [] then 0
    else
      var before, e := run[..|run| - 1], run[|run| - 1];
      Successes(before, ttl, uses, token) +
      (if e.Spend? && e.token == token && Judge(RecordsAfter(before, ttl, uses), token, e.now).Spent? then 1 else 0)
  }

  lemma {:induction false} SuccessesAreWins(run: seq<Event>, ttl: int, uses: int, i: nat)
    requires FreshTokens(run) && i < |RecordsAfter(run, ttl, uses)|
    ensures Successes(run, ttl, uses, RecordsAfter(run, ttl, uses)[i].token) == |WinsOf(run, ttl, uses, i)|
  {
    var before, e := run[..|run| - 1], run[|run| - 1];
    var records := RecordsAfter(before, ttl, uses);
    assert forall k, token :: IssuedAt(before, k, token) ==> IssuedAt(run, k, token);
    if i < |records| {
      SuccessesAreWins(before, ttl, uses, i);
      if e.Spend? && e.token == records[i].token {
        var f := FirstOf(records, e.token);
        if f < i {
          OneRecordPerToken(before, ttl, uses, f, i);
        }
      }
    } else {
      RecordsGrow(before, ttl, uses, i);
      assert IssuedAt(run, |run| - 1, e.token);
      forall k
        ensures !IssuedAt(before, k, e.token)
      {
        assert IssuedAt(before, k, e.token) ==> IssuedAt(run, k, e.token);
      }
      NeverIssuedNeverSpent(before, ttl, uses, e.token);
    }
  }

  lemma {:induction false} NeverIssuedNeverSpent(run: seq<Event>, ttl: int, uses: int, token: string)
    requires forall k :: !IssuedAt(run, k, token)
    ensures Successes(run, ttl, uses, token) == 0
  {
    if run != [] {
      var before, e := run[..|run| - 1], run[|run| - 1];
      assert forall k :: IssuedAt(before, k, token) ==> IssuedAt(run, k, token);
      NeverIssuedNeverSpent(before, ttl, uses, token);
      if e.Spend? && e.token == token && Judge(RecordsAfter(before, ttl, uses), token, e.now).Spent? {
        var k := SuccessNeedsALiveIssue(before, ttl, uses, token, e.now);
      }
    }
  }

  /** Seen from a token: the consumes that succeeded and what its record still holds make up the uses
      it was issued with, so it is good for exactly that many enrolments and no more. */
  lemma TokenConservation(run: seq<Event>, ttl: int, uses: int, token: string)
    requires FreshTokens(run) && uses > 0
    ensures var records := RecordsAfter(run, ttl, uses);
            var i := FirstOf(records, token);
            if i < |records| then Successes(run, ttl, uses, token) + records[i].uses == uses && records[i].uses >= 0
            else Successes(run, ttl, uses, token) == 0
  {
    var records := RecordsAfter(run, ttl, uses);
    var i := FirstOf(records, token);
    if i < |records| {
      Conservation(run, ttl, uses, i);
      SuccessesAreWins(run, ttl, uses, i);
    } else {
      forall k
        ensures !IssuedAt(run, k, token)
      {
        if IssuedAt(run, k, token) {
          var j := IssuesAreRecorded(run, ttl, uses, k);
        }
      }
      NeverIssuedNeverSpent(run, ttl, uses, token);
    }
  }

  lemma {:induction false} IssuesAreRecorded(run: seq<Event>, ttl: int, uses: int, k: nat) returns (i: nat)
    requires k < |run| && run[k].Issue?
    ensures i < |RecordsAfter(run, ttl, uses)| && RecordsAfter(run, ttl, uses)[i].token == run[k].token
  {
    var before := run[..|run| - 1];
    if k < |before| {
      i := IssuesAreRecorded(before, ttl, uses, k);
    } else {
      i := |RecordsAfter(before, ttl, uses)|;
    }
  }

  // ---------------------------------------------------------------- what every consume is answered

  /** What consuming a token that was issued at `issued` is answered, after so many successes. */
  function Answer(issued: int, now: int, ttl: int, successes: nat, uses: int): Verdict {
    if now > issued + ttl then Expired else if successes >= uses then AlreadyUsed else Spent
  }

  /** A token issued once: good until its life is over or its uses are. */
  lemma IssuedIsAnswered(run: seq<Event>, ttl: int, uses: int, k: nat, now: int)
    requires FreshTokens(run) && uses > 0 && k < |run| && run[k].Issue? && run[k].token != ""
    ensures Judge(RecordsAfter(run, ttl, uses), run[k].token, now) ==
            Answer(run[k].now, now, ttl, Successes(run, ttl, uses, run[k].token), uses)
  {
    var records, token := RecordsAfter(run, ttl, uses), run[k].token;
    var j := IssuesAreRecorded(run, ttl, uses, k);
    var i := FirstOf(records, token);
    assert i < |records| && records[i].token == token;
    var m := RecordsAreIssued(run, ttl, uses, i);
    assert IssuedAt(run, k, token) && IssuedAt(run, m, token);
    TokenConservation(run, ttl, uses, token);
  }

  /** Any other text is refused: an empty one as such, one that was never issued as invalid. */
  lemma UnissuedIsRefused(run: seq<Event>, ttl: int, uses: int, token: string, now: int)
    requires forall k :: !IssuedAt(run, k, token)
    ensures Judge(RecordsAfter(run, ttl, uses), token, now) == if token == "" then TokenRequired else Invalid
  {
    var records := RecordsAfter(run, ttl, uses);
    if FirstOf(records, token) < |records| {
      var k := RecordsAreIssued(run, ttl, uses, FirstOf(records, token));
    }
  }

  /** How often the token was tried after event k and before its deadline. */
  function TriesInTime(run: seq<Event>, k: nat, token: string, deadline: int): nat {
    if |run| <= k + 1 then 0
    else
      var e := run[|run| - 1];
      TriesInTime(run[..|run| - 1], k, token, deadline) + (if e.Spend? && e.token == token && e.now <= deadline then 1 else 0)
  }

  lemma FreshBefore(run: seq<Event>)
    requires FreshTokens(run) && run != []
    ensures FreshTokens(run[..|run| - 1])
  {
    var before := run[..|run| - 1];
    assert forall k, token :: IssuedAt(before, k, token) ==> IssuedAt(run, k, token);
  }

  /** A token enrols exactly as many nodes as try it in time, up to its uses: the first of them all succeed. */
  lemma {:induction false} FirstTriesSucceed(run: seq<Event>, ttl: int, uses: int, k: nat)
    requires FreshTokens(run) && uses > 0 && k < |run| && run[k].Issue? && run[k].token != ""
    ensures var tries := TriesInTime(run, k, run[k].token, run[k].now + ttl);
            Successes(run, ttl, uses, run[k].token) == if tries < uses then tries else uses
  {
    var before, token := run[..|run| - 1], run[k].token;
    FreshBefore(run);
    if k == |before| {
      forall j
        ensures !IssuedAt(before, j, token)
      {
        assert IssuedAt(before, j, token) ==> IssuedAt(run, j, token) && IssuedAt(run, k, token);
      }
      NeverIssuedNeverSpent(before, ttl, uses, token);
    } else {
      FirstTriesSucceed(before, ttl, uses, k);
      IssuedIsAnswered(before, ttl, uses, k, run[|run| - 1].now);
    }
  }
}
