/** The worker process (internal/agent/agent.go): what its closures do to the shared variables. */
module Agent {
  import opened ModelIdentity
  import opened Resources

  /** A heartbeat that has been composed but not yet answered or lost. */
  datatype Beat = Beat(status: Status, job: string)

  datatype Worker = Worker(up: bool, busy: string, draining: bool, removed: bool, beat: Option<Beat>)

  const DOWN := Worker(false, "", false, false, None)
  const STARTED := Worker(true, "", false, false, None)

  datatype ClaimReply = Got(id: string) | NoWork | ClaimFailed | ClaimNotRegistered

  datatype BeatReply = Answered(status: Status) | BeatFailed | BeatNotRegistered

  /** The guard of tryClaim, and the main loop being free to run it. */
  predicate MayClaim(w: Worker) {
    w.up && w.busy == "" && !w.draining && !w.removed && w.beat.None?
  }

  function BeatOf(w: Worker): Beat {
    Beat(if w.draining then Draining else if w.busy != "" then Busy else Ready, w.busy)
  }

  function AfterClaimReply(w: Worker, reply: ClaimReply): Worker {
    match reply
    case Got(id) => w.(busy := id)
    case ClaimNotRegistered => w.(removed := true, up := false)
    case _ => w
  }

  function AfterBeatReply(w: Worker, reply: BeatReply): Worker {
    match reply
    case Answered(status) => w.(beat := None, draining := w.draining || status.Draining?)
    case BeatNotRegistered => w.(beat := None, removed := true, up := false)
    case BeatFailed => w.(beat := None)
  }

  /** An idle, healthy worker always says READY with no job; a busy one always names its job. */
  lemma BeatTellsTheTruth(w: Worker)
    ensures BeatOf(w).job == w.busy
    ensures BeatOf(w).status.Ready? <==> w.busy == "" && !w.draining
    ensures BeatOf(w).status.Busy? <==> w.busy != "" && !w.draining
    ensures BeatOf(w).status.Draining? <==> w.draining
  {
  }

  class AgentProcess {
    var up: bool
    var busyJob: string
    var draining: bool
    var removed: bool
    var beat: Option<Beat>

    ghost function View(): Worker
      reads this
    {
      Worker(up, busyJob, draining, removed, beat)
    }

    /** The state once the first join has been answered. */
    constructor ()
      ensures View() == STARTED
    {
      up, busyJob, draining, removed, beat := true, "", false, false, None;
    }

    /** tryClaim: decides whether to ask at all, and digests the answer when it does. */
    method TryClaim(reply: ClaimReply) returns (goOn: bool)
      requires up && beat.None?
      modifies this
      ensures View() == if old(MayClaim(View())) then AfterClaimReply(old(View()), reply) else old(View())
      ensures goOn <==> !(old(MayClaim(View())) && reply.ClaimNotRegistered?)
    {
      if busyJob != "" || draining || removed {
        return true;
      }
      match reply
      case ClaimNotRegistered =>
        removed := true;
        up := false;
        return false;
      case ClaimFailed =>
        return true;
      case NoWork =>
        return true;
      case Got(id) =>
        busyJob := id;
        return true;
    }

    /** First half of heartbeat: the status and job are read under the lock. */
    method ComposeBeat() returns (b: Beat)
      requires up && beat.None?
      modifies this`beat
      ensures b == BeatOf(old(View()))
      ensures View() == old(View()).(beat := Some(b))
    {
      var status := Ready;
      var job := "";
      if draining {
        status := Draining;
      }
      if busyJob != "" {
        job := busyJob;
        if !draining {
          status := Busy;
        }
      }
      b := Beat(status, job);
      beat := Some(b);
    }

    /** Second half of heartbeat: the answer, if any. */
    method DigestBeat(reply: BeatReply) returns (goOn: bool)
      requires up && beat.Some?
      modifies this
      ensures View() == AfterBeatReply(old(View()), reply)
      ensures goOn <==> !reply.BeatNotRegistered?
    {
      beat := None;
      match reply
      case BeatNotRegistered =>
        removed := true;
        up := false;
        return false;
      case BeatFailed =>
        return true;
      case Answered(status) =>
        if status.Draining? {
          draining := true;
        }
        return true;
    }

    /** End of the report goroutine, whether or not the report got through. */
    method JobDone()
      modifies this`busyJob
      ensures View() == old(View()).(busy := "")
    {
      busyJob := "";
    }
  }
}
