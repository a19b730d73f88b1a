/** Runs from the empty plane in which a granted leave fails a job that its worker is still executing. */
module LeavingRuns {
  import opened Gpu
  import opened ModelIdentity
  import opened Resources
  import opened Jobs
  import opened Nodes
  import opened Scheduler
  import opened Plane
  import opened Agent
  import opened Protocol

  const EMPTY := System(State(map[], map[]), map[])
  const CARD := GPU("0", "u", "nvidia", "card", 8, 0, "", "", "", None, None, None, "p", "")
  const HELLO := Report("n", [CARD], "v", Ready, "", 1, [], None)
  const SMOKE := Order("j", GpuSmoke, "", Requirements(true, 0, "", "", "", false, ""), map[])

  /** The node has joined and is free. */
  ghost predicate Started(s: System) {
    && s.plane.jobs == map[] && s.plane.nodes.Keys == {"n"} && s.plane.nodes["n"].nodeID == "n"
    && Fits(s.plane.nodes["n"], SMOKE.req)
    && s.workers == map["n" := STARTED]
  }

  /** A job waits for it. */
  ghost predicate Placed(s: System) {
    && s.plane.jobs.Keys == {"j"} && PendsOn(s.plane.jobs, "j", "n")
    && s.plane.nodes.Keys == {"n"} && Fits(s.plane.nodes["n"], SMOKE.req)
    && s.workers == map["n" := STARTED]
  }

  /** Its worker is at the job. */
  ghost predicate Working(s: System) {
    && RunsOn(s.plane.jobs, "j", "n") && "n" in s.plane.nodes && "n" in s.workers
    && s.workers["n"].up && s.workers["n"].busy == "j"
  }

  /** The plane takes the job for failed while the worker is still at it. */
  predicate Lost(s: System) {
    && "j" in s.plane.jobs && s.plane.jobs["j"].status.Failed? && "n" !in s.plane.nodes
    && "n" in s.workers && s.workers["n"].up && s.workers["n"].busy == "j"
  }

  lemma Extend(states: seq<System>, events: seq<Event>, e: Event, t: System)
    requires Run(states, events) && Step(states[|states| - 1], e, t)
    ensures Run(states + [t], events + [e])
  {
    hide Step;
    var ss, ee := states + [t], events + [e];
    forall i | 0 <= i < |ee|
      ensures Step(ss[i], ee[i], ss[i + 1])
    {
      assert i < |events| ==> ss[i] == states[i] && ss[i + 1] == states[i + 1] && ee[i] == events[i];
    }
  }

  lemma Joins() returns (t: System)
    ensures Step(EMPTY, WorkerStart(HELLO, 0, true), t) && Started(t)
  {
    var p := EMPTY.plane;
    t := Put(EMPTY, JoinServed(p, HELLO, 0), "n", STARTED);
    assert FailedInFlight(p.jobs, "n", "", "worker restarted", false, 0) == map[];
    var row := t.plane.nodes["n"];
    assert row.resources == ProfileOf([CARD], 1, 0);
  }

  lemma Places(s: System) returns (t: System)
    requires Started(s)
    ensures Step(s, CreateCall(SMOKE, 0), t) && Placed(t)
  {
    t := s.(plane := AfterCreate(s.plane, SMOKE, 0));
    var r := NewJob("j", GpuSmoke, "", SMOKE.req, SMOKE.payload, 0);
    assert r.Accepted? && r.job.requirements == SMOKE.req;
    ChoiceIsBest(s.plane.nodes, r.job);
    assert Candidate(s.plane.nodes["n"], r.job);
  }

  lemma Claims(s: System) returns (t: System)
    requires Placed(s)
    ensures Step(s, WorkerClaim("n", 0, Some("j"), true), t) && Working(t)
    ensures t.plane.nodes["n"].status.Busy? && t.plane.nodes["n"].identity == s.plane.nodes["n"].identity
  {
    var p := s.plane;
    var after := State(Claimed(p.jobs, "j", 0), p.nodes["n" := StatusRow(p.nodes["n"], Busy, "j", 0)]);
    t := Put(s, after, "n", AfterClaimReply(STARTED, Got("j")));
    assert ClaimYields(p, "n", 0, Some("j"), after);
  }

  /** A run that brings the node to its job. */
  lemma WorkingRun() returns (states: seq<System>, events: seq<Event>)
    ensures Run(states, events) && |events| == 3 && Working(states[3])
    ensures states[3].plane.nodes["n"].status.Busy? && states[3].plane.nodes["n"].identity.Active?
  {
    var s1 := Joins();
    var s2 := Places(s1);
    var s3 := Claims(s2);
    states, events := [EMPTY], [];
    Extend(states, events, WorkerStart(HELLO, 0, true), s1);
    states, events := states + [s1], events + [WorkerStart(HELLO, 0, true)];
    Extend(states, events, CreateCall(SMOKE, 0), s2);
    states, events := states + [s2], events + [CreateCall(SMOKE, 0)];
    Extend(states, events, WorkerClaim("n", 0, Some("j"), true), s3);
    states, events := states + [s3], events + [WorkerClaim("n", 0, Some("j"), true)];
  }

  /** Three more events of a run. */
  lemma ExtendByThree(states: seq<System>, events: seq<Event>, e: Event, t: System, f: Event, u: System, g: Event, v: System)
    requires Run(states, events) && Step(states[|states| - 1], e, t) && Step(t, f, u) && Step(u, g, v)
    ensures Run(states + [t] + [u] + [v], events + [e] + [f] + [g])
  {
    hide Run, Step;
    Extend(states, events, e, t);
    Extend(states + [t], events + [e], f, u);
    Extend(states + [t] + [u], events + [e] + [f], g, v);
  }

  lemma TwoDrains(s: System) returns (t: System, u: System, v: System)
    requires Working(s) && s.plane.nodes["n"].status.Busy? && s.plane.nodes["n"].identity.Active?
    ensures Step(s, DrainCall("n", 0), t) && Step(t, DrainCall("n", 0), u) && Step(u, LeaveCall("n", 0), v)
    ensures Working(u) && Lost(v)
  {
    t := s.(plane := DrainServed(s.plane, "n", 0));
    u := t.(plane := DrainServed(t.plane, "n", 0));
    v := u.(plane := LeaveServed(u.plane, "n", 0));
  }

  lemma EnrolledAgain(s: System) returns (t: System, u: System, v: System)
    requires Working(s)
    ensures Step(s, IdentityCall("n", Revoked), t) && Step(t, EnrollCall("n", "c", 0), u) && Step(u, LeaveCall("n", 0), v)
    ensures Working(u) && Lost(v)
  {
    t := s.(plane := AfterSetIdentity(s.plane, "n", Revoked));
    u := t.(plane := AfterEnroll(t.plane, "n", "c", 0));
    v := u.(plane := LeaveServed(u.plane, "n", 0));
  }

  /** A run in which two drains of a working node let its leave through: the job fails at the plane
      while the worker is still at it. */
  lemma DrainTwiceRun() returns (states: seq<System>, events: seq<Event>)
    ensures Run(states, events) && |events| == 6 && events[3..] == [DrainCall("n", 0), DrainCall("n", 0), LeaveCall("n", 0)]
    ensures Working(states[5]) && Lost(states[6])
  {
    hide Step, Run, Working, Lost;
    states, events := WorkingRun();
    var t, u, v := TwoDrains(states[3]);
    ExtendByThree(states, events, DrainCall("n", 0), t, DrainCall("n", 0), u, LeaveCall("n", 0), v);
    states, events := states + [t] + [u] + [v], events + [DrainCall("n", 0)] + [DrainCall("n", 0)] + [LeaveCall("n", 0)];
  }

  /** The same after a working node is revoked and enrolled again. */
  lemma EnrolledAgainRun() returns (states: seq<System>, events: seq<Event>)
    ensures Run(states, events) && |events| == 6 && events[3..] == [IdentityCall("n", Revoked), EnrollCall("n", "c", 0), LeaveCall("n", 0)]
    ensures Working(states[5]) && Lost(states[6])
  {
    hide Step, Run, Working, Lost;
    states, events := WorkingRun();
    var t, u, v := EnrolledAgain(states[3]);
    ExtendByThree(states, events, IdentityCall("n", Revoked), t, EnrollCall("n", "c", 0), u, LeaveCall("n", 0), v);
    states, events := states + [t] + [u] + [v], events + [IdentityCall("n", Revoked)] + [EnrollCall("n", "c", 0)] + [LeaveCall("n", 0)];
  }
}
