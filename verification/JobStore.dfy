/** The job table of the control plane (internal/server/jobs.go): its state machine, its file, its history. */
module Jobs {
  import opened ModelIdentity
  import opened Resources

  datatype JobType = GpuSmoke | Inference | OtherType(text: string)

  datatype JobStatus = Queued | Pending | Running | Succeeded | Failed

  type Payload = map<string, string>

  datatype Job = Job(
    id: string,
    jobType: JobType,
    status: JobStatus,
    nodeID: string,
    preferredNodeID: string,
    requirements: Requirements,
    payload: Payload,
    createdAt: nat,
    startedAt: nat,
    finishedAt: nat,
    result: Payload,
    error: string)

  datatype CreateError = UnsupportedType | ModelRequired | PromptRequired

  datatype Created = Accepted(job: Job) | Rejected(reason: CreateError)

  type JobTable = map<string, Job>

  predicate InFlight(j: Job) {
    j.status.Pending? || j.status.Running?
  }

  predicate RunsOn(jobs: JobTable, id: string, node: string) {
    id in jobs && jobs[id].status.Running? && jobs[id].nodeID == node
  }

  predicate PendsOn(jobs: JobTable, id: string, node: string) {
    id in jobs && jobs[id].status.Pending? && jobs[id].nodeID == node
  }

  // ---------------------------------------------------------------- operations as functions of the table

  function DefaultRequirements(t: JobType): Requirements {
    Requirements(t.GpuSmoke? || t.Inference?, 0, "", "", "", false, "")
  }

  function Prompt(payload: Payload): string {
    if "prompt" in payload then payload["prompt"] else ""
  }

  /** The requirements a new job carries after normalization and defaulting. */
  function EffectiveRequirements(t: JobType, raw: Requirements): Requirements {
    var req := Normalized(raw);
    var forced := if t.Inference? && !req.gpuRequired && req.minVRAM == 0 then req.(gpuRequired := true) else req;
    if !forced.gpuRequired && forced.minVRAM == 0 && ModelKey(forced).name == "" then DefaultRequirements(t) else forced
  }

  function NewJob(id: string, t: JobType, preferred: string, raw: Requirements, payload: Payload, now: nat): Created {
    if t.OtherType? then Rejected(UnsupportedType)
    else if t.Inference? && ModelKey(Normalized(raw)).name == "" then Rejected(ModelRequired)
    else if t.Inference? && Prompt(payload) == "" then Rejected(PromptRequired)
    else Accepted(Job(id, t, Queued, "", preferred, EffectiveRequirements(t, raw), payload, now, 0, 0, map[], ""))
  }

  function Assigned(jobs: JobTable, id: string, node: string): JobTable {
    if id in jobs && jobs[id].status.Queued? then jobs[id := jobs[id].(status := Pending, nodeID := node)] else jobs
  }

  /** id is a pending job of the node that no other pending job of the node predates. */
  ghost predicate Claimable(jobs: JobTable, node: string, id: string) {
    && PendsOn(jobs, id, node)
    && forall k :: PendsOn(jobs, k, node) ==> jobs[id].createdAt <= jobs[k].createdAt
  }

  function Claimed(jobs: JobTable, id: string, now: nat): JobTable
    requires id in jobs
  {
    jobs[id := jobs[id].(status := Running, startedAt := now)]
  }

  function Completed(jobs: JobTable, id: string, ok: bool, result: Payload, error: string, now: nat): JobTable {
    if id !in jobs then jobs
    else jobs[id := jobs[id].(status := if ok then Succeeded else Failed,
                              error := if ok then "" else error, result := result, finishedAt := now)]
  }

  /** Which jobs a node's loss or a worker's report takes down. */
  predicate Doomed(j: Job, node: string, keep: string, includePending: bool) {
    && j.nodeID == node
    && (j.status.Running? || (j.status.Pending? && includePending))
    && !(keep != "" && j.id == keep)
  }

  ghost function DoomedIds(jobs: JobTable, node: string, keep: string, includePending: bool): set<string> {
    set id | id in jobs && Doomed(jobs[id], node, keep, includePending)
  }

  function TakenDown(j: Job, error: string, now: nat): Job {
    j.(status := Failed, error := error, finishedAt := now)
  }

  ghost function Struck(jobs: JobTable, hit: set<string>, error: string, now: nat): JobTable {
    map id | id in jobs :: if id in hit then TakenDown(jobs[id], error, now) else jobs[id]
  }

  /** One more id visited: nothing changes unless it is doomed, and then exactly that job is struck. */
  lemma StrikeStep(jobs: JobTable, doomed: set<string>, todo: set<string>, id: string, error: string, now: nat)
    requires id in todo && id in jobs
    ensures var done := Struck(jobs, doomed - todo, error, now);
            var next := Struck(jobs, doomed - (todo - {id}), error, now);
            && done[id] == jobs[id]
            && next == (if id in doomed then done[id := TakenDown(jobs[id], error, now)] else done)
            && |doomed - (todo - {id})| == |doomed - todo| + (if id in doomed then 1 else 0)
  {
    assert id !in doomed - todo;
    assert doomed - (todo - {id}) == (doomed - todo) + (if id in doomed then {id} else {});
  }

  lemma StrikeNone(jobs: JobTable, error: string, now: nat)
    ensures Struck(jobs, {}, error, now) == jobs
  {
  }

  ghost function FailedInFlight(jobs: JobTable, node: string, keep: string, error: string, includePending: bool, now: nat): JobTable {
    Struck(jobs, DoomedIds(jobs, node, keep, includePending), error, now)
  }

  // ---------------------------------------------------------------- the file

  /** A list that saveLocked may have written for a table: every job, in any order. */
  ghost predicate Listing(list: seq<Job>, jobs: JobTable) {
    && (forall i :: 0 <= i < |list| ==> list[i].id in jobs && jobs[list[i].id] == list[i])
    && (forall id :: id in jobs ==> jobs[id] in list)
    && (forall i, j :: 0 <= i < j < |list| ==> list[i].id != list[j].id)
  }

  function Repaired(j: Job): Job {
    if j.status.Pending? && j.nodeID == "" then j.(status := Queued) else j
  }

  function FromFile(list: seq<Job>): (jobs: JobTable) {
    if list == [] then map[]
    else
      var j := list[|list| - 1];
      var before := FromFile(list[..|list| - 1]);
      if j.id == "" then before else before[j.id := Repaired(j)]
  }

  /** What every reachable table satisfies. */
  ghost predicate WellFormed(jobs: JobTable) {
    forall id :: id in jobs ==>
      && id != "" && jobs[id].id == id
      && (jobs[id].status.Queued? ==> jobs[id].nodeID == "")
      && (InFlight(jobs[id]) ==> jobs[id].nodeID != "")
  }

  lemma {:induction false} FromFileContents(list: seq<Job>)
    requires forall i, j :: 0 <= i < j < |list| ==> list[i].id != list[j].id
    requires forall i :: 0 <= i < |list| ==> list[i].id != ""
    ensures forall i :: 0 <= i < |list| ==> list[i].id in FromFile(list) && FromFile(list)[list[i].id] == Repaired(list[i])
    ensures forall id :: id in FromFile(list) ==> exists i :: 0 <= i < |list| && list[i].id == id
  {
    if list != [] {
      var init := list[..|list| - 1];
      FromFileContents(init);
      var j := list[|list| - 1];
      forall id | id in FromFile(list) ensures exists i :: 0 <= i < |list| && list[i].id == id {
        if id != j.id {
          assert id in FromFile(init);
          var i :| 0 <= i < |init| && init[i].id == id;
          assert list[i].id == id;
        } else {
          assert list[|list| - 1].id == id;
        }
      }
      forall i | 0 <= i < |list| ensures list[i].id in FromFile(list) && FromFile(list)[list[i].id] == Repaired(list[i]) {
        if i < |init| {
          assert init[i] == list[i];
        }
      }
    }
  }

  /** Reading back any listing of a table keyed by id gives the same table exactly when no pending
      job lacks a node, which is when the load-time repair has nothing to repair. */
  lemma PersistenceRoundTrip(list: seq<Job>, jobs: JobTable)
    requires Listing(list, jobs) && forall id :: id in jobs ==> id != "" && jobs[id].id == id
    ensures FromFile(list) == jobs <==> forall id :: id in jobs && jobs[id].status.Pending? ==> jobs[id].nodeID != ""
  {
    FromFileContents(list);
    forall id | id in jobs
      ensures id in FromFile(list) && FromFile(list)[id] == Repaired(jobs[id])
    {
      assert jobs[id] in list;
    }
    assert FromFile(list).Keys == jobs.Keys;
  }

  // ---------------------------------------------------------------- histories of calls

  /** Position in the life cycle; success and failure are equally terminal. */
  function Rank(s: JobStatus): nat {
    match s
    case Queued => 0
    case Pending => 1
    case Running => 2
    case Succeeded => 3
    case Failed => 3
  }

  /** No job is lost, none moves backwards, and a node once written is never changed. */
  ghost predicate Evolves(before: JobTable, after: JobTable) {
    forall id :: id in before ==>
      && id in after
      && Rank(before[id].status) <= Rank(after[id].status)
      && (before[id].nodeID != "" ==> after[id].nodeID == before[id].nodeID)
  }

  lemma EvolvesTransitive(a: JobTable, b: JobTable, c: JobTable)
    requires Evolves(a, b) && Evolves(b, c)
    ensures Evolves(a, c)
  {
  }

  /** One call on the store. A claim records the id it handed out; a restart, the file it read. */
  datatype JobCall =
    | Create(id: string, jobType: JobType, preferred: string, req: Requirements, payload: Payload, now: nat)
    | Assign(id: string, node: string)
    | Claim(node: string, now: nat, got: Option<string>)
    | Complete(id: string, ok: bool, result: Payload, error: string, now: nat)
    | FailInFlight(node: string, keep: string, error: string, includePending: bool, now: nat)
    | Restart(file: seq<Job>)

  ghost predicate Performs(c: JobCall, before: JobTable, after: JobTable) {
    match c
    case Create(id, t, preferred, req, payload, now) =>
      && id != "" && id !in before
      && var r := NewJob(id, t, preferred, req, payload, now);
         after == if r.Accepted? then before[id := r.job] else before
    case Assign(id, node) =>
      after == Assigned(before, id, node)
    case Claim(node, now, got) =>
      if got.Some? then Claimable(before, node, got.value) && after == Claimed(before, got.value, now)
      else after == before && forall k :: !PendsOn(before, k, node)
    case Complete(id, ok, result, error, now) =>
      after == Completed(before, id, ok, result, error, now)
    case FailInFlight(node, keep, error, includePending, now) =>
      after == FailedInFlight(before, node, keep, error, includePending, now)
    case Restart(file) =>
      Listing(file, before) && after == FromFile(file)
  }

  /** The scheduler never assigns a job to a nameless node. */
  predicate NamesNode(c: JobCall) {
    c.Assign? ==> c.node != ""
  }

  lemma ReplaceEvolves(before: JobTable, id: string, j: Job)
    requires WellFormed(before) && id != "" && j.id == id
    requires j.status.Queued? ==> j.nodeID == ""
    requires InFlight(j) ==> j.nodeID != ""
    requires id in before ==> Rank(before[id].status) <= Rank(j.status) && (before[id].nodeID != "" ==> j.nodeID == before[id].nodeID)
    ensures WellFormed(before[id := j]) && Evolves(before, before[id := j])
  {
  }

  lemma FailEvolves(before: JobTable, node: string, keep: string, error: string, includePending: bool, now: nat)
    requires WellFormed(before)
    ensures WellFormed(FailedInFlight(before, node, keep, error, includePending, now))
    ensures Evolves(before, FailedInFlight(before, node, keep, error, includePending, now))
  {
  }

  lemma CallEvolves(c: JobCall, before: JobTable, after: JobTable)
    requires WellFormed(before) && Performs(c, before, after) && NamesNode(c)
    ensures WellFormed(after) && Evolves(before, after)
  {
    match c
    case Create(id, t, preferred, req, payload, now) =>
      var r := NewJob(id, t, preferred, req, payload, now);
      if r.Accepted? {
        ReplaceEvolves(before, id, r.job);
      }
    case Assign(id, node) =>
      if id in before && before[id].status.Queued? {
        ReplaceEvolves(before, id, before[id].(status := Pending, nodeID := node));
      }
    case Claim(node, now, got) =>
      if got.Some? {
        ReplaceEvolves(before, got.value, before[got.value].(status := Running, startedAt := now));
      }
    case Complete(id, ok, result, error, now) =>
      if id in before {
        ReplaceEvolves(before, id, after[id]);
      }
    case FailInFlight(node, keep, error, includePending, now) =>
      FailEvolves(before, node, keep, error, includePending, now);
    case Restart(file) =>
      PersistenceRoundTrip(file, before);
  }

  /** A store's life from the empty table: any calls in any order, any number of restarts. */
  ghost predicate History(tables: seq<JobTable>, calls: seq<JobCall>) {
    && |tables| == |calls| + 1 && tables[0] == map[]
    && (forall i {:trigger calls[i]} :: 0 <= i < |calls| ==> NamesNode(calls[i]) && Performs(calls[i], tables[i], tables[i + 1]))
  }

  /** Over any history: jobs never disappear, rank never decreases, the node is written at most once. */
  lemma {:induction false} HistoryEvolves(tables: seq<JobTable>, calls: seq<JobCall>, i: nat, j: nat)
    requires History(tables, calls) && i <= j < |tables|
    ensures WellFormed(tables[j]) && Evolves(tables[i], tables[j])
    decreases j
  {
    if j > 0 {
      HistoryEvolves(tables, calls, if i < j then i else j - 1, j - 1);
      CallEvolves(calls[j - 1], tables[j - 1], tables[j]);
      if i < j {
        EvolvesTransitive(tables[i], tables[j - 1], tables[j]);
      }
    }
  }

  /** No job id is ever handed out by two claims. */
  lemma ClaimedAtMostOnce(tables: seq<JobTable>, calls: seq<JobCall>, i: nat, j: nat)
    requires History(tables, calls) && i < j < |calls|
    requires calls[i].Claim? && calls[i].got.Some? && calls[j].Claim? && calls[j].got.Some?
    ensures calls[i].got.value != calls[j].got.value
  {
    HistoryEvolves(tables, calls, i + 1, j);
    assert Performs(calls[i], tables[i], tables[i + 1]) && Performs(calls[j], tables[j], tables[j + 1]);
  }

  /** A restart moves some job backwards exactly when a pending job has no node. */
  lemma RestartEvolvesIff(file: seq<Job>, jobs: JobTable)
    requires Listing(file, jobs) && forall id :: id in jobs ==> id != "" && jobs[id].id == id
    ensures Evolves(jobs, FromFile(file)) <==> forall id :: id in jobs && jobs[id].status.Pending? ==> jobs[id].nodeID != ""
  {
    PersistenceRoundTrip(file, jobs);
    FromFileContents(file);
    forall id | id in jobs ensures id in FromFile(file) && FromFile(file)[id] == Repaired(jobs[id]) {
      assert jobs[id] in file;
    }
  }

  // ---------------------------------------------------------------- the store itself

  /** The map and its file. The mutex of the original makes each method one atomic call. */
  class JobStore {
    var jobs: JobTable
    var disk: seq<Job>

    ghost predicate Keyed()
      reads this
    {
      forall id :: id in jobs ==> jobs[id].id == id
    }

    ghost predicate Saved()
      reads this
    {
      Listing(disk, jobs)
    }

    constructor Open(file: seq<Job>)
      ensures jobs == FromFile(file) && disk == file && Keyed()
    {
      jobs := map[];
      disk := file;
      new;
      for k := 0 to |file|
        invariant jobs == FromFile(file[..k]) && disk == file && Keyed()
      {
        var j := file[k];
        assert file[..k + 1][..k] == file[..k];
        if j.id != "" {
          if j.status.Pending? && j.nodeID == "" {
            j := j.(status := Queued);
          }
          jobs := jobs[j.id := j];
        }
      }
      assert file[..|file|] == file;
    }

    /** saveLocked: the file becomes a listing of the map, in whatever order the map is walked. */
    method Save()
      requires Keyed()
      modifies this`disk
      ensures Saved()
    {
      var list: seq<Job> := [];
      var todo := jobs.Keys;
      while todo != {}
        invariant todo <= jobs.Keys
        invariant forall i :: 0 <= i < |list| ==> list[i].id in jobs && list[i].id !in todo && jobs[list[i].id] == list[i]
        invariant forall id :: id in jobs && id !in todo ==> jobs[id] in list
        invariant forall i, j :: 0 <= i < j < |list| ==> list[i].id != list[j].id
        decreases |todo|
      {
        var id :| id in todo;
        list := list + [jobs[id]];
        todo := todo - {id};
      }
      disk := list;
    }

    method Create(id: string, t: JobType, preferred: string, req: Requirements, payload: Payload, now: nat) returns (r: Created)
      requires Keyed() && Saved() && id != "" && id !in jobs
      modifies this
      ensures Keyed() && Saved()
      ensures r == NewJob(id, t, preferred, req, payload, now)
      ensures Performs(JobCall.Create(id, t, preferred, req, payload, now), old(jobs), jobs)
    {
      if t.OtherType? {
        return Rejected(UnsupportedType);
      }
      var req' := Normalized(req);
      if t.Inference? {
        if ModelKey(req').name == "" {
          return Rejected(ModelRequired);
        }
        if Prompt(payload) == "" {
          return Rejected(PromptRequired);
        }
        if !req'.gpuRequired && req'.minVRAM == 0 {
          req' := req'.(gpuRequired := true);
        }
      }
      if !req'.gpuRequired && req'.minVRAM == 0 && ModelKey(req').name == "" {
        req' := DefaultRequirements(t);
      }
      var j := Job(id, t, Queued, "", preferred, req', payload, now, 0, 0, map[], "");
      jobs := jobs[id := j];
      Save();
      r := Accepted(j);
    }

    method Assign(id: string, node: string) returns (ok: bool)
      requires Keyed() && Saved()
      modifies this
      ensures Keyed() && Saved()
      ensures ok == (id in old(jobs) && old(jobs)[id].status.Queued?)
      ensures Performs(JobCall.Assign(id, node), old(jobs), jobs)
    {
      if id !in jobs || !jobs[id].status.Queued? {
        return false;
      }
      jobs := jobs[id := jobs[id].(status := Pending, nodeID := node)];
      Save();
      ok := true;
    }

    method Claim(node: string, now: nat) returns (r: Option<Job>)
      requires Keyed() && Saved()
      modifies this
      ensures Keyed() && Saved()
      ensures Performs(JobCall.Claim(node, now, if r.Some? then Some(r.value.id) else None), old(jobs), jobs)
      ensures r.Some? ==> r.value.id in jobs && r.value == jobs[r.value.id]
    {
      var chosen: Option<Job> := None;
      var todo := jobs.Keys;
      while todo != {}
        invariant todo <= jobs.Keys
        invariant chosen.Some? ==> PendsOn(jobs, chosen.value.id, node) && jobs[chosen.value.id] == chosen.value
        invariant chosen.Some? ==> forall k :: PendsOn(jobs, k, node) && k !in todo ==> chosen.value.createdAt <= jobs[k].createdAt
        invariant chosen.None? ==> forall k :: PendsOn(jobs, k, node) ==> k in todo
        decreases |todo|
      {
        var id :| id in todo;
        todo := todo - {id};
        var j := jobs[id];
        if j.status.Pending? && j.nodeID == node {
          if chosen.None? || j.createdAt < chosen.value.createdAt {
            chosen := Some(j);
          }
        }
      }
      if chosen.None? {
        return None;
      }
      var j := chosen.value.(status := Running, startedAt := now);
      jobs := jobs[j.id := j];
      Save();
      r := Some(j);
    }

    method Complete(id: string, ok: bool, result: Payload, error: string, now: nat) returns (r: Option<Job>)
      requires Keyed() && Saved()
      modifies this
      ensures Keyed() && Saved()
      ensures Performs(JobCall.Complete(id, ok, result, error, now), old(jobs), jobs)
      ensures r == if id in old(jobs) then Some(jobs[id]) else None
    {
      if id !in jobs {
        return None;
      }
      var j := jobs[id];
      if ok {
        j := j.(status := Succeeded, error := "");
      } else {
        j := j.(status := Failed, error := error);
      }
      j := j.(result := result, finishedAt := now);
      jobs := jobs[id := j];
      Save();
      r := Some(j);
    }

    /** The walk over the map inside failInFlight. */
    method Strike(node: string, keep: string, error: string, includePending: bool, now: nat) returns (n: nat)
      modifies this`jobs
      ensures jobs == FailedInFlight(old(jobs), node, keep, error, includePending, now)
      ensures n == |DoomedIds(old(jobs), node, keep, includePending)|
    {
      ghost var was := jobs;
      ghost var doomed := DoomedIds(was, node, keep, includePending);
      n := 0;
      var todo := jobs.Keys;
      assert doomed - todo == {};
      StrikeNone(was, error, now);
      while todo != {}
        invariant todo <= was.Keys
        invariant n == |doomed - todo|
        invariant jobs == Struck(was, doomed - todo, error, now)
        decreases |todo|
      {
        var id :| id in todo;
        StrikeStep(was, doomed, todo, id, error, now);
        var j := jobs[id];
        if j.nodeID == node && (j.status.Running? || (j.status.Pending? && includePending)) && !(keep != "" && j.id == keep) {
          jobs := jobs[id := j.(status := Failed, error := error, finishedAt := now)];
          n := n + 1;
        }
        todo := todo - {id};
      }
      assert doomed - todo == doomed;
    }

    /** failInFlight: the count returned is exactly the number of jobs taken down. */
    method FailInFlight(node: string, keep: string, error: string, includePending: bool, now: nat) returns (n: nat)
      requires Keyed() && Saved()
      modifies this
      ensures Keyed() && Saved()
      ensures jobs == FailedInFlight(old(jobs), node, keep, error, includePending, now)
      ensures n == |DoomedIds(old(jobs), node, keep, includePending)|
    {
      n := Strike(node, keep, error, includePending, now);
      if n > 0 {
        Save();
      } else {
        StrikeNone(old(jobs), error, now);
      }
    }

    /** Jobs of one status, oldest first. */
    method ListByStatus(status: JobStatus) returns (out: seq<Job>)
      requires Keyed()
      ensures forall j :: j in out <==> j.id in jobs && jobs[j.id] == j && j.status == status
      ensures forall i, k :: 0 <= i < k < |out| ==> out[i].createdAt <= out[k].createdAt
    {
      out := [];
      var todo := jobs.Keys;
      while todo != {}
        invariant todo <= jobs.Keys
        invariant forall j :: j in out <==> j.id in jobs && j.id !in todo && jobs[j.id] == j && j.status == status
        invariant forall i, k :: 0 <= i < k < |out| ==> out[i].createdAt <= out[k].createdAt
        decreases |todo|
      {
        var id :| id in todo;
        todo := todo - {id};
        if jobs[id].status == status {
          out := InsertByAge(out, jobs[id]);
        }
      }
    }

    static method InsertByAge(list: seq<Job>, j: Job) returns (out: seq<Job>)
      requires forall i, k :: 0 <= i < k < |list| ==> list[i].createdAt <= list[k].createdAt
      ensures forall i, k :: 0 <= i < k < |out| ==> out[i].createdAt <= out[k].createdAt
      ensures forall x :: x in out <==> x in list || x == j
    {
      var k := 0;
      while k < |list| && list[k].createdAt <= j.createdAt
        invariant 0 <= k <= |list|
        invariant forall i :: 0 <= i < k ==> list[i].createdAt <= j.createdAt
      {
        k := k + 1;
      }
      out := list[..k] + [j] + list[k..];
      assert list == list[..k] + list[k..];
    }
  }
}
