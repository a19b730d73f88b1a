/** Node selection and the scheduling pass (internal/server/scheduler.go). */
module Scheduler {
  import opened Text
  import opened Resources
  import opened Jobs
  import opened Nodes

  /** A node the job may be assigned to: it fits, and matches the job's pins. */
  predicate Candidate(n: Node, j: Job) {
    && (j.preferredNodeID != "" ==> n.nodeID == j.preferredNodeID)
    && (j.nodeID != "" ==> n.nodeID == j.nodeID)
    && Fits(n, j.requirements)
  }

  predicate Beats(a: Node, b: Node, req: Requirements) {
    || ModelScore(a, req) > ModelScore(b, req)
    || (ModelScore(a, req) == ModelScore(b, req) && Less(a.nodeID, b.nodeID))
  }

  ghost predicate KeyedNodes(nodes: NodeTable) {
    forall id :: id in nodes ==> id != "" && nodes[id].nodeID == id
  }

  /** id names the candidate with the highest score, and the smallest id among those. */
  ghost predicate IsBest(nodes: NodeTable, j: Job, id: string) {
    && id in nodes && Candidate(nodes[id], j)
    && forall k :: k in nodes && k != id && Candidate(nodes[k], j) ==> Beats(nodes[id], nodes[k], j.requirements)
  }

  ghost predicate HasCandidate(nodes: NodeTable, j: Job) {
    exists id :: id in nodes && Candidate(nodes[id], j)
  }

  lemma BestUnique(nodes: NodeTable, j: Job, a: string, b: string)
    requires KeyedNodes(nodes) && IsBest(nodes, j, a) && IsBest(nodes, j, b)
    ensures a == b
  {
    if a != b {
      assert Beats(nodes[a], nodes[b], j.requirements) && Beats(nodes[b], nodes[a], j.requirements);
      LessTransitive(a, b, a);
      LessIrreflexive(a);
    }
  }

  lemma BeatsOrder(a: Node, b: Node, c: Node, req: Requirements)
    ensures Beats(a, b, req) && Beats(b, c, req) ==> Beats(a, c, req)
    ensures a.nodeID != b.nodeID ==> Beats(a, b, req) || Beats(b, a, req)
  {
    if Less(a.nodeID, b.nodeID) && Less(b.nodeID, c.nodeID) {
      LessTransitive(a.nodeID, b.nodeID, c.nodeID);
    }
    LessTotal(a.nodeID, b.nodeID);
  }

  /** The node a job goes to, as a function of the registry alone; "" when there is none. */
  ghost function Choice(nodes: NodeTable, j: Job): string {
    if exists id :: IsBest(nodes, j, id) then var id :| IsBest(nodes, j, id); id else ""
  }

  /** Walking any listing of the registry, in any order, gives the same answer. */
  method SelectNode(list: seq<Node>, j: Job, ghost nodes: NodeTable) returns (best: string)
    requires KeyedNodes(nodes) && NodeList(list, nodes)
    ensures best == Choice(nodes, j)
    ensures best == "" <==> !HasCandidate(nodes, j)
    ensures best != "" ==> IsBest(nodes, j, best)
  {
    best := "";
    var bestScore: int := -1;
    for k := 0 to |list|
      invariant best == "" ==> forall i :: 0 <= i < k ==> !Candidate(list[i], j)
      invariant best != "" ==> best in nodes && Candidate(nodes[best], j) && bestScore == ModelScore(nodes[best], j.requirements)
      invariant best != "" ==> forall i :: 0 <= i < k && list[i].nodeID != best && Candidate(list[i], j) ==>
                  Beats(nodes[best], list[i], j.requirements)
      invariant best != "" ==> exists i :: 0 <= i < k && list[i].nodeID == best
    {
      var n := list[k];
      var fits := CheckFits(n, j.requirements);
      if (j.preferredNodeID == "" || n.nodeID == j.preferredNodeID) && (j.nodeID == "" || n.nodeID == j.nodeID) && fits {
        var score := ModelScore(n, j.requirements);
        if best == "" || score > bestScore || (score == bestScore && Less(n.nodeID, best)) {
          forall i | 0 <= i < k && Candidate(list[i], j)
            ensures Beats(n, list[i], j.requirements)
          {
            BeatsOrder(n, nodes[best], list[i], j.requirements);
          }
          best := n.nodeID;
          bestScore := score;
        } else {
          BeatsOrder(n, nodes[best], n, j.requirements);
        }
      }
    }
    if best != "" {
      forall id | id in nodes && id != best && Candidate(nodes[id], j)
        ensures Beats(nodes[best], nodes[id], j.requirements)
      {
        assert nodes[id] in list;
      }
      assert IsBest(nodes, j, best);
      BestUnique(nodes, j, best, Choice(nodes, j));
    } else {
      forall id | id in nodes
        ensures !Candidate(nodes[id], j)
      {
        assert nodes[id] in list;
      }
    }
  }

  lemma {:induction false} BestAmong(nodes: NodeTable, j: Job, ids: set<string>) returns (best: string)
    requires KeyedNodes(nodes) && ids <= nodes.Keys && exists id :: id in ids && Candidate(nodes[id], j)
    ensures best in ids && Candidate(nodes[best], j)
    ensures forall k :: k in ids && k != best && Candidate(nodes[k], j) ==> Beats(nodes[best], nodes[k], j.requirements)
    decreases |ids|
  {
    var id :| id in ids && Candidate(nodes[id], j);
    var rest := ids - {id};
    if k :| k in rest && Candidate(nodes[k], j) {
      var b := BestAmong(nodes, j, rest);
      best := if Beats(nodes[id], nodes[b], j.requirements) then id else b;
      forall m | m in rest && m != b && Candidate(nodes[m], j)
        ensures Beats(nodes[best], nodes[m], j.requirements)
      {
        BeatsOrder(nodes[id], nodes[b], nodes[m], j.requirements);
      }
      BeatsOrder(nodes[id], nodes[b], nodes[b], j.requirements);
    } else {
      best := id;
    }
  }

  lemma ChoiceIsBest(nodes: NodeTable, j: Job)
    requires KeyedNodes(nodes)
    ensures Choice(nodes, j) != "" <==> HasCandidate(nodes, j)
    ensures Choice(nodes, j) != "" ==> IsBest(nodes, j, Choice(nodes, j))
  {
    if HasCandidate(nodes, j) {
      var b := BestAmong(nodes, j, nodes.Keys);
      assert IsBest(nodes, j, b);
    }
  }

  // ---------------------------------------------------------------- the scheduling pass

  /** What one pass makes of one job. The pass reads the registry but never changes it. */
  ghost function ScheduledJob(j: Job, nodes: NodeTable): Job {
    if j.status.Queued? && Choice(nodes, j) != "" then j.(status := Pending, nodeID := Choice(nodes, j)) else j
  }

  ghost function Scheduled(jobs: JobTable, nodes: NodeTable): JobTable {
    map id | id in jobs :: ScheduledJob(jobs[id], nodes)
  }

  /** After a pass nothing that could be placed is still queued, and everything placed sits on its best node. */
  lemma PassIsComplete(jobs: JobTable, nodes: NodeTable, id: string)
    requires KeyedNodes(nodes) && id in jobs
    ensures var after := Scheduled(jobs, nodes)[id];
            && (after.status.Queued? ==> !HasCandidate(nodes, after))
            && (after != jobs[id] ==> jobs[id].status.Queued? && after.status.Pending? && IsBest(nodes, jobs[id], after.nodeID))
            && (!jobs[id].status.Queued? ==> after == jobs[id])
  {
    ChoiceIsBest(nodes, jobs[id]);
  }

  /** Running the pass again at once changes nothing. */
  lemma PassIsIdempotent(jobs: JobTable, nodes: NodeTable)
    ensures Scheduled(Scheduled(jobs, nodes), nodes) == Scheduled(jobs, nodes)
  {
  }

  /** What one turn of the pass makes of the table. */
  ghost function AfterTurn(jobs: JobTable, j: Job, nodes: NodeTable): JobTable {
    if j.id in jobs && jobs[j.id].status.Queued? && Choice(nodes, j) != ""
    then jobs[j.id := jobs[j.id].(status := Pending, nodeID := Choice(nodes, j))] else jobs
  }

  method Turn(js: JobStore, list: seq<Node>, j: Job, ghost nodes: NodeTable)
    requires js.Keyed() && js.Saved() && KeyedNodes(nodes) && NodeList(list, nodes)
    modifies js
    ensures js.Keyed() && js.Saved()
    ensures js.jobs == AfterTurn(old(js.jobs), j, nodes)
  {
    var node := SelectNode(list, j, nodes);
    if node == "" {
      return;
    }
    var ok := js.Assign(j.id, node);
  }

  /** tryScheduleQueued on the job store: the queued jobs oldest first, each to its selected node. */
  method TrySchedule(js: JobStore, st: Store)
    requires js.Keyed() && js.Saved() && KeyedNodes(st.nodes)
    modifies js
    ensures js.Keyed() && js.Saved()
    ensures js.jobs == Scheduled(old(js.jobs), st.nodes)
  {
    ghost var was := js.jobs;
    ghost var table := st.nodes;
    var queued := js.ListByStatus(Queued);
    if |queued| == 0 {
      PassFinished(was, was, table, queued);
      return;
    }
    var nodes := st.List();
    for k := 0 to |queued|
      invariant js.Keyed() && js.Saved()
      invariant PassProgress(js.jobs, was, table, queued, k)
    {
      PassStep(js.jobs, was, table, queued, k);
      Turn(js, nodes, queued[k], table);
    }
    PassFinished(js.jobs, was, table, queued);
  }

  /** The first k listed jobs have had their turn; every job is as it was or has had its turn. */
  ghost predicate PassProgress(jobs: JobTable, was: JobTable, nodes: NodeTable, queued: seq<Job>, k: nat)
    requires k <= |queued|
  {
    && jobs.Keys == was.Keys
    && (forall id :: id in was ==> jobs[id] == was[id] || jobs[id] == ScheduledJob(was[id], nodes))
    && (forall i :: 0 <= i < k && queued[i].id in was ==> jobs[queued[i].id] == ScheduledJob(was[queued[i].id], nodes))
  }

  lemma PassStep(jobs: JobTable, was: JobTable, nodes: NodeTable, queued: seq<Job>, k: nat)
    requires k < |queued| && PassProgress(jobs, was, nodes, queued, k)
    requires forall j :: j in queued ==> j.id in was && was[j.id] == j && j.status.Queued?
    ensures PassProgress(AfterTurn(jobs, queued[k], nodes), was, nodes, queued, k + 1)
  {
    assert queued[k] in queued;
  }

  lemma PassFinished(jobs: JobTable, was: JobTable, nodes: NodeTable, queued: seq<Job>)
    requires PassProgress(jobs, was, nodes, queued, |queued|)
    requires forall id :: id in was ==> was[id].id == id
    requires forall j :: j in queued <==> j.id in was && was[j.id] == j && j.status.Queued?
    ensures jobs == Scheduled(was, nodes)
  {
    forall id | id in was
      ensures jobs[id] == ScheduledJob(was[id], nodes)
    {
      if was[id].status.Queued? {
        assert was[id] in queued;
      }
    }
  }
}
