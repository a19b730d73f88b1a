/** The node registry of the control plane (internal/server/store.go). Instants are in nanoseconds. */
module Nodes {
  import opened ModelIdentity
  import opened Resources

  type NodeTable = map<string, Node>

  /** How long a silent agent stays in the pool: 20 seconds. */
  const OFFLINE_AFTER: nat := 20 * 1_000_000_000

  // ---------------------------------------------------------------- operations as functions of the registry

  /** The row Upsert writes: the report, with what it left out taken from the row already there. */
  function UpsertRow(nodes: NodeTable, n: Node, now: nat): Node {
    if n.nodeID in nodes then MergedRow(nodes[n.nodeID], n, now)
    else n.(joinedAt := if n.joinedAt == 0 then now else n.joinedAt,
            status := if n.status.Unset? then Joined else n.status,
            lastSeen := now)
  }

  function MergedRow(was: Node, n: Node, now: nat): Node {
    var status := if !n.status.Unset? then n.status else if !was.status.Unset? then was.status else Joined;
    Node(n.nodeID, n.gpus, status,
         if n.agentVersion == "" then was.agentVersion else n.agentVersion,
         if n.currentJobID == "" && !status.Ready? then was.currentJobID else n.currentJobID,
         n.resources,
         if n.modelRuntimes == [] then was.modelRuntimes else n.modelRuntimes,
         if n.models.None? then was.models else n.models,
         was.joinedAt, now,
         if n.identity.NoIdentity? then was.identity else n.identity,
         if n.certSerial == "" then was.certSerial else n.certSerial)
  }

  /** What a heartbeat does to the pair the protocol depends on. A draining node stays draining and
      mirrors the worker's job; any other node takes the status it is sent. */
  function HeartbeatStatus(was: Status, current: string, incoming: Status, job: string): (Status, string) {
    if was.Draining? then
      if incoming.Offline? then (Offline, "") else (Draining, job)
    else if !incoming.Unset? then
      (incoming, if incoming.Ready? then "" else if job != "" then job else current)
    else if was.Offline? || was.Joined? then (Ready, current)
    else (was, current)
  }

  function HeartbeatRow(row: Node, n: Node, now: nat): Node {
    var (status, current) := HeartbeatStatus(row.status, row.currentJobID, n.status, n.currentJobID);
    row.(gpus := n.gpus,
         resources := if n.resources.cpuCores != 0 || n.resources.staticGPUs != [] then n.resources else row.resources,
         modelRuntimes := if n.modelRuntimes != [] then n.modelRuntimes else row.modelRuntimes,
         models := if n.models.Some? then n.models else row.models,
         status := status,
         currentJobID := current,
         agentVersion := if n.agentVersion != "" then n.agentVersion else row.agentVersion,
         identity := if !n.identity.NoIdentity? then n.identity else row.identity,
         lastSeen := now)
  }

  function StatusRow(row: Node, status: Status, job: string, now: nat): Node {
    row.(status := if status.Ready? && row.status.Draining? then Draining else status, currentJobID := job, lastSeen := now)
  }

  function DrainRow(row: Node, now: nat): Node {
    row.(status := Draining, currentJobID := if row.status.Busy? then row.currentJobID else "", lastSeen := now)
  }

  predicate Stale(row: Node, now: nat) {
    row.agentVersion != "" && !row.status.Offline? && row.lastSeen + OFFLINE_AFTER < now
  }

  function OfflineRow(row: Node): Node {
    row.(status := Offline, currentJobID := "")
  }

  function SweptRow(row: Node, now: nat): Node {
    if Stale(row, now) then OfflineRow(row) else row
  }

  function Swept(nodes: NodeTable, now: nat): NodeTable {
    map id | id in nodes :: SweptRow(nodes[id], now)
  }

  /** What reading the registry file back does to one row. */
  function LoadedRow(row: Node): Node {
    var n := if row.status.Unset? then row.(status := Joined) else row;
    if n.resources.staticGPUs == [] && n.gpus != [] then n.(resources := ProfileOf(n.gpus, 0, 0)) else n
  }

  /** A list of nodes that Store.List may return: every row once, in any order. */
  ghost predicate NodeList(list: seq<Node>, nodes: NodeTable) {
    && (forall i :: 0 <= i < |list| ==> list[i].nodeID in nodes && nodes[list[i].nodeID] == list[i])
    && (forall id :: id in nodes ==> nodes[id] in list)
    && (forall i, j :: 0 <= i < j < |list| ==> list[i].nodeID != list[j].nodeID)
  }

  /** The registry a file of rows gives: rows without an id are skipped, a later row replaces an earlier one. */
  function LoadedTable(rows: seq<Node>): NodeTable {
    if rows == [] then map[]
    else
      var before, row := LoadedTable(rows[..|rows| - 1]), rows[|rows| - 1];
      if row.nodeID == "" then before else before[row.nodeID := LoadedRow(row)]
  }

  // ---------------------------------------------------------------- the registry itself

  class Store {
    var nodes: NodeTable

    ghost predicate Keyed()
      reads this
    {
      forall id :: id in nodes ==> id != "" && nodes[id].nodeID == id
    }

    constructor Open(rows: seq<Node>)
      ensures Keyed() && nodes == LoadedTable(rows)
    {
      nodes := map[];
      new;
      for k := 0 to |rows|
        invariant Keyed() && nodes == LoadedTable(rows[..k])
      {
        assert rows[..k + 1][..k] == rows[..k];
        if rows[k].nodeID != "" {
          nodes := nodes[rows[k].nodeID := LoadedRow(rows[k])];
        }
      }
      assert rows[..|rows|] == rows;
    }

    method Upsert(n: Node, now: nat) returns (r: Node)
      requires Keyed() && n.nodeID != ""
      modifies this
      ensures Keyed()
      ensures nodes == old(nodes)[n.nodeID := UpsertRow(old(nodes), n, now)]
      ensures r == nodes[n.nodeID]
    {
      var joinedAt, status, agentVersion, currentJobID := n.joinedAt, n.status, n.agentVersion, n.currentJobID;
      var modelRuntimes, models, identity, certSerial := n.modelRuntimes, n.models, n.identity, n.certSerial;
      if n.nodeID in nodes {
        var existing := nodes[n.nodeID];
        joinedAt := existing.joinedAt;
        if status.Unset? {
          status := existing.status;
        }
        if agentVersion == "" {
          agentVersion := existing.agentVersion;
        }
        if currentJobID == "" && !status.Ready? {
          currentJobID := existing.currentJobID;
        }
        if modelRuntimes == [] {
          modelRuntimes := existing.modelRuntimes;
        }
        if models.None? {
          models := existing.models;
        }
        if identity.NoIdentity? {
          identity := existing.identity;
        }
        if certSerial == "" {
          certSerial := existing.certSerial;
        }
      } else if joinedAt == 0 {
        joinedAt := now;
      }
      if status.Unset? {
        status := Joined;
      }
      r := Node(n.nodeID, n.gpus, status, agentVersion, currentJobID, n.resources, modelRuntimes, models,
                joinedAt, now, identity, certSerial);
      assert r == UpsertRow(nodes, n, now);
      nodes := nodes[n.nodeID := r];
    }

    /** The part of a heartbeat the protocol depends on. */
    method Heard(row: Node, n: Node) returns (status: Status, currentJobID: string)
      ensures (status, currentJobID) == HeartbeatStatus(row.status, row.currentJobID, n.status, n.currentJobID)
    {
      status, currentJobID := row.status, row.currentJobID;
      if row.status.Draining? {
        if n.status.Offline? {
          status, currentJobID := Offline, "";
        } else {
          currentJobID := n.currentJobID;
        }
      } else if !n.status.Unset? {
        status := n.status;
        if n.status.Ready? {
          currentJobID := "";
        } else if n.currentJobID != "" {
          currentJobID := n.currentJobID;
        }
      } else if row.status.Offline? || row.status.Joined? {
        status := Ready;
      }
    }

    method Heartbeat(n: Node, now: nat) returns (r: Option<Node>)
      requires Keyed()
      modifies this
      ensures Keyed()
      ensures n.nodeID !in old(nodes) ==> r == None && nodes == old(nodes)
      ensures n.nodeID in old(nodes) ==>
        nodes == old(nodes)[n.nodeID := HeartbeatRow(old(nodes)[n.nodeID], n, now)] && r == Some(nodes[n.nodeID])
    {
      if n.nodeID !in nodes {
        return None;
      }
      var row := nodes[n.nodeID];
      var resources, modelRuntimes, models := row.resources, row.modelRuntimes, row.models;
      var status, currentJobID, agentVersion, identity := row.status, row.currentJobID, row.agentVersion, row.identity;
      if n.resources.cpuCores != 0 || |n.resources.staticGPUs| > 0 {
        resources := n.resources;
      }
      if |n.modelRuntimes| > 0 {
        modelRuntimes := n.modelRuntimes;
      }
      if n.models.Some? {
        models := n.models;
      }
      status, currentJobID := Heard(row, n);
      if n.agentVersion != "" {
        agentVersion := n.agentVersion;
      }
      if !n.identity.NoIdentity? {
        identity := n.identity;
      }
      row := Node(row.nodeID, n.gpus, status, agentVersion, currentJobID, resources, modelRuntimes, models,
                  row.joinedAt, now, identity, row.certSerial);
      nodes := nodes[n.nodeID := row];
      r := Some(row);
    }

    method SetStatus(id: string, status: Status, job: string, now: nat) returns (found: bool)
      requires Keyed()
      modifies this
      ensures Keyed()
      ensures found == (id in old(nodes))
      ensures nodes == if found then old(nodes)[id := StatusRow(old(nodes)[id], status, job, now)] else old(nodes)
    {
      found := id in nodes;
      if found {
        var row := nodes[id];
        var s := status;
        if s.Ready? && row.status.Draining? {
          s := Draining;
        }
        nodes := nodes[id := row.(status := s, currentJobID := job, lastSeen := now)];
      }
    }

    method SetDrain(id: string, now: nat) returns (found: bool)
      requires Keyed()
      modifies this
      ensures Keyed()
      ensures found == (id in old(nodes))
      ensures nodes == if found then old(nodes)[id := DrainRow(old(nodes)[id], now)] else old(nodes)
    {
      found := id in nodes;
      if found {
        var row := nodes[id];
        if row.status.Busy? {
          row := row.(status := Draining);
        } else {
          row := row.(status := Draining, currentJobID := "");
        }
        nodes := nodes[id := row.(lastSeen := now)];
      }
    }

    method SetIdentity(id: string, identity: NodeIdentity) returns (found: bool)
      requires Keyed()
      modifies this
      ensures Keyed()
      ensures found == (id in old(nodes))
      ensures nodes == if found then old(nodes)[id := old(nodes)[id].(identity := identity)] else old(nodes)
    {
      found := id in nodes;
      if found {
        nodes := nodes[id := nodes[id].(identity := identity)];
      }
    }

    method Remove(id: string) returns (found: bool)
      requires Keyed()
      modifies this
      ensures Keyed()
      ensures found == (id in old(nodes)) && nodes == old(nodes) - {id}
    {
      found := id in nodes;
      nodes := nodes - {id};
    }

    method SweepRow(id: string, now: nat) returns (stale: bool)
      requires id in nodes
      modifies this
      ensures stale == Stale(old(nodes)[id], now) && nodes == old(nodes)[id := SweptRow(old(nodes)[id], now)]
    {
      var row := nodes[id];
      stale := row.agentVersion != "" && !row.status.Offline? && row.lastSeen + OFFLINE_AFTER < now;
      if stale {
        nodes := nodes[id := row.(status := Offline, currentJobID := "")];
      }
    }

    /** Returns exactly the nodes that went offline in this call. */
    method MarkStaleOffline(now: nat) returns (changed: seq<string>)
      requires Keyed()
      modifies this
      ensures Keyed()
      ensures nodes == Swept(old(nodes), now)
      ensures forall id :: id in changed <==> id in old(nodes) && Stale(old(nodes)[id], now)
    {
      ghost var was := nodes;
      changed := [];
      var todo := nodes.Keys;
      while todo != {}
        invariant todo <= nodes.Keys == was.Keys
        invariant forall id :: id in todo ==> nodes[id] == was[id]
        invariant forall id :: id in was && id !in todo ==> nodes[id] == SweptRow(was[id], now)
        invariant forall id :: id in changed <==> id in was && id !in todo && Stale(was[id], now)
        decreases |todo|
      {
        var id :| id in todo;
        todo := todo - {id};
        var stale := SweepRow(id, now);
        if stale {
          changed := changed + [id];
        }
      }
    }

    method List() returns (out: seq<Node>)
      requires Keyed()
      ensures NodeList(out, nodes)
    {
      out := [];
      var todo := nodes.Keys;
      while todo != {}
        invariant todo <= nodes.Keys
        invariant forall i :: 0 <= i < |out| ==> out[i].nodeID in nodes && out[i].nodeID !in todo && nodes[out[i].nodeID] == out[i]
        invariant forall id :: id in nodes && id !in todo ==> nodes[id] in out
        invariant forall i, j :: 0 <= i < j < |out| ==> out[i].nodeID != out[j].nodeID
        decreases |todo|
      {
        var id :| id in todo;
        todo := todo - {id};
        out := out + [nodes[id]];
      }
    }
  }
}
