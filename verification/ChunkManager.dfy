/** The chunk manager as the mutable object it is; its abstract value is a `Cluster.State`. */
module ChunkManagers {
  import opened Common
  import opened Cluster
  import opened Placement

  datatype ChunkPlacementInfo = ChunkPlacementInfo(
    chunkID: ChunkId, chunkIndex: nat, nodeIDs: seq<NodeId>, nodeAddresses: seq<string>)

  datatype NodeTarget = NodeTarget(nodeID: NodeId, address: string)

  datatype AllocateError = NoHealthyNodes

  function NodeLists(placements: seq<ChunkPlacementInfo>): (lists: seq<seq<NodeId>>)
    ensures |lists| == |placements|
  {
    seq(|placements|, i requires 0 <= i < |placements| => placements[i].nodeIDs)
  }

  /** A placement answers with the identifier of the chunk and the addresses of the nodes chosen for it. */
  predicate Answers(hash: string -> string, path: string, s: State, i: nat, p: ChunkPlacementInfo) {
    && p.chunkID == GenerateChunkID(hash, path, i)
    && p.chunkIndex == i
    && |p.nodeAddresses| == |p.nodeIDs|
    && forall j :: 0 <= j < |p.nodeIDs| ==> p.nodeIDs[j] in s.nodes && p.nodeAddresses[j] == s.nodes[p.nodeIDs[j]].address
  }

  /** Placements answer for chunk after chunk, each with the best pick at its moment. */
  ghost predicate Placed(hash: string -> string, path: string, fileSize: int, s: State, candidates: set<NodeId>,
                         placements: seq<ChunkPlacementInfo>)
    requires candidates <= s.nodes.Keys
  {
    && GoodPicks(s, hash, path, fileSize, candidates, NodeLists(placements))
    && forall i :: 0 <= i < |placements| ==> Answers(hash, path, s, i, placements[i])
  }

  lemma {:induction false} PlacedNext(hash: string -> string, path: string, fileSize: int, s: State,
                                      candidates: set<NodeId>,
                   placements: seq<ChunkPlacementInfo>, p: ChunkPlacementInfo)
    requires candidates <= s.nodes.Keys && Placed(hash, path, fileSize, s, candidates, placements)
    requires Answers(hash, path, PlaceFile(s, hash, path, fileSize, NodeLists(placements)), |placements|, p)
    requires var t := PlaceFile(s, hash, path, fileSize, NodeLists(placements));
      candidates <= t.nodes.Keys && BestPick(t, candidates, ReplicaGoal(candidates), p.nodeIDs)
    ensures Placed(hash, path, fileSize, s, candidates, placements + [p])
    ensures PlaceFile(s, hash, path, fileSize, NodeLists(placements + [p]))
         == PlaceChunk(PlaceFile(s, hash, path, fileSize, NodeLists(placements)), p.chunkID, |placements|,
                       RecordedSize(fileSize, |placements|), path, p.nodeIDs)
  {
    assert NodeLists(placements + [p]) == NodeLists(placements) + [p.nodeIDs];
    GoodPicksNext(s, hash, path, fileSize, candidates, NodeLists(placements), p.nodeIDs);
    assert Answers(hash, path, s, |placements|, p) by { PlaceFileNodes(s, hash, path, fileSize, NodeLists(placements)); }
    forall i | 0 <= i < |placements| + 1 ensures Answers(hash, path, s, i, (placements + [p])[i]) {
    }
  }

  lemma {:induction false} GoodPicksNext(s: State, hash: string -> string, path: string, fileSize: int,
                      candidates: set<NodeId>, picks: seq<seq<NodeId>>, pick: seq<NodeId>)
    requires candidates <= s.nodes.Keys && GoodPicks(s, hash, path, fileSize, candidates, picks)
    requires var t := PlaceFile(s, hash, path, fileSize, picks);
      candidates <= t.nodes.Keys && BestPick(t, candidates, ReplicaGoal(candidates), pick)
    ensures GoodPicks(s, hash, path, fileSize, candidates, picks + [pick])
    ensures PlaceFile(s, hash, path, fileSize, picks + [pick])
         == PlaceChunk(PlaceFile(s, hash, path, fileSize, picks), GenerateChunkID(hash, path, |picks|), |picks|,
                       RecordedSize(fileSize, |picks|), path, pick)
  {
    assert (picks + [pick])[..|picks|] == picks;
  }

  /** The node is HEALTHY or WARNING and was heard of less than 15 seconds ago. */
  predicate MayReceive(n: DataNodeInfo, now: int) {
    (n.status == Healthy || n.status == Warning) && now - n.lastHeartbeat < 15_000
  }

  /** On three different nodes that may receive data, or on fewer and then on all of them; with their addresses. */
  ghost predicate FullyPlaced(nodes: map<NodeId, DataNodeInfo>, now: int, p: ChunkPlacementInfo) {
    && NoDup(p.nodeIDs)
    && (forall n :: n in p.nodeIDs ==> n in nodes && MayReceive(nodes[n], now))
    && (|p.nodeIDs| == 3 || (|p.nodeIDs| < 3 && forall n :: n in nodes && MayReceive(nodes[n], now) ==> n in p.nodeIDs))
    && |p.nodeAddresses| == |p.nodeIDs|
    && forall j :: 0 <= j < |p.nodeIDs| ==> p.nodeIDs[j] in nodes && p.nodeAddresses[j] == nodes[p.nodeIDs[j]].address
  }

  lemma {:induction false} PlacedFully(hash: string -> string, path: string, fileSize: int, s: State, now: int,
                                       placements: seq<ChunkPlacementInfo>)
    requires Placed(hash, path, fileSize, s, HealthyNodes(s, now), placements)
    ensures forall i :: 0 <= i < |placements| ==>
      && placements[i].chunkID == GenerateChunkID(hash, path, i) && placements[i].chunkIndex == i
      && FullyPlaced(s.nodes, now, placements[i])
  {
    forall i | 0 <= i < |placements|
      ensures placements[i].chunkID == GenerateChunkID(hash, path, i) && placements[i].chunkIndex == i
      ensures FullyPlaced(s.nodes, now, placements[i])
    {
      assert Answers(hash, path, s, i, placements[i]);
      ThreeOrAll(s, hash, path, fileSize, HealthyNodes(s, now), NodeLists(placements), i);
      assert forall n :: n in HealthyNodes(s, now) <==> n in s.nodes && MayReceive(s.nodes[n], now);
    }
  }

  lemma {:induction false} NobodyHealthy(s: State, now: int)
    ensures HealthyNodes(s, now) == {} <==> forall n :: n in s.nodes ==> !MayReceive(s.nodes[n], now)
  {
    assert forall n :: n in HealthyNodes(s, now) <==> n in s.nodes && MayReceive(s.nodes[n], now);
  }

  class ChunkManager {
    const hash: string -> string
    var nodes: map<NodeId, DataNodeInfo>
    var chunks: map<ChunkId, ChunkMeta>

    ghost function View(): State
      reads this
    {
      State(nodes, chunks)
    }

    ghost predicate Valid()
      reads this
    {
      ValidState(View())
    }

    constructor (hash: string -> string)
      ensures Valid() && View() == EMPTY && this.hash == hash
    {
      this.hash := hash;
      nodes := map[];
      chunks := map[];
      new;
      assert nodes.Keys == NodeNames(0);
    }

    method RegisterNode(address: string, capacity: int, now: int) returns (nodeID: NodeId)
      requires Valid()
      modifies `nodes
      ensures Valid()
      ensures nodeID == RegisteredName(old(View()), address)
      ensures View() == Cluster.RegisterNode(old(View()), address, capacity, now)
      ensures if nodeID in old(nodes) then
                old(nodes)[nodeID].address == address && nodes == old(nodes)[nodeID := old(nodes)[nodeID].(lastHeartbeat := now)]
              else
                && (forall id :: id in old(nodes) ==> old(nodes)[id].address != address)
                && nodes == old(nodes)[nodeID := DataNodeInfo(nodeID, address, capacity, 0, 0, Healthy, 0.0, now, {})]
    {
      ghost var s := View();
      RegisterKeepsValid(s, address, capacity, now);
      RegisteredNameIsOwnerOrFresh(s, address);
      RegisterEffect(s, address, capacity, now);
      var rest := nodes.Keys;
      while rest != {}
        invariant rest <= nodes.Keys && View() == s
        invariant forall id :: id in nodes && id !in rest ==> nodes[id].address != address
      {
        var id :| id in rest;
        if nodes[id].address == address {
          assert Owns(s, id, address);
          nodes := nodes[id := nodes[id].(lastHeartbeat := now)];
          return id;
        }
        rest := rest - {id};
      }
      nodeID := NodeName(|nodes| + 1);
      nodes := nodes[nodeID := NewNode(nodeID, address, capacity, now)];
    }

    method UpdateHeartbeat(nodeID: NodeId, usedBytes: int, chunkCount: int, now: int) returns (known: bool)
      requires Valid()
      modifies `nodes
      ensures Valid() && known == (nodeID in old(nodes))
      ensures View() == Cluster.UpdateHeartbeat(old(View()), nodeID, usedBytes, chunkCount, now)
      ensures !known ==> nodes == old(nodes)
      ensures known ==> nodes == old(nodes)[nodeID := old(nodes)[nodeID].(
        lastHeartbeat := now, usedBytes := usedBytes, chunkCount := chunkCount,
        status := if old(nodes)[nodeID].status == Dead then Healthy else old(nodes)[nodeID].status,
        riskScore := if old(nodes)[nodeID].status == Dead then 0.0 else old(nodes)[nodeID].riskScore)]
    {
      if nodeID !in nodes { return false; }
      HeartbeatKeepsValid(View(), nodeID, usedBytes, chunkCount, now);
      HeartbeatEffect(View(), nodeID, usedBytes, chunkCount, now);
      nodes := nodes[nodeID := nodes[nodeID].(lastHeartbeat := now, usedBytes := usedBytes, chunkCount := chunkCount)];
      if nodes[nodeID].status == Dead {
        nodes := nodes[nodeID := nodes[nodeID].(status := Healthy, riskScore := 0.0)];
      }
      assert nodes == Cluster.UpdateHeartbeat(old(View()), nodeID, usedBytes, chunkCount, now).nodes;
      return true;
    }

    method UpdateNodeHealth(nodeID: NodeId, status: NodeStatus, risk: real)
      requires Valid()
      modifies `nodes
      ensures Valid() && View() == Cluster.UpdateNodeHealth(old(View()), nodeID, status, risk)
      ensures nodes == if nodeID !in old(nodes) then old(nodes)
                       else old(nodes)[nodeID := old(nodes)[nodeID].(status := status, riskScore := risk)]
    {
      if nodeID !in nodes { return; }
      ghost var s := View();
      nodes := nodes[nodeID := nodes[nodeID].(status := status, riskScore := risk)];
      SameNamesKeepValid(s, View());
    }

    method CheckDeadNodes(now: int) returns (dead: set<NodeId>)
      requires Valid()
      modifies `nodes
      ensures Valid() && View() == Cluster.CheckDeadNodes(old(View()), now)
      ensures forall id :: id in dead <==>
        id in old(nodes) && old(nodes)[id].status != Dead && now - old(nodes)[id].lastHeartbeat > 15_000
      ensures nodes.Keys == old(nodes).Keys
      ensures forall id :: id in nodes ==> nodes[id] == if id in dead then old(nodes)[id].(status := Dead) else old(nodes)[id]
    {
      ghost var s := View();
      dead := MarkStale(now);
      SameNamesKeepValid(s, View());
    }

    method MarkStale(now: int) returns (dead: set<NodeId>)
      modifies `nodes
      ensures View() == Cluster.CheckDeadNodes(old(View()), now)
      ensures forall id :: id in dead <==> id in old(nodes) && IsStale(old(nodes)[id], now)
    {
      ghost var t := Cluster.CheckDeadNodes(View(), now).nodes;
      var rest := nodes.Keys;
      dead := {};
      while rest != {}
        invariant rest <= nodes.Keys == old(nodes).Keys
        invariant forall id :: id in nodes ==> nodes[id] == if id in rest then old(nodes)[id] else t[id]
        invariant forall id :: id in dead <==> id in nodes && id !in rest && IsStale(old(nodes)[id], now)
      {
        var id :| id in rest;
        if IsStale(nodes[id], now) {
          nodes := nodes[id := nodes[id].(status := Dead)];
          dead := dead + {id};
        }
        rest := rest - {id};
      }
      assert nodes == t;
    }

    // ------------------------------------------------------------------ placement

    method GetHealthyNodes(now: int) returns (healthy: seq<NodeId>)
      ensures NoDup(healthy) && SetOf(healthy) == HealthyNodes(View(), now)
      ensures forall n :: n in healthy <==>
        n in nodes && (nodes[n].status == Healthy || nodes[n].status == Warning) && now - nodes[n].lastHeartbeat < 15_000
    {
      var rest := nodes.Keys;
      healthy := [];
      while rest != {}
        invariant rest <= nodes.Keys && NoDup(healthy)
        invariant SetOf(healthy) == HealthyNodes(View(), now) - rest
      {
        var id :| id in rest;
        rest := rest - {id};
        if Accepting(nodes[id]) && now - nodes[id].lastHeartbeat < DEAD_NODE_TIMEOUT {
          assert id !in SetOf(healthy);
          AppendToSet(healthy, id);
          healthy := healthy + [id];
        }
      }
      assert forall n :: n in healthy <==> n in SetOf(healthy);
    }

    /** The library sort: ascending in the order `Before`, with ties in any order. */
    method SortCandidates(candidates: seq<NodeId>) returns (sorted: seq<NodeId>)
      requires NoDup(candidates) && forall n :: n in candidates ==> n in nodes
      ensures NoDup(sorted) && SetOf(sorted) == SetOf(candidates)
      ensures forall n :: n in sorted ==> n in nodes
      ensures forall i, j :: 0 <= i < j < |sorted| ==> !Before(nodes[sorted[j]], nodes[sorted[i]])
    {
      sorted := [];
      for i := 0 to |candidates|
        invariant NoDup(sorted) && SetOf(sorted) == SetOf(candidates[..i])
        invariant forall n :: n in sorted ==> n in nodes
        invariant forall i, j :: 0 <= i < j < |sorted| ==> !Before(nodes[sorted[j]], nodes[sorted[i]])
      {
        var x, k := candidates[i], 0;
        while k < |sorted| && !Before(nodes[x], nodes[sorted[k]])
          invariant 0 <= k <= |sorted|
          invariant forall j :: 0 <= j < k ==> !Before(nodes[x], nodes[sorted[j]])
        {
          k := k + 1;
        }
        assert candidates[..i + 1] == candidates[..i] + [x];
        AppendToSet(candidates[..i], x);
        assert x !in SetOf(candidates[..i]);
        InsertIntoSet(sorted, k, x);
        sorted := sorted[..k] + [x] + sorted[k..];
      }
      assert candidates[..|candidates|] == candidates;
    }

    method SelectNodes(candidates: seq<NodeId>, count: nat) returns (targets: seq<NodeId>)
      requires NoDup(candidates) && SetOf(candidates) <= nodes.Keys
      ensures BestPick(View(), SetOf(candidates), if count < |candidates| then count else |candidates|, targets)
      ensures forall x, y :: x in targets && y in candidates && y !in targets ==>
        || nodes[x].riskScore < nodes[y].riskScore
        || (nodes[x].riskScore == nodes[y].riskScore && |nodes[x].chunks| <= |nodes[y].chunks|)
    {
      assert forall n :: n in candidates ==> n in SetOf(candidates);
      var sorted := SortCandidates(candidates);
      NoDupCardinality(sorted);
      NoDupCardinality(candidates);
      var n := if count > |sorted| then |sorted| else count;
      targets := sorted[..n];
      assert forall k :: 0 <= k < n ==> sorted[k] == targets[k];
      forall x, y | x in targets && y in SetOf(candidates) && y !in targets ensures !Before(nodes[y], nodes[x]) {
        var i :| 0 <= i < n && sorted[i] == x;
        assert y in SetOf(sorted);
        var j :| 0 <= j < |sorted| && sorted[j] == y;
      }
      forall x, y | x in targets && y in candidates && y !in targets ensures !Before(nodes[y], nodes[x]) {
        assert y in SetOf(candidates);
      }
    }

    /** Record a chunk on its chosen nodes; answers with their addresses. */
    method PlaceOn(chunkID: ChunkId, index: nat, size: int, filePath: string, targets: seq<NodeId>)
      returns (addresses: seq<string>)
      requires forall n :: n in targets ==> n in nodes
      modifies this
      ensures View() == PlaceChunk(old(View()), chunkID, index, size, filePath, targets)
      ensures |addresses| == |targets|
      ensures forall j :: 0 <= j < |targets| ==> addresses[j] == old(nodes)[targets[j]].address
    {
      ghost var s := View();
      addresses := [];
      for j := 0 to |targets|
        invariant chunks == s.chunks
        invariant nodes == PlaceChunk(s, chunkID, index, size, filePath, targets[..j]).nodes
        invariant |addresses| == j && forall i :: 0 <= i < j ==> addresses[i] == s.nodes[targets[i]].address
      {
        var n := targets[j];
        addresses := addresses + [nodes[n].address];
        nodes := nodes[n := nodes[n].(chunks := nodes[n].chunks + {chunkID})];
        assert targets[..j + 1] == targets[..j] + [n];
        assert nodes == PlaceChunk(s, chunkID, index, size, filePath, targets[..j + 1]).nodes;
      }
      assert targets[..|targets|] == targets;
      chunks := chunks[chunkID := ChunkMeta(chunkID, index, size, targets, filePath)];
    }

    /** Choose the targets of one chunk and record it on them. */
    method AllocateNext(filePath: string, i: nat, fileSize: int, healthy: seq<NodeId>, count: nat)
      returns (p: ChunkPlacementInfo)
      requires Valid() && NoDup(healthy) && SetOf(healthy) <= nodes.Keys && count <= |SetOf(healthy)|
      modifies this
      ensures Valid() && SameNames(old(View()), View())
      ensures BestPick(old(View()), SetOf(healthy), count, p.nodeIDs)
      ensures Answers(hash, filePath, old(View()), i, p)
      ensures View() == PlaceChunk(old(View()), p.chunkID, i, RecordedSize(fileSize, i), filePath, p.nodeIDs)
    {
      NoDupCardinality(healthy);
      var chunkID := GenerateChunkID(hash, filePath, i);
      var targets := SelectNodes(healthy, count);
      PlaceKeepsValid(View(), chunkID, i, RecordedSize(fileSize, i), filePath, targets);
      var addresses := PlaceOn(chunkID, i, RecordedSize(fileSize, i), filePath, targets);
      p := ChunkPlacementInfo(chunkID, i, targets, addresses);
    }

    method AllocateChunks(filePath: string, chunkCount: nat, fileSize: int, now: int)
      returns (r: Result<seq<ChunkPlacementInfo>, AllocateError>)
      requires Valid()
      modifies this
      ensures Valid()
      ensures r.Err? <==> HealthyNodes(old(View()), now) == {}
      ensures r.Err? ==> View() == old(View())
      ensures r.Ok? ==>
        && |r.value| == chunkCount
        && Placed(hash, filePath, fileSize, old(View()), HealthyNodes(old(View()), now), r.value)
        && View() == PlaceFile(old(View()), hash, filePath, fileSize, NodeLists(r.value))
      ensures r.Err? <==> forall n :: n in old(nodes) ==> !MayReceive(old(nodes)[n], now)
      ensures r.Ok? ==> forall i :: 0 <= i < |r.value| ==>
        && r.value[i].chunkID == GenerateChunkID(hash, filePath, i) && r.value[i].chunkIndex == i
        && FullyPlaced(old(nodes), now, r.value[i])
    {
      var healthy := GetHealthyNodes(now);
      NoDupCardinality(healthy);
      NobodyHealthy(View(), now);
      if |healthy| == 0 {
        assert SetOf(healthy) == {};
        return Err(NoHealthyNodes);
      }
      var replFactor := DEFAULT_REPLICATION_FACTOR;
      if |healthy| < replFactor { replFactor := |healthy|; }

      assert healthy[0] in SetOf(healthy);
      var placements := AllocateAll(filePath, chunkCount, fileSize, healthy, replFactor);
      PlacedFully(hash, filePath, fileSize, old(View()), now, placements);
      return Ok(placements);
    }

    /** Chunk after chunk, always among the same candidates. */
    method AllocateAll(filePath: string, chunkCount: nat, fileSize: int, healthy: seq<NodeId>, count: nat)
      returns (placements: seq<ChunkPlacementInfo>)
      requires Valid() && NoDup(healthy) && SetOf(healthy) <= nodes.Keys && count == ReplicaGoal(SetOf(healthy))
      modifies this
      ensures Valid() && |placements| == chunkCount
      ensures Placed(hash, filePath, fileSize, old(View()), SetOf(healthy), placements)
      ensures View() == PlaceFile(old(View()), hash, filePath, fileSize, NodeLists(placements))
    {
      ghost var s, candidates := View(), SetOf(healthy);
      placements := [];
      for i := 0 to chunkCount
        invariant |placements| == i && Valid() && SameNames(s, View())
        invariant Placed(hash, filePath, fileSize, s, candidates, placements)
        invariant View() == PlaceFile(s, hash, filePath, fileSize, NodeLists(placements))
      {
        var p := AllocateNext(filePath, i, fileSize, healthy, count);
        PlacedNext(hash, filePath, fileSize, s, candidates, placements, p);
        placements := placements + [p];
      }
    }

    // --------------------------------------------------------------------- lookups

    method GetChunkLocations(chunkIDs: seq<ChunkId>) returns (r: Result<seq<ChunkLocation>, LocationError>)
      requires Valid()
      ensures r == Locations(View(), chunkIDs)
      ensures Located(View(), chunkIDs, r)
    {
      LocationsAreLocated(View(), chunkIDs);
      var locs := [];
      for i := 0 to |chunkIDs|
        invariant Locations(View(), chunkIDs[..i]) == Ok(locs)
      {
        var cid := chunkIDs[i];
        assert chunkIDs[..i + 1][..i] == chunkIDs[..i];
        if cid !in chunks {
          LocationsFailEarly(View(), chunkIDs, i);
          return Err(ChunkNotFound(cid));
        }
        var live, addrs := LiveReplicas(chunks[cid].nodeIDs);
        if |live| == 0 {
          LocationsFailEarly(View(), chunkIDs, i);
          return Err(NoLiveNodes(cid));
        }
        locs := locs + [ChunkLocation(chunks[cid].chunkID, chunks[cid].chunkIndex, live, addrs)];
      }
      assert chunkIDs[..|chunkIDs|] == chunkIDs;
      return Ok(locs);
    }

    /** The nodes of a replica list that are not dead, with their addresses. */
    method LiveReplicas(ids: seq<NodeId>) returns (live: seq<NodeId>, addrs: seq<string>)
      ensures live == LiveNodes(View(), ids) && addrs == AddressesOf(View(), live)
    {
      live, addrs := [], [];
      for j := 0 to |ids|
        invariant live + LiveNodes(View(), ids[j..]) == LiveNodes(View(), ids)
        invariant |addrs| == |live|
        invariant forall k :: 0 <= k < |live| ==> live[k] in nodes && addrs[k] == nodes[live[k]].address
      {
        assert ids[j..] == [ids[j]] + ids[j + 1..];
        if ids[j] in nodes && nodes[ids[j]].status != Dead {
          addrs := addrs + [nodes[ids[j]].address];
          live := live + [ids[j]];
        }
      }
    }

    method GetChunkMeta(chunkID: ChunkId) returns (r: Option<ChunkMeta>)
      ensures r == if chunkID in chunks then Some(chunks[chunkID]) else None
    {
      if chunkID !in chunks { return None; }
      return Some(chunks[chunkID]);
    }

    method GetNodeAddress(nodeID: NodeId) returns (r: Option<string>)
      ensures r.Some? <==> nodeID in View().nodes
      ensures r.Some? ==> Owns(View(), nodeID, r.value)
    {
      if nodeID !in nodes { return None; }
      return Some(nodes[nodeID].address);
    }

    method GetChunksOnNode(nodeID: NodeId) returns (ids: seq<ChunkId>)
      ensures NoDup(ids) && SetOf(ids) == ChunksOnNode(View(), nodeID)
      ensures forall c :: c in ids <==> nodeID in nodes && c in nodes[nodeID].chunks
    {
      ids := [];
      if nodeID !in nodes { return; }
      var rest := nodes[nodeID].chunks;
      while rest != {}
        invariant rest <= nodes[nodeID].chunks && NoDup(ids)
        invariant SetOf(ids) == nodes[nodeID].chunks - rest
      {
        var cid :| cid in rest;
        assert cid !in SetOf(ids);
        AppendToSet(ids, cid);
        ids := ids + [cid];
        rest := rest - {cid};
      }
      assert forall c :: c in ids <==> c in SetOf(ids);
    }

    /** The accepting nodes outside the list, in any order. */
    method GetHealthyNodeAddresses(excludeNodeIDs: seq<NodeId>) returns (targets: seq<NodeTarget>)
      requires Valid()
      ensures forall n :: n in TargetNodes(View(), excludeNodeIDs) <==> exists i :: 0 <= i < |targets| && targets[i].nodeID == n
      ensures forall n :: (exists i :: 0 <= i < |targets| && targets[i].nodeID == n) <==>
        n in nodes && n !in excludeNodeIDs && (nodes[n].status == Healthy || nodes[n].status == Warning)
      ensures forall i :: 0 <= i < |targets| ==> Owns(View(), targets[i].nodeID, targets[i].address)
    {
      var excludeSet: set<NodeId> := {};
      for i := 0 to |excludeNodeIDs|
        invariant forall n :: n in excludeSet <==> n in excludeNodeIDs[..i]
      {
        excludeSet := excludeSet + {excludeNodeIDs[i]};
      }
      assert excludeNodeIDs[..|excludeNodeIDs|] == excludeNodeIDs;
      targets := CollectTargets(excludeSet);
    }

    method CollectTargets(excludeSet: set<NodeId>) returns (targets: seq<NodeTarget>)
      requires DistinctAddresses(nodes)
      ensures forall n :: n in nodes && n !in excludeSet && Accepting(nodes[n])
                     <==> exists i :: 0 <= i < |targets| && targets[i].nodeID == n
      ensures forall i :: 0 <= i < |targets| ==> Owns(View(), targets[i].nodeID, targets[i].address)
    {
      targets := [];
      var rest := nodes.Keys;
      while rest != {}
        invariant rest <= nodes.Keys
        invariant forall n :: n in nodes && n !in rest && n !in excludeSet && Accepting(nodes[n]) ==>
          exists i :: 0 <= i < |targets| && targets[i].nodeID == n
        invariant forall i :: 0 <= i < |targets| ==>
          var n := targets[i].nodeID;
          n in nodes && n !in excludeSet && Accepting(nodes[n]) && targets[i].address == nodes[n].address
      {
        var id :| id in rest;
        rest := rest - {id};
        if nodes[id].nodeID !in excludeSet && Accepting(nodes[id]) {
          ghost var previous := targets;
          targets := targets + [NodeTarget(nodes[id].nodeID, nodes[id].address)];
          assert targets[|previous|].nodeID == id;
          assert forall i :: 0 <= i < |previous| ==> targets[i] == previous[i];
        }
      }
    }

    // -------------------------------------------------------------- replica updates

    method AddChunkToNode(chunkID: ChunkId, nodeID: NodeId)
      requires Valid()
      modifies this
      ensures View() == Cluster.AddChunkToNode(old(View()), chunkID, nodeID)
      ensures nodeID in old(nodes) ==> Valid()
    {
      if nodeID in nodes { AddKeepsValid(View(), chunkID, nodeID); }
      if nodeID in nodes {
        nodes := nodes[nodeID := nodes[nodeID].(chunks := nodes[nodeID].chunks + {chunkID})];
      }
      if chunkID in chunks {
        AppendReplica(chunkID, nodeID);
      }
    }

    /** Append a node to a chunk's replica list unless it is there already. */
    method AppendReplica(chunkID: ChunkId, nodeID: NodeId)
      requires chunkID in chunks
      modifies `chunks
      ensures chunks ==
        if nodeID in old(chunks)[chunkID].nodeIDs then old(chunks)
        else old(chunks)[chunkID := old(chunks)[chunkID].(nodeIDs := old(chunks)[chunkID].nodeIDs + [nodeID])]
    {
      var ids := chunks[chunkID].nodeIDs;
      for i := 0 to |ids|
        invariant nodeID !in ids[..i]
      {
        if ids[i] == nodeID { return; }
      }
      assert ids[..|ids|] == ids;
      chunks := chunks[chunkID := chunks[chunkID].(nodeIDs := ids + [nodeID])];
    }

    method RemoveChunkFromNode(chunkID: ChunkId, nodeID: NodeId)
      requires Valid()
      modifies this
      ensures Valid() && View() == Cluster.RemoveChunkFromNode(old(View()), chunkID, nodeID)
    {
      ghost var s := View();
      RemoveKeepsValid(s, chunkID, nodeID);
      if nodeID in nodes {
        nodes := nodes[nodeID := nodes[nodeID].(chunks := nodes[nodeID].chunks - {chunkID})];
      }
      if chunkID in chunks {
        var ids := WithoutFirst(chunks[chunkID].nodeIDs, nodeID);
        chunks := chunks[chunkID := chunks[chunkID].(nodeIDs := ids)];
      }
    }

    method RemoveChunks(chunkIDs: seq<ChunkId>)
      requires Valid()
      modifies this
      ensures Valid() && View() == DropChunks(old(View()), chunkIDs)
    {
      for i := 0 to |chunkIDs|
        invariant Valid() && DropChunks(View(), chunkIDs[i..]) == DropChunks(old(View()), chunkIDs)
      {
        assert chunkIDs[i..][1..] == chunkIDs[i + 1..];
        RemoveOne(chunkIDs[i]);
      }
    }

    /** Take the chunk off the lists of these nodes. */
    method Unlist(cid: ChunkId, ids: seq<NodeId>)
      modifies `nodes
      ensures nodes == map n | n in old(nodes) ::
        if n in ids then old(nodes)[n].(chunks := old(nodes)[n].chunks - {cid}) else old(nodes)[n]
    {
      for j := 0 to |ids|
        invariant nodes.Keys == old(nodes).Keys
        invariant forall n :: n in nodes ==>
          nodes[n] == if n in ids[..j] then old(nodes)[n].(chunks := old(nodes)[n].chunks - {cid}) else old(nodes)[n]
      {
        if ids[j] in nodes {
          nodes := nodes[ids[j] := nodes[ids[j]].(chunks := nodes[ids[j]].chunks - {cid})];
        }
      }
      assert ids[..|ids|] == ids;
    }

    method RemoveOne(cid: ChunkId)
      requires Valid()
      modifies this
      ensures Valid() && View() == DropChunk(old(View()), cid)
    {
      if cid !in chunks { return; }
      ghost var s := View();
      DropKeepsValid(s, cid);
      Unlist(cid, chunks[cid].nodeIDs);
      chunks := chunks - {cid};
    }
  }

  /** The splice: the list up to the first occurrence, and from behind it. */
  method WithoutFirst(ids: seq<NodeId>, nodeID: NodeId) returns (r: seq<NodeId>)
    ensures r == RemoveFirst(ids, nodeID)
  {
    for i := 0 to |ids|
      invariant nodeID !in ids[..i]
    {
      if ids[i] == nodeID {
        RemoveFirstSplices(ids, i, nodeID);
        return ids[..i] + ids[i + 1..];
      }
    }
    assert ids[..|ids|] == ids;
    return ids;
  }

  lemma {:induction false} AppendToSet<T>(s: seq<T>, x: T)
    ensures SetOf(s + [x]) == SetOf(s) + {x}
  {
    forall y | y in SetOf(s) + {x} ensures y in SetOf(s + [x]) {
      if y == x {
        assert (s + [x])[|s|] == x;
      } else {
        var i :| 0 <= i < |s| && s[i] == y;
        assert (s + [x])[i] == y;
      }
    }
  }

  lemma {:induction false} InsertIntoSet<T>(s: seq<T>, k: nat, x: T)
    requires k <= |s|
    ensures SetOf(s[..k] + [x] + s[k..]) == SetOf(s) + {x}
  {
    var t := s[..k] + [x] + s[k..];
    forall y | y in SetOf(s) + {x} ensures y in SetOf(t) {
      if y == x {
        assert t[k] == x;
      } else {
        var i :| 0 <= i < |s| && s[i] == y;
        assert t[if i < k then i else i + 1] == y;
      }
    }
    forall y | y in SetOf(t) ensures y in SetOf(s) + {x} {
      var i :| 0 <= i < |t| && t[i] == y;
      assert i < k ==> s[i] == y;
      assert i > k ==> s[i - 1] == y;
    }
  }
}
