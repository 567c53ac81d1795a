/**
 The chunk manager's metadata as a value: the node table, the chunk table, and what each locked operation
 does to them.  `ChunkManager.dfy` proves the mutable class against these functions; `Protocol.dfy`
 interleaves them.
 */
module Cluster {
  import opened Common

  type NodeId = string
  type ChunkId = string

  datatype DataNodeInfo = DataNodeInfo(
    nodeID: NodeId,
    address: string,
    capacityBytes: int,
    usedBytes: int,
    chunkCount: int,
    status: NodeStatus,
    riskScore: real,
    lastHeartbeat: int,
    chunks: set<ChunkId>)

  datatype ChunkMeta = ChunkMeta(
    chunkID: ChunkId,
    chunkIndex: nat,
    size: int,
    nodeIDs: seq<NodeId>,
    filePath: string)

  datatype State = State(nodes: map<NodeId, DataNodeInfo>, chunks: map<ChunkId, ChunkMeta>)

  const EMPTY: State := State(map[], map[])

  // ------------------------------------------------------------------ node table

  function NodeName(i: nat): NodeId { "node-" + Decimal(i) }

  lemma {:induction false} NodeNameInjective(i: nat, j: nat)
    requires NodeName(i) == NodeName(j)
    ensures i == j
  {
    assert Decimal(i) == NodeName(i)[5..] == NodeName(j)[5..] == Decimal(j);
    DecimalInjective(i, j);
  }

  function NodeNames(n: nat): set<NodeId> {
    if n == 0 then {} else NodeNames(n - 1) + {NodeName(n)}
  }

  ghost predicate Owns(s: State, id: NodeId, address: string) {
    id in s.nodes && s.nodes[id].address == address
  }

  /** Every entry carries its own name and no address is used twice. */
  ghost predicate DistinctAddresses(nodes: map<NodeId, DataNodeInfo>) {
    && (forall id :: id in nodes ==> nodes[id].nodeID == id)
    && (forall a, b :: a in nodes && b in nodes && nodes[a].address == nodes[b].address ==> a == b)
  }

  /** Node names are exactly node-1 .. node-n, with distinct addresses. */
  ghost predicate Registry(s: State) {
    s.nodes.Keys == NodeNames(|s.nodes|) && DistinctAddresses(s.nodes)
  }

  function NewNode(id: NodeId, address: string, capacity: int, now: int): DataNodeInfo {
    DataNodeInfo(id, address, capacity, 0, 0, Healthy, 0.0, now, {})
  }

  /** The name a registration answers with: that of the address's owner, else the next free one. */
  ghost function RegisteredName(s: State, address: string): NodeId {
    if exists id :: Owns(s, id, address) then
      var id :| Owns(s, id, address); id
    else
      NodeName(|s.nodes| + 1)
  }

  ghost function RegisterNode(s: State, address: string, capacity: int, now: int): State {
    var id := RegisteredName(s, address);
    s.(nodes := s.nodes[id :=
      if Owns(s, id, address) then s.nodes[id].(lastHeartbeat := now) else NewNode(id, address, capacity, now)])
  }

  lemma {:induction false} LaterNameIsFresh(m: nat, n: nat)
    requires m < n
    ensures NodeName(n) !in NodeNames(m)
  {
    if m > 0 {
      LaterNameIsFresh(m - 1, n);
      if NodeName(m) == NodeName(n) { NodeNameInjective(m, n); }
    }
  }

  lemma {:induction false} NextNameIsFresh(n: nat)
    ensures NodeName(n + 1) !in NodeNames(n)
    ensures NodeNames(n + 1) == NodeNames(n) + {NodeName(n + 1)}
  {
    LaterNameIsFresh(n, n + 1);
  }

  /** The name is taken exactly when the address is known: registration never overwrites an entry. */
  lemma {:induction false} RegisteredNameIsOwnerOrFresh(s: State, address: string)
    requires Registry(s)
    ensures var id := RegisteredName(s, address);
      if id in s.nodes then Owns(s, id, address)
      else id == NodeName(|s.nodes| + 1) && forall n :: n in s.nodes ==> s.nodes[n].address != address
  {
    NextNameIsFresh(|s.nodes|);
    if forall id :: !Owns(s, id, address) {
      forall n | n in s.nodes ensures s.nodes[n].address != address {
        assert !Owns(s, n, address);
      }
    }
  }

  lemma {:induction false} EntryKeepsDistinctAddresses(nodes: map<NodeId, DataNodeInfo>, id: NodeId, n: DataNodeInfo)
    requires DistinctAddresses(nodes) && n.nodeID == id
    requires if id in nodes then n.address == nodes[id].address
             else forall m :: m in nodes ==> nodes[m].address != n.address
    ensures DistinctAddresses(nodes[id := n])
  {
  }

  lemma {:induction false} EntryKeepsNames(nodes: map<NodeId, DataNodeInfo>, id: NodeId, n: DataNodeInfo)
    requires nodes.Keys == NodeNames(|nodes|)
    requires id in nodes || id == NodeName(|nodes| + 1)
    ensures nodes[id := n].Keys == NodeNames(|nodes[id := n]|)
  {
    var next := nodes[id := n];
    assert |next| == |next.Keys|;
    if id in nodes {
      assert next.Keys == nodes.Keys;
    } else {
      NextNameIsFresh(|nodes|);
      assert next.Keys == nodes.Keys + {id};
    }
  }

  lemma {:induction false} RegisterKeepsRegistry(s: State, address: string, capacity: int, now: int)
    requires Registry(s)
    ensures Registry(RegisterNode(s, address, capacity, now))
  {
    var id, t := RegisteredName(s, address), RegisterNode(s, address, capacity, now);
    RegisteredNameIsOwnerOrFresh(s, address);
    EntryKeepsNames(s.nodes, id, t.nodes[id]);
    EntryKeepsDistinctAddresses(s.nodes, id, t.nodes[id]);
  }

  /**
   A known address has its node's heartbeat refreshed and nothing else; a new one gets a new entry, healthy, without risk
   and without chunks.
   */
  lemma {:induction false} RegisterEffect(s: State, address: string, capacity: int, now: int)
    requires Registry(s)
    ensures var id, t := RegisteredName(s, address), RegisterNode(s, address, capacity, now);
      t.chunks == s.chunks &&
      if id in s.nodes then
        s.nodes[id].address == address && t.nodes == s.nodes[id := s.nodes[id].(lastHeartbeat := now)]
      else
        && (forall n :: n in s.nodes ==> s.nodes[n].address != address)
        && t.nodes == s.nodes[id := DataNodeInfo(id, address, capacity, 0, 0, Healthy, 0.0, now, {})]
  {
    RegisteredNameIsOwnerOrFresh(s, address);
  }

  ghost predicate SameNames(a: State, b: State) {
    && a.nodes.Keys == b.nodes.Keys
    && forall n :: n in a.nodes ==> a.nodes[n].nodeID == b.nodes[n].nodeID && a.nodes[n].address == b.nodes[n].address
  }

  lemma {:induction false} SameNamesKeepRegistry(a: State, b: State)
    requires Registry(a) && SameNames(a, b)
    ensures Registry(b)
  {
    assert |a.nodes| == |a.nodes.Keys| == |b.nodes.Keys| == |b.nodes|;
  }

  function UpdateHeartbeat(s: State, id: NodeId, used: int, count: int, now: int): State {
    if id !in s.nodes then s else
      var n := s.nodes[id].(lastHeartbeat := now, usedBytes := used, chunkCount := count);
      s.(nodes := s.nodes[id := if n.status == Dead then n.(status := Healthy, riskScore := 0.0) else n])
  }

  function UpdateNodeHealth(s: State, id: NodeId, status: NodeStatus, risk: real): State {
    if id !in s.nodes then s else
      s.(nodes := s.nodes[id := s.nodes[id].(status := status, riskScore := risk)])
  }

  predicate IsStale(n: DataNodeInfo, now: int) {
    n.status != Dead && now - n.lastHeartbeat > DEAD_NODE_TIMEOUT
  }

  function CheckDeadNodes(s: State, now: int): State {
    s.(nodes := map id | id in s.nodes ::
      if IsStale(s.nodes[id], now) then s.nodes[id].(status := Dead) else s.nodes[id])
  }

  /** A node that may be given new data: HEALTHY or WARNING. */
  predicate Accepting(n: DataNodeInfo) { n.status == Healthy || n.status == Warning }

  function HealthyNodes(s: State, now: int): set<NodeId> {
    set id | id in s.nodes && Accepting(s.nodes[id]) && now - s.nodes[id].lastHeartbeat < DEAD_NODE_TIMEOUT
  }

  /** The nodes a migration may choose as its target, given the replica list it has read. */
  function TargetNodes(s: State, exclude: seq<NodeId>): set<NodeId> {
    set id | id in s.nodes && id !in exclude && Accepting(s.nodes[id])
  }

  // ------------------------------------------------------------------- placement

  /** The order in which candidates are preferred: lower risk first, then fewer chunks. */
  predicate Before(a: DataNodeInfo, b: DataNodeInfo) {
    if a.riskScore != b.riskScore then a.riskScore < b.riskScore else |a.chunks| < |b.chunks|
  }

  /** `targets` are `count` distinct candidates such that no candidate left out is preferred to a chosen one. */
  ghost predicate BestPick(s: State, candidates: set<NodeId>, count: nat, targets: seq<NodeId>)
    requires candidates <= s.nodes.Keys
  {
    && |targets| == count
    && NoDup(targets)
    && (forall n :: n in targets ==> n in candidates)
    && (forall x, y :: x in targets && y in candidates && y !in targets ==> !Before(s.nodes[y], s.nodes[x]))
  }

  function ReplicaGoal(candidates: set<NodeId>): nat {
    if |candidates| < DEFAULT_REPLICATION_FACTOR then |candidates| else DEFAULT_REPLICATION_FACTOR
  }

  function PlaceChunk(s: State, c: ChunkId, index: nat, size: int, path: string, targets: seq<NodeId>): State {
    State(
      map n | n in s.nodes ::
        if n in targets then s.nodes[n].(chunks := s.nodes[n].chunks + {c}) else s.nodes[n],
      s.chunks[c := ChunkMeta(c, index, size, targets, path)])
  }

  /** The size recorded for chunk `i` of a file of `fileSize` bytes. */
  function RecordedSize(fileSize: int, i: nat): int {
    var remaining := fileSize - i * CHUNK_SIZE;
    if remaining < CHUNK_SIZE then remaining else CHUNK_SIZE
  }

  // -------------------------------------------------------------- replica updates

  function AddChunkToNode(s: State, c: ChunkId, n: NodeId): State {
    State(
      if n in s.nodes then s.nodes[n := s.nodes[n].(chunks := s.nodes[n].chunks + {c})] else s.nodes,
      if c in s.chunks && n !in s.chunks[c].nodeIDs
      then s.chunks[c := s.chunks[c].(nodeIDs := s.chunks[c].nodeIDs + [n])]
      else s.chunks)
  }

  function RemoveChunkFromNode(s: State, c: ChunkId, n: NodeId): State {
    State(
      if n in s.nodes then s.nodes[n := s.nodes[n].(chunks := s.nodes[n].chunks - {c})] else s.nodes,
      if c in s.chunks
      then s.chunks[c := s.chunks[c].(nodeIDs := RemoveFirst(s.chunks[c].nodeIDs, n))]
      else s.chunks)
  }

  function DropChunk(s: State, c: ChunkId): State {
    if c !in s.chunks then s else
      State(
        map n | n in s.nodes ::
          if n in s.chunks[c].nodeIDs then s.nodes[n].(chunks := s.nodes[n].chunks - {c}) else s.nodes[n],
        s.chunks - {c})
  }

  function DropChunks(s: State, ids: seq<ChunkId>): State
    decreases |ids|
  {
    if ids == [] then s else DropChunks(DropChunk(s, ids[0]), ids[1..])
  }

  // --------------------------------------------------------------------- lookups

  function ChunksOnNode(s: State, n: NodeId): set<ChunkId> {
    if n in s.nodes then s.nodes[n].chunks else {}
  }

  function Replicas(s: State, c: ChunkId): seq<NodeId> {
    if c in s.chunks then s.chunks[c].nodeIDs else []
  }

  datatype ChunkLocation = ChunkLocation(chunkID: ChunkId, chunkIndex: nat, nodeIDs: seq<NodeId>,
                                         nodeAddresses: seq<string>)

  datatype LocationError = ChunkNotFound(c: ChunkId) | NoLiveNodes(c: ChunkId)

  predicate IsLive(s: State, n: NodeId) { n in s.nodes && s.nodes[n].status != Dead }

  function LiveNodes(s: State, ids: seq<NodeId>): (live: seq<NodeId>)
    ensures forall n :: n in live <==> n in ids && IsLive(s, n)
  {
    if ids == [] then [] else
      var rest := LiveNodes(s, ids[1..]);
      if IsLive(s, ids[0]) then [ids[0]] + rest else rest
  }

  function AddressesOf(s: State, ids: seq<NodeId>): (addresses: seq<string>)
    requires forall n :: n in ids ==> n in s.nodes
    ensures |addresses| == |ids| && forall j :: 0 <= j < |ids| ==> ids[j] in s.nodes && addresses[j] == s.nodes[ids[j]].address
  {
    seq(|ids|, j requires 0 <= j < |ids| => assert ids[j] in ids; s.nodes[ids[j]].address)
  }

  function Locate(s: State, c: ChunkId): Result<ChunkLocation, LocationError> {
    if c !in s.chunks then Err(ChunkNotFound(c)) else
      var live := LiveNodes(s, s.chunks[c].nodeIDs);
      if live == [] then Err(NoLiveNodes(c)) else 
        Ok(ChunkLocation(s.chunks[c].chunkID, s.chunks[c].chunkIndex, live, AddressesOf(s, live)))
  }

  ghost predicate HasLiveReplica(s: State, c: ChunkId) {
    c in s.chunks && exists n :: n in s.chunks[c].nodeIDs && n in s.nodes && s.nodes[n].status != Dead
  }

  /** A chunk is located exactly when one of the nodes listed for it is not dead. */
  lemma {:induction false} LocateIff(s: State, c: ChunkId)
    ensures Locate(s, c).Ok? <==> HasLiveReplica(s, c)
  {
    if c in s.chunks {
      var live := LiveNodes(s, s.chunks[c].nodeIDs);
      if live != [] { assert live[0] in Replicas(s, c) && IsLive(s, live[0]); }
    }
  }

  /** The location names the chunk, its index, exactly the nodes of its replica list that are not dead, and their addresses. */
  ghost predicate Finds(s: State, c: ChunkId, loc: ChunkLocation) {
    && c in s.chunks && loc.chunkID == c && loc.chunkIndex == s.chunks[c].chunkIndex
    && (forall n :: n in loc.nodeIDs <==> n in s.chunks[c].nodeIDs && n in s.nodes && s.nodes[n].status != Dead)
    && |loc.nodeAddresses| == |loc.nodeIDs|
    && forall j :: 0 <= j < |loc.nodeIDs| ==>
         loc.nodeIDs[j] in s.nodes && loc.nodeAddresses[j] == s.nodes[loc.nodeIDs[j]].address
  }

  ghost predicate FindsAll(s: State, ids: seq<ChunkId>, locations: seq<ChunkLocation>) {
    |locations| == |ids| && forall i :: 0 <= i < |ids| ==> Finds(s, ids[i], locations[i])
  }

  /** The locations of all chunks of a file, or the first failure in list order. */
  function Locations(s: State, ids: seq<ChunkId>): Result<seq<ChunkLocation>, LocationError> {
    if ids == [] then Ok([]) else
      match Locations(s, ids[..|ids| - 1])
      case Err(e) => Err(e)
      case Ok(locs) =>
        match Locate(s, ids[|ids| - 1])
        case Err(e) => Err(e)
        case Ok(loc) => Ok(locs + [loc])
  }

  /** The first chunk that cannot be located decides the whole request. */
  lemma {:induction false} LocationsFailEarly(s: State, ids: seq<ChunkId>, i: nat)
    requires i < |ids| && Locations(s, ids[..i]).Ok? && Locate(s, ids[i]).Err?
    ensures Locations(s, ids) == Err(Locate(s, ids[i]).error)
  {
    if i == |ids| - 1 {
    } else {
      var init := ids[..|ids| - 1];
      assert init[..i] == ids[..i] && init[i] == ids[i];
      LocationsFailEarly(s, init, i);
    }
  }

  /** A request succeeds iff every chunk has a live replica; the answers then come in request order. */
  lemma {:induction false} LocationsComplete(s: State, ids: seq<ChunkId>)
    ensures Locations(s, ids).Ok? <==> forall i :: 0 <= i < |ids| ==> Locate(s, ids[i]).Ok?
    ensures Locations(s, ids).Ok? ==>
      && |Locations(s, ids).value| == |ids|
      && forall i :: 0 <= i < |ids| ==> Ok(Locations(s, ids).value[i]) == Locate(s, ids[i])
  {
    if ids != [] {
      var init := ids[..|ids| - 1];
      LocationsComplete(s, init);
      assert forall i :: 0 <= i < |init| ==> init[i] == ids[i];
    }
  }

  lemma {:induction false} AllLocatedIff(s: State, ids: seq<ChunkId>)
    ensures Locations(s, ids).Ok? <==> forall i :: 0 <= i < |ids| ==> HasLiveReplica(s, ids[i])
  {
    LocationsComplete(s, ids);
    forall i | 0 <= i < |ids| ensures Locate(s, ids[i]).Ok? <==> HasLiveReplica(s, ids[i]) { LocateIff(s, ids[i]); }
  }

  /** Chunk `i` is the first without a live replica, and the error names it: it has no record, or no listed node is live. */
  ghost predicate FailsAt(s: State, ids: seq<ChunkId>, i: nat, e: LocationError) {
    && i < |ids| && (forall j :: 0 <= j < i ==> HasLiveReplica(s, ids[j])) && !HasLiveReplica(s, ids[i])
    && e == if ids[i] in s.chunks then NoLiveNodes(ids[i]) else ChunkNotFound(ids[i])
  }

  lemma {:induction false} FirstFailure(s: State, ids: seq<ChunkId>) returns (i: nat)
    requires Locations(s, ids).Err?
    ensures FailsAt(s, ids, i, Locations(s, ids).error)
  {
    var k := |ids| - 1;
    AllLocatedIff(s, ids[..k]);
    if Locations(s, ids[..k]).Err? {
      i := FirstFailure(s, ids[..k]);
    } else {
      i := k;
      LocateIff(s, ids[k]);
      forall j | 0 <= j < k ensures HasLiveReplica(s, ids[j]) { assert ids[..k][j] == ids[j]; }
    }
  }

  lemma {:induction false} LocationsFind(s: State, ids: seq<ChunkId>)
    requires SelfNamed(s) && Locations(s, ids).Ok?
    ensures FindsAll(s, ids, Locations(s, ids).value)
  {
    LocationsComplete(s, ids);
    forall i | 0 <= i < |ids| ensures Finds(s, ids[i], Locations(s, ids).value[i]) {
      assert Ok(Locations(s, ids).value[i]) == Locate(s, ids[i]);
    }
  }

  /**
   The answer to a request for locations: a success exactly when every chunk has a listed node that is not dead, with
   exactly those nodes for every chunk in order; else the error of the first chunk that has none.
   */
  ghost predicate Located(s: State, ids: seq<ChunkId>, r: Result<seq<ChunkLocation>, LocationError>) {
    && (r.Ok? <==> forall i :: 0 <= i < |ids| ==> HasLiveReplica(s, ids[i]))
    && (r.Ok? ==> FindsAll(s, ids, r.value))
    && (r.Err? ==> exists i :: FailsAt(s, ids, i, r.error))
  }

  lemma {:induction false} LocationsAreLocated(s: State, ids: seq<ChunkId>)
    requires SelfNamed(s)
    ensures Located(s, ids, Locations(s, ids))
  {
    AllLocatedIff(s, ids);
    if Locations(s, ids).Ok? {
      LocationsFind(s, ids);
    } else {
      var i := FirstFailure(s, ids);
    }
  }

  /** Every chunk record carries the identifier it is filed under. */
  ghost predicate SelfNamed(s: State) {
    forall c :: c in s.chunks ==> s.chunks[c].chunkID == c
  }

  // ------------------------------------------------------------- two-way index

  /** The replica list of `c` has no duplicates, names registered nodes only, and each of them lists `c`. */
  ghost predicate Indexed(s: State, c: ChunkId) {
    var list := Replicas(s, c);
    NoDup(list) && forall n :: n in list ==> n in s.nodes && c in s.nodes[n].chunks
  }

  /** Every node that lists `c` is in the replica list of `c`. */
  ghost predicate IndexedBack(s: State, c: ChunkId) {
    forall n :: n in s.nodes && c in s.nodes[n].chunks ==> n in Replicas(s, c)
  }

  ghost predicate AllIndexed(s: State) { forall c :: Indexed(s, c) }

  lemma {:induction false} PlaceKeepsIndexed(s: State, c: ChunkId, index: nat, size: int, path: string,
                                             targets: seq<NodeId>)
    requires AllIndexed(s) && NoDup(targets) && forall n :: n in targets ==> n in s.nodes
    ensures AllIndexed(PlaceChunk(s, c, index, size, path, targets))
  {
    var t := PlaceChunk(s, c, index, size, path, targets);
    forall d ensures Indexed(t, d) { assert Indexed(s, d); }
  }

  lemma {:induction false} DropKeepsIndexed(s: State, c: ChunkId)
    requires AllIndexed(s)
    ensures AllIndexed(DropChunk(s, c))
  {
    forall d ensures Indexed(DropChunk(s, c), d) { assert Indexed(s, d); }
  }

  lemma {:induction false} AddKeepsIndexed(s: State, c: ChunkId, n: NodeId)
    requires AllIndexed(s) && n in s.nodes
    ensures AllIndexed(AddChunkToNode(s, c, n))
  {
    forall d ensures Indexed(AddChunkToNode(s, c, n), d) { assert Indexed(s, d); }
  }

  lemma {:induction false} RemoveKeepsIndexed(s: State, c: ChunkId, n: NodeId)
    requires AllIndexed(s)
    ensures AllIndexed(RemoveChunkFromNode(s, c, n))
  {
    forall d ensures Indexed(RemoveChunkFromNode(s, c, n), d) {
      assert Indexed(s, d);
      RemoveFirstNoDup(Replicas(s, d), n);
    }
  }

  /** The indices do not depend on addresses, heartbeats, statuses or risks. */
  lemma {:induction false} SameChunksKeepIndexed(s: State, t: State)
    requires AllIndexed(s) && t.chunks == s.chunks && s.nodes.Keys <= t.nodes.Keys
    requires forall n :: n in s.nodes ==> t.nodes[n].chunks == s.nodes[n].chunks
    ensures AllIndexed(t)
  {
    forall d ensures Indexed(t, d) { assert Indexed(s, d); }
  }

  ghost predicate ValidState(s: State) { Registry(s) && AllIndexed(s) && SelfNamed(s) }

  /** Validity does not depend on heartbeats, statuses or risks. */
  lemma {:induction false} SameNamesKeepValid(s: State, t: State)
    requires ValidState(s) && SameNames(s, t) && t.chunks == s.chunks
    requires forall n :: n in s.nodes ==> t.nodes[n].chunks == s.nodes[n].chunks
    ensures ValidState(t)
  {
    SameNamesKeepRegistry(s, t);
    SameChunksKeepIndexed(s, t);
  }

  lemma {:induction false} RegisterKeepsValid(s: State, address: string, capacity: int, now: int)
    requires ValidState(s)
    ensures ValidState(RegisterNode(s, address, capacity, now))
  {
    RegisterKeepsRegistry(s, address, capacity, now);
    RegisteredNameIsOwnerOrFresh(s, address);
    SameChunksKeepIndexed(s, RegisterNode(s, address, capacity, now));
  }

  /** A heartbeat is recorded with the usage it reports, and brings a dead node back, without risk. */
  lemma {:induction false} HeartbeatEffect(s: State, id: NodeId, used: int, count: int, now: int)
    requires id in s.nodes
    ensures var n, t := s.nodes[id], UpdateHeartbeat(s, id, used, count, now);
      && t.chunks == s.chunks
      && t.nodes == s.nodes[id := n.(
           lastHeartbeat := now, usedBytes := used, chunkCount := count,
           status := if n.status == Dead then Healthy else n.status,
           riskScore := if n.status == Dead then 0.0 else n.riskScore)]
  {
    var n, t := s.nodes[id], UpdateHeartbeat(s, id, used, count, now);
    assert t.nodes[id].status == if n.status == Dead then Healthy else n.status;
  }

  lemma {:induction false} EntryKeepsValid(s: State, id: NodeId, n: DataNodeInfo)
    requires ValidState(s) && id in s.nodes
    requires n.nodeID == s.nodes[id].nodeID && n.address == s.nodes[id].address && n.chunks == s.nodes[id].chunks
    ensures ValidState(s.(nodes := s.nodes[id := n]))
  {
    SameNamesKeepValid(s, s.(nodes := s.nodes[id := n]));
  }

  lemma {:induction false} HeartbeatKeepsValid(s: State, id: NodeId, used: int, count: int, now: int)
    requires ValidState(s) && id in s.nodes
    ensures ValidState(UpdateHeartbeat(s, id, used, count, now))
  {
    var n := s.nodes[id].(lastHeartbeat := now, usedBytes := used, chunkCount := count);
    EntryKeepsValid(s, id, if n.status == Dead then n.(status := Healthy, riskScore := 0.0) else n);
  }

  lemma {:induction false} PlaceKeepsValid(s: State, c: ChunkId, index: nat, size: int, path: string,
                                           targets: seq<NodeId>)
    requires ValidState(s) && NoDup(targets) && forall n :: n in targets ==> n in s.nodes
    ensures SameNames(s, PlaceChunk(s, c, index, size, path, targets))
    ensures ValidState(PlaceChunk(s, c, index, size, path, targets))
  {
    PlaceKeepsIndexed(s, c, index, size, path, targets);
    SameNamesKeepRegistry(s, PlaceChunk(s, c, index, size, path, targets));
  }

  lemma {:induction false} DropKeepsValid(s: State, c: ChunkId)
    requires ValidState(s)
    ensures ValidState(DropChunk(s, c))
  {
    DropKeepsIndexed(s, c);
    SameNamesKeepRegistry(s, DropChunk(s, c));
  }

  lemma {:induction false} AddKeepsValid(s: State, c: ChunkId, n: NodeId)
    requires ValidState(s) && n in s.nodes
    ensures ValidState(AddChunkToNode(s, c, n))
  {
    AddKeepsIndexed(s, c, n);
    SameNamesKeepRegistry(s, AddChunkToNode(s, c, n));
  }

  lemma {:induction false} RemoveKeepsValid(s: State, c: ChunkId, n: NodeId)
    requires ValidState(s)
    ensures ValidState(RemoveChunkFromNode(s, c, n))
  {
    RemoveKeepsIndexed(s, c, n);
    SameNamesKeepRegistry(s, RemoveChunkFromNode(s, c, n));
  }

  // ------------------------------------------------------- placement of a whole file

  /** The state after placing chunks 0 .. |picks| of a file on the chosen targets. */
  function PlaceFile(s: State, hash: string -> string, path: string, fileSize: int, picks: seq<seq<NodeId>>): State {
    if picks == [] then s else
      var i := |picks| - 1;
      PlaceChunk(PlaceFile(s, hash, path, fileSize, picks[..i]),
                 GenerateChunkID(hash, path, i), i, RecordedSize(fileSize, i), path, picks[i])
  }

  lemma {:induction false} PlaceFileNodes(s: State, hash: string -> string, path: string, fileSize: int,
                                          picks: seq<seq<NodeId>>)
    ensures SameNames(s, PlaceFile(s, hash, path, fileSize, picks))
  {
    if picks != [] { PlaceFileNodes(s, hash, path, fileSize, picks[..|picks| - 1]); }
  }

  /** Every pick is a best pick among the candidates, given the placements made before it. */
  ghost predicate GoodPicks(s: State, hash: string -> string, path: string, fileSize: int,
                            candidates: set<NodeId>, picks: seq<seq<NodeId>>)
    requires candidates <= s.nodes.Keys
  {
    picks == [] ||
    var i := |picks| - 1;
    PlaceFileNodes(s, hash, path, fileSize, picks[..i]);
    && GoodPicks(s, hash, path, fileSize, candidates, picks[..i])
    && BestPick(PlaceFile(s, hash, path, fileSize, picks[..i]), candidates, ReplicaGoal(candidates), picks[i])
  }
}
