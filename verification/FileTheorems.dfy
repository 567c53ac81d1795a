/** What the protocol's guarantees mean for files: survival, lookup after a put, and why handlers must be atomic. */
module FileTheorems {
  import opened Common
  import opened Cluster
  import opened Paths
  import opened Namespaces
  import opened Protocol
  import opened ProtocolInvariant
  import opened ProtocolTheorems
  import opened FileSystems

  // --------------------------------------------------------- how often a chunk is put

  /** The puts of a path that have a chunk `i`. */
  function PutsOf(rs: seq<Request>, path: string, i: nat): nat {
    if rs == [] then 0 else
      (if rs[0].PutFile? && rs[0].put.path == path && i < |rs[0].put.picks| then 1 else 0) + PutsOf(rs[1..], path, i)
  }

  ghost predicate DeletesAt(rs: seq<Request>, key: Option<Key>) {
    exists j :: 0 <= j < |rs| && rs[j].DeleteFile? && CreateKey(rs[j].path) == key
  }

  /** Every allocation of `c` is made for these bytes. */
  ghost predicate PutWith(ls: seq<Label>, c: ChunkId, data: Bytes) {
    forall i :: 0 <= i < |ls| && ls[i].Allocate? && ls[i].chunk == c ==> ls[i].data == data
  }

  lemma {:induction false} AllocationsConcat(a: seq<Label>, b: seq<Label>, c: ChunkId)
    ensures Allocations(a + b, c) == Allocations(a, c) + Allocations(b, c)
  {
    if a == [] {
      assert a + b == b;
    } else {
      AllocationsConcat(a[1..], b, c);
      assert (a + b)[1..] == a[1..] + b;
    }
  }

  lemma {:induction false} CountFrom(hash: Hash, p: PutRequest, k: nat, path: string, i: nat)
    requires CollisionFree(hash) && |p.data| == |p.picks| && k <= |p.picks|
    ensures Allocations(PutLabels(hash, p)[k..], GenerateChunkID(hash, path, i))
         == if p.path == path && k <= i < |p.picks| then 1 else 0
    decreases |p.picks| - k
  {
    if k < |p.picks| {
      var ls, c := PutLabels(hash, p), GenerateChunkID(hash, path, i);
      CountFrom(hash, p, k + 1, path, i);
      assert ls[k..][1..] == ls[k + 1..] && ls[k..][0] == ls[k];
      if ls[k].chunk == c { ChunkIDInjective(hash, p.path, k, path, i); }
    }
  }

  lemma {:induction false} NoAllocations(ls: seq<Label>, c: ChunkId)
    requires forall i :: 0 <= i < |ls| ==> !ls[i].Allocate?
    ensures Allocations(ls, c) == 0
  {
    if ls != [] { NoAllocations(ls[1..], c); }
  }

  ghost function StepsOf(hash: Hash, fs: FS, r: Request): (ls: seq<Label>)
    requires CanServe(hash, fs, r)
  {
    match r
    case ClusterStep(l) => [l]
    case PutFile(p) => PutLabels(hash, p)
    case DeleteFile(path) => if Delete(fs.tree, path).Ok? then DropLabels(Delete(fs.tree, path).value.1.chunkIDs) else []
  }

  lemma {:induction false} CountInRequest(hash: Hash, fs: FS, r: Request, path: string, i: nat)
    requires CollisionFree(hash) && CanServe(hash, fs, r)
    ensures Allocations(StepsOf(hash, fs, r), GenerateChunkID(hash, path, i))
         == if r.PutFile? && r.put.path == path && i < |r.put.picks| then 1 else 0
  {
    var ls := StepsOf(hash, fs, r);
    if r.PutFile? {
      CountFrom(hash, r.put, 0, path, i);
      assert ls[0..] == ls;
    } else {
      NoAllocations(ls, GenerateChunkID(hash, path, i));
    }
  }

  lemma {:induction false} NoDropInRequest(hash: Hash, fs: FS, r: Request, path: string, i: nat)
    requires CollisionFree(hash) && Intact(hash, fs) && CanServe(hash, fs, r)
    requires r.DeleteFile? ==> CreateKey(r.path) != CreateKey(path)
    ensures !Drops(StepsOf(hash, fs, r), GenerateChunkID(hash, path, i))
  {
    if r.DeleteFile? && Delete(fs.tree, r.path).Ok? {
      DeleteRemovesOneFile(fs.tree, r.path);
      var meta := Delete(fs.tree, r.path).value.1;
      assert FileIntact(hash, fs.sys.cm, CreateKey(r.path).value, meta);
      ForeignChunk(hash, fs.sys.cm, CreateKey(r.path).value, meta, path, i);
    }
  }

  /** A file in another position has no chunk of this path. */
  lemma {:induction false} ForeignChunk(hash: Hash, cm: State, key: Key, meta: FileMeta, path: string, i: nat)
    requires CollisionFree(hash) && FileIntact(hash, cm, key, meta) && CreateKey(path) != Some(key)
    ensures forall j :: 0 <= j < |meta.chunkIDs| ==> meta.chunkIDs[j] != GenerateChunkID(hash, path, i)
  {
    forall j | 0 <= j < |meta.chunkIDs| ensures meta.chunkIDs[j] != GenerateChunkID(hash, path, i) {
      if meta.chunkIDs[j] == GenerateChunkID(hash, path, i) { ChunkIDInjective(hash, meta.path, j, path, i); }
    }
  }

  lemma {:induction false} DataInRequest(hash: Hash, fs: FS, r: Request, path: string, i: nat, data: Bytes)
    requires CollisionFree(hash) && CanServe(hash, fs, r)
    requires r.PutFile? && r.put.path == path && i < |r.put.picks| ==> r.put.data[i] == data
    ensures PutWith(StepsOf(hash, fs, r), GenerateChunkID(hash, path, i), data)
  {
    var ls, c := StepsOf(hash, fs, r), GenerateChunkID(hash, path, i);
    forall k | 0 <= k < |ls| && ls[k].Allocate? && ls[k].chunk == c ensures ls[k].data == data {
      ChunkIDInjective(hash, r.put.path, k, path, i);
    }
  }

  /** All puts of the path carry these bytes as chunk `i`. */
  ghost predicate AllPutsWith(rs: seq<Request>, path: string, i: nat, data: Bytes) {
    forall k :: 0 <= k < |rs| && rs[k].PutFile? && rs[k].put.path == path && i < |rs[k].put.picks| ==>
      i < |rs[k].put.data| && rs[k].put.data[i] == data
  }

  lemma {:induction false} TraceOfRun(hash: Hash, fs: FS, rs: seq<Request>, path: string, i: nat, data: Bytes)
    requires CollisionFree(hash) && Intact(hash, fs) && CanServeAll(hash, fs, rs)
    requires !DeletesAt(rs, CreateKey(path)) && AllPutsWith(rs, path, i, data)
    ensures var ls, c := Steps(hash, fs, rs), GenerateChunkID(hash, path, i);
      Allocations(ls, c) == PutsOf(rs, path, i) && !Drops(ls, c) && PutWith(ls, c, data)
    decreases |rs|
  {
    if rs != [] {
      var c := GenerateChunkID(hash, path, i);
      var first, rest := StepsOf(hash, fs, rs[0]), Steps(hash, Serve(hash, fs, rs[0]), rs[1..]);
      assert Steps(hash, fs, rs) == first + rest;
      ServeKeepsIntact(hash, fs, rs[0]);
      assert forall k :: 0 <= k < |rs[1..]| ==> rs[1..][k] == rs[k + 1];
      TraceOfRun(hash, Serve(hash, fs, rs[0]), rs[1..], path, i, data);
      AllocationsConcat(first, rest, c);
      CountInRequest(hash, fs, rs[0], path, i);
      NoDropInRequest(hash, fs, rs[0], path, i);
      DataInRequest(hash, fs, rs[0], path, i, data);
      JoinTraces(first, rest, c, data);
    }
  }

  /** How often a run allocates a chunk: once for each put of its path that has it. */
  lemma {:induction false} AllocationsOfRun(hash: Hash, fs: FS, rs: seq<Request>, path: string, i: nat)
    requires CollisionFree(hash) && CanServeAll(hash, fs, rs)
    ensures Allocations(Steps(hash, fs, rs), GenerateChunkID(hash, path, i)) == PutsOf(rs, path, i)
    decreases |rs|
  {
    if rs != [] {
      var first, rest := StepsOf(hash, fs, rs[0]), Steps(hash, Serve(hash, fs, rs[0]), rs[1..]);
      assert Steps(hash, fs, rs) == first + rest;
      AllocationsOfRun(hash, Serve(hash, fs, rs[0]), rs[1..], path, i);
      AllocationsConcat(first, rest, GenerateChunkID(hash, path, i));
      CountInRequest(hash, fs, rs[0], path, i);
    }
  }

  lemma {:induction false} JoinTraces(a: seq<Label>, b: seq<Label>, c: ChunkId, data: Bytes)
    requires !Drops(a, c) && !Drops(b, c) && PutWith(a, c, data) && PutWith(b, c, data)
    ensures !Drops(a + b, c) && PutWith(a + b, c, data)
  {
    forall i | 0 <= i < |a + b|
      ensures (a + b)[i] != Drop(c)
      ensures (a + b)[i].Allocate? && (a + b)[i].chunk == c ==> (a + b)[i].data == data
    {
      assert (a + b)[i] == if i < |a| then a[i] else b[i - |a|];
    }
  }

  lemma {:induction false} ServeKeepsIntact(hash: Hash, fs: FS, r: Request)
    requires CollisionFree(hash) && Intact(hash, fs) && CanServe(hash, fs, r)
    ensures Intact(hash, Serve(hash, fs, r))
  {
    match r {
      case ClusterStep(l) => ClusterKeepsIntact(hash, fs, l);
      case PutFile(p) => PutKeepsIntact(hash, fs, p);
      case DeleteFile(path) => DeleteKeepsIntact(hash, fs, path);
    }
  }

  /** The chunk has a replica, and once uploaded every listed replica holds these bytes. */
  ghost predicate Safe(s: Sys, c: ChunkId, data: Bytes) {
    && Clean(s, c) && Pure(s, c) && Replicas(s.cm, c) != [] && s.hist[c].content == data
    && (Uploaded(s, c) ==> forall n :: n in Replicas(s.cm, c) ==> Holds(s, n, c))
  }

  /**
   A file that is put once and never deleted: whatever else is requested and however migrations interleave, each of
   its chunks has a replica, and once uploaded every listed replica holds the bytes it was put with.
   */
  lemma {:induction false} FileSurvives(hash: Hash, rs: seq<Request>, k: nat, i: nat)
    requires CollisionFree(hash) && CanServeAll(hash, EMPTY_FS, rs)
    requires k < |rs| && rs[k].PutFile? && i < |rs[k].put.picks|
    requires forall j :: 0 <= j < |rs| && rs[j].PutFile? && rs[j].put.path == rs[k].put.path ==> j == k
    requires !DeletesAt(rs, CreateKey(rs[k].put.path))
    ensures i < |rs[k].put.data|
    ensures Safe(ServeAll(hash, EMPTY_FS, rs).sys, GenerateChunkID(hash, rs[k].put.path, i), rs[k].put.data[i])
  {
    PutAccepted(hash, EMPTY_FS, rs, k);
    TraceOfOnePut(hash, rs, k, i);
    RunsAreClusterRuns(hash, EMPTY_FS, rs);
    ChunkSurvives(Steps(hash, EMPTY_FS, rs), GenerateChunkID(hash, rs[k].put.path, i), rs[k].put.data[i]);
  }

  /** The chunk is allocated once in the run, for the bytes of the put, and never dropped. */
  lemma {:induction false} TraceOfOnePut(hash: Hash, rs: seq<Request>, k: nat, i: nat)
    requires CollisionFree(hash) && CanServeAll(hash, EMPTY_FS, rs)
    requires k < |rs| && rs[k].PutFile? && i < |rs[k].put.picks| && i < |rs[k].put.data|
    requires forall j :: 0 <= j < |rs| && rs[j].PutFile? && rs[j].put.path == rs[k].put.path ==> j == k
    requires !DeletesAt(rs, CreateKey(rs[k].put.path))
    ensures var ls, c := Steps(hash, EMPTY_FS, rs), GenerateChunkID(hash, rs[k].put.path, i);
      Allocations(ls, c) == 1 && !Drops(ls, c) && PutWith(ls, c, rs[k].put.data[i])
  {
    PutOnce(rs, k, i);
    TraceOfRun(hash, EMPTY_FS, rs, rs[k].put.path, i, rs[k].put.data[i]);
  }

  /** A chunk allocated once, for these bytes, and never dropped. */
  lemma {:induction false} ChunkSurvives(ls: seq<Label>, c: ChunkId, data: Bytes)
    requires Feasible(INITIAL, ls) && Allocations(ls, c) == 1 && !Drops(ls, c) && PutWith(ls, c, data)
    ensures Safe(After(INITIAL, ls), c, data)
  {
    InitialInv();
    var at := AllocatedOnceIsClean(INITIAL, ls, c);
    ReplicasNeverEmpty(ls, c);
    forall n | n in Replicas(After(INITIAL, ls).cm, c) && Uploaded(After(INITIAL, ls), c)
      ensures Holds(After(INITIAL, ls), n, c)
    {
      ListedNodesHoldContent(ls, c, n);
    }
  }

  lemma {:induction false} PutAccepted(hash: Hash, fs: FS, rs: seq<Request>, k: nat)
    requires CanServeAll(hash, fs, rs) && k < |rs| && rs[k].PutFile?
    ensures |rs[k].put.data| == |rs[k].put.picks|
    decreases |rs|
  {
    if k > 0 { PutAccepted(hash, Serve(hash, fs, rs[0]), rs[1..], k - 1); }
  }

  lemma {:induction false} NeverPut(rs: seq<Request>, path: string, i: nat)
    requires forall j :: 0 <= j < |rs| && rs[j].PutFile? ==> rs[j].put.path != path
    ensures PutsOf(rs, path, i) == 0
  {
    if rs != [] { NeverPut(rs[1..], path, i); }
  }

  lemma {:induction false} PutOnce(rs: seq<Request>, k: nat, i: nat)
    requires k < |rs| && rs[k].PutFile? && i < |rs[k].put.picks|
    requires forall j :: 0 <= j < |rs| && rs[j].PutFile? && rs[j].put.path == rs[k].put.path ==> j == k
    ensures PutsOf(rs, rs[k].put.path, i) == 1
  {
    assert forall j :: 0 <= j < |rs| - 1 ==> rs[1..][j] == rs[j + 1];
    if k == 0 { NeverPut(rs[1..], rs[0].put.path, i); } else { PutOnce(rs[1..], k - 1, i); }
  }

  // ------------------------------------------------------------ allocation as a run

  /** The put request of the first `k` chunks. */
  function Prefix(p: PutRequest, k: nat): PutRequest
    requires k <= |p.data| && k <= |p.picks|
  {
    p.(data := p.data[..k], picks := p.picks[..k])
  }

  /** Nodes, addresses and statuses are the same; only chunk sets differ. */
  ghost predicate SameHealth(s: State, t: State) {
    s.nodes.Keys == t.nodes.Keys && forall n :: n in s.nodes ==> t.nodes[n].(chunks := s.nodes[n].chunks) == s.nodes[n]
  }

  lemma {:induction false} PlaceFileHealth(s: State, hash: Hash, path: string, fileSize: int, picks: seq<seq<NodeId>>,
                                           now: int)
    ensures SameHealth(s, PlaceFile(s, hash, path, fileSize, picks))
    ensures HealthyNodes(PlaceFile(s, hash, path, fileSize, picks), now) == HealthyNodes(s, now)
  {
    if picks != [] { PlaceFileHealth(s, hash, path, fileSize, picks[..|picks| - 1], now); }
  }

  function LastLabel(hash: Hash, p: PutRequest): Label
    requires |p.data| == |p.picks| > 0
  {
    var k := |p.picks| - 1;
    Allocate(GenerateChunkID(hash, p.path, k), k, RecordedSize(p.fileSize, k), p.path, p.data[k], p.picks[k], p.now)
  }

  lemma {:induction false} PutLabelsNext(hash: Hash, p: PutRequest)
    requires |p.data| == |p.picks| > 0
    ensures PutLabels(hash, p) == PutLabels(hash, Prefix(p, |p.picks| - 1)) + [LastLabel(hash, p)]
  {
  }

  lemma {:induction false} LastLabelStep(s: State, t: Sys, hash: Hash, p: PutRequest)
    requires |p.data| == |p.picks| > 0 && HealthyNodes(s, p.now) != {}
    requires GoodPicks(s, hash, p.path, p.fileSize, HealthyNodes(s, p.now), p.picks)
    requires t.cm == PlaceFile(s, hash, p.path, p.fileSize, p.picks[..|p.picks| - 1])
    ensures Feasible(t, [LastLabel(hash, p)])
    ensures After(t, [LastLabel(hash, p)]).cm == PlaceFile(s, hash, p.path, p.fileSize, p.picks)
  {
    var last := LastLabel(hash, p);
    PlaceFileHealth(s, hash, p.path, p.fileSize, p.picks[..|p.picks| - 1], p.now);
    assert Enabled(t, last);
    OneLabel(t, last);
  }

  lemma {:induction false} OneLabel(s: Sys, l: Label)
    requires Enabled(s, l)
    ensures Feasible(s, [l]) && After(s, [l]) == Next(s, l)
  {
    assert [l][1..] == [];
    assert Feasible(Next(s, l), []) && After(Next(s, l), []) == Next(s, l);
  }

  /** What AllocateChunks does for a whole file is a run of allocation steps. */
  lemma {:induction false} AllocationIsRun(s: Sys, hash: Hash, p: PutRequest)
    requires |p.data| == |p.picks| && HealthyNodes(s.cm, p.now) != {}
    requires GoodPicks(s.cm, hash, p.path, p.fileSize, HealthyNodes(s.cm, p.now), p.picks)
    ensures Feasible(s, PutLabels(hash, p))
    ensures After(s, PutLabels(hash, p)).cm == PlaceFile(s.cm, hash, p.path, p.fileSize, p.picks)
    decreases |p.picks|
  {
    if p.picks != [] {
      var init := PutLabels(hash, Prefix(p, |p.picks| - 1));
      AllocationIsRun(s, hash, Prefix(p, |p.picks| - 1));
      LastLabelStep(s.cm, After(s, init), hash, p);
      AfterAppend(s, init, [LastLabel(hash, p)]);
      PutLabelsNext(hash, p);
    }
  }

  // --------------------------------------------------------------- lookup after a put

  lemma {:induction false} PlacedReplicas(s: State, hash: Hash, path: string, fileSize: int, picks: seq<seq<NodeId>>,
                                          i: nat)
    requires CollisionFree(hash) && i < |picks|
    ensures var t, c := PlaceFile(s, hash, path, fileSize, picks), GenerateChunkID(hash, path, i);
      c in t.chunks && t.chunks[c] == ChunkMeta(c, i, RecordedSize(fileSize, i), picks[i], path)
  {
    var k := |picks| - 1;
    if i < k {
      PlacedReplicas(s, hash, path, fileSize, picks[..k], i);
      if GenerateChunkID(hash, path, i) == GenerateChunkID(hash, path, k) { ChunkIDInjective(hash, path, i, path, k); }
    }
  }

  lemma {:induction false} AllLive(s: State, ids: seq<NodeId>)
    requires forall n :: n in ids ==> IsLive(s, n)
    ensures LiveNodes(s, ids) == ids
  {
    if ids != [] {
      assert ids == [ids[0]] + ids[1..];
      AllLive(s, ids[1..]);
    }
  }

  lemma {:induction false} PicksAreHealthy(s: State, hash: Hash, path: string, fileSize: int, candidates: set<NodeId>,
                                           picks: seq<seq<NodeId>>, i: nat)
    requires candidates <= s.nodes.Keys && GoodPicks(s, hash, path, fileSize, candidates, picks) && i < |picks|
    ensures |picks[i]| == ReplicaGoal(candidates) && forall n :: n in picks[i] ==> n in candidates
  {
    if i < |picks| - 1 { PicksAreHealthy(s, hash, path, fileSize, candidates, picks[..|picks| - 1], i); }
  }

  lemma {:induction false} LocateAfterPut(s: State, hash: Hash, p: PutRequest, i: nat)
    requires CollisionFree(hash) && HealthyNodes(s, p.now) != {} && i < |p.picks|
    requires GoodPicks(s, hash, p.path, p.fileSize, HealthyNodes(s, p.now), p.picks)
    ensures var c := GenerateChunkID(hash, p.path, i);
      var t := PlaceFile(s, hash, p.path, p.fileSize, p.picks);
      && (forall n :: n in p.picks[i] ==> n in t.nodes)
      && Locate(t, c) == Ok(ChunkLocation(c, i, p.picks[i], AddressesOf(t, p.picks[i])))
  {
    var t := PlaceFile(s, hash, p.path, p.fileSize, p.picks);
    var healthy := HealthyNodes(s, p.now);
    PlacedReplicas(s, hash, p.path, p.fileSize, p.picks, i);
    PlaceFileHealth(s, hash, p.path, p.fileSize, p.picks, p.now);
    PicksAreHealthy(s, hash, p.path, p.fileSize, healthy, p.picks, i);
    forall n | n in p.picks[i] ensures IsLive(t, n) { assert n in healthy; }
    AllLive(t, p.picks[i]);
    NonEmptyHasElements(healthy);
  }

  lemma {:induction false} NonEmptyHasElements<T>(s: set<T>)
    requires s != {}
    ensures |s| > 0
  {
    var x :| x in s;
  }

  /**
   A put that the namespace accepts is seen by a get of the same path, with all chunks located on exactly the nodes
   chosen for them, provided creation and lookup agree on the path's position.
   */
  lemma {:induction false} PutThenGet(hash: Hash, fs: FS, p: PutRequest)
    requires CollisionFree(hash) && Intact(hash, fs) && |p.data| == |p.picks| && HealthyNodes(fs.sys.cm, p.now) != {}
    requires GoodPicks(fs.sys.cm, hash, p.path, p.fileSize, HealthyNodes(fs.sys.cm, p.now), p.picks)
    requires Create(fs.tree, p.path, MetaOf(hash, p)).Ok? && Agreeable(Components(p.path))
    ensures CanServe(hash, fs, PutFile(p))
    ensures var t := Serve(hash, fs, PutFile(p));
      && Get(t.tree, p.path) == Ok(MetaOf(hash, p))
      && var locations := Locations(t.sys.cm, MetaOf(hash, p).chunkIDs);
         locations.Ok? && |locations.value| == |p.picks| &&
         forall i :: 0 <= i < |p.picks| ==>
           && (forall n :: n in p.picks[i] ==> n in t.sys.cm.nodes)
           && locations.value[i]
              == ChunkLocation(GenerateChunkID(hash, p.path, i), i, p.picks[i], AddressesOf(t.sys.cm, p.picks[i]))
  {
    AllocationIsRun(fs.sys, hash, p);
    assert forall key :: key in Files(fs.tree) ==> FileIntact(hash, fs.sys.cm, key, Files(fs.tree)[key]);
    CreateThenGet(fs.tree, p.path, MetaOf(hash, p));
    var ids := MetaOf(hash, p).chunkIDs;
    var t := Serve(hash, fs, PutFile(p)).sys.cm;
    forall i | 0 <= i < |ids| 
      ensures forall n :: n in p.picks[i] ==> n in t.nodes
      ensures Locate(t, ids[i]) == Ok(ChunkLocation(ids[i], i, p.picks[i], AddressesOf(t, p.picks[i])))
    {
      LocateAfterPut(fs.sys.cm, hash, p, i);
    }
    LocationsComplete(t, ids);
  }

  // ------------------------------------------------------- handlers need to be atomic

  /** Some file of this path has chunks. */
  ghost predicate HasChunks(t: Tree, path: string) {
    exists key :: key in Files(t) && Files(t)[key].path == path && Files(t)[key].chunkIDs != []
  }

  /** Which files keep all their chunks when the first `n` chunks of a path are removed. */
  lemma {:induction false} FileAfterDrops(hash: Hash, s: Sys, key: Key, meta: FileMeta, path: string, n: nat)
    requires CollisionFree(hash) && FileIntact(hash, s.cm, key, meta)
    ensures FileIntact(hash, Dropped(s, ChunkIDs(hash, path, n)).cm, key, meta)
       <==> n == 0 || meta.path != path || meta.chunkIDs == []
  {
    var ids, cm := ChunkIDs(hash, path, n), Dropped(s, ChunkIDs(hash, path, n)).cm;
    DropsFeasible(s, ids);
    forall i | 0 <= i < |meta.chunkIDs| ensures meta.chunkIDs[i] in cm.chunks <==> meta.path != path || i >= n {
      DropsKeys(s.cm, ids, meta.chunkIDs[i]);
      IsChunkOf(hash, meta.path, i, path, n);
    }
  }

  lemma {:induction false} IsChunkOf(hash: Hash, path: string, i: nat, other: string, n: nat)
    requires CollisionFree(hash)
    ensures GenerateChunkID(hash, path, i) in ChunkIDs(hash, other, n) <==> path == other && i < n
  {
    var c := GenerateChunkID(hash, path, i);
    if c in ChunkIDs(hash, other, n) {
      var j: nat :| j < n && ChunkIDs(hash, other, n)[j] == c;
      ChunkIDInjective(hash, path, i, other, j);
    }
    if path == other && i < n { assert ChunkIDs(hash, other, n)[i] == c; }
  }

  /** Removing the first chunks of a path harms exactly the files of that path that have chunks. */
  lemma {:induction false} LateDropsIff(hash: Hash, fs: FS, path: string, n: nat)
    requires CollisionFree(hash) && Intact(hash, fs)
    ensures Intact(hash, fs.(sys := Dropped(fs.sys, ChunkIDs(hash, path, n)))) <==> n == 0 || !HasChunks(fs.tree, path)
  {
    forall key | key in Files(fs.tree)
      ensures FileIntact(hash, Dropped(fs.sys, ChunkIDs(hash, path, n)).cm, key, Files(fs.tree)[key])
         <==> n == 0 || Files(fs.tree)[key].path != path || Files(fs.tree)[key].chunkIDs == []
    {
      FileAfterDrops(hash, fs.sys, key, Files(fs.tree)[key], path, n);
    }
  }

  /**
   The delete handler in its two halves with any requests in between: integrity survives exactly when, by the time
   the chunks are removed, no file of the deleted path has chunks.
   */
  lemma {:induction false} SplitDeleteIff(hash: Hash, fs: FS, path: string, rs: seq<Request>)
    requires CollisionFree(hash) && Intact(hash, fs) && Delete(fs.tree, path).Ok?
    requires CanServeAll(hash, fs.(tree := Delete(fs.tree, path).value.0), rs)
    ensures var (tree, meta) := Delete(fs.tree, path).value;
      var gap := ServeAll(hash, fs.(tree := tree), rs);
      Intact(hash, gap.(sys := Dropped(gap.sys, meta.chunkIDs)))
      <==> meta.chunkIDs == [] || !HasChunks(gap.tree, meta.path)
  {
    var (tree, meta) := Delete(fs.tree, path).value;
    var key := CreateKey(path).value;
    DeleteRemovesOneFile(fs.tree, path);
    assert FileIntact(hash, fs.sys.cm, key, meta);
    FewerFilesIntact(hash, fs, tree, key);
    IntactRun(hash, fs.(tree := tree), rs);
    LateDropsIff(hash, ServeAll(hash, fs.(tree := tree), rs), meta.path, |meta.chunkIDs|);
  }

  /** With a single put in between: it harms exactly when both files have the same path and both have chunks. */
  lemma {:induction false} PutInDeleteIff(hash: Hash, fs: FS, path: string, p: PutRequest)
    requires CollisionFree(hash) && Intact(hash, fs) && Delete(fs.tree, path).Ok?
    requires CanServe(hash, fs.(tree := Delete(fs.tree, path).value.0), PutFile(p))
    ensures var (tree, meta) := Delete(fs.tree, path).value;
      var put := Serve(hash, fs.(tree := tree), PutFile(p));
      Intact(hash, put.(sys := Dropped(put.sys, meta.chunkIDs)))
      <==> meta.chunkIDs == [] || p.path != meta.path || p.picks == []
  {
    var (tree, meta) := Delete(fs.tree, path).value;
    var gap := fs.(tree := tree);
    var put := Serve(hash, gap, PutFile(p));
    DeleteRemovesOneFile(fs.tree, path);
    OneRequest(hash, gap, PutFile(p));
    SplitDeleteIff(hash, fs, path, [PutFile(p)]);
    if p.path == meta.path {
      assert FileIntact(hash, fs.sys.cm, CreateKey(path).value, meta);
      PutBack(fs.tree, path, p.path, MetaOf(hash, p));
    }
    ChunksAfterPut(hash, fs, path, p);
  }

  lemma {:induction false} OneRequest(hash: Hash, fs: FS, r: Request)
    requires CanServe(hash, fs, r)
    ensures CanServeAll(hash, fs, [r]) && ServeAll(hash, fs, [r]) == Serve(hash, fs, r)
  {
    assert [r][1..] == [];
    assert CanServeAll(hash, Serve(hash, fs, r), []) && ServeAll(hash, Serve(hash, fs, r), []) == Serve(hash, fs, r);
  }

  /**
   The put handler in its two halves, allocation and creation, with a delete in between: integrity survives exactly
   when the delete is refused, or its file had another path or no chunks, or the put has none.
   */
  lemma {:induction false} DeleteInPutIff(hash: Hash, fs: FS, p: PutRequest, path: string)
    requires CollisionFree(hash) && Intact(hash, fs) && CanServe(hash, fs, PutFile(p))
    ensures var gap := Serve(hash, fs.(sys := After(fs.sys, PutLabels(hash, p))), DeleteFile(path));
      var created := Create(gap.tree, p.path, MetaOf(hash, p));
      Intact(hash, gap.(tree := if created.Ok? then created.value else gap.tree))
      <==> Delete(fs.tree, path).Err? || var meta := Delete(fs.tree, path).value.1;
           meta.chunkIDs == [] || p.path != meta.path || p.picks == []
  {
    if Delete(fs.tree, path).Ok? {
      PutInDeleteIff(hash, fs, path, p);
    } else {
      PutKeepsIntact(hash, fs, p);
    }
  }

  /** So a delete and a put of the same path, one inside the other, leave the new file without its chunks. */
  lemma {:induction false} SplitDeleteDangles(hash: Hash, fs: FS, p: PutRequest)
    requires CollisionFree(hash) && Intact(hash, fs) && Delete(fs.tree, p.path).Ok?
    requires var meta := Delete(fs.tree, p.path).value.1; meta.path == p.path && meta.chunkIDs != []
    requires p.picks != [] && CanServe(hash, fs.(tree := Delete(fs.tree, p.path).value.0), PutFile(p))
    ensures var (tree, meta) := Delete(fs.tree, p.path).value;
      var put := Serve(hash, fs.(tree := tree), PutFile(p));
      Intact(hash, put) && !Intact(hash, put.(sys := Dropped(put.sys, meta.chunkIDs)))
  {
    DeleteRemovesOneFile(fs.tree, p.path);
    FewerFilesIntact(hash, fs, Delete(fs.tree, p.path).value.0, CreateKey(p.path).value);
    PutKeepsIntact(hash, fs.(tree := Delete(fs.tree, p.path).value.0), p);
    PutInDeleteIff(hash, fs, p.path, p);
  }

  lemma {:induction false} FewerFilesIntact(hash: Hash, fs: FS, tree: Tree, key: Key)
    requires Intact(hash, fs) && Shape(tree) && Files(tree) == Files(fs.tree) - {key}
    ensures Intact(hash, fs.(tree := tree))
  {
  }

  /** What was just deleted can be created again, under any path of the same position. */
  lemma {:induction false} PutBack(t: Tree, path: string, again: string, meta: FileMeta)
    requires Shape(t) && Delete(t, path).Ok? && CreateKey(again) == CreateKey(path)
    ensures Create(Delete(t, path).value.0, again, meta).Ok?
  {
    var key, u := CreateKey(path).value, Delete(t, path).value.0;
    DeleteRemovesOneFile(t, path);
    CreateFailsIff(u, again, meta);
    forall n: nat | n < |key| ensures key[..n] !in Files(u) { FilesAreLeaves(t, key, n); }
  }

  /** After a delete and a put, the only file of the deleted path can be the one just put. */
  lemma {:induction false} ChunksAfterPut(hash: Hash, fs: FS, path: string, p: PutRequest)
    requires Intact(hash, fs) && Delete(fs.tree, path).Ok?
    ensures var (tree, meta) := Delete(fs.tree, path).value;
      var created := Create(tree, p.path, MetaOf(hash, p));
      HasChunks(if created.Ok? then created.value else tree, meta.path) <==>
        created.Ok? && p.path == meta.path && p.picks != []
  {
    var (tree, meta) := Delete(fs.tree, path).value;
    var created := Create(tree, p.path, MetaOf(hash, p));
    var after := if created.Ok? then created.value else tree;
    DeleteRemovesOneFile(fs.tree, path);
    assert FileIntact(hash, fs.sys.cm, CreateKey(path).value, meta);
    if created.Ok? {
      CreateAddsOneFile(tree, p.path, MetaOf(hash, p));
      assert CreateKey(p.path).value in Files(after);
    }
    forall key | key in Files(after) && key in Files(tree) && Files(after)[key] == Files(tree)[key]
      ensures Files(after)[key].path != meta.path
    {
      assert FileIntact(hash, fs.sys.cm, key, Files(fs.tree)[key]);
    }
  }
}
