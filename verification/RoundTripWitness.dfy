/**
 A complete run, from an empty system through an upload and a migration to a finished download: the hypotheses of the
 round trip can be met.
 */
module RoundTripWitness {
  import opened Common
  import opened Cluster
  import opened Paths
  import opened Namespaces
  import opened Migrators
  import opened MigrationRuns
  import opened Protocol
  import opened ProtocolTheorems
  import opened FileSystems
  import opened FileTheorems
  import opened Transfers
  import opened Handlers
  import opened RoundTrips
  import opened ProtocolWitnesses

  // ------------------------------------------------------- cluster steps as requests

  ghost predicate Quiet(ls: seq<Label>) {
    forall i :: 0 <= i < |ls| ==> !ls[i].Allocate? && !ls[i].Drop?
  }

  function AsRequests(ls: seq<Label>): (rs: seq<Request>)
    ensures |rs| == |ls| && forall i :: 0 <= i < |rs| ==> rs[i] == ClusterStep(ls[i])
  {
    seq(|ls|, i requires 0 <= i < |ls| => ClusterStep(ls[i]))
  }

  /** Cluster steps, and then these requests. */
  lemma {:induction false} Lift(hash: Hash, fs: FS, ls: seq<Label>, rs: seq<Request>)
    requires Feasible(fs.sys, ls) && Quiet(ls) && CanServeAll(hash, fs.(sys := After(fs.sys, ls)), rs)
    ensures CanServeAll(hash, fs, AsRequests(ls) + rs)
    ensures ServeAll(hash, fs, AsRequests(ls) + rs) == ServeAll(hash, fs.(sys := After(fs.sys, ls)), rs)
    decreases |ls|
  {
    if ls == [] {
      assert AsRequests(ls) + rs == rs;
    } else {
      var t := Next(fs.sys, ls[0]);
      assert forall i :: 0 <= i < |ls[1..]| ==> ls[1..][i] == ls[i + 1];
      Lift(hash, fs.(sys := t), ls[1..], rs);
      assert fs.(sys := t) == Serve(hash, fs, ClusterStep(ls[0]));
      ServeFirst(hash, fs, ClusterStep(ls[0]), AsRequests(ls[1..]) + rs);
      assert AsRequests(ls) + rs == [ClusterStep(ls[0])] + (AsRequests(ls[1..]) + rs);
    }
  }

  lemma {:induction false} ServeFirst(hash: Hash, fs: FS, r: Request, rs: seq<Request>)
    requires CanServe(hash, fs, r) && CanServeAll(hash, Serve(hash, fs, r), rs)
    ensures CanServeAll(hash, fs, [r] + rs) && ServeAll(hash, fs, [r] + rs) == ServeAll(hash, Serve(hash, fs, r), rs)
  {
    assert ([r] + rs)[1..] == rs;
  }

  lemma {:induction false} UploadsShrink(s: Sys, ls: seq<Label>)
    requires Feasible(s, ls) && Quiet(ls)
    ensures After(s, ls).uploads <= s.uploads
    decreases |ls|
  {
    if ls != [] {
      assert forall i :: 0 <= i < |ls[1..]| ==> ls[1..][i] == ls[i + 1];
      assert Next(s, ls[0]).uploads <= s.uploads;
      UploadsShrink(Next(s, ls[0]), ls[1..]);
    }
  }

  // -------------------------------------------------------------- before the put

  /** Two nodes, of which the second does not accept chunks for now. */
  function Prepared(a: NodeId, b: NodeId): Sys {
    Nodes({a, b}).(cm := UpdateNodeHealth(Nodes({a, b}).cm, b, Critical, 1.0))
  }

  lemma {:induction false} TwoRegistered() returns (a: NodeId, b: NodeId, s: Sys)
    ensures a != b && Next(INITIAL, Register(a, 0, 0)) == s && Next(s, Register(b, 0, 0)) == Nodes({a, b})
  {
    a, b := TwoNames();
    s := RegisterStep(0, INITIAL, a);
    var t := RegisterStep(1, s, b);
  }

  lemma {:induction false} RegisterStep(n: nat, s: Sys, id: NodeId) returns (t: Sys)
    requires id == NodeName(n + 1) && (s == Fresh(n) || (n == 0 && s == INITIAL))
    ensures t == Next(s, Register(id, 0, 0)) == Fresh(n + 1)
  {
    if n == 0 { FreshZero(); }
    RegisterOneMore(n);
    t := Fresh(n + 1);
  }

  lemma {:induction false} ThreeSteps(s: Sys, l: Label, m: Label, n: Label)
    requires Enabled(s, l) && Enabled(Next(s, l), m) && Enabled(Next(Next(s, l), m), n)
    ensures Feasible(s, [l, m, n]) && After(s, [l, m, n]) == Next(Next(Next(s, l), m), n)
  {
    var t := Next(s, l);
    One(Next(t, m), n, Next(Next(t, m), n));
    OneStep(t, m, [n]);
    OneStep(s, l, [m] + [n]);
    assert [l, m, n] == [l] + ([m] + [n]);
  }

  lemma {:induction false} SetupRun() returns (a: NodeId, b: NodeId, ls: seq<Label>)
    ensures a != b && |ls| == 3 && Quiet(ls) && Feasible(INITIAL, ls) && After(INITIAL, ls) == Prepared(a, b)
  {
    var s;
    a, b, s := TwoRegistered();
    ls := [Register(a, 0, 0), Register(b, 0, 0), SetHealth(b, Critical, 1.0)];
    ThreeSteps(INITIAL, ls[0], ls[1], ls[2]);
  }

  // --------------------------------------------------------------------- the put

  /** One file of one chunk, placed on one node. */
  function OnePut(path: string, data: Bytes, n: NodeId): PutRequest {
    PutRequest(path, |data|, "", [data], [[n]], 0)
  }

  function PutLabel(hash: Hash, path: string, data: Bytes, n: NodeId): Label {
    Allocate(GenerateChunkID(hash, path, 0), 0, RecordedSize(|data|, 0), path, data, [n], 0)
  }

  /** The chunk is recorded on node `a` and waits to be stored there. */
  ghost predicate Waiting(s: Sys, c: ChunkId, path: string, data: Bytes, a: NodeId, b: NodeId) {
    && a != b && s.cm.nodes.Keys == {a, b} && s.cm.nodes[b].address == b && s.cm.nodes[a].chunks == {c}
    && c in s.cm.chunks && s.cm.chunks[c] == ChunkMeta(c, 0, RecordedSize(|data|, 0), [a], path)
    && s.runs == map[] && s.uploads == {Upload(c, a, data)}
  }

  lemma {:induction false} PutIsEnabled(hash: Hash, path: string, data: Bytes, a: NodeId, b: NodeId)
    requires a != b
    ensures HealthyNodes(Prepared(a, b).cm, 0) == {a}
    ensures Enabled(Prepared(a, b), PutLabel(hash, path, data, a))
  {
    var s := Prepared(a, b);
    assert HealthyNodes(s.cm, 0) == {a};
    assert ReplicaGoal({a}) == 1;
    assert BestPick(s.cm, {a}, 1, [a]);
  }

  lemma {:induction false} PutWaits(hash: Hash, path: string, data: Bytes, a: NodeId, b: NodeId)
    requires a != b && Enabled(Prepared(a, b), PutLabel(hash, path, data, a))
    ensures Waiting(Next(Prepared(a, b), PutLabel(hash, path, data, a)), GenerateChunkID(hash, path, 0), path, data, a, b)
  {
    var s, c := Next(Prepared(a, b), PutLabel(hash, path, data, a)), GenerateChunkID(hash, path, 0);
    assert s.uploads == {Upload(c, a, data)} by { assert a in [a]; }
    assert s.cm.nodes[a].chunks == {c};
  }

  lemma {:induction false} PutPossible(hash: Hash, path: string, data: Bytes, a: NodeId, b: NodeId)
    requires a != b
    ensures CanServe(hash, FS(EMPTY_TREE, Prepared(a, b)), PutFile(OnePut(path, data, a)))
    ensures Waiting(After(Prepared(a, b), PutLabels(hash, OnePut(path, data, a))), GenerateChunkID(hash, path, 0),
                    path, data, a, b)
  {
    PutIsEnabled(hash, path, data, a, b);
    PutWaits(hash, path, data, a, b);
    OneLabel(Prepared(a, b), PutLabel(hash, path, data, a));
    assert PutLabels(hash, OnePut(path, data, a)) == [PutLabel(hash, path, data, a)];
  }

  // ---------------------------------------------------------------- after the put

  /** The chunk is on node `a`, in the records and on disk, and node `b` accepts it. */
  ghost predicate Loaded(s: Sys, c: ChunkId, path: string, data: Bytes, a: NodeId, b: NodeId) {
    && a != b && s.cm.nodes.Keys == {a, b} && s.cm.nodes[b].status == Healthy && s.cm.nodes[b].address == b
    && s.cm.nodes[a].chunks == {c}
    && c in s.cm.chunks && s.cm.chunks[c] == ChunkMeta(c, 0, RecordedSize(|data|, 0), [a], path)
    && s.runs == map[] && s.uploads == {} && c in Held(s, a)
  }

  /** The upload, and the second node is healthy again. */
  lemma {:induction false} UploadRun(s: Sys, c: ChunkId, path: string, data: Bytes, a: NodeId, b: NodeId)
    returns (ls: seq<Label>)
    requires Waiting(s, c, path, data, a, b)
    ensures Feasible(s, ls) && Quiet(ls) && |ls| == 2 && Loaded(After(s, ls), c, path, data, a, b)
  {
    var store, recover := Store(Upload(c, a, data), true), SetHealth(b, Healthy, 0.0);
    var t := Next(s, store);
    One(t, recover, Next(t, recover));
    OneStep(s, store, [recover]);
    ls := [store] + [recover];
  }

  lemma {:induction false} MigrationPossible(s: Sys, c: ChunkId, path: string, data: Bytes, a: NodeId, b: NodeId)
    returns (ls: seq<Label>)
    requires Loaded(s, c, path, data, a, b)
    ensures Feasible(s, ls) && Quiet(ls) && |ls| == 8 && After(s, ls).cm == Moved(s.cm, c, a, b) && After(s, ls).uploads == {}
  {
    var events := [MigrationEvent(c, a, b, b, true, None)];
    var transfer: Transfer := (x, y, z) => true;
    ls := RunLabels(a, events) + [Finish(a)];
    assert events[..0] == [];
    assert Replay(s.cm, []) == s.cm;
    assert b in TargetNodes(s.cm, Replicas(s.cm, c));
    assert Explains(s.cm, a, transfer, events[0]);
    assert SetOf(EventChunks(events)) == {c} by { assert EventChunks(events) == [c]; }
    MigrateNodeIsRun(s, a, transfer, events);
    assert Replay(s.cm, events) == Moved(s.cm, c, a, b);
    assert RunLabels(a, events) == [Begin(a), Snapshot(a)] + EventLabels(a, events[0]);
    UploadsShrink(s, ls);
  }

  lemma {:induction false} MovedLocation(hash: Hash, s: Sys, path: string, data: Bytes, a: NodeId, b: NodeId)
    requires Loaded(s, GenerateChunkID(hash, path, 0), path, data, a, b)
    ensures var c := GenerateChunkID(hash, path, 0); var cm := Moved(s.cm, c, a, b);
      Replicas(cm, c) == [b] && Locations(cm, ChunkIDs(hash, path, 1)) == Ok([ChunkLocation(c, 0, [b], [b])])
  {
    var c := GenerateChunkID(hash, path, 0);
    var cm := Moved(s.cm, c, a, b);
    assert RemoveFirst([a] + [b], a) == [b];
    AllLive(cm, [b]);
    LocationsComplete(cm, ChunkIDs(hash, path, 1));
    assert AddressesOf(cm, [b]) == [b];
    assert Locate(cm, ChunkIDs(hash, path, 1)[0]) == Ok(ChunkLocation(c, 0, [b], [b]));
    assert Locations(cm, ChunkIDs(hash, path, 1)).value == [ChunkLocation(c, 0, [b], [b])];
  }

  // ------------------------------------------------------------------- the whole run

  /** At the end of the run the chunk is on the second node only, and nothing waits to be uploaded. */
  ghost predicate EndsMoved(hash: Hash, s: Sys, path: string, b: NodeId) {
    var c := GenerateChunkID(hash, path, 0);
    s.uploads == {} && Replicas(s.cm, c) == [b] && Locations(s.cm, ChunkIDs(hash, path, 1)) == Ok([ChunkLocation(c, 0, [b], [b])])
  }

  /** What happens after the put: upload, recovery of the second node, migration of the first. */
  lemma {:induction false} AfterwardsRun(hash: Hash, s: Sys, path: string, data: Bytes, a: NodeId, b: NodeId)
    returns (ls: seq<Label>)
    requires Waiting(s, GenerateChunkID(hash, path, 0), path, data, a, b)
    ensures Feasible(s, ls) && Quiet(ls) && |ls| == 10 && EndsMoved(hash, After(s, ls), path, b)
  {
    var c := GenerateChunkID(hash, path, 0);
    var up := UploadRun(s, c, path, data, a, b);
    var t := After(s, up);
    MovedLocation(hash, t, path, data, a, b);
    var migration := MigrationPossible(t, c, path, data, a, b);
    AfterAppend(s, up, migration);
    ls := up + migration;
  }

  /** Cluster steps, an accepted put, and cluster steps. */
  lemma {:induction false} PutBetween(hash: Hash, before: seq<Label>, p: PutRequest, after: seq<Label>)
    requires Feasible(INITIAL, before) && Quiet(before)
    requires CanServe(hash, FS(EMPTY_TREE, After(INITIAL, before)), PutFile(p)) && CreateKey(p.path).Some?
    requires Feasible(After(After(INITIAL, before), PutLabels(hash, p)), after) && Quiet(after)
    ensures var rs := AsRequests(before) + ([PutFile(p)] + AsRequests(after));
      && CanServeAll(hash, EMPTY_FS, rs) && Accepted(hash, rs, |before|)
      && StateAt(hash, rs, |rs|).sys == After(After(After(INITIAL, before), PutLabels(hash, p)), after)
  {
    var rs, fs1 := AsRequests(before) + ([PutFile(p)] + AsRequests(after)), FS(EMPTY_TREE, After(INITIAL, before));
    var fs2 := Serve(hash, fs1, PutFile(p));
    NothingToServe(hash, fs1);
    NothingToServe(hash, fs2.(sys := After(fs2.sys, after)));
    Lift(hash, fs2, after, []);
    assert AsRequests(after) + [] == AsRequests(after) && AsRequests(before) + [] == AsRequests(before);
    ServeFirst(hash, fs1, PutFile(p), AsRequests(after));
    Lift(hash, EMPTY_FS, before, [PutFile(p)] + AsRequests(after));
    Lift(hash, EMPTY_FS, before, []);
    assert rs[..|before|] == AsRequests(before) && rs[..|rs|] == rs;
    CreateOnEmpty(p.path, MetaOf(hash, p));
  }

  lemma {:induction false} NothingToServe(hash: Hash, fs: FS)
    ensures CanServeAll(hash, fs, []) && ServeAll(hash, fs, []) == fs
  {
  }

  lemma {:induction false} WholeRun(hash: Hash, path: string, data: Bytes)
    returns (a: NodeId, b: NodeId, rs: seq<Request>)
    requires CreateKey(path).Some?
    ensures a != b && |rs| == 14 && rs[3] == PutFile(OnePut(path, data, a))
    ensures forall j :: 0 <= j < |rs| && j != 3 ==> rs[j].ClusterStep?
    ensures CanServeAll(hash, EMPTY_FS, rs) && Accepted(hash, rs, 3) && EndsMoved(hash, StateAt(hash, rs, 14).sys, path, b)
  {
    var before;
    a, b, before := SetupRun();
    PutPossible(hash, path, data, a, b);
    var p := OnePut(path, data, a);
    var after := AfterwardsRun(hash, After(Prepared(a, b), PutLabels(hash, p)), path, data, a, b);
    PutBetween(hash, before, p, after);
    rs := AsRequests(before) + ([PutFile(p)] + AsRequests(after));
  }

  lemma {:induction false} MovedIsLookedUp(hash: Hash, rs: seq<Request>, b: NodeId)
    requires |rs| == 14 && CanServeAll(hash, EMPTY_FS, rs) && rs[3].PutFile? && |rs[3].put.picks| == 1
    requires EndsMoved(hash, StateAt(hash, rs, 14).sys, rs[3].put.path, b)
    ensures LookedUp(hash, rs, 3, 14, [ChunkLocation(GenerateChunkID(hash, rs[3].put.path, 0), 0, [b], [b])])
  {
    RecordsAreNamed(hash, rs);
    assert rs[..14] == rs;
    LocationsFind(StateAt(hash, rs, 14).sys.cm, ChunkIDs(hash, rs[3].put.path, 1));
  }

  /** The answer to a get at that time. */
  lemma {:induction false} MovedIsAnswered(hash: Hash, rs: seq<Request>, b: NodeId)
    returns (r: Result<FileAnswer, ServerError>)
    requires |rs| == 14 && CanServeAll(hash, EMPTY_FS, rs) && rs[3].PutFile? && |rs[3].put.picks| == 1
    requires EndsMoved(hash, StateAt(hash, rs, 14).sys, rs[3].put.path, b)
    requires Get(StateAt(hash, rs, 14).tree, rs[3].put.path) == Ok(MetaOf(hash, rs[3].put))
    ensures GetHandled(StateAt(hash, rs, 14).tree, StateAt(hash, rs, 14).sys.cm, rs[3].put.path, r) && r.Ok?
    ensures r.value.locations == [ChunkLocation(GenerateChunkID(hash, rs[3].put.path, 0), 0, [b], [b])]
  {
    var c, cm := GenerateChunkID(hash, rs[3].put.path, 0), StateAt(hash, rs, 14).sys.cm;
    var locations := [ChunkLocation(c, 0, [b], [b])];
    MovedIsLookedUp(hash, rs, b);
    assert MetaOf(hash, rs[3].put).chunkIDs == ChunkIDs(hash, rs[3].put.path, 1);
    assert Finds(cm, ChunkIDs(hash, rs[3].put.path, 1)[0], locations[0]) && b in locations[0].nodeIDs;
    assert HasLiveReplica(cm, c);
    r := Ok(FileAnswer(MetaOf(hash, rs[3].put), [cm.chunks[c]], locations));
  }

  lemma {:induction false} CreateOnEmpty(path: string, meta: FileMeta)
    requires CreateKey(path).Some?
    ensures Create(EMPTY_TREE, path, meta).Ok?
  {
  }

  /** The node that the chunk was moved to answers. */
  function MovedAnswer(hash: Hash, path: string, data: Bytes, b: NodeId): Fetch {
    (n, c) => if n == b && c == GenerateChunkID(hash, path, 0) then Some(data) else None
  }

  lemma {:induction false} OnlyPutIsAlone(rs: seq<Request>, k: nat)
    requires k < |rs| && rs[k].PutFile? && CreateKey(rs[k].put.path).Some?
    requires forall j :: 0 <= j < |rs| && j != k ==> rs[j].ClusterStep?
    ensures AloneInPosition(rs, k, |rs|)
  {
  }

  lemma {:induction false} AnswersTruthfully(hash: Hash, rs: seq<Request>, path: string, data: Bytes, b: NodeId)
    requires CanServeAll(hash, EMPTY_FS, rs) && HeldAt(hash, rs, |rs|, b, GenerateChunkID(hash, path, 0), data)
    ensures Truthful(hash, rs, |rs|, MovedAnswer(hash, path, data, b))
  {
    assert HeldSince(hash, rs, |rs|, b, GenerateChunkID(hash, path, 0), data);
  }

  /**
   Whatever the path, as long as creation and lookup agree on it, and whatever the bytes, as long as they make one
   chunk: a file can be put, uploaded, moved to a node it was not put on, and from there found and downloaded.
   */
  lemma {:induction false} RoundTripHappens(hash: Hash, path: string, data: Bytes)
    returns (rs: seq<Request>, fetch: Fetch, r: Result<FileAnswer, ServerError>)
    requires CollisionFree(hash) && CreateKey(path).Some? && Agreeable(Components(path))
    requires 0 < |data| <= CHUNK_SIZE
    ensures CanServeAll(hash, EMPTY_FS, rs) && |rs| == 14 && AloneInPosition(rs, 3, 14)
    ensures rs[3].put.path == path && Concat(rs[3].put.data) == data
    ensures Accepted(hash, rs, 3) && Truthful(hash, rs, 14, fetch)
    ensures GetHandled(StateAt(hash, rs, 14).tree, StateAt(hash, rs, 14).sys.cm, path, r) && r.Ok?
    ensures LookedUp(hash, rs, 3, 14, r.value.locations) && EveryChunkAnswered(r.value.locations, fetch)
    ensures |rs[3].put.picks| == |r.value.locations| == 1
    ensures forall n :: n in rs[3].put.picks[0] ==> n !in r.value.locations[0].nodeIDs
  {
    var c, a, b := GenerateChunkID(hash, path, 0), "", "";
    a, b, rs := WholeRun(hash, path, data);
    fetch := MovedAnswer(hash, path, data, b);
    assert [data][..0] == [];
    MovedIsLookedUp(hash, rs, b);
    OnlyPutIsAlone(rs, 3);
    FoundByPath(hash, rs, 3, 14);
    r := MovedIsAnswered(hash, rs, b);
    ListedNodeKeepsBytes(hash, rs, 3, 0, 14, 14, b);
    AnswersTruthfully(hash, rs, path, data, b);
    assert Answered(r.value.locations[0], fetch) by { assert b in [b] && fetch(b, c).Some?; }
  }
}
