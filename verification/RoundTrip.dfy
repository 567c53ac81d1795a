/** End to end: what was put is what is got, through any interleaving of migrations and other requests. */
module RoundTrips {
  import opened Common
  import opened Cluster
  import opened Paths
  import opened Namespaces
  import opened Protocol
  import opened ProtocolInvariant
  import opened ProtocolTheorems
  import opened FileSystems
  import opened FileTheorems
  import opened Transfers
  import opened Handlers

  // ------------------------------------------------------------------- runs in time

  lemma {:induction false} ServeSplit(hash: Hash, fs: FS, rs: seq<Request>, g: nat)
    requires CanServeAll(hash, fs, rs) && g <= |rs|
    ensures CanServeAll(hash, fs, rs[..g]) && CanServeAll(hash, ServeAll(hash, fs, rs[..g]), rs[g..])
    ensures ServeAll(hash, ServeAll(hash, fs, rs[..g]), rs[g..]) == ServeAll(hash, fs, rs)
    decreases g
  {
    if g == 0 {
      assert rs[..0] == [] && rs[0..] == rs;
    } else {
      ServeSplit(hash, Serve(hash, fs, rs[0]), rs[1..], g - 1);
      assert rs[..g][1..] == rs[1..][..g - 1] && rs[g..] == rs[1..][g - 1..];
    }
  }

  /** The state after the first `g` requests. */
  ghost function StateAt(hash: Hash, rs: seq<Request>, g: nat): FS
    requires CanServeAll(hash, EMPTY_FS, rs) && g <= |rs|
  {
    ServeSplit(hash, EMPTY_FS, rs, g);
    ServeAll(hash, EMPTY_FS, rs[..g])
  }

  /** The path of request `k` is put by that request only, and nothing in its position is deleted before time `g`. */
  ghost predicate PutOnceAndKept(rs: seq<Request>, k: nat, g: nat) {
    && k < g <= |rs| && rs[k].PutFile?
    && (forall j :: 0 <= j < |rs| && rs[j].PutFile? && rs[j].put.path == rs[k].put.path ==> j == k)
    && !DeletesAt(rs[..g], CreateKey(rs[k].put.path))
  }

  // ------------------------------------------------------- chunk records name themselves

  /** Every chunk record carries the identifier it is filed under, made from its own path and index. */
  ghost predicate Named(hash: Hash, cm: State) {
    forall c :: c in cm.chunks ==>
      cm.chunks[c].chunkID == c && c == GenerateChunkID(hash, cm.chunks[c].filePath, cm.chunks[c].chunkIndex)
  }

  ghost predicate NamesWell(hash: Hash, l: Label) {
    l.Allocate? ==> l.chunk == GenerateChunkID(hash, l.path, l.index)
  }

  lemma {:induction false} NamedStep(hash: Hash, s: Sys, l: Label)
    requires Named(hash, s.cm) && Enabled(s, l) && NamesWell(hash, l)
    ensures Named(hash, Next(s, l).cm)
  {
  }

  lemma {:induction false} NamedRun(hash: Hash, s: Sys, ls: seq<Label>)
    requires Named(hash, s.cm) && Feasible(s, ls) && forall i :: 0 <= i < |ls| ==> NamesWell(hash, ls[i])
    ensures Named(hash, After(s, ls).cm)
    decreases |ls|
  {
    if ls != [] {
      assert NamesWell(hash, ls[0]);
      NamedStep(hash, s, ls[0]);
      forall i | 0 <= i < |ls[1..]| ensures NamesWell(hash, ls[1..][i]) { assert NamesWell(hash, ls[i + 1]); }
      NamedRun(hash, Next(s, ls[0]), ls[1..]);
    }
  }

  lemma {:induction false} StepsNameWell(hash: Hash, fs: FS, rs: seq<Request>)
    requires CanServeAll(hash, fs, rs)
    ensures forall i :: 0 <= i < |Steps(hash, fs, rs)| ==> NamesWell(hash, Steps(hash, fs, rs)[i])
    decreases |rs|
  {
    if rs != [] {
      var first, rest := StepsOf(hash, fs, rs[0]), Steps(hash, Serve(hash, fs, rs[0]), rs[1..]);
      StepsNameWell(hash, Serve(hash, fs, rs[0]), rs[1..]);
      assert Steps(hash, fs, rs) == first + rest;
      forall i | 0 <= i < |first| ensures NamesWell(hash, first[i]) {
      }
    }
  }

  lemma {:induction false} RecordsAreNamed(hash: Hash, rs: seq<Request>)
    requires CanServeAll(hash, EMPTY_FS, rs)
    ensures Named(hash, ServeAll(hash, EMPTY_FS, rs).sys.cm)
  {
    RunsAreClusterRuns(hash, EMPTY_FS, rs);
    StepsNameWell(hash, EMPTY_FS, rs);
    NamedRun(hash, INITIAL, Steps(hash, EMPTY_FS, rs));
  }

  // ------------------------------------------------------------- locations stay good

  /** A node listed for a chunk at the time of the lookup holds the bytes of the put at any later time. */
  lemma {:induction false} ListedNodeKeepsBytes(hash: Hash, rs: seq<Request>, k: nat, i: nat, g: nat, f: nat, n: NodeId)
    requires CollisionFree(hash) && CanServeAll(hash, EMPTY_FS, rs)
    requires PutOnceAndKept(rs, k, g) && f <= |rs| && g <= f && i < |rs[k].put.picks|
    requires var c := GenerateChunkID(hash, rs[k].put.path, i);
      Uploaded(StateAt(hash, rs, g).sys, c) && n in Replicas(StateAt(hash, rs, g).sys.cm, c)
    ensures var c := GenerateChunkID(hash, rs[k].put.path, i);
      && i < |rs[k].put.data|
      && c in Held(StateAt(hash, rs, f).sys, n) && Held(StateAt(hash, rs, f).sys, n)[c] == rs[k].put.data[i]
  {
    var c, rest := GenerateChunkID(hash, rs[k].put.path, i), rs[..f][g..];
    ServeSplit(hash, EMPTY_FS, rs, f);
    ServeSplit(hash, EMPTY_FS, rs[..f], g);
    assert rs[..f][..g] == rs[..g];
    FileSurvives(hash, rs[..g], k, i);
    forall j | 0 <= j < |rest| ensures rest[j] == rs[g + j] {
    }
    NeverPut(rest, rs[k].put.path, i);
    AllocationsOfRun(hash, StateAt(hash, rs, g), rest, rs[k].put.path, i);
    RunsAreClusterRuns(hash, EMPTY_FS, rs[..g]);
    RunsAreClusterRuns(hash, StateAt(hash, rs, g), rest);
    LocationsStayGood(Steps(hash, EMPTY_FS, rs[..g]), Steps(hash, StateAt(hash, rs, g), rest), c, n);
  }

  // ------------------------------------------------------------------ the round trip

  /** Every answer is what the node holds for the chunk at some time after the lookup; nodes may also not answer. */
  ghost predicate Truthful(hash: Hash, rs: seq<Request>, g: nat, fetch: Fetch)
    requires CanServeAll(hash, EMPTY_FS, rs)
  {
    forall n, c :: fetch(n, c).Some? ==> HeldSince(hash, rs, g, n, c, fetch(n, c).value)
  }

  ghost predicate HeldSince(hash: Hash, rs: seq<Request>, g: nat, n: NodeId, c: ChunkId, data: Bytes)
    requires CanServeAll(hash, EMPTY_FS, rs)
  {
    exists f: nat :: g <= f <= |rs| && HeldAt(hash, rs, f, n, c, data)
  }

  ghost predicate HeldAt(hash: Hash, rs: seq<Request>, f: nat, n: NodeId, c: ChunkId, data: Bytes)
    requires CanServeAll(hash, EMPTY_FS, rs) && f <= |rs|
  {
    c in Held(StateAt(hash, rs, f).sys, n) && Held(StateAt(hash, rs, f).sys, n)[c] == data
  }

  /** The lookup at time `g` succeeded for all chunks of the file put by request `k`, whose upload was complete by then. */
  ghost predicate LookedUp(hash: Hash, rs: seq<Request>, k: nat, g: nat, locations: seq<ChunkLocation>)
    requires CanServeAll(hash, EMPTY_FS, rs) && k < |rs| && rs[k].PutFile? && g <= |rs|
  {
    var p, s := rs[k].put, StateAt(hash, rs, g).sys;
    && FindsAll(s.cm, ChunkIDs(hash, p.path, |p.picks|), locations)
    && forall i :: 0 <= i < |p.picks| ==> Uploaded(s, GenerateChunkID(hash, p.path, i))
  }

  lemma {:induction false} LocationOf(hash: Hash, rs: seq<Request>, k: nat, g: nat, locations: seq<ChunkLocation>,
                                      i: nat)
    requires CollisionFree(hash) && CanServeAll(hash, EMPTY_FS, rs) && k < g <= |rs| && rs[k].PutFile?
    requires LookedUp(hash, rs, k, g, locations) && i < |rs[k].put.picks|
    ensures var c := GenerateChunkID(hash, rs[k].put.path, i);
      && |locations| == |rs[k].put.picks| && locations[i].chunkID == c && locations[i].chunkIndex == i
      && forall n :: n in locations[i].nodeIDs ==> n in Replicas(StateAt(hash, rs, g).sys.cm, c)
  {
    var p, cm := rs[k].put, StateAt(hash, rs, g).sys.cm;
    var ids := ChunkIDs(hash, p.path, |p.picks|);
    assert Finds(cm, ids[i], locations[i]);
    ServeSplit(hash, EMPTY_FS, rs, g);
    RecordsAreNamed(hash, rs[..g]);
    ChunkIDInjective(hash, p.path, i, cm.chunks[ids[i]].filePath, cm.chunks[ids[i]].chunkIndex);
  }

  /** The answer of a listed node is the chunk that was put. */
  lemma {:induction false} AnswerIsOriginal(hash: Hash, rs: seq<Request>, k: nat, g: nat, fetch: Fetch, i: nat,
                                            n: NodeId)
    requires CollisionFree(hash) && CanServeAll(hash, EMPTY_FS, rs) && PutOnceAndKept(rs, k, g)
    requires Truthful(hash, rs, g, fetch) && i < |rs[k].put.picks|
    requires var c := GenerateChunkID(hash, rs[k].put.path, i);
      && Uploaded(StateAt(hash, rs, g).sys, c) && n in Replicas(StateAt(hash, rs, g).sys.cm, c) && fetch(n, c).Some?
    ensures i < |rs[k].put.data| && fetch(n, GenerateChunkID(hash, rs[k].put.path, i)) == Some(rs[k].put.data[i])
  {
    var c := GenerateChunkID(hash, rs[k].put.path, i);
    assert HeldSince(hash, rs, g, n, c, fetch(n, c).value);
    var f: nat :| g <= f <= |rs| && HeldAt(hash, rs, f, n, c, fetch(n, c).value);
    ListedNodeKeepsBytes(hash, rs, k, i, g, f, n);
  }

  lemma {:induction false} ChunkAnswer(hash: Hash, rs: seq<Request>, k: nat, g: nat, locations: seq<ChunkLocation>,
                                       fetch: Fetch, i: nat)
    requires CollisionFree(hash) && CanServeAll(hash, EMPTY_FS, rs) && PutOnceAndKept(rs, k, g)
    requires LookedUp(hash, rs, k, g, locations) && Truthful(hash, rs, g, fetch) && i < |rs[k].put.picks|
    ensures |locations| == |rs[k].put.picks| == |rs[k].put.data|
    ensures Fetched(locations[i], fetch) ==
      if Answered(locations[i], fetch) then Some(ChunkResult(i, rs[k].put.data[i])) else None
  {
    var c := GenerateChunkID(hash, rs[k].put.path, i);
    LocationOf(hash, rs, k, g, locations, i);
    PutAccepted(hash, EMPTY_FS, rs, k);
    forall n | n in locations[i].nodeIDs && fetch(n, c).Some? ensures fetch(n, c).value == rs[k].put.data[i] {
      AnswerIsOriginal(hash, rs, k, g, fetch, i, n);
    }
    AnyAnswerWillDo(c, locations[i].nodeIDs, fetch, rs[k].put.data[i]);
  }

  /** Every chunk has a listed node that answers. */
  ghost predicate EveryChunkAnswered(locations: seq<ChunkLocation>, fetch: Fetch) {
    forall i :: 0 <= i < |locations| ==> Answered(locations[i], fetch)
  }

  ghost predicate Answered(loc: ChunkLocation, fetch: Fetch) {
    exists n :: n in loc.nodeIDs && fetch(n, loc.chunkID).Some?
  }

  /**
   A file put once and not deleted before the lookup, and whose upload was complete by then: whatever migrates between and during
   lookup and download, and whichever replicas fail to answer, the download succeeds exactly when every chunk has a
   listed node that answers, and then returns the original bytes.
   */
  lemma {:induction false} RoundTrip(hash: Hash, rs: seq<Request>, k: nat, g: nat, locations: seq<ChunkLocation>,
                                     fetch: Fetch, file: Bytes)
    requires CollisionFree(hash) && CanServeAll(hash, EMPTY_FS, rs) && PutOnceAndKept(rs, k, g)
    requires Concat(rs[k].put.data) == file
    requires LookedUp(hash, rs, k, g, locations) && Truthful(hash, rs, g, fetch)
    ensures InOrder(locations)
    ensures AllFetched(locations, fetch) <==> EveryChunkAnswered(locations, fetch)
    ensures AllFetched(locations, fetch) ==> Concat(DataOf(ResultsInOrder(locations, fetch))) == file
  {
    var p := rs[k].put;
    PutAccepted(hash, EMPTY_FS, rs, k);
    forall i | 0 <= i < |locations|
      ensures locations[i].chunkIndex == i
      ensures Fetched(locations[i], fetch) == if Answered(locations[i], fetch) then Some(ChunkResult(i, p.data[i])) else None
    {
      LocationOf(hash, rs, k, g, locations, i);
      ChunkAnswer(hash, rs, k, g, locations, fetch, i);
    }
    if AllFetched(locations, fetch) {
      forall i | 0 <= i < |locations| ensures Answered(locations[i], fetch) { assert Fetched(locations[i], fetch).Some?; }
      assert DataOf(ResultsInOrder(locations, fetch)) == p.data;
    }
  }

  // ------------------------------------------------------------- from path to bytes

  /**
   No other request puts or deletes anything in the position of request `k`'s path before time `g`,
   and none puts the same path afterwards.
   */
  ghost predicate AloneInPosition(rs: seq<Request>, k: nat, g: nat) {
    && PutOnceAndKept(rs, k, g) && CreateKey(rs[k].put.path).Some?
    && forall j :: 0 <= j < g && rs[j].PutFile? && CreateKey(rs[j].put.path) == CreateKey(rs[k].put.path) ==> j == k
  }

  /** The request leaves this position alone. */
  ghost predicate Elsewhere(r: Request, key: Key) {
    && (r.PutFile? ==> CreateKey(r.put.path) != Some(key))
    && (r.DeleteFile? ==> CreateKey(r.path) != Some(key))
  }

  lemma {:induction false} StepKeepsFile(hash: Hash, fs: FS, r: Request, key: Key)
    requires CollisionFree(hash) && Intact(hash, fs) && CanServe(hash, fs, r) && Elsewhere(r, key) && key in Files(fs.tree)
    ensures key in Files(Serve(hash, fs, r).tree) && Files(Serve(hash, fs, r).tree)[key] == Files(fs.tree)[key]
  {
    match r {
      case ClusterStep(l) =>
      case PutFile(p) =>
        if Create(fs.tree, p.path, MetaOf(hash, p)).Ok? { CreateAddsOneFile(fs.tree, p.path, MetaOf(hash, p)); }
      case DeleteFile(path) =>
        if Delete(fs.tree, path).Ok? { DeleteRemovesOneFile(fs.tree, path); }
    }
  }

  lemma {:induction false} RunKeepsFile(hash: Hash, fs: FS, rs: seq<Request>, key: Key)
    requires CollisionFree(hash) && Intact(hash, fs) && CanServeAll(hash, fs, rs) && key in Files(fs.tree)
    requires forall j :: 0 <= j < |rs| ==> Elsewhere(rs[j], key)
    ensures key in Files(ServeAll(hash, fs, rs).tree) && Files(ServeAll(hash, fs, rs).tree)[key] == Files(fs.tree)[key]
    decreases |rs|
  {
    if rs != [] {
      assert Elsewhere(rs[0], key);
      StepKeepsFile(hash, fs, rs[0], key);
      ServeKeepsIntact(hash, fs, rs[0]);
      forall j | 0 <= j < |rs[1..]| ensures Elsewhere(rs[1..][j], key) { assert Elsewhere(rs[j + 1], key); }
      RunKeepsFile(hash, Serve(hash, fs, rs[0]), rs[1..], key);
    }
  }

  /** The namespace accepted the put of request `k`. */
  ghost predicate Accepted(hash: Hash, rs: seq<Request>, k: nat)
    requires CanServeAll(hash, EMPTY_FS, rs) && k < |rs| && rs[k].PutFile?
  {
    Create(StateAt(hash, rs, k).tree, rs[k].put.path, MetaOf(hash, rs[k].put)).Ok?
  }

  /** A file that is alone in its position is found under its path at any later time, if lookup agrees on the position. */
  lemma {:induction false} FoundByPath(hash: Hash, rs: seq<Request>, k: nat, g: nat)
    requires CollisionFree(hash) && CanServeAll(hash, EMPTY_FS, rs) && AloneInPosition(rs, k, g)
    requires Accepted(hash, rs, k) && Agreeable(Components(rs[k].put.path))
    ensures Get(StateAt(hash, rs, g).tree, rs[k].put.path) == Ok(MetaOf(hash, rs[k].put))
  {
    var p := rs[k].put;
    var key, fs := CreateKey(p.path).value, StateAt(hash, rs, k);
    ServeSplit(hash, EMPTY_FS, rs, g);
    ServeSplit(hash, EMPTY_FS, rs[..g], k);
    assert rs[..g][..k] == rs[..k] && rs[..g][k..][0] == rs[k];
    ReferentialIntegrity(hash, rs[..k]);
    CreateAddsOneFile(fs.tree, p.path, MetaOf(hash, p));
    ServeKeepsIntact(hash, fs, rs[k]);
    var rest := rs[..g][k..][1..];
    forall j | 0 <= j < |rest| ensures Elsewhere(rest[j], key) { assert rest[j] == rs[k + 1 + j]; }
    RunKeepsFile(hash, Serve(hash, fs, rs[k]), rest, key);
    KeysAgreeIff(p.path);
  }

  /** The get handler's answer for a file that is found under its path. */
  lemma {:induction false} AnswerIsLookedUp(hash: Hash, rs: seq<Request>, k: nat, g: nat,
                                            r: Result<FileAnswer, ServerError>)
    requires CanServeAll(hash, EMPTY_FS, rs) && k < |rs| && rs[k].PutFile? && g <= |rs|
    requires forall i :: 0 <= i < |rs[k].put.picks| ==>
      Uploaded(StateAt(hash, rs, g).sys, GenerateChunkID(hash, rs[k].put.path, i))
    requires Get(StateAt(hash, rs, g).tree, rs[k].put.path) == Ok(MetaOf(hash, rs[k].put))
    requires GetHandled(StateAt(hash, rs, g).tree, StateAt(hash, rs, g).sys.cm, rs[k].put.path, r)
    ensures r.Ok? <==> forall i :: 0 <= i < |rs[k].put.picks| ==>
      HasLiveReplica(StateAt(hash, rs, g).sys.cm, GenerateChunkID(hash, rs[k].put.path, i))
    ensures r.Ok? ==>
      && r.value.meta == MetaOf(hash, rs[k].put) && |r.value.locations| == |rs[k].put.picks|
      && LookedUp(hash, rs, k, g, r.value.locations)
  {
    var ids := MetaOf(hash, rs[k].put).chunkIDs;
    assert forall i :: 0 <= i < |ids| ==> ids[i] == GenerateChunkID(hash, rs[k].put.path, i);
  }

  /**
   From path to path: the put was accepted, nobody else uses its position, creation and lookup agree on it, and its
   upload was complete at the time of the get.  Then the get handler's answer is a success exactly when every chunk has a
   listed node that is not dead, it gives the meta data of the put, and a download from the locations in the answer gives
   back the original bytes exactly when every chunk has a located node that answers.
   */
  lemma {:induction false} EndToEnd(hash: Hash, rs: seq<Request>, k: nat, g: nat, r: Result<FileAnswer, ServerError>,
                                    fetch: Fetch, file: Bytes)
    requires CollisionFree(hash) && CanServeAll(hash, EMPTY_FS, rs) && AloneInPosition(rs, k, g)
    requires Concat(rs[k].put.data) == file
    requires Accepted(hash, rs, k) && Agreeable(Components(rs[k].put.path)) && Truthful(hash, rs, g, fetch)
    requires forall i :: 0 <= i < |rs[k].put.picks| ==>
      Uploaded(StateAt(hash, rs, g).sys, GenerateChunkID(hash, rs[k].put.path, i))
    requires GetHandled(StateAt(hash, rs, g).tree, StateAt(hash, rs, g).sys.cm, rs[k].put.path, r)
    ensures r.Ok? <==> forall i :: 0 <= i < |rs[k].put.picks| ==>
      HasLiveReplica(StateAt(hash, rs, g).sys.cm, GenerateChunkID(hash, rs[k].put.path, i))
    ensures r.Ok? ==>
      && r.value.meta == MetaOf(hash, rs[k].put)
      && |r.value.locations| == |rs[k].put.data|
      && (AllFetched(r.value.locations, fetch) <==> EveryChunkAnswered(r.value.locations, fetch))
      && (AllFetched(r.value.locations, fetch) ==> Concat(DataOf(ResultsInOrder(r.value.locations, fetch))) == file)
  {
    FoundByPath(hash, rs, k, g);
    PutAccepted(hash, EMPTY_FS, rs, k);
    AnswerIsLookedUp(hash, rs, k, g, r);
    if r.Ok? {
      RoundTrip(hash, rs, k, g, r.value.locations, fetch, file);
    }
  }

  /** The client's download of such a file: the original bytes or nothing. */
  method Download(ghost hash: Hash, ghost rs: seq<Request>, ghost k: nat, ghost g: nat, ghost file: Bytes,
                  locations: seq<ChunkLocation>, fetch: Fetch, order: seq<nat>)
    returns (r: Option<Bytes>)
    requires CollisionFree(hash) && CanServeAll(hash, EMPTY_FS, rs) && PutOnceAndKept(rs, k, g)
    requires Concat(rs[k].put.data) == file
    requires LookedUp(hash, rs, k, g, locations) && Truthful(hash, rs, g, fetch)
    requires multiset(order) == multiset(Range(|locations|))
    ensures r == if EveryChunkAnswered(locations, fetch) then Some(file) else None
  {
    r := DownloadChunks(locations, fetch, order);
    RoundTrip(hash, rs, k, g, locations, fetch, file);
  }
}
