/**
 Files on top of the cluster.  Putting and deleting a file are steps that touch the namespace and the chunk
 manager together; all other steps of the cluster, migrations included, interleave with them freely.
 */
module FileSystems {
  import opened Common
  import opened Cluster
  import opened Paths
  import opened Namespaces
  import opened Protocol
  import opened ProtocolTheorems

  datatype FS = FS(tree: Tree, sys: Sys)

  const EMPTY_FS: FS := FS(EMPTY_TREE, INITIAL)

  datatype PutRequest = PutRequest(path: string, fileSize: int, checksum: string, data: seq<Bytes>, picks: seq<seq<NodeId>>, now: int)

  datatype Request = ClusterStep(l: Label) | PutFile(put: PutRequest) | DeleteFile(path: string)

  type Hash = string -> string

  /** The identifiers of the first `n` chunks of a path. */
  function ChunkIDs(hash: Hash, path: string, n: nat): (ids: seq<ChunkId>)
    ensures |ids| == n && forall i :: 0 <= i < n ==> ids[i] == GenerateChunkID(hash, path, i)
  {
    seq(n, i requires 0 <= i < n => GenerateChunkID(hash, path, i))
  }

  function MetaOf(hash: Hash, p: PutRequest): FileMeta {
    FileMeta(p.path, p.fileSize, |p.picks|, DEFAULT_REPLICATION_FACTOR, p.checksum, ChunkIDs(hash, p.path, |p.picks|))
  }

  /** The allocations of a put, chunk after chunk. */
  function PutLabels(hash: Hash, p: PutRequest): (ls: seq<Label>)
    requires |p.data| == |p.picks|
    ensures |ls| == |p.picks|
  {
    seq(|p.picks|, i requires 0 <= i < |p.picks| =>
      Allocate(GenerateChunkID(hash, p.path, i), i, RecordedSize(p.fileSize, i), p.path, p.data[i], p.picks[i], p.now))
  }

  function DropLabels(ids: seq<ChunkId>): (ls: seq<Label>)
    ensures |ls| == |ids|
  {
    seq(|ids|, i requires 0 <= i < |ids| => Drop(ids[i]))
  }

  lemma {:induction false} DropsFeasible(s: Sys, ids: seq<ChunkId>)
    ensures Feasible(s, DropLabels(ids)) && After(s, DropLabels(ids)).cm == DropChunks(s.cm, ids)
    decreases |ids|
  {
    if ids != [] {
      assert DropLabels(ids)[1..] == DropLabels(ids[1..]);
      DropsFeasible(Next(s, Drop(ids[0])), ids[1..]);
    }
  }

  ghost function Dropped(s: Sys, ids: seq<ChunkId>): Sys {
    DropsFeasible(s, ids);
    After(s, DropLabels(ids))
  }

  ghost predicate CanServe(hash: Hash, fs: FS, r: Request) {
    match r
    case ClusterStep(l) => !l.Allocate? && !l.Drop? && Enabled(fs.sys, l)
    case PutFile(p) =>
      |p.data| == |p.picks| && HealthyNodes(fs.sys.cm, p.now) != {} && Feasible(fs.sys, PutLabels(hash, p))
    case DeleteFile(_) => true
  }

  /** The chunks are allocated first; a put that the namespace then refuses leaves them allocated. */
  ghost function Serve(hash: Hash, fs: FS, r: Request): FS
    requires CanServe(hash, fs, r)
  {
    match r
    case ClusterStep(l) => fs.(sys := Next(fs.sys, l))
    case PutFile(p) =>
      var created := Create(fs.tree, p.path, MetaOf(hash, p));
      FS(if created.Ok? then created.value else fs.tree, After(fs.sys, PutLabels(hash, p)))
    case DeleteFile(path) =>
      match Delete(fs.tree, path)
      case Err(_) => fs
      case Ok((tree, meta)) => FS(tree, Dropped(fs.sys, meta.chunkIDs))
  }

  ghost predicate CanServeAll(hash: Hash, fs: FS, rs: seq<Request>)
    decreases |rs|
  {
    rs == [] || (CanServe(hash, fs, rs[0]) && CanServeAll(hash, Serve(hash, fs, rs[0]), rs[1..]))
  }

  ghost function ServeAll(hash: Hash, fs: FS, rs: seq<Request>): FS
    requires CanServeAll(hash, fs, rs)
    decreases |rs|
  {
    if rs == [] then fs else ServeAll(hash, Serve(hash, fs, rs[0]), rs[1..])
  }

  // ---------------------------------------------------------- chunks of a whole step

  lemma {:induction false} PlacesKeys(s: Sys, ls: seq<Label>, c: ChunkId)
    requires Feasible(s, ls) && forall i :: 0 <= i < |ls| ==> ls[i].Allocate?
    ensures c in After(s, ls).cm.chunks <==> c in s.cm.chunks || exists i :: 0 <= i < |ls| && ls[i].chunk == c
    decreases |ls|
  {
    if ls != [] {
      PlacesKeys(Next(s, ls[0]), ls[1..], c);
      if i :| 0 <= i < |ls| && ls[i].chunk == c && i > 0 { assert ls[1..][i - 1].chunk == c; }
    }
  }

  lemma {:induction false} DropsKeys(s: State, ids: seq<ChunkId>, c: ChunkId)
    ensures c in DropChunks(s, ids).chunks <==> c in s.chunks && c !in ids
    decreases |ids|
  {
    if ids != [] {
      assert ids == [ids[0]] + ids[1..];
      DropsKeys(DropChunk(s, ids[0]), ids[1..], c);
    }
  }

  // ------------------------------------------------------------ referential integrity

  /** The file sits where its path says, its chunks are those of its path, and all of them exist. */
  ghost predicate FileIntact(hash: Hash, cm: State, key: Key, meta: FileMeta) {
    && CreateKey(meta.path) == Some(key)
    && meta.chunkIDs == ChunkIDs(hash, meta.path, |meta.chunkIDs|)
    && forall i :: 0 <= i < |meta.chunkIDs| ==> meta.chunkIDs[i] in cm.chunks
  }

  ghost predicate Intact(hash: Hash, fs: FS) {
    && Shape(fs.tree)
    && forall key :: key in Files(fs.tree) ==> FileIntact(hash, fs.sys.cm, key, Files(fs.tree)[key])
  }

  lemma {:induction false} ClusterKeepsIntact(hash: Hash, fs: FS, l: Label)
    requires Intact(hash, fs) && CanServe(hash, fs, ClusterStep(l))
    ensures Intact(hash, Serve(hash, fs, ClusterStep(l)))
  {
    assert Next(fs.sys, l).cm.chunks.Keys == fs.sys.cm.chunks.Keys;
  }

  lemma {:induction false} PutKeepsIntact(hash: Hash, fs: FS, p: PutRequest)
    requires Intact(hash, fs) && CanServe(hash, fs, PutFile(p))
    ensures Intact(hash, Serve(hash, fs, PutFile(p)))
  {
    var t := Serve(hash, fs, PutFile(p));
    var meta := MetaOf(hash, p);
    var ls := PutLabels(hash, p);
    forall c ensures c in t.sys.cm.chunks <==> c in fs.sys.cm.chunks || exists i :: 0 <= i < |ls| && ls[i].chunk == c {
      PlacesKeys(fs.sys, ls, c);
    }
    if Create(fs.tree, p.path, meta).Ok? { CreateAddsOneFile(fs.tree, p.path, meta); }
    forall key | key in Files(t.tree) ensures FileIntact(hash, t.sys.cm, key, Files(t.tree)[key]) {
      if key in Files(fs.tree) && Files(t.tree)[key] == Files(fs.tree)[key] {
        assert FileIntact(hash, fs.sys.cm, key, Files(fs.tree)[key]);
      } else {
        assert Files(t.tree)[key] == meta;
        forall i | 0 <= i < |meta.chunkIDs| ensures meta.chunkIDs[i] in t.sys.cm.chunks {
          assert ls[i].chunk == meta.chunkIDs[i];
        }
      }
    }
  }

  /** Files in different positions share no chunk. */
  lemma {:induction false} ChunksApart(hash: Hash, cm: State, key: Key, meta: FileMeta, other: Key, otherMeta: FileMeta)
    requires CollisionFree(hash)
    requires FileIntact(hash, cm, key, meta) && FileIntact(hash, cm, other, otherMeta) && key != other
    ensures forall c :: c in meta.chunkIDs ==> c !in otherMeta.chunkIDs
  {
    forall c | c in meta.chunkIDs ensures c !in otherMeta.chunkIDs {
      if c in otherMeta.chunkIDs {
        var i: nat :| i < |meta.chunkIDs| && meta.chunkIDs[i] == c;
        var j: nat :| j < |otherMeta.chunkIDs| && otherMeta.chunkIDs[j] == c;
        ChunkIDInjective(hash, meta.path, i, otherMeta.path, j);
      }
    }
  }

  lemma {:induction false} DeleteKeepsIntact(hash: Hash, fs: FS, path: string)
    requires CollisionFree(hash) && Intact(hash, fs)
    ensures Intact(hash, Serve(hash, fs, DeleteFile(path)))
  {
    if Delete(fs.tree, path).Ok? {
      var t := Serve(hash, fs, DeleteFile(path));
      var key, meta := CreateKey(path).value, Delete(fs.tree, path).value.1;
      DeleteRemovesOneFile(fs.tree, path);
      DropsFeasible(fs.sys, meta.chunkIDs);
      forall k | k in Files(t.tree) ensures FileIntact(hash, t.sys.cm, k, Files(t.tree)[k]) {
        var m := Files(fs.tree)[k];
        ChunksApart(hash, fs.sys.cm, k, m, key, meta);
        forall i | 0 <= i < |m.chunkIDs| ensures m.chunkIDs[i] in t.sys.cm.chunks {
          DropsKeys(fs.sys.cm, meta.chunkIDs, m.chunkIDs[i]);
        }
      }
    }
  }

  lemma {:induction false} IntactRun(hash: Hash, fs: FS, rs: seq<Request>)
    requires CollisionFree(hash) && Intact(hash, fs) && CanServeAll(hash, fs, rs)
    ensures Intact(hash, ServeAll(hash, fs, rs))
    decreases |rs|
  {
    if rs != [] {
      match rs[0] {
        case ClusterStep(l) => ClusterKeepsIntact(hash, fs, l);
        case PutFile(p) => PutKeepsIntact(hash, fs, p);
        case DeleteFile(path) => DeleteKeepsIntact(hash, fs, path);
      }
      IntactRun(hash, Serve(hash, fs, rs[0]), rs[1..]);
    }
  }

  /**
   In every state that requests and interleaved cluster steps can reach, every file of the namespace has all its
   chunks in the chunk manager.
   */
  lemma {:induction false} ReferentialIntegrity(hash: Hash, rs: seq<Request>)
    requires CollisionFree(hash) && CanServeAll(hash, EMPTY_FS, rs)
    ensures Intact(hash, ServeAll(hash, EMPTY_FS, rs))
  {
    IntactRun(hash, EMPTY_FS, rs);
  }

  // ----------------------------------------------------- runs of the file system are runs of the cluster

  /** The cluster steps that a run of requests amounts to. */
  ghost function Steps(hash: Hash, fs: FS, rs: seq<Request>): seq<Label>
    requires CanServeAll(hash, fs, rs)
    decreases |rs|
  {
    if rs == [] then [] else
      (match rs[0]
       case ClusterStep(l) => [l]
       case PutFile(p) => PutLabels(hash, p)
       case DeleteFile(path) =>
         var d := Delete(fs.tree, path);
         if d.Ok? then DropLabels(d.value.1.chunkIDs) else [])
      + Steps(hash, Serve(hash, fs, rs[0]), rs[1..])
  }

  lemma {:induction false} RunsAreClusterRuns(hash: Hash, fs: FS, rs: seq<Request>)
    requires CanServeAll(hash, fs, rs)
    ensures Feasible(fs.sys, Steps(hash, fs, rs)) && After(fs.sys, Steps(hash, fs, rs)) == ServeAll(hash, fs, rs).sys
    decreases |rs|
  {
    if rs != [] {
      RunsAreClusterRuns(hash, Serve(hash, fs, rs[0]), rs[1..]);
      var first := Steps(hash, fs, rs)[..|Steps(hash, fs, rs)| - |Steps(hash, Serve(hash, fs, rs[0]), rs[1..])|];
      FirstSteps(hash, fs, rs[0], first);
      AfterAppend(fs.sys, first, Steps(hash, Serve(hash, fs, rs[0]), rs[1..]));
    }
  }

  lemma {:induction false} FirstSteps(hash: Hash, fs: FS, r: Request, ls: seq<Label>)
    requires CanServe(hash, fs, r)
    requires ls == match r
      case ClusterStep(l) => [l]
      case PutFile(p) => PutLabels(hash, p)
      case DeleteFile(path) => if Delete(fs.tree, path).Ok? then DropLabels(Delete(fs.tree, path).value.1.chunkIDs) else []
    ensures Feasible(fs.sys, ls) && After(fs.sys, ls) == Serve(hash, fs, r).sys
  {
    match r {
      case ClusterStep(l) => assert [l][1..] == [];
      case PutFile(p) =>
      case DeleteFile(path) => if Delete(fs.tree, path).Ok? { DropsFeasible(fs.sys, Delete(fs.tree, path).value.1.chunkIDs); }
    }
  }
}
