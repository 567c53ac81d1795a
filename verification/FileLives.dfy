/** Files whose chunks are put, deleted and put again: what orderly requests guarantee in every life. */
module FileLives {
  import opened Common
  import opened Cluster
  import opened Paths
  import opened Namespaces
  import opened Protocol
  import opened ProtocolInvariant
  import opened ProtocolTheorems
  import opened FileSystems
  import opened FileTheorems

  /** A put does not reuse the chunk while it exists, and a delete does not remove it during a migration of it. */
  ghost predicate OrderlyRequest(hash: Hash, fs: FS, r: Request, c: ChunkId) {
    match r
    case ClusterStep(_) => true
    case PutFile(p) => c in ChunkIDs(hash, p.path, |p.picks|) ==> c !in fs.sys.cm.chunks
    case DeleteFile(path) =>
      var d := Delete(fs.tree, path);
      d.Ok? && c in d.value.1.chunkIDs ==> AtRest(fs.sys, c)
  }

  ghost predicate OrderlyRequests(hash: Hash, fs: FS, rs: seq<Request>, c: ChunkId)
    requires CanServeAll(hash, fs, rs)
    decreases |rs|
  {
    rs == [] || (OrderlyRequest(hash, fs, rs[0], c) && OrderlyRequests(hash, Serve(hash, fs, rs[0]), rs[1..], c))
  }

  // ----------------------------------------------------- orderly requests take orderly steps

  lemma {:induction false} OrderlyAppend(s: Sys, a: seq<Label>, b: seq<Label>, c: ChunkId)
    requires Feasible(s, a) && Feasible(After(s, a), b) && Orderly(s, a, c) && Orderly(After(s, a), b, c)
    ensures Feasible(s, a + b) && Orderly(s, a + b, c)
    decreases |a|
  {
    AfterAppend(s, a, b);
    if a == [] {
      assert a + b == b;
    } else {
      OrderlyAppend(Next(s, a[0]), a[1..], b, c);
      assert (a + b)[0] == a[0] && (a + b)[1..] == a[1..] + b;
    }
  }

  lemma {:induction false} OrderlyAllocations(s: Sys, ls: seq<Label>, c: ChunkId)
    requires Feasible(s, ls) && forall i :: 0 <= i < |ls| ==> ls[i].Allocate?
    requires forall i :: 0 <= i < |ls| && ls[i].chunk == c ==> c !in s.cm.chunks
    requires forall i, j :: 0 <= i < j < |ls| && ls[i].chunk == c ==> ls[j].chunk != c
    ensures Orderly(s, ls, c)
    decreases |ls|
  {
    if ls != [] {
      forall i | 0 <= i < |ls[1..]| ensures ls[1..][i] == ls[i + 1] {
      }
      OrderlyAllocations(Next(s, ls[0]), ls[1..], c);
    }
  }

  lemma {:induction false} OrderlyDrops(s: Sys, ids: seq<ChunkId>, c: ChunkId)
    requires c in ids ==> AtRest(s, c)
    ensures Feasible(s, DropLabels(ids)) && Orderly(s, DropLabels(ids), c)
    decreases |ids|
  {
    DropsFeasible(s, ids);
    if ids != [] {
      var t := Next(s, Drop(ids[0]));
      assert ids == [ids[0]] + ids[1..];
      if c in ids {
        forall n ensures !Pending(t, n, c) && !Moving(t, n, c) { assert !Pending(s, n, c) && !Moving(s, n, c); }
      }
      assert DropLabels(ids)[1..] == DropLabels(ids[1..]);
      OrderlyDrops(t, ids[1..], c);
    }
  }

  lemma {:induction false} OrderlyPut(hash: Hash, s: Sys, p: PutRequest, c: ChunkId)
    requires CollisionFree(hash) && |p.data| == |p.picks| && Feasible(s, PutLabels(hash, p))
    requires c in ChunkIDs(hash, p.path, |p.picks|) ==> c !in s.cm.chunks
    ensures Orderly(s, PutLabels(hash, p), c)
  {
    var ls, ids := PutLabels(hash, p), ChunkIDs(hash, p.path, |p.picks|);
    forall i | 0 <= i < |ls| && ls[i].chunk == c ensures c !in s.cm.chunks {
      assert ids[i] == c;
    }
    forall i, j | 0 <= i < j < |ls| && ls[i].chunk == c ensures ls[j].chunk != c {
      if ls[j].chunk == c { ChunkIDInjective(hash, p.path, i, p.path, j); }
    }
    OrderlyAllocations(s, ls, c);
  }

  lemma {:induction false} OrderlyInRequest(hash: Hash, fs: FS, r: Request, c: ChunkId)
    requires CollisionFree(hash) && CanServe(hash, fs, r) && OrderlyRequest(hash, fs, r, c)
    ensures Feasible(fs.sys, StepsOf(hash, fs, r)) && Orderly(fs.sys, StepsOf(hash, fs, r), c)
    ensures After(fs.sys, StepsOf(hash, fs, r)) == Serve(hash, fs, r).sys
  {
    FirstSteps(hash, fs, r, StepsOf(hash, fs, r));
    match r {
      case ClusterStep(l) => assert [l][1..] == [];
      case PutFile(p) => OrderlyPut(hash, fs.sys, p, c);
      case DeleteFile(path) =>
        if Delete(fs.tree, path).Ok? { OrderlyDrops(fs.sys, Delete(fs.tree, path).value.1.chunkIDs, c); }
    }
  }

  lemma {:induction false} OrderlySteps(hash: Hash, fs: FS, rs: seq<Request>, c: ChunkId)
    requires CollisionFree(hash) && CanServeAll(hash, fs, rs) && OrderlyRequests(hash, fs, rs, c)
    ensures Feasible(fs.sys, Steps(hash, fs, rs)) && Orderly(fs.sys, Steps(hash, fs, rs), c)
    decreases |rs|
  {
    if rs != [] {
      var first, rest := StepsOf(hash, fs, rs[0]), Steps(hash, Serve(hash, fs, rs[0]), rs[1..]);
      OrderlyInRequest(hash, fs, rs[0], c);
      OrderlySteps(hash, Serve(hash, fs, rs[0]), rs[1..], c);
      OrderlyAppend(fs.sys, first, rest, c);
      assert Steps(hash, fs, rs) == first + rest;
    }
  }

  // ------------------------------------------------------------------- the guarantee

  /**
   However often a path is put, deleted and put again, and however migrations interleave: if its puts find the chunk
   gone and its deletes find it at rest, every chunk of every file has a replica, and both directions of the index
   agree on it.
   */
  lemma {:induction false} FilesKeepReplicas(hash: Hash, rs: seq<Request>, key: Key, i: nat)
    requires CollisionFree(hash) && CanServeAll(hash, EMPTY_FS, rs)
    requires var fs := ServeAll(hash, EMPTY_FS, rs);
      && key in Files(fs.tree) && i < |Files(fs.tree)[key].chunkIDs|
      && OrderlyRequests(hash, EMPTY_FS, rs, Files(fs.tree)[key].chunkIDs[i])
    ensures var fs := ServeAll(hash, EMPTY_FS, rs);
      var c := Files(fs.tree)[key].chunkIDs[i];
      && Clean(fs.sys, c) && Replicas(fs.sys.cm, c) != []
      && forall n :: n in Replicas(fs.sys.cm, c) <==> n in fs.sys.cm.nodes && c in fs.sys.cm.nodes[n].chunks
  {
    var fs := ServeAll(hash, EMPTY_FS, rs);
    var c, ls := Files(fs.tree)[key].chunkIDs[i], Steps(hash, EMPTY_FS, rs);
    ReferentialIntegrity(hash, rs);
    assert FileIntact(hash, fs.sys.cm, key, Files(fs.tree)[key]);
    OrderlySteps(hash, EMPTY_FS, rs, c);
    RunsAreClusterRuns(hash, EMPTY_FS, rs);
    OrderlyIsClean(ls, c);
    ReplicasNeverEmpty(ls, c);
    forall n ensures n in Replicas(fs.sys.cm, c) <==> n in fs.sys.cm.nodes && c in fs.sys.cm.nodes[n].chunks {
      IndexAgrees(ls, c, n);
    }
  }
}
