/** The metadata server's handlers as joint operations on namespace and chunk manager, and its prediction tick. */
module Servers {
  import opened Common
  import opened Cluster
  import opened ChunkManagers
  import opened Paths
  import opened Namespaces
  import opened NamespaceTrees
  import opened Protocol
  import opened FileSystems
  import opened FileTheorems
  import opened Handlers
  import opened Monitors
  import opened Predictor
  import opened RiskTheorems

  class Server {
    const namespace: Namespace
    const chunkMgr: ChunkManager

    ghost predicate Valid()
      reads this, namespace, namespace.Repr, chunkMgr
    {
      namespace.Valid() && chunkMgr.Valid()
    }

    constructor (hash: Hash)
      ensures Valid() && fresh(namespace) && fresh(namespace.Repr) && fresh(chunkMgr)
      ensures namespace.View() == EMPTY_TREE && chunkMgr.View() == EMPTY && chunkMgr.hash == hash
    {
      namespace := new Namespace();
      chunkMgr := new ChunkManager(hash);
    }

    /** A put that the namespace refuses leaves its chunks allocated. */
    method PutFile(path: string, fileSize: int, chunkCount: nat, checksum: string, now: int)
      returns (r: Result<seq<ChunkPlacementInfo>, ServerError>, ghost placed: seq<ChunkPlacementInfo>)
      requires Valid()
      modifies namespace, namespace.Repr, chunkMgr
      ensures Valid() && fresh(namespace.Repr - old(namespace.Repr))
      ensures PutHandled(chunkMgr.hash, old(namespace.View()), old(chunkMgr.View()),
                         RequestedMeta(chunkMgr.hash, path, fileSize, chunkCount, checksum), now, placed,
                         namespace.View(), chunkMgr.View(), r)
    {
      placed := [];
      var placements := chunkMgr.AllocateChunks(path, chunkCount, fileSize, now);
      if placements.Err? { return Err(NoNodes), []; }
      placed := placements.value;
      var chunkIDs := CollectIDs(placements.value, chunkMgr.hash, path);
      var meta := FileMeta(path, fileSize, chunkCount, DEFAULT_REPLICATION_FACTOR, checksum, chunkIDs);
      var created := namespace.CreateFile(path, meta);
      if created.Err? { return Err(Refused(created.error)), placed; }
      r := Ok(placements.value);
    }

    method GetFile(path: string) returns (r: Result<FileAnswer, ServerError>)
      requires Valid()
      ensures GetHandled(namespace.View(), chunkMgr.View(), path, r)
    {
      var meta := namespace.GetFile(path);
      if meta.Err? { return Err(Refused(meta.error)); }
      var ids := meta.value.chunkIDs;
      var locs := chunkMgr.GetChunkLocations(ids);
      if locs.Err? { return Err(Unlocated(locs.error)); }
      var chunks := CollectRecords(ids, locs.value);
      r := Ok(FileAnswer(meta.value, chunks, locs.value));
    }

    /** The record of every located chunk. */
    method CollectRecords(ghost ids: seq<ChunkId>, locs: seq<ChunkLocation>) returns (records: seq<ChunkMeta>)
      requires FindsAll(chunkMgr.View(), ids, locs)
      ensures |records| == |ids|
      ensures forall i :: 0 <= i < |ids| ==> ids[i] in chunkMgr.chunks && records[i] == chunkMgr.chunks[ids[i]]
    {
      records := [];
      for i := 0 to |locs|
        invariant |records| == i
        invariant forall j :: 0 <= j < i ==> ids[j] in chunkMgr.chunks && records[j] == chunkMgr.chunks[ids[j]]
      {
        assert Finds(chunkMgr.View(), ids[i], locs[i]);
        var cm := chunkMgr.GetChunkMeta(locs[i].chunkID);
        records := records + [cm.value];
      }
    }

    method DeleteFile(path: string) returns (r: Result<(), ServerError>)
      requires Valid()
      modifies namespace, namespace.Repr, chunkMgr
      ensures Valid() && fresh(namespace.Repr - old(namespace.Repr))
      ensures DeleteHandled(old(namespace.View()), old(chunkMgr.View()), path, namespace.View(), chunkMgr.View(), r)
    {
      var meta := namespace.DeleteFile(path);
      if meta.Err? { return Err(Refused(meta.error)); }
      chunkMgr.RemoveChunks(meta.value.chunkIDs);
      r := Ok(());
    }
  }

  method CollectIDs(placements: seq<ChunkPlacementInfo>, ghost hash: Hash, ghost path: string)
    returns (ids: seq<ChunkId>)
    requires forall i :: 0 <= i < |placements| ==> placements[i].chunkID == GenerateChunkID(hash, path, i)
    ensures ids == ChunkIDs(hash, path, |placements|)
  {
    ids := [];
    for i := 0 to |placements|
      invariant ids == ChunkIDs(hash, path, i)
    {
      ids := ids + [placements[i].chunkID];
    }
  }

  // ----------------------------------------------------- handlers are steps of the file system

  /** Whatever the put handler does is the put step of the file system, or nothing if it found no healthy node. */
  lemma {:induction false} PutIsStep(hash: Hash, fs: FS, path: string, fileSize: int, checksum: string,
                                     data: seq<Bytes>, now: int, placed: seq<ChunkPlacementInfo>, tree2: Tree, cm2: State,
                                     r: Result<seq<ChunkPlacementInfo>, ServerError>)
    requires PutHandled(hash, fs.tree, fs.sys.cm, RequestedMeta(hash, path, fileSize, |data|, checksum), now, placed,
                        tree2, cm2, r)
    ensures r == Err(NoNodes) <==> HealthyNodes(fs.sys.cm, now) == {}
    ensures r == Err(NoNodes) ==> tree2 == fs.tree && cm2 == fs.sys.cm
    ensures r != Err(NoNodes) ==>
      var p := PutRequest(path, fileSize, checksum, data, NodeLists(placed), now);
      && CanServe(hash, fs, PutFile(p))
      && Serve(hash, fs, PutFile(p)).tree == tree2 && Serve(hash, fs, PutFile(p)).sys.cm == cm2
      && (r.Ok? <==> Create(fs.tree, path, MetaOf(hash, p)).Ok?)
  {
    if HealthyNodes(fs.sys.cm, now) != {} {
      var p := PutRequest(path, fileSize, checksum, data, NodeLists(placed), now);
      AllocationIsRun(fs.sys, hash, p);
    }
  }

  /** Whatever the delete handler does is the delete step, for accepted and refused deletes. */
  lemma {:induction false} DeleteIsStep(hash: Hash, fs: FS, path: string, tree2: Tree, cm2: State,
                                        r: Result<(), ServerError>)
    requires DeleteHandled(fs.tree, fs.sys.cm, path, tree2, cm2, r)
    ensures Serve(hash, fs, DeleteFile(path)).tree == tree2 && Serve(hash, fs, DeleteFile(path)).sys.cm == cm2
    ensures r.Ok? <==> Delete(fs.tree, path).Ok?
  {
    if Delete(fs.tree, path).Ok? { DropsFeasible(fs.sys, Delete(fs.tree, path).value.1.chunkIDs); }
  }

  /**
   What a put leaves behind and answers: the file in its position with what the request said of it, and for every chunk
   of it its identifier, its size, and the nodes it was placed on.
   */
  lemma {:induction false} PutMeans(hash: Hash, tree: Tree, cm: State, path: string, fileSize: int, chunkCount: nat,
                                    checksum: string, now: int, placed: seq<ChunkPlacementInfo>, tree2: Tree, cm2: State,
                                    r: Result<seq<ChunkPlacementInfo>, ServerError>)
    requires CollisionFree(hash) && Shape(tree) && r.Ok?
    requires PutHandled(hash, tree, cm, RequestedMeta(hash, path, fileSize, chunkCount, checksum), now, placed, tree2, cm2, r)
    ensures CreateKey(path).Some? && CreateKey(path).value in Files(tree2)
    ensures var f := Files(tree2)[CreateKey(path).value];
      && f.path == path && f.size == fileSize && f.chunkCount == chunkCount && f.replicationFactor == 3
      && f.checksum == checksum && |f.chunkIDs| == |r.value| == chunkCount
      && forall i :: 0 <= i < chunkCount ==> f.chunkIDs[i] == r.value[i].chunkID == hash(path + ":chunk:" + Decimal(i))
    ensures forall i :: 0 <= i < |r.value| ==>
      var p, rest := r.value[i], fileSize - i * 4_194_304;
      && p.chunkIndex == i && FullyPlaced(cm.nodes, now, p) && p.chunkID in cm2.chunks
      && cm2.chunks[p.chunkID] == ChunkMeta(p.chunkID, i, if rest < 4_194_304 then rest else 4_194_304, p.nodeIDs, path)
  {
    CreateAddsOneFile(tree, path, RequestedMeta(hash, path, fileSize, chunkCount, checksum));
    PlacedFully(hash, path, fileSize, cm, now, placed);
    PlacedRecords(hash, cm, path, fileSize, placed);
  }

  lemma {:induction false} PlacedRecords(hash: Hash, cm: State, path: string, fileSize: int,
                                         placed: seq<ChunkPlacementInfo>)
    requires CollisionFree(hash)
    requires forall i :: 0 <= i < |placed| ==> placed[i].chunkID == GenerateChunkID(hash, path, i)
    ensures var cm2 := PlaceFile(cm, hash, path, fileSize, NodeLists(placed));
      forall i :: 0 <= i < |placed| ==>
        var c, rest := placed[i].chunkID, fileSize - i * 4_194_304;
        && c in cm2.chunks
        && cm2.chunks[c] == ChunkMeta(c, i, if rest < 4_194_304 then rest else 4_194_304, placed[i].nodeIDs, path)
  {
    forall i | 0 <= i < |placed|
      ensures var cm2, c := PlaceFile(cm, hash, path, fileSize, NodeLists(placed)), placed[i].chunkID;
        c in cm2.chunks && cm2.chunks[c] == ChunkMeta(c, i, RecordedSize(fileSize, i), placed[i].nodeIDs, path)
    {
      PlacedReplicas(cm, hash, path, fileSize, NodeLists(placed), i);
    }
  }

  /** A delete that succeeds takes exactly the chunks of the file with it and leaves the records of the others alone. */
  lemma {:induction false} DeleteMeans(tree: Tree, cm: State, path: string, tree2: Tree, cm2: State,
                                       r: Result<(), ServerError>)
    requires Shape(tree) && DeleteHandled(tree, cm, path, tree2, cm2, r)
    ensures r.Ok? <==> CreateKey(path).Some? && CreateKey(path).value in Files(tree)
    ensures r.Ok? ==>
      && Files(tree2) == Files(tree) - {CreateKey(path).value}
      && forall c :: c in cm2.chunks <==> c in cm.chunks && c !in Files(tree)[CreateKey(path).value].chunkIDs
    ensures r.Err? ==> tree2 == tree && cm2 == cm
  {
    DeleteSucceedsIff(tree, path);
    if r.Ok? {
      DeleteRemovesOneFile(tree, path);
      forall c ensures c in cm2.chunks <==> c in cm.chunks && c !in Files(tree)[CreateKey(path).value].chunkIDs {
        DropsKeys(cm, Delete(tree, path).value.1.chunkIDs, c);
      }
    }
  }

  // ------------------------------------------------------------------ prediction tick

  /** The health updates of one tick, in the order of the results. */
  function Updated(cm: State, results: seq<PredictionResult>): State {
    if results == [] then cm else
      var last := results[|results| - 1];
      UpdateNodeHealth(Updated(cm, results[..|results| - 1]), last.nodeID, last.status, last.overallRisk)
  }

  /** The nodes for which a migration is started. */
  function Triggered(results: seq<PredictionResult>): seq<NodeId> {
    if results == [] then [] else
      var last := results[|results| - 1];
      Triggered(results[..|results| - 1]) + if last.status == Critical then [last.nodeID] else []
  }

  lemma {:induction false} TriggeredAreCritical(results: seq<PredictionResult>, n: NodeId)
    ensures n in Triggered(results) <==> exists i :: 0 <= i < |results| && results[i].nodeID == n && results[i].status == Critical
  {
    if results != [] {
      var init := results[..|results| - 1];
      TriggeredAreCritical(init, n);
      if i :| 0 <= i < |results| && results[i].nodeID == n && results[i].status == Critical && i < |init| {
        assert init[i] == results[i];
      }
    }
  }

  /** The predictions for all nodes. */
  ghost predicate Predicts(predictions: map<string, PredictionResult>, reports: map<string, seq<HealthReport>>,
                           root: Root) {
    && predictions.Keys == reports.Keys
    && forall id {:trigger Prediction(id, reports[id], root)} :: id in reports ==>
         predictions[id] == Prediction(id, reports[id], root)
  }

  /** These are the predictions for different nodes. */
  ghost predicate ResultsOf(results: seq<PredictionResult>, predictions: map<string, PredictionResult>) {
    && (forall i :: 0 <= i < |results| ==>
          results[i].nodeID in predictions && results[i] == predictions[results[i].nodeID])
    && (forall i, j :: 0 <= i < j < |results| ==> results[i].nodeID != results[j].nodeID)
  }

  ghost predicate Covered(results: seq<PredictionResult>, id: string) {
    exists i :: 0 <= i < |results| && results[i].nodeID == id
  }

  /** One result for each monitored node, in no particular order. */
  method PredictAll(monitor: Monitor, root: Root, ghost predictions: map<string, PredictionResult>)
    returns (results: seq<PredictionResult>)
    requires monitor.Valid() && Predicts(predictions, monitor.reports, root)
    ensures ResultsOf(results, predictions)
    ensures forall id :: id in predictions ==> Covered(results, id)
  {
    results := [];
    var rest := monitor.store.Keys;
    while rest != {}
      invariant Progress(results, rest, predictions)
      decreases |rest|
    {
      var id :| id in rest;
      var result := PredictOne(monitor, id, root, predictions);
      ProgressNext(results, rest, predictions, id);
      rest := rest - {id};
      results := results + [result];
    }
  }

  /** The nodes not in `rest` have their result. */
  ghost predicate Progress(results: seq<PredictionResult>, rest: set<string>, predictions: map<string,
                           PredictionResult>) {
    && rest <= predictions.Keys && ResultsOf(results, predictions)
    && (forall i :: 0 <= i < |results| ==> results[i].nodeID !in rest)
    && (forall id :: id in predictions && id !in rest ==> Covered(results, id))
  }

  lemma {:induction false} ProgressNext(results: seq<PredictionResult>, rest: set<string>,
                                        predictions: map<string, PredictionResult>, id: string)
    requires Progress(results, rest, predictions) && id in rest && predictions[id].nodeID == id
    ensures Progress(results + [predictions[id]], rest - {id}, predictions)
  {
    CoveredNext(results, predictions[id], predictions.Keys - rest);
  }

  method PredictOne(monitor: Monitor, id: string, root: Root, ghost predictions: map<string, PredictionResult>)
    returns (result: PredictionResult)
    requires monitor.Valid() && Predicts(predictions, monitor.reports, root) && id in monitor.reports
    ensures result == predictions[id] && result.nodeID == id
  {
    monitor.SplitOff(id);
    assert TracksOne(monitor.store[id], monitor.reports[id], monitor.objects);
    var answer := PredictNode(monitor, id, root, monitor.reports[id]);
    result := answer.value;
  }

  lemma {:induction false} CoveredNext(results: seq<PredictionResult>, result: PredictionResult, ids: set<string>)
    requires forall id :: id in ids ==> Covered(results, id)
    ensures forall id :: id in ids || id == result.nodeID ==> Covered(results + [result], id)
  {
    var more := results + [result];
    forall id | id in ids || id == result.nodeID ensures Covered(more, id) {
      if id == result.nodeID {
        assert more[|results|] == result;
      } else {
        var i: nat :| i < |results| && results[i].nodeID == id;
        assert more[i] == results[i];
      }
    }
  }

  /** A tick of the prediction loop: predict, record health, and start migrations of the critical nodes. */
  method PredictionTick(monitor: Monitor, chunkMgr: ChunkManager, root: Root, ghost predictions: map<string,
                        PredictionResult>)
    returns (results: seq<PredictionResult>, triggered: seq<NodeId>)
    requires monitor.Valid() && Predicts(predictions, monitor.reports, root) && chunkMgr.Valid()
    modifies chunkMgr`nodes
    ensures chunkMgr.Valid() && chunkMgr.View() == Updated(old(chunkMgr.View()), results)
    ensures ResultsOf(results, predictions)
    ensures chunkMgr.nodes.Keys == old(chunkMgr.nodes).Keys
    ensures forall id :: id in chunkMgr.nodes && id in predictions ==>
      chunkMgr.nodes[id]
      == old(chunkMgr.nodes)[id].(status := predictions[id].status, riskScore := predictions[id].overallRisk)
    ensures forall id :: id in chunkMgr.nodes && id !in predictions ==> chunkMgr.nodes[id] == old(chunkMgr.nodes)[id]
    ensures triggered == Triggered(results)
    ensures forall id :: id in triggered <==> id in predictions && predictions[id].status == Critical
  {
    results := PredictAll(monitor, root, predictions);
    triggered := RecordHealth(chunkMgr, results);
    AllRecorded(old(chunkMgr.View()), results, predictions);
    TriggeredNodes(results, predictions);
  }

  /** Record the status and risk of every node, and collect the critical ones. */
  method RecordHealth(chunkMgr: ChunkManager, results: seq<PredictionResult>) returns (triggered: seq<NodeId>)
    requires chunkMgr.Valid()
    modifies chunkMgr`nodes
    ensures chunkMgr.Valid() && chunkMgr.View() == Updated(old(chunkMgr.View()), results)
    ensures triggered == Triggered(results)
  {
    triggered := [];
    for k := 0 to |results|
      invariant chunkMgr.Valid() && chunkMgr.View() == Updated(old(chunkMgr.View()), results[..k])
      invariant triggered == Triggered(results[..k])
    {
      assert results[..k + 1][..k] == results[..k];
      chunkMgr.UpdateNodeHealth(results[k].nodeID, results[k].status, results[k].overallRisk);
      if results[k].status == Critical {
        triggered := triggered + [results[k].nodeID];
      }
    }
    assert results[..|results|] == results;
  }

  /** After the updates a node shows the health of its result, and everything else about it stays. */
  lemma {:induction false} RecordedAt(cm: State, results: seq<PredictionResult>, id: NodeId, i: nat)
    requires id in cm.nodes
    requires forall j, k :: 0 <= j < k < |results| ==> results[j].nodeID != results[k].nodeID
    requires if i < |results| then results[i].nodeID == id else forall j :: 0 <= j < |results| ==> results[j].nodeID != id
    ensures var t := Updated(cm, results);
      && t.nodes.Keys == cm.nodes.Keys && t.chunks == cm.chunks
      && t.nodes[id] == if i < |results|
                        then cm.nodes[id].(status := results[i].status, riskScore := results[i].overallRisk)
                        else cm.nodes[id]
  {
    if results != [] {
      var k := |results| - 1;
      RecordedAt(cm, results[..k], id, if i < k then i else k);
    }
  }

  lemma {:induction false} AllRecorded(cm: State, results: seq<PredictionResult>,
                                       predictions: map<string, PredictionResult>)
    requires ResultsOf(results, predictions) && forall id :: id in predictions ==> Covered(results, id)
    ensures var t := Updated(cm, results);
      && t.nodes.Keys == cm.nodes.Keys && t.chunks == cm.chunks
      && (forall id :: id in cm.nodes && id in predictions ==>
            t.nodes[id] == cm.nodes[id].(status := predictions[id].status, riskScore := predictions[id].overallRisk))
      && forall id :: id in cm.nodes && id !in predictions ==> t.nodes[id] == cm.nodes[id]
  {
    UpdatedKeys(cm, results);
    var t := Updated(cm, results);
    forall id | id in cm.nodes
      ensures if id in predictions
              then t.nodes[id] == cm.nodes[id].(status := predictions[id].status, riskScore := predictions[id].overallRisk)
              else t.nodes[id] == cm.nodes[id]
    {
      if id in predictions {
        assert Covered(results, id);
        var i: nat :| i < |results| && results[i].nodeID == id;
        RecordedAt(cm, results, id, i);
      } else {
        RecordedAt(cm, results, id, |results|);
      }
    }
  }

  lemma {:induction false} UpdatedKeys(cm: State, results: seq<PredictionResult>)
    ensures Updated(cm, results).nodes.Keys == cm.nodes.Keys && Updated(cm, results).chunks == cm.chunks
  {
    if results != [] { UpdatedKeys(cm, results[..|results| - 1]); }
  }

  lemma {:induction false} TriggeredNodes(results: seq<PredictionResult>, predictions: map<string, PredictionResult>)
    requires ResultsOf(results, predictions) && forall id :: id in predictions ==> Covered(results, id)
    ensures forall id :: id in Triggered(results) <==> id in predictions && predictions[id].status == Critical
  {
    forall id ensures id in Triggered(results) <==> id in predictions && predictions[id].status == Critical {
      TriggeredAreCritical(results, id);
    }
  }

  /**
   No tick starts a migration of a node whose reports stay the same, however bad they are; it is enough that they
   have stayed the same since before the medium window.
   */
  lemma {:induction false} SteadyNodeIsNotTriggered(results: seq<PredictionResult>, predictions: map<string,
                                                    PredictionResult>,
                                                    reports: map<string, seq<HealthReport>>, root: Root, id: string)
    requires IsSqrt(root) && Predicts(predictions, reports, root) && ResultsOf(results, predictions)
    requires id in reports && (Steady(reports[id]) || SteadyLately(reports[id]))
    ensures id !in Triggered(results)
  {
    if Steady(reports[id]) {
      SteadyNodeIsNeverCritical(id, reports[id], root);
    } else {
      var j :| SteadySince(reports[id], j);
      LatelySteadyNodeIsNotCritical(id, reports[id], root, j);
    }
    assert predictions[id].status != Critical;
    TriggeredAreCritical(results, id);
  }
}
