/** What the metadata server's handlers may do and answer. */
module Handlers {
  import opened Common
  import opened Cluster
  import opened ChunkManagers
  import opened Paths
  import opened Namespaces
  import opened FileSystems

  datatype ServerError = NoNodes | Refused(error: NsError) | Unlocated(failure: LocationError)

  /** The answer to a get request: the file's meta data, the records of its chunks, and where to fetch them. */
  datatype FileAnswer = FileAnswer(meta: FileMeta, chunks: seq<ChunkMeta>, locations: seq<ChunkLocation>)

  /**
   What the put handler does to namespace and chunk manager, what it places and what it answers: without healthy nodes
   nothing at all, else the chunks are placed, and a put that the namespace refuses leaves them placed.
   */
  ghost predicate PutHandled(hash: Hash, tree: Tree, cm: State, meta: FileMeta, now: int,
                             placed: seq<ChunkPlacementInfo>,
                             tree2: Tree, cm2: State, r: Result<seq<ChunkPlacementInfo>, ServerError>)
  {
    var healthy, created := HealthyNodes(cm, now), Create(tree, meta.path, meta);
    if healthy == {} then
      r == Err(NoNodes) && tree2 == tree && cm2 == cm
    else
      && |placed| == meta.chunkCount
      && Placed(hash, meta.path, meta.size, cm, healthy, placed)
      && cm2 == PlaceFile(cm, hash, meta.path, meta.size, NodeLists(placed))
      && tree2 == (if created.Ok? then created.value else tree)
      && r == if created.Ok? then Ok(placed) else Err(Refused(created.error))
  }

  /** What the delete handler does and answers. */
  ghost predicate DeleteHandled(tree: Tree, cm: State, path: string, tree2: Tree, cm2: State,
                                r: Result<(), ServerError>)
  {
    match Delete(tree, path)
    case Err(e) => r == Err(Refused(e)) && tree2 == tree && cm2 == cm
    case Ok((rest, meta)) => r == Ok(()) && tree2 == rest && cm2 == DropChunks(cm, meta.chunkIDs)
  }

  /** The meta data the put handler makes of a request. */
  function RequestedMeta(hash: Hash, path: string, fileSize: int, chunkCount: nat, checksum: string): FileMeta {
    FileMeta(path, fileSize, chunkCount, DEFAULT_REPLICATION_FACTOR, checksum, ChunkIDs(hash, path, chunkCount))
  }

  /**
   What the get handler answers: the error of the lookup; or of the first chunk that cannot be located; or the meta data
   the lookup found, the record of every chunk, and for every chunk in order the nodes of its replica list that are not
   dead.  It succeeds exactly when the lookup does and every chunk has such a node.
   */
  ghost predicate GetHandled(tree: Tree, cm: State, path: string, r: Result<FileAnswer, ServerError>) {
    match Get(tree, path)
    case Err(e) => r == Err(Refused(e))
    case Ok(meta) =>
      && (r.Err? ==> r.error.Unlocated?)
      && Located(cm, meta.chunkIDs, if r.Ok? then Ok(r.value.locations) else Err(r.error.failure))
      && (r.Ok? ==>
          && r.value.meta == meta
          && |r.value.chunks| == |meta.chunkIDs|
          && forall i :: 0 <= i < |meta.chunkIDs| ==>
               meta.chunkIDs[i] in cm.chunks && r.value.chunks[i] == cm.chunks[meta.chunkIDs[i]])
  }
}
