/**
 The cluster as a labelled transition system.  Every locked operation of the metadata server and every
 remote call is one step; steps of uploads and of any number of migrations interleave freely.  Only the
 per-source guard orders migrations: `runs` holds at most one run for each node.
 */
module Protocol {
  import opened Common
  import opened Cluster

  type Bytes = seq<Byte>

  /** A store request that a client still has to make for a chunk it was told to place on a node. */
  datatype Upload = Upload(chunk: ChunkId, node: NodeId, data: Bytes)

  /** Where a migration stands with the chunk it is moving.  The stamp is the time its replica list was read. */
  datatype Phase =
    | Ready
    | Listed(chunk: ChunkId, stamp: nat, existing: seq<NodeId>)
    | Picked(chunk: ChunkId, stamp: nat, target: NodeId)
    | Copied(chunk: ChunkId, stamp: nat, target: NodeId)
    | Added(chunk: ChunkId, stamp: nat, target: NodeId)

  /** A run of MigrateNode: first it only holds the guard, then it works off the chunks it found. */
  datatype Run = Guarded | Working(todo: set<ChunkId>, phase: Phase)

  /** Of all migrations of a chunk that have added their target, the one that read the replica list last. */
  datatype Latest = Latest(stamp: nat, target: NodeId)

  /** What happened to a chunk identifier since its latest allocation; the protocol never consults it. */
  datatype History = History(
    orderly: bool,            // the allocation began an undisturbed life, and the chunk was not dropped since
    pure: bool,               // no other bytes existed for the chunk when it was allocated
    latest: Option<Latest>,
    initial: nat,             // replicas chosen by the allocation
    absorbed: nat,            // Adds since then that found their target already listed
    content: Bytes)           // the bytes the allocation was made for

  datatype Sys = Sys(
    cm: State,
    runs: map<NodeId, Run>,
    held: map<NodeId, map<ChunkId, Bytes>>,   // the chunk files on the disk of each data node
    uploads: set<Upload>,
    clock: nat,
    hist: map<ChunkId, History>)

  const INITIAL: Sys := Sys(EMPTY, map[], map[], {}, 0, map[])

  datatype Label =
    | Register(address: string, capacity: int, now: int)
    | Heartbeat(node: NodeId, used: int, count: int, now: int)
    | SetHealth(node: NodeId, status: NodeStatus, risk: real)
    | CheckDead(now: int)
    | Allocate(chunk: ChunkId, index: nat, size: int, path: string, data: Bytes, targets: seq<NodeId>, now: int)
    | Drop(chunk: ChunkId)
    | Store(upload: Upload, acknowledged: bool)
    | Begin(node: NodeId)
    | Snapshot(node: NodeId)
    | ReadList(node: NodeId, chunk: ChunkId)
    | Choose(node: NodeId, target: NodeId)
    | Copy(node: NodeId, acknowledged: bool)
    | Fail(node: NodeId)
    | AddTarget(node: NodeId)
    | RemoveSource(node: NodeId)
    | Finish(node: NodeId)

  // ------------------------------------------------------------------ observers

  function Held(s: Sys, n: NodeId): map<ChunkId, Bytes> {
    if n in s.held then s.held[n] else map[]
  }

  predicate Working(s: Sys, n: NodeId) { n in s.runs && s.runs[n].Working? }

  function PhaseOf(s: Sys, n: NodeId): Phase { if Working(s, n) then s.runs[n].phase else Ready }

  predicate Pending(s: Sys, n: NodeId, c: ChunkId) { Working(s, n) && c in s.runs[n].todo }

  /** The run of node `n` is moving `c`: it has read the replica list and not yet removed itself from it. */
  predicate Moving(s: Sys, n: NodeId, c: ChunkId) { !PhaseOf(s, n).Ready? && PhaseOf(s, n).chunk == c }

  predicate HasAdded(s: Sys, n: NodeId, c: ChunkId) { PhaseOf(s, n).Added? && PhaseOf(s, n).chunk == c }

  function AddedSources(s: Sys, c: ChunkId): set<NodeId> { set n | n in s.runs && HasAdded(s, n, c) }

  /** No migration has the chunk before it or under way. */
  ghost predicate AtRest(s: Sys, c: ChunkId) { forall n :: !Pending(s, n, c) && !Moving(s, n, c) }

  /** An allocation on these targets begins a life of its own: the chunk is at rest and no other node still lists it. */
  ghost predicate BeginsLife(s: Sys, c: ChunkId, targets: seq<NodeId>) {
    AtRest(s, c) && forall n :: n in s.cm.nodes && c in s.cm.nodes[n].chunks ==> n in targets
  }

  /** All bytes that exist for the chunk, on disks and on their way there, are these. */
  ghost predicate OnlyBytes(s: Sys, c: ChunkId, data: Bytes) {
    && (forall n :: c in Held(s, n) ==> Held(s, n)[c] == data)
    && (forall u :: u in s.uploads && u.chunk == c ==> u.data == data)
  }

  /** `c` is in a life that began undisturbed, and it was not dropped since. */
  predicate Clean(s: Sys, c: ChunkId) { c in s.hist && s.hist[c].orderly }

  /** Its latest allocation found no other bytes. */
  predicate Pure(s: Sys, c: ChunkId) { c in s.hist && s.hist[c].pure }

  predicate Uploaded(s: Sys, c: ChunkId) { forall u :: u in s.uploads ==> u.chunk != c }

  // ----------------------------------------------------------------------- steps

  function WithPhase(s: Sys, n: NodeId, p: Phase): Sys
    requires Working(s, n)
  {
    s.(runs := s.runs[n := s.runs[n].(phase := p)])
  }

  function Put(s: Sys, n: NodeId, c: ChunkId, data: Bytes): Sys {
    s.(held := s.held[n := Held(s, n)[c := data]])
  }

  ghost predicate Enabled(s: Sys, l: Label) {
    match l
    case Register(_, _, _) => true
    case Heartbeat(_, _, _, _) => true
    case SetHealth(_, _, _) => true
    case CheckDead(_) => true
    case Allocate(_, _, _, _, _, targets, now) =>
      var healthy := HealthyNodes(s.cm, now);
      healthy != {} && BestPick(s.cm, healthy, ReplicaGoal(healthy), targets)
    case Drop(_) => true
    case Store(u, _) => u in s.uploads
    case Begin(n) => n !in s.runs
    case Snapshot(n) => n in s.runs && s.runs[n].Guarded?
    case ReadList(n, c) => Working(s, n) && s.runs[n].phase.Ready? && c in s.runs[n].todo
    case Choose(n, t) => PhaseOf(s, n).Listed? && t in TargetNodes(s.cm, PhaseOf(s, n).existing)
    case Copy(n, _) => PhaseOf(s, n).Picked? && PhaseOf(s, n).chunk in Held(s, n)
    case Fail(n) =>
      || PhaseOf(s, n).Picked?
      || (PhaseOf(s, n).Listed? && TargetNodes(s.cm, PhaseOf(s, n).existing) == {})
    case AddTarget(n) => PhaseOf(s, n).Copied?
    case RemoveSource(n) => PhaseOf(s, n).Added?
    case Finish(n) => Working(s, n) && s.runs[n].phase.Ready? && s.runs[n].todo == {}
  }

  ghost function Next(s: Sys, l: Label): Sys
    requires Enabled(s, l)
  {
    match l
    case Register(address, capacity, now) => s.(cm := RegisterNode(s.cm, address, capacity, now))
    case Heartbeat(n, used, count, now) => s.(cm := UpdateHeartbeat(s.cm, n, used, count, now))
    case SetHealth(n, status, risk) => s.(cm := UpdateNodeHealth(s.cm, n, status, risk))
    case CheckDead(now) => s.(cm := CheckDeadNodes(s.cm, now))
    case Allocate(c, index, size, path, data, targets, _) =>
      s.(cm := PlaceChunk(s.cm, c, index, size, path, targets),
         uploads := s.uploads + (set n | n in targets :: Upload(c, n, data)),
         hist := s.hist[c := History(BeginsLife(s, c, targets), OnlyBytes(s, c, data), None, |targets|, 0, data)])
    case Drop(c) =>
      s.(cm := DropChunk(s.cm, c),
         hist := if c in s.cm.chunks && c in s.hist then s.hist[c := s.hist[c].(orderly := false)] else s.hist)
    case Store(u, acknowledged) =>
      Put(s, u.node, u.chunk, u.data).(uploads := if acknowledged then s.uploads - {u} else s.uploads)
    case Begin(n) => s.(runs := s.runs[n := Run.Guarded])
    case Snapshot(n) => s.(runs := s.runs[n := Run.Working(ChunksOnNode(s.cm, n), Ready)])
    case ReadList(n, c) =>
      var phase := if c in s.cm.chunks then Listed(c, s.clock, s.cm.chunks[c].nodeIDs) else Ready;
      s.(runs := s.runs[n := Run.Working(s.runs[n].todo - {c}, phase)], clock := s.clock + 1)
    case Choose(n, t) => WithPhase(s, n, Picked(PhaseOf(s, n).chunk, PhaseOf(s, n).stamp, t))
    case Copy(n, acknowledged) =>
      var p := PhaseOf(s, n);
      WithPhase(Put(s, p.target, p.chunk, Held(s, n)[p.chunk]), n,
                if acknowledged then Copied(p.chunk, p.stamp, p.target) else Ready)
    case Fail(n) => WithPhase(s, n, Ready)
    case AddTarget(n) =>
      var p := PhaseOf(s, n);
      WithPhase(s, n, Phase.Added(p.chunk, p.stamp, p.target)).(
        cm := AddChunkToNode(s.cm, p.chunk, p.target),
        hist := if p.chunk in s.hist then s.hist[p.chunk := NoteAdd(s.hist[p.chunk], s.cm, p)] else s.hist)
    case RemoveSource(n) => WithPhase(s, n, Ready).(cm := RemoveChunkFromNode(s.cm, PhaseOf(s, n).chunk, n))
    case Finish(n) => s.(runs := s.runs - {n})
  }

  function NoteAdd(h: History, cm: State, p: Phase): History
    requires p.Copied?
  {
    h.(latest := if h.latest.Some? && p.stamp < h.latest.value.stamp then h.latest
                 else Some(Latest(p.stamp, p.target)),
       absorbed := if p.target in Replicas(cm, p.chunk) then h.absorbed + 1 else h.absorbed)
  }

  // ------------------------------------------------------------------------ runs

  /** The labels can be taken one after the other from `s`. */
  ghost predicate Feasible(s: Sys, ls: seq<Label>)
    decreases |ls|
  {
    ls == [] || (Enabled(s, ls[0]) && Feasible(Next(s, ls[0]), ls[1..]))
  }

  ghost function After(s: Sys, ls: seq<Label>): Sys
    requires Feasible(s, ls)
    decreases |ls|
  {
    if ls == [] then s else After(Next(s, ls[0]), ls[1..])
  }
}
