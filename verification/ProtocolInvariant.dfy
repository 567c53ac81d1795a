/** What every step of the protocol keeps, for each chunk separately. */
module ProtocolInvariant {
  import opened Common
  import opened Cluster
  import opened Protocol

  /** A chunk identifier that was never allocated occurs nowhere. */
  ghost predicate Absent(s: Sys, c: ChunkId) {
    && c !in s.cm.chunks
    && (forall n :: n in s.cm.nodes ==> c !in s.cm.nodes[n].chunks)
    && AtRest(s, c)
    && (forall n :: c !in Held(s, n))
    && Uploaded(s, c)
  }

  /** A run that has still to move `c`, or is moving it, is listed for `c`. */
  ghost predicate SourcesListed(s: Sys, c: ChunkId) {
    forall n ::
      && (Pending(s, n, c) ==> n in Replicas(s.cm, c))
      && (Moving(s, n, c) ==> n in Replicas(s.cm, c) && !Pending(s, n, c) && PhaseOf(s, n).stamp < s.clock)
  }

  /** If node `n` is moving `c`, it read the replica list after time `stamp`. */
  ghost predicate ReadsAfter(s: Sys, c: ChunkId, n: NodeId, stamp: nat) {
    Moving(s, n, c) ==> PhaseOf(s, n).stamp > stamp
  }

  /** Nodes outside `existing` that are moving `c` read the replica list after time `stamp`. */
  ghost predicate OthersReadAfter(s: Sys, c: ChunkId, existing: seq<NodeId>, stamp: nat) {
    forall m :: m !in existing ==> ReadsAfter(s, c, m, stamp)
  }

  ghost predicate TargetReadsLater(s: Sys, c: ChunkId, n: NodeId)
    requires Moving(s, n, c)
  {
    var p := PhaseOf(s, n);
    && (p.Listed? ==> n in p.existing && OthersReadAfter(s, c, p.existing, p.stamp))
    && (p.Picked? || p.Copied? ==> p.target != n && ReadsAfter(s, c, p.target, p.stamp))
  }

  /** A node that was unlisted when a migration read the replica list starts moving the chunk later only. */
  ghost predicate TargetsReadLater(s: Sys, c: ChunkId) {
    forall n :: Moving(s, n, c) ==> TargetReadsLater(s, c, n)
  }

  /** The latest added target is listed, and it is not about to leave the list. */
  ghost predicate LatestStays(s: Sys, c: ChunkId)
    requires c in s.hist
  {
    var latest := s.hist[c].latest;
    if latest.None? then
      AddedSources(s, c) == {} && Replicas(s.cm, c) != []
    else
      && latest.value.stamp < s.clock
      && latest.value.target in Replicas(s.cm, c)
      && !HasAdded(s, latest.value.target, c)
      && ReadsAfter(s, c, latest.value.target, latest.value.stamp)
      && forall n :: n in AddedSources(s, c) ==> PhaseOf(s, n).stamp <= latest.value.stamp
  }

  ghost predicate Counted(s: Sys, c: ChunkId)
    requires c in s.hist
  {
    |Replicas(s.cm, c)| == s.hist[c].initial + |AddedSources(s, c)| - s.hist[c].absorbed
  }

  ghost predicate Holds(s: Sys, n: NodeId, c: ChunkId)
    requires c in s.hist
  {
    c in Held(s, n) && Held(s, n)[c] == s.hist[c].content
  }

  /** Every listed node has a file of the chunk or is still to receive one, and so has every acknowledged target. */
  ghost predicate Delivered(s: Sys, c: ChunkId)
    requires c in s.hist
  {
    && (forall n :: n in Replicas(s.cm, c) ==> c in Held(s, n) || Upload(c, n, s.hist[c].content) in s.uploads)
    && (forall n :: Moving(s, n, c) && PhaseOf(s, n).Copied? ==> c in Held(s, PhaseOf(s, n).target))
  }

  ghost predicate CleanInv(s: Sys, c: ChunkId)
    requires c in s.hist
  {
    && c in s.cm.chunks
    && IndexedBack(s.cm, c)
    && SourcesListed(s, c)
    && TargetsReadLater(s, c)
    && LatestStays(s, c)
    && Counted(s, c)
    && Delivered(s, c)
  }

  /** A migration only ever chooses registered targets. */
  ghost predicate TargetsRegistered(s: Sys, c: ChunkId) {
    forall n :: Moving(s, n, c) && (PhaseOf(s, n).Picked? || PhaseOf(s, n).Copied?) ==>
      PhaseOf(s, n).target in s.cm.nodes
  }

  ghost predicate ChunkInv(s: Sys, c: ChunkId) {
    && Indexed(s.cm, c)
    && TargetsRegistered(s, c)
    && (c !in s.hist ==> Absent(s, c))
    && (Clean(s, c) ==> CleanInv(s, c))
  }

  /** No bytes but the content exist for a pure chunk; this needs nothing else. */
  ghost predicate PureInv(s: Sys, c: ChunkId) { Pure(s, c) ==> OnlyBytes(s, c, s.hist[c].content) }

  // ------------------------------------------------- steps that do not concern `c`

  ghost predicate SamePlacement(a: State, b: State, c: ChunkId) {
    && (c in a.chunks <==> c in b.chunks)
    && Replicas(a, c) == Replicas(b, c)
    && a.nodes.Keys <= b.nodes.Keys
    && forall n :: n in b.nodes ==> (c in b.nodes[n].chunks <==> n in a.nodes && c in a.nodes[n].chunks)
  }

  ghost predicate SameRuns(s: Sys, t: Sys, c: ChunkId) {
    && s.clock <= t.clock
    && (forall n :: Pending(s, n, c) == Pending(t, n, c))
    && (forall n :: Moving(s, n, c) == Moving(t, n, c))
    && (forall n :: Moving(s, n, c) ==> PhaseOf(s, n) == PhaseOf(t, n))
  }

  ghost predicate SameStores(s: Sys, t: Sys, c: ChunkId) {
    && (forall n :: c in Held(s, n) <==> c in Held(t, n))
    && (forall n :: c in Held(s, n) ==> Held(s, n)[c] == Held(t, n)[c])
    && (forall u :: u in s.uploads && u.chunk == c ==> u in t.uploads)
    && (forall u :: u in t.uploads && u.chunk == c ==> u in s.uploads)
  }

  ghost predicate SameHistory(s: Sys, t: Sys, c: ChunkId) {
    (c in s.hist <==> c in t.hist) && (c in s.hist ==> s.hist[c] == t.hist[c])
  }

  lemma {:induction false} SameRunsSameSources(s: Sys, t: Sys, c: ChunkId)
    requires SameRuns(s, t, c)
    ensures AddedSources(s, c) == AddedSources(t, c)
  {
    assert forall n :: HasAdded(s, n, c) ==> Moving(s, n, c);
    assert forall n :: HasAdded(t, n, c) ==> Moving(t, n, c);
    assert forall n :: HasAdded(s, n, c) <==> HasAdded(t, n, c);
  }

  lemma {:induction false} Unconcerned(s: Sys, t: Sys, c: ChunkId)
    requires ChunkInv(s, c)
    requires SamePlacement(s.cm, t.cm, c) && SameRuns(s, t, c) && SameStores(s, t, c) && SameHistory(s, t, c)
    ensures ChunkInv(t, c)
  {
    SameRunsSameSources(s, t, c);
    if Clean(s, c) {
      assert TargetsReadLater(t, c) by {
        forall n | Moving(t, n, c) ensures TargetReadsLater(t, c, n) {
          assert Moving(s, n, c) && TargetReadsLater(s, c, n);
        }
      }
    }
  }

  lemma {:induction false} RegisterSamePlacement(cm: State, address: string, capacity: int, now: int, c: ChunkId)
    requires Registry(cm)
    ensures SamePlacement(cm, RegisterNode(cm, address, capacity, now), c)
  {
    RegisteredNameIsOwnerOrFresh(cm, address);
  }

  lemma {:induction false} MetadataSamePlacement(s: Sys, l: Label, c: ChunkId)
    requires l.Heartbeat? || l.SetHealth? || l.CheckDead?
    requires Enabled(s, l)
    ensures Next(s, l) == s.(cm := Next(s, l).cm) && SamePlacement(s.cm, Next(s, l).cm, c)
  {
  }

  lemma {:induction false} MetadataStepKeeps(s: Sys, l: Label, c: ChunkId)
    requires l.Heartbeat? || l.SetHealth? || l.CheckDead?
    requires Enabled(s, l) && ChunkInv(s, c)
    ensures ChunkInv(Next(s, l), c)
  {
    MetadataSamePlacement(s, l, c);
    Unconcerned(s, Next(s, l), c);
  }

  lemma {:induction false} RegisterKeeps(s: Sys, l: Label, c: ChunkId)
    requires l.Register?
    requires Registry(s.cm) && Enabled(s, l) && ChunkInv(s, c)
    ensures ChunkInv(Next(s, l), c)
  {
    RegisterSamePlacement(s.cm, l.address, l.capacity, l.now, c);
    Unconcerned(s, Next(s, l), c);
  }

  ghost predicate OtherChunk(s: Sys, l: Label, c: ChunkId) {
    (l.Allocate? || l.Drop? || l.Store?) && c != (if l.Store? then l.upload.chunk else l.chunk) && Enabled(s, l)
  }

  lemma {:induction false} OtherChunkPlacement(s: Sys, l: Label, c: ChunkId)
    requires OtherChunk(s, l, c)
    ensures SamePlacement(s.cm, Next(s, l).cm, c) && SameHistory(s, Next(s, l), c)
  {
  }

  lemma {:induction false} OtherChunkStores(s: Sys, l: Label, c: ChunkId)
    requires OtherChunk(s, l, c)
    ensures SameRuns(s, Next(s, l), c) && SameStores(s, Next(s, l), c)
  {
  }

  lemma {:induction false} OtherChunkKeeps(s: Sys, l: Label, c: ChunkId)
    requires OtherChunk(s, l, c) && ChunkInv(s, c)
    ensures ChunkInv(Next(s, l), c)
  {
    OtherChunkPlacement(s, l, c);
    OtherChunkStores(s, l, c);
    Unconcerned(s, Next(s, l), c);
  }

  lemma {:induction false} GuardStepKeeps(s: Sys, l: Label, c: ChunkId)
    requires l.Begin? || l.Finish? || (l.Snapshot? && c !in ChunksOnNode(s.cm, l.node))
    requires Enabled(s, l) && ChunkInv(s, c)
    ensures ChunkInv(Next(s, l), c)
  {
    Unconcerned(s, Next(s, l), c);
  }

  /** The chunk a step of the run of `n` is about. */
  function RunChunk(s: Sys, l: Label): Option<ChunkId> {
    match l
    case ReadList(_, c) => Some(c)
    case Choose(n, _) => ChunkOf(PhaseOf(s, n))
    case Copy(n, _) => ChunkOf(PhaseOf(s, n))
    case Fail(n) => ChunkOf(PhaseOf(s, n))
    case AddTarget(n) => ChunkOf(PhaseOf(s, n))
    case RemoveSource(n) => ChunkOf(PhaseOf(s, n))
    case _ => None
  }

  function ChunkOf(p: Phase): Option<ChunkId> { if p.Ready? then None else Some(p.chunk) }

  lemma {:induction false} OtherRunPlacement(s: Sys, l: Label, c: ChunkId)
    requires RunChunk(s, l).Some? && RunChunk(s, l).value != c && Enabled(s, l)
    ensures SamePlacement(s.cm, Next(s, l).cm, c) && SameHistory(s, Next(s, l), c)
  {
  }

  lemma {:induction false} OtherRunRuns(s: Sys, l: Label, c: ChunkId)
    requires RunChunk(s, l).Some? && RunChunk(s, l).value != c && Enabled(s, l)
    ensures SameRuns(s, Next(s, l), c) && SameStores(s, Next(s, l), c)
  {
  }

  lemma {:induction false} OtherRunKeeps(s: Sys, l: Label, c: ChunkId)
    requires RunChunk(s, l).Some? && RunChunk(s, l).value != c
    requires Enabled(s, l) && ChunkInv(s, c)
    ensures ChunkInv(Next(s, l), c)
  {
    OtherRunPlacement(s, l, c);
    OtherRunRuns(s, l, c);
    Unconcerned(s, Next(s, l), c);
  }

  // ----------------------------------------------------- steps that concern `c`

  lemma {:induction false} AllocateKeeps(s: Sys, l: Label)
    requires l.Allocate?
    requires Enabled(s, l) && ChunkInv(s, l.chunk)
    ensures ChunkInv(Next(s, l), l.chunk)
  {
    var c, t := l.chunk, Next(s, l);
    assert |l.targets| > 0;
    assert forall n :: PhaseOf(t, n) == PhaseOf(s, n);
    if BeginsLife(s, c, l.targets) { LifeBegins(s, l); }
  }

  lemma {:induction false} LifeBegins(s: Sys, l: Label)
    requires l.Allocate? && BeginsLife(s, l.chunk, l.targets)
    requires Enabled(s, l)
    ensures CleanInv(Next(s, l), l.chunk)
  {
    var c, t := l.chunk, Next(s, l);
    assert |l.targets| > 0;
    assert forall n :: n in l.targets ==> Upload(c, n, l.data) in t.uploads;
    assert forall n :: Held(t, n) == Held(s, n);
    assert forall n :: Moving(t, n, c) <==> Moving(s, n, c);
    assert forall n :: Pending(t, n, c) <==> Pending(s, n, c);
    assert forall n :: HasAdded(t, n, c) ==> Moving(t, n, c);
    assert AddedSources(t, c) == {};
  }

  lemma {:induction false} DropKeeps(s: Sys, l: Label)
    requires l.Drop?
    requires Enabled(s, l) && ChunkInv(s, l.chunk)
    ensures ChunkInv(Next(s, l), l.chunk)
  {
    var t := Next(s, l);
    assert forall n :: PhaseOf(t, n) == PhaseOf(s, n);
    assert forall n :: Held(t, n) == Held(s, n);
    assert l.chunk in s.cm.chunks ==> !Clean(t, l.chunk);
    if l.chunk !in s.cm.chunks {
      assert !Clean(s, l.chunk) && t == s;
    }
  }

  lemma {:induction false} StoreKeepsFiles(s: Sys, l: Label)
    requires l.Store? && Enabled(s, l)
    ensures var c, t := l.upload.chunk, Next(s, l);
      && SameRuns(s, t, c) && t.cm == s.cm && t.hist == s.hist
      && (forall n :: c in Held(t, n) <==> n == l.upload.node || c in Held(s, n))
      && (forall u :: u in s.uploads ==> u in t.uploads || (u == l.upload && c in Held(t, u.node)))
  {
    var c, t := l.upload.chunk, Next(s, l);
    assert forall n :: Held(t, n) == if n == l.upload.node then Held(s, n)[c := l.upload.data] else Held(s, n);
    assert forall n :: PhaseOf(t, n) == PhaseOf(s, n);
  }

  lemma {:induction false} StoreKeeps(s: Sys, l: Label)
    requires l.Store?
    requires Enabled(s, l) && ChunkInv(s, l.upload.chunk)
    ensures ChunkInv(Next(s, l), l.upload.chunk)
  {
    var c, t := l.upload.chunk, Next(s, l);
    StoreKeepsFiles(s, l);
    SameRunsSameSources(s, t, c);
    if Clean(s, c) {
      forall n | Moving(t, n, c) ensures TargetReadsLater(t, c, n) {
        assert Moving(s, n, c) && TargetReadsLater(s, c, n);
      }
    }
  }

  // Steps of one run: disks, placement and the other runs stay as they are unless the step says otherwise.

  ghost predicate SameOthers(s: Sys, t: Sys, node: NodeId, c: ChunkId) {
    && s.clock <= t.clock
    && s.cm.nodes.Keys == t.cm.nodes.Keys
    && (forall n :: n != node ==> PhaseOf(t, n) == PhaseOf(s, n))
    && (forall n :: n != node ==> Pending(t, n, c) == Pending(s, n, c))
    && (Pending(t, node, c) ==> Pending(s, node, c) || !Moving(s, node, c))
  }

  /** The run of `node` does not read the list in this step; it may choose, copy, add or leave. */
  ghost predicate SameRead(s: Sys, t: Sys, node: NodeId, c: ChunkId) {
    Moving(t, node, c) ==>
      && Moving(s, node, c)
      && PhaseOf(t, node).stamp == PhaseOf(s, node).stamp
      && (PhaseOf(t, node).Copied? ==> PhaseOf(s, node).Picked? && PhaseOf(s, node).target == PhaseOf(t, node).target)
      && (PhaseOf(t, node).Picked? ==> PhaseOf(s, node).Listed? && PhaseOf(t, node).target !in PhaseOf(s, node).existing)
      && !PhaseOf(t, node).Listed?
  }

  lemma {:induction false} LaterReadsKept(s: Sys, t: Sys, node: NodeId, c: ChunkId)
    requires TargetsReadLater(s, c) && SameOthers(s, t, node, c) && SameRead(s, t, node, c)
    ensures TargetsReadLater(t, c)
  {
    forall n | Moving(t, n, c) ensures TargetReadsLater(t, c, n) {
      assert Moving(s, n, c) && TargetReadsLater(s, c, n);
    }
  }

  /** What a step of the run of `l.node` about `c`, other than reading the list, leaves to the other runs. */
  lemma {:induction false} RunStepFrame(s: Sys, l: Label, c: ChunkId)
    requires RunChunk(s, l) == Some(c) && !l.ReadList? && Enabled(s, l)
    ensures Moving(s, l.node, c) && SameOthers(s, Next(s, l), l.node, c)
  {
  }

  lemma {:induction false} RunStepRead(s: Sys, l: Label, c: ChunkId)
    requires RunChunk(s, l) == Some(c) && !l.ReadList? && Enabled(s, l)
    ensures SameRead(s, Next(s, l), l.node, c)
  {
  }

  lemma {:induction false} SnapshotKeeps(s: Sys, l: Label, c: ChunkId)
    requires l.Snapshot? && c in ChunksOnNode(s.cm, l.node)
    requires Enabled(s, l) && ChunkInv(s, c)
    ensures ChunkInv(Next(s, l), c)
  {
    var t := Next(s, l);
    assert SameOthers(s, t, l.node, c);
    assert forall n :: HasAdded(s, n, c) <==> HasAdded(t, n, c);
    assert AddedSources(t, c) == AddedSources(s, c);
    assert forall n :: Held(t, n) == Held(s, n);
    if Clean(s, c) {
      LaterReadsKept(s, t, l.node, c);
    }
  }

  lemma {:induction false} ReadListKeeps(s: Sys, l: Label, c: ChunkId)
    requires l.ReadList? && l.chunk == c
    requires Enabled(s, l) && ChunkInv(s, c)
    ensures ChunkInv(Next(s, l), c)
  {
    var t := Next(s, l);
    assert Pending(s, l.node, c) && SameOthers(s, t, l.node, c);
    assert forall n :: Held(t, n) == Held(s, n);
    assert forall n :: HasAdded(s, n, c) <==> HasAdded(t, n, c);
    assert AddedSources(t, c) == AddedSources(s, c);
    if Clean(s, c) {
      forall n | Moving(t, n, c) ensures TargetReadsLater(t, c, n) {
        if n != l.node {
          assert Moving(s, n, c) && TargetReadsLater(s, c, n);
        }
      }
    }
  }

  /** Choosing, copying and failing leave the metadata, the history and the added runs alone. */
  lemma {:induction false} NotCommitting(s: Sys, l: Label, c: ChunkId)
    requires RunChunk(s, l) == Some(c) && (l.Choose? || l.Copy? || l.Fail?) && Enabled(s, l)
    ensures var t := Next(s, l);
      t.cm == s.cm && t.hist == s.hist && t.uploads == s.uploads && t.clock == s.clock && AddedSources(t, c) == AddedSources(s, c)
  {
    assert forall n :: HasAdded(s, n, c) <==> HasAdded(Next(s, l), n, c);
  }

  lemma {:induction false} ChooseOrFailKeeps(s: Sys, l: Label, c: ChunkId)
    requires l.Choose? || l.Fail?
    requires RunChunk(s, l) == Some(c)
    requires Enabled(s, l) && ChunkInv(s, c)
    ensures ChunkInv(Next(s, l), c)
  {
    RunStepFrame(s, l, c);
    if Clean(s, c) { ChooseOrFailKeepsClean(s, l, c); }
  }

  lemma {:induction false} ChooseOrFailKeepsClean(s: Sys, l: Label, c: ChunkId)
    requires l.Choose? || l.Fail?
    requires RunChunk(s, l) == Some(c)
    requires Enabled(s, l) && ChunkInv(s, c) && Clean(s, c)
    ensures c in Next(s, l).hist && CleanInv(Next(s, l), c)
  {
    var t := Next(s, l);
    RunStepFrame(s, l, c);
    RunStepRead(s, l, c);
    NotCommitting(s, l, c);
    assert t.held == s.held;
    LaterReadsKept(s, t, l.node, c);
  }

  lemma {:induction false} CopyKeeps(s: Sys, l: Label, c: ChunkId)
    requires l.Copy? && RunChunk(s, l) == Some(c)
    requires Enabled(s, l) && ChunkInv(s, c)
    ensures ChunkInv(Next(s, l), c)
  {
    RunStepFrame(s, l, c);
    if Clean(s, c) { CopyKeepsClean(s, l, c); }
  }

  lemma {:induction false} CopyKeepsClean(s: Sys, l: Label, c: ChunkId)
    requires l.Copy? && RunChunk(s, l) == Some(c)
    requires Enabled(s, l) && ChunkInv(s, c) && Clean(s, c)
    ensures c in Next(s, l).hist && CleanInv(Next(s, l), c)
  {
    var p, t := PhaseOf(s, l.node), Next(s, l);
    RunStepFrame(s, l, c);
    RunStepRead(s, l, c);
    assert forall n :: Held(t, n) == if n == p.target then Held(s, n)[c := Held(s, l.node)[c]] else Held(s, n);
    NotCommitting(s, l, c);
    LaterReadsKept(s, t, l.node, c);
  }

  lemma {:induction false} AddTargetKeepsLatest(s: Sys, l: Label, c: ChunkId)
    requires l.AddTarget? && RunChunk(s, l) == Some(c)
    requires Enabled(s, l) && Clean(s, c) && CleanInv(s, c)
    ensures LatestStays(Next(s, l), c) && Counted(Next(s, l), c)
  {
    var p, t := PhaseOf(s, l.node), Next(s, l);
    assert Moving(s, l.node, c) && TargetReadsLater(s, c, l.node);
    assert forall n :: n != l.node ==> PhaseOf(t, n) == PhaseOf(s, n);
    assert forall n :: HasAdded(t, n, c) <==> n == l.node || HasAdded(s, n, c);
    assert AddedSources(t, c) == AddedSources(s, c) + {l.node};
    // A target that has itself added since read the list after this migration did.
    assert HasAdded(s, p.target, c) ==> p.target in AddedSources(s, c) && PhaseOf(s, p.target).stamp > p.stamp;
  }

  lemma {:induction false} AddTargetKeeps(s: Sys, l: Label, c: ChunkId)
    requires l.AddTarget? && RunChunk(s, l) == Some(c)
    requires Enabled(s, l) && ChunkInv(s, c)
    ensures ChunkInv(Next(s, l), c)
  {
    RunStepFrame(s, l, c);
    if Clean(s, c) { AddTargetKeepsClean(s, l, c); }
  }

  lemma {:induction false} AddTargetKeepsClean(s: Sys, l: Label, c: ChunkId)
    requires l.AddTarget? && RunChunk(s, l) == Some(c)
    requires Enabled(s, l) && ChunkInv(s, c) && Clean(s, c)
    ensures c in Next(s, l).hist && CleanInv(Next(s, l), c)
  {
    var t := Next(s, l);
    RunStepFrame(s, l, c);
    RunStepRead(s, l, c);
    assert forall n :: Held(t, n) == Held(s, n);
    AddTargetKeepsLatest(s, l, c);
    LaterReadsKept(s, t, l.node, c);
  }

  lemma {:induction false} RemoveSourceKeepsLatest(s: Sys, l: Label, c: ChunkId)
    requires l.RemoveSource? && RunChunk(s, l) == Some(c)
    requires Enabled(s, l) && NoDup(Replicas(s.cm, c)) && Clean(s, c) && CleanInv(s, c)
    ensures LatestStays(Next(s, l), c) && Counted(Next(s, l), c)
  {
    var t := Next(s, l);
    assert Moving(s, l.node, c) && HasAdded(s, l.node, c);
    RemoveFirstNoDup(Replicas(s.cm, c), l.node);
    assert forall n :: n != l.node ==> PhaseOf(t, n) == PhaseOf(s, n);
    assert forall n :: HasAdded(t, n, c) <==> n != l.node && HasAdded(s, n, c);
    assert AddedSources(t, c) == AddedSources(s, c) - {l.node};
    assert l.node in AddedSources(s, c);
  }

  lemma {:induction false} RemoveSourceKeeps(s: Sys, l: Label, c: ChunkId)
    requires l.RemoveSource? && RunChunk(s, l) == Some(c)
    requires Enabled(s, l) && ChunkInv(s, c)
    ensures ChunkInv(Next(s, l), c)
  {
    RunStepFrame(s, l, c);
    RemoveFirstNoDup(Replicas(s.cm, c), l.node);
    if Clean(s, c) { RemoveSourceKeepsClean(s, l, c); }
  }

  lemma {:induction false} RemoveSourceKeepsDelivered(s: Sys, l: Label, c: ChunkId)
    requires l.RemoveSource? && RunChunk(s, l) == Some(c)
    requires Enabled(s, l) && c in s.hist && Delivered(s, c) && Indexed(s.cm, c) && IndexedBack(s.cm, c)
    ensures Delivered(Next(s, l), c) && IndexedBack(Next(s, l).cm, c)
  {
    var t := Next(s, l);
    RemoveFirstNoDup(Replicas(s.cm, c), l.node);
    RunStepFrame(s, l, c);
    assert forall n :: Held(t, n) == Held(s, n);
  }

  lemma {:induction false} RemoveSourceKeepsClean(s: Sys, l: Label, c: ChunkId)
    requires l.RemoveSource? && RunChunk(s, l) == Some(c)
    requires Enabled(s, l) && ChunkInv(s, c) && Clean(s, c)
    ensures c in Next(s, l).hist && CleanInv(Next(s, l), c)
  {
    var t := Next(s, l);
    RunStepFrame(s, l, c);
    RunStepRead(s, l, c);
    RemoveFirstNoDup(Replicas(s.cm, c), l.node);
    RemoveSourceKeepsDelivered(s, l, c);
    RemoveSourceKeepsLatest(s, l, c);
    LaterReadsKept(s, t, l.node, c);
  }

  lemma {:induction false} StepKeeps(s: Sys, l: Label, c: ChunkId)
    requires Registry(s.cm) && Enabled(s, l) && ChunkInv(s, c)
    ensures ChunkInv(Next(s, l), c)
  {
    match l
    case Register(_, _, _) => RegisterKeeps(s, l, c);
    case Heartbeat(_, _, _, _) => MetadataStepKeeps(s, l, c);
    case SetHealth(_, _, _) => MetadataStepKeeps(s, l, c);
    case CheckDead(_) => MetadataStepKeeps(s, l, c);
    case Allocate(d, _, _, _, _, _, _) =>
      if c != d { OtherChunkKeeps(s, l, c); } else { AllocateKeeps(s, l); }
    case Drop(d) => if c != d { OtherChunkKeeps(s, l, c); } else { DropKeeps(s, l); }
    case Store(u, _) => if c != u.chunk { OtherChunkKeeps(s, l, c); } else { StoreKeeps(s, l); }
    case Begin(_) => GuardStepKeeps(s, l, c);
    case Finish(_) => GuardStepKeeps(s, l, c);
    case Snapshot(n) => if c in ChunksOnNode(s.cm, n) { SnapshotKeeps(s, l, c); } else { GuardStepKeeps(s, l, c); }
    case _ => RunStepKeeps(s, l, c);
  }

  lemma {:induction false} RunStepKeeps(s: Sys, l: Label, c: ChunkId)
    requires RunChunk(s, l).Some?
    requires Enabled(s, l) && ChunkInv(s, c)
    ensures ChunkInv(Next(s, l), c)
  {
    if RunChunk(s, l) != Some(c) {
      OtherRunKeeps(s, l, c);
    } else {
      match l
      case Copy(_, _) => CopyKeeps(s, l, c);
      case AddTarget(_) => AddTargetKeeps(s, l, c);
      case RemoveSource(_) => RemoveSourceKeeps(s, l, c);
      case ReadList(_, _) => ReadListKeeps(s, l, c);
      case _ => ChooseOrFailKeeps(s, l, c);
    }
  }

  /** Every step keeps the bytes of a pure chunk what they are: transfers only copy what is there. */
  lemma {:induction false} CopyKeepsBytes(s: Sys, l: Label, c: ChunkId)
    requires l.Copy? && Enabled(s, l) && PureInv(s, c)
    ensures PureInv(Next(s, l), c)
  {
    var p, t := PhaseOf(s, l.node), Next(s, l);
    assert forall n :: Held(t, n) == if n == p.target then Held(s, n)[p.chunk := Held(s, l.node)[p.chunk]] else Held(s, n);
  }

  lemma {:induction false} StoreKeepsBytes(s: Sys, l: Label, c: ChunkId)
    requires l.Store? && Enabled(s, l) && PureInv(s, c)
    ensures PureInv(Next(s, l), c)
  {
    var u, t := l.upload, Next(s, l);
    assert forall n :: Held(t, n) == if n == u.node then Held(s, n)[u.chunk := u.data] else Held(s, n);
  }

  lemma {:induction false} StepKeepsBytes(s: Sys, l: Label, c: ChunkId)
    requires Enabled(s, l) && PureInv(s, c)
    ensures PureInv(Next(s, l), c)
  {
    if l.Store? {
      StoreKeepsBytes(s, l, c);
    } else if l.Copy? {
      CopyKeepsBytes(s, l, c);
    } else {
      var t := Next(s, l);
      assert forall n :: Held(t, n) == Held(s, n);
    }
  }

  lemma {:induction false} StatusKeepsNames(s: Sys, l: Label)
    requires Enabled(s, l) && (l.Heartbeat? || l.SetHealth? || l.CheckDead?)
    ensures SameNames(s.cm, Next(s, l).cm)
  {
  }

  /** Only a registration changes names and addresses. */
  lemma {:induction false} NamesKept(s: Sys, l: Label)
    requires Enabled(s, l) && !l.Register?
    ensures SameNames(s.cm, Next(s, l).cm)
  {
    match l
    case Allocate(_, _, _, _, _, _, _) =>
    case Drop(_) =>
    case AddTarget(_) =>
    case RemoveSource(_) =>
    case Heartbeat(_, _, _, _) => StatusKeepsNames(s, l);
    case SetHealth(_, _, _) => StatusKeepsNames(s, l);
    case CheckDead(_) => StatusKeepsNames(s, l);
    case _ =>
  }

  lemma {:induction false} RegistryKept(s: Sys, l: Label)
    requires Registry(s.cm) && Enabled(s, l)
    ensures Registry(Next(s, l).cm)
  {
    if l.Register? {
      RegisterKeepsRegistry(s.cm, l.address, l.capacity, l.now);
    } else {
      NamesKept(s, l);
      SameNamesKeepRegistry(s.cm, Next(s, l).cm);
    }
  }

  // ------------------------------------------------------------------- every run

  ghost predicate Inv(s: Sys) {
    Registry(s.cm) && (forall c :: ChunkInv(s, c)) && (forall c :: PureInv(s, c))
  }

  lemma {:induction false} InitialInv()
    ensures Inv(INITIAL)
  {
    assert INITIAL.cm.nodes.Keys == NodeNames(0);
    forall c ensures ChunkInv(INITIAL, c) {
      assert forall n :: Held(INITIAL, n) == map[];
    }
  }

  lemma {:induction false} NextInv(s: Sys, l: Label)
    requires Inv(s) && Enabled(s, l)
    ensures Inv(Next(s, l))
  {
    RegistryKept(s, l);
    forall c ensures ChunkInv(Next(s, l), c) {
      StepKeeps(s, l, c);
    }
    forall c ensures PureInv(Next(s, l), c) {
      StepKeepsBytes(s, l, c);
    }
  }

  lemma {:induction false} AfterInv(s: Sys, ls: seq<Label>)
    requires Inv(s) && Feasible(s, ls)
    ensures Inv(After(s, ls))
    decreases |ls|
  {
    if ls != [] {
      NextInv(s, ls[0]);
      AfterInv(Next(s, ls[0]), ls[1..]);
    }
  }

  lemma {:induction false} RunInv(ls: seq<Label>)
    requires Feasible(INITIAL, ls)
    ensures Inv(After(INITIAL, ls))
  {
    InitialInv();
    AfterInv(INITIAL, ls);
  }
}
