/** What holds in every run of the protocol, and the exact steps at which it stops holding. */
module ProtocolTheorems {
  import opened Common
  import opened Cluster
  import opened Protocol
  import opened ProtocolInvariant

  // -------------------------------------------------------------- runs and traces

  lemma {:induction false} AfterAppend(s: Sys, ls: seq<Label>, ms: seq<Label>)
    requires Feasible(s, ls) && Feasible(After(s, ls), ms)
    ensures Feasible(s, ls + ms) && After(s, ls + ms) == After(After(s, ls), ms)
    decreases |ls|
  {
    if ls == [] {
      assert ls + ms == ms;
    } else {
      AfterAppend(Next(s, ls[0]), ls[1..], ms);
      assert (ls + ms)[0] == ls[0] && (ls + ms)[1..] == ls[1..] + ms;
    }
  }

  function Allocations(ls: seq<Label>, c: ChunkId): nat {
    if ls == [] then 0 else
      (if ls[0].Allocate? && ls[0].chunk == c then 1 else 0) + Allocations(ls[1..], c)
  }

  predicate Drops(ls: seq<Label>, c: ChunkId) {
    exists i :: 0 <= i < |ls| && ls[i] == Drop(c)
  }

  /** Without another allocation a chunk keeps what it was allocated with, and only a Drop ends an orderly life. */
  lemma {:induction false} HistoryStays(s: Sys, ls: seq<Label>, c: ChunkId)
    requires Feasible(s, ls) && c in s.hist && Allocations(ls, c) == 0
    ensures var t := After(s, ls);
      && c in t.hist
      && t.hist[c].content == s.hist[c].content && t.hist[c].initial == s.hist[c].initial
      && t.hist[c].pure == s.hist[c].pure
      && (t.hist[c].orderly ==> s.hist[c].orderly)
      && (s.hist[c].orderly && !Drops(ls, c) ==> t.hist[c].orderly)
    decreases |ls|
  {
    if ls != [] {
      HistoryStays(Next(s, ls[0]), ls[1..], c);
      if !Drops(ls, c) {
        assert ls[0] != Drop(c);
        assert forall i :: 0 <= i < |ls[1..]| ==> ls[1..][i] == ls[i + 1];
      }
    }
  }

  // ---------------------------------------------------------------- lives of a chunk

  /** No step allocates or drops the chunk. */
  ghost predicate Undisturbed(ls: seq<Label>, c: ChunkId) { Allocations(ls, c) == 0 && !Drops(ls, c) }

  /** Somewhere in the run an allocation begins a life of the chunk, and nothing allocates or drops it afterwards. */
  ghost predicate LifeIn(s: Sys, ls: seq<Label>, c: ChunkId)
    requires Feasible(s, ls)
    decreases |ls|
  {
    ls != [] &&
    ( || (ls[0].Allocate? && ls[0].chunk == c && BeginsLife(s, c, ls[0].targets) && Undisturbed(ls[1..], c))
      || LifeIn(Next(s, ls[0]), ls[1..], c))
  }

  lemma {:induction false} DropsNext(ls: seq<Label>, c: ChunkId)
    requires ls != []
    ensures Drops(ls, c) <==> ls[0] == Drop(c) || Drops(ls[1..], c)
  {
    if i :| 0 <= i < |ls| && ls[i] == Drop(c) && i > 0 { assert ls[1..][i - 1] == Drop(c); }
    if i :| 0 <= i < |ls[1..]| && ls[1..][i] == Drop(c) { assert ls[i + 1] == Drop(c); }
  }

  lemma {:induction false} CleanStep(s: Sys, l: Label, c: ChunkId)
    requires Enabled(s, l) && ChunkInv(s, c)
    ensures Clean(Next(s, l), c) <==>
      if l.Allocate? && l.chunk == c then BeginsLife(s, c, l.targets) else Clean(s, c) && l != Drop(c)
  {
  }

  lemma {:induction false} CleanFrom(s: Sys, ls: seq<Label>, c: ChunkId)
    requires Inv(s) && Feasible(s, ls)
    ensures Clean(After(s, ls), c) <==> (Clean(s, c) && Undisturbed(ls, c)) || LifeIn(s, ls, c)
    decreases |ls|
  {
    if ls != [] {
      NextInv(s, ls[0]);
      assert ChunkInv(s, c);
      CleanStep(s, ls[0], c);
      DropsNext(ls, c);
      CleanFrom(Next(s, ls[0]), ls[1..], c);
    }
  }

  /** Read off the trace, exactly: a chunk is clean iff its latest allocation began a life and no Drop followed. */
  lemma {:induction false} CleanIff(ls: seq<Label>, c: ChunkId)
    requires Feasible(INITIAL, ls)
    ensures Clean(After(INITIAL, ls), c) <==> LifeIn(INITIAL, ls, c)
  {
    InitialInv();
    CleanFrom(INITIAL, ls, c);
  }

  /** The chunk is allocated only while it does not exist, and dropped only while no migration has it. */
  ghost predicate OrderlyStep(s: Sys, l: Label, c: ChunkId) {
    && (l.Allocate? && l.chunk == c ==> c !in s.cm.chunks)
    && (l == Drop(c) && c in s.cm.chunks ==> AtRest(s, c))
  }

  ghost predicate Orderly(s: Sys, ls: seq<Label>, c: ChunkId)
    requires Feasible(s, ls)
    decreases |ls|
  {
    ls == [] || (OrderlyStep(s, ls[0], c) && Orderly(Next(s, ls[0]), ls[1..], c))
  }

  /** The chunk does not exist, no node lists it, no migration has it. */
  ghost predicate Gone(s: Sys, c: ChunkId) {
    && c !in s.cm.chunks && AtRest(s, c)
    && forall n :: n in s.cm.nodes ==> c !in s.cm.nodes[n].chunks
  }

  /** Dropped at rest, a clean chunk leaves nothing behind in the metadata. */
  lemma {:induction false} LifeEnds(s: Sys, c: ChunkId)
    requires Clean(s, c) && ChunkInv(s, c) && AtRest(s, c)
    ensures Gone(Next(s, Drop(c)), c)
  {
    var t := Next(s, Drop(c));
    assert t.runs == s.runs;
    assert forall n :: n in s.cm.nodes && c in s.cm.nodes[n].chunks ==> n in s.cm.chunks[c].nodeIDs;
    forall n ensures !Pending(t, n, c) && !Moving(t, n, c) {
      assert !Pending(s, n, c) && !Moving(s, n, c);
    }
  }

  lemma {:induction false} OrderlyNext(s: Sys, l: Label, c: ChunkId)
    requires Inv(s) && Enabled(s, l) && OrderlyStep(s, l, c) && (Clean(s, c) || Gone(s, c))
    ensures Clean(Next(s, l), c) || Gone(Next(s, l), c)
  {
    assert ChunkInv(s, c);
    CleanStep(s, l, c);
    if Clean(s, c) {
      if l == Drop(c) { LifeEnds(s, c); }
    } else if !(l.Allocate? && l.chunk == c) {
      GoneNext(s, l, c);
    }
  }

  lemma {:induction false} GoneNext(s: Sys, l: Label, c: ChunkId)
    requires Registry(s.cm) && Enabled(s, l) && Gone(s, c) && !(l.Allocate? && l.chunk == c)
    ensures Gone(Next(s, l), c)
  {
    RestNext(s, l, c);
    if l.AddTarget? || l.RemoveSource? { assert !Moving(s, l.node, c); }
    if !Concerns(s, l, c) { ElsewhereStays(s, l, c); }
  }

  lemma {:induction false} RestNext(s: Sys, l: Label, c: ChunkId)
    requires Enabled(s, l) && AtRest(s, c) && forall n :: n in s.cm.nodes ==> c !in s.cm.nodes[n].chunks
    ensures AtRest(Next(s, l), c)
  {
    var t := Next(s, l);
    forall n ensures !Pending(t, n, c) && !Moving(t, n, c) {
      assert !Pending(s, n, c) && !Moving(s, n, c);
    }
  }

  lemma {:induction false} OrderlyFrom(s: Sys, ls: seq<Label>, c: ChunkId)
    requires Inv(s) && Feasible(s, ls) && Orderly(s, ls, c) && (Clean(s, c) || Gone(s, c))
    ensures Clean(After(s, ls), c) || Gone(After(s, ls), c)
    decreases |ls|
  {
    if ls != [] {
      NextInv(s, ls[0]);
      OrderlyNext(s, ls[0], c);
      OrderlyFrom(Next(s, ls[0]), ls[1..], c);
    }
  }

  /**
   However often a chunk is put and deleted: if it is never allocated while it exists and never dropped during a
   migration of it, it is clean whenever it exists, and has left no trace in the metadata whenever it does not.
   */
  lemma {:induction false} OrderlyIsClean(ls: seq<Label>, c: ChunkId)
    requires Feasible(INITIAL, ls) && Orderly(INITIAL, ls, c)
    ensures var s := After(INITIAL, ls); if c in s.cm.chunks then Clean(s, c) else Gone(s, c)
  {
    InitialInv();
    assert ChunkInv(INITIAL, c);
    OrderlyFrom(INITIAL, ls, c);
    RunInv(ls);
    assert ChunkInv(After(INITIAL, ls), c);
  }

  lemma {:induction false} FirstAllocation(s: Sys, l: Label)
    requires Inv(s) && l.Allocate? && Enabled(s, l) && l.chunk !in s.hist
    ensures Next(s, l).hist[l.chunk] == History(true, true, None, |l.targets|, 0, l.data)
  {
    assert ChunkInv(s, l.chunk);
  }

  /** A chunk allocated by exactly one step and named by no Drop is clean and pure. */
  lemma {:induction false} AllocatedOnceIsClean(s: Sys, ls: seq<Label>, c: ChunkId) returns (i: nat)
    requires Inv(s) && Feasible(s, ls) && c !in s.hist
    requires Allocations(ls, c) == 1 && !Drops(ls, c)
    ensures Clean(After(s, ls), c) && Pure(After(s, ls), c)
    ensures i < |ls| && ls[i].Allocate? && ls[i].chunk == c && After(s, ls).hist[c].content == ls[i].data
    ensures After(s, ls).hist[c].initial == |ls[i].targets|
    decreases |ls|
  {
    DropsNext(ls, c);
    if ls[0].Allocate? && ls[0].chunk == c {
      FirstAllocation(s, ls[0]);
      HistoryStays(Next(s, ls[0]), ls[1..], c);
      i := 0;
    } else {
      NextInv(s, ls[0]);
      var j := AllocatedOnceIsClean(Next(s, ls[0]), ls[1..], c);
      i := j + 1;
    }
  }

  // -------------------------------------------------------------------- safety

  /** No interleaving of migrations ever empties the replica list of a clean chunk, in any of its lives. */
  lemma {:induction false} ReplicasNeverEmpty(ls: seq<Label>, c: ChunkId)
    requires Feasible(INITIAL, ls) && Clean(After(INITIAL, ls), c)
    ensures c in After(INITIAL, ls).cm.chunks && Replicas(After(INITIAL, ls).cm, c) != []
  {
    RunInv(ls);
    assert ChunkInv(After(INITIAL, ls), c);
  }

  /** The one step that empties a replica list: a source leaves that is listed alone. */
  lemma {:induction false} EmptiedIff(s: Sys, l: Label, c: ChunkId)
    requires Enabled(s, l) && Indexed(s.cm, c) && Replicas(s.cm, c) != []
    ensures c in Next(s, l).cm.chunks && Replicas(Next(s, l).cm, c) == [] <==>
      l.RemoveSource? && PhaseOf(s, l.node).chunk == c && Replicas(s.cm, c) == [l.node]
  {
    var list := Replicas(s.cm, c);
    if l.RemoveSource? {
      RemoveFirstNoDup(list, l.node);
      if RemoveFirst(list, l.node) == [] { OnlyOne(list, l.node); }
    }
  }

  lemma {:induction false} OnlyOne(list: seq<NodeId>, n: NodeId)
    requires list != [] && RemoveFirst(list, n) == []
    ensures list == [n]
  {
    assert n in list && |list| == 1 && list == [list[0]];
  }

  /** Once its upload is complete, every node listed for a clean chunk has a file of it. */
  lemma {:induction false} ListedNodesHoldFile(ls: seq<Label>, c: ChunkId, n: NodeId)
    requires Feasible(INITIAL, ls)
    requires Clean(After(INITIAL, ls), c) && Uploaded(After(INITIAL, ls), c)
    requires n in Replicas(After(INITIAL, ls).cm, c)
    ensures c in Held(After(INITIAL, ls), n)
  {
    RunInv(ls);
    assert ChunkInv(After(INITIAL, ls), c);
  }

  /** And if the chunk is pure, the file holds the bytes the chunk was put with. */
  lemma {:induction false} ListedNodesHoldContent(ls: seq<Label>, c: ChunkId, n: NodeId)
    requires Feasible(INITIAL, ls)
    requires Clean(After(INITIAL, ls), c) && Pure(After(INITIAL, ls), c) && Uploaded(After(INITIAL, ls), c)
    requires n in Replicas(After(INITIAL, ls).cm, c)
    ensures Holds(After(INITIAL, ls), n, c)
  {
    ListedNodesHoldFile(ls, c, n);
    RunInv(ls);
    assert PureInv(After(INITIAL, ls), c);
  }

  lemma {:induction false} FilesStay(s: Sys, ls: seq<Label>, n: NodeId, c: ChunkId)
    requires Feasible(s, ls) && c in Held(s, n)
    ensures c in Held(After(s, ls), n)
    decreases |ls|
  {
    if ls != [] {
      FilesStay(Next(s, ls[0]), ls[1..], n, c);
    }
  }

  /**
   A location handed out stays good: however the run goes on, the node holds the content, even after the chunk was
   dropped, unless the chunk is allocated again.
   */
  lemma {:induction false} LocationsStayGood(ls: seq<Label>, ms: seq<Label>, c: ChunkId, n: NodeId)
    requires Feasible(INITIAL, ls) && Feasible(After(INITIAL, ls), ms)
    requires Clean(After(INITIAL, ls), c) && Pure(After(INITIAL, ls), c) && Uploaded(After(INITIAL, ls), c)
    requires n in Replicas(After(INITIAL, ls).cm, c)
    requires Allocations(ms, c) == 0
    ensures c in After(After(INITIAL, ls), ms).hist && Holds(After(After(INITIAL, ls), ms), n, c)
    ensures After(After(INITIAL, ls), ms).hist[c].content == After(INITIAL, ls).hist[c].content
  {
    ListedNodesHoldContent(ls, c, n);
    RunInv(ls);
    FileKeepsContent(After(INITIAL, ls), ms, c, n);
  }

  lemma {:induction false} FileKeepsContent(s: Sys, ms: seq<Label>, c: ChunkId, n: NodeId)
    requires Inv(s) && Feasible(s, ms) && Pure(s, c) && c in Held(s, n) && Allocations(ms, c) == 0
    ensures c in After(s, ms).hist && Holds(After(s, ms), n, c)
    ensures After(s, ms).hist[c].content == s.hist[c].content
  {
    HistoryStays(s, ms, c);
    FilesStay(s, ms, n, c);
    AfterInv(s, ms);
    assert PureInv(After(s, ms), c);
  }

  // --------------------------------------------------------------- two-way index

  /** In every run, for every chunk: lists are duplicate-free, name registered nodes, and those nodes list the chunk. */
  lemma {:induction false} ReplicaListsIndexed(ls: seq<Label>, c: ChunkId)
    requires Feasible(INITIAL, ls)
    ensures Registry(After(INITIAL, ls).cm) && Indexed(After(INITIAL, ls).cm, c)
  {
    RunInv(ls);
    assert ChunkInv(After(INITIAL, ls), c);
  }

  /** For a clean chunk the two directions of the index agree. */
  lemma {:induction false} IndexAgrees(ls: seq<Label>, c: ChunkId, n: NodeId)
    requires Feasible(INITIAL, ls) && Clean(After(INITIAL, ls), c)
    ensures var cm := After(INITIAL, ls).cm;
      n in Replicas(cm, c) <==> n in cm.nodes && c in cm.nodes[n].chunks
  {
    RunInv(ls);
    assert ChunkInv(After(INITIAL, ls), c);
  }

  /** The steps that touch the placement of the chunk. */
  predicate Concerns(s: Sys, l: Label, c: ChunkId) {
    || (l.Allocate? && l.chunk == c)
    || (l.Drop? && l.chunk == c)
    || ((l.AddTarget? || l.RemoveSource?) && ChunkOf(PhaseOf(s, l.node)) == Some(c))
  }

  lemma {:induction false} ElsewhereStays(s: Sys, l: Label, c: ChunkId)
    requires Registry(s.cm) && Enabled(s, l) && !Concerns(s, l, c)
    ensures SamePlacement(s.cm, Next(s, l).cm, c)
  {
    match l
    case Register(address, capacity, now) => RegisterSamePlacement(s.cm, address, capacity, now, c);
    case Heartbeat(_, _, _, _) => StatusSamePlacement(s, l, c);
    case SetHealth(_, _, _) => StatusSamePlacement(s, l, c);
    case CheckDead(_) => StatusSamePlacement(s, l, c);
    case Allocate(_, _, _, _, _, _, _) => OthersSamePlacement(s, l, c);
    case Drop(_) => OthersSamePlacement(s, l, c);
    case AddTarget(_) => OthersSamePlacement(s, l, c);
    case RemoveSource(_) => OthersSamePlacement(s, l, c);
    case _ => assert Next(s, l).cm == s.cm;
  }

  lemma {:induction false} StatusSamePlacement(s: Sys, l: Label, c: ChunkId)
    requires l.Heartbeat? || l.SetHealth? || l.CheckDead?
    requires Enabled(s, l)
    ensures SamePlacement(s.cm, Next(s, l).cm, c)
  {
  }

  lemma {:induction false} OthersSamePlacement(s: Sys, l: Label, c: ChunkId)
    requires l.Allocate? || l.Drop? || l.AddTarget? || l.RemoveSource?
    requires Enabled(s, l) && !Concerns(s, l, c)
    ensures SamePlacement(s.cm, Next(s, l).cm, c)
  {
  }

  /** A late Add for a chunk that is gone, or an allocation that passes over a node which lists the chunk. */
  ghost predicate BreaksIndex(s: Sys, l: Label, c: ChunkId) {
    || (l.AddTarget? && PhaseOf(s, l.node).Copied? && PhaseOf(s, l.node).chunk == c &&
        c !in s.cm.chunks && PhaseOf(s, l.node).target in s.cm.nodes)
    || (l.Allocate? && l.chunk == c && exists n :: n in s.cm.nodes && c in s.cm.nodes[n].chunks && n !in l.targets)
  }

  /** These are exactly the steps at which the nodes' side of the index stops agreeing with the lists. */
  lemma {:induction false} IndexBreaksIff(s: Sys, l: Label, c: ChunkId)
    requires Registry(s.cm) && Enabled(s, l) && Indexed(s.cm, c) && IndexedBack(s.cm, c)
    ensures !IndexedBack(Next(s, l).cm, c) <==> BreaksIndex(s, l, c)
  {
    if !Concerns(s, l, c) {
      ElsewhereStays(s, l, c);
    } else {
      match l
      case RemoveSource(n) => RemoveFirstNoDup(Replicas(s.cm, c), n);
      case AddTarget(n) => LateAddIff(s.cm, c, PhaseOf(s, n).target);
      case Drop(_) =>
      case Allocate(_, _, _, _, _, _, _) => AllocationIff(s, l, c);
    }
  }

  lemma {:induction false} LateAddIff(cm: State, c: ChunkId, n: NodeId)
    requires IndexedBack(cm, c)
    ensures IndexedBack(AddChunkToNode(cm, c, n), c) <==> c in cm.chunks || n !in cm.nodes
  {
    var t := AddChunkToNode(cm, c, n);
    if n in cm.nodes { assert n in t.nodes && c in t.nodes[n].chunks; }
  }

  lemma {:induction false} AllocationIff(s: Sys, l: Label, c: ChunkId)
    requires l.Allocate? && l.chunk == c && Enabled(s, l)
    ensures !IndexedBack(Next(s, l).cm, c) <==> BreaksIndex(s, l, c)
  {
    var t := Next(s, l).cm;
    assert Replicas(t, c) == l.targets;
    assert forall n :: n in s.cm.nodes ==> (c in t.nodes[n].chunks <==> c in s.cm.nodes[n].chunks || n in l.targets);
  }

  ghost predicate NeverBreaksIndex(s: Sys, ls: seq<Label>, c: ChunkId)
    requires Feasible(s, ls)
    decreases |ls|
  {
    ls == [] || (!BreaksIndex(s, ls[0], c) && NeverBreaksIndex(Next(s, ls[0]), ls[1..], c))
  }

  lemma {:induction false} IndexFrom(s: Sys, ls: seq<Label>, c: ChunkId)
    requires Inv(s) && Feasible(s, ls) && NeverBreaksIndex(s, ls, c) && IndexedBack(s.cm, c)
    ensures IndexedBack(After(s, ls).cm, c)
    decreases |ls|
  {
    if ls != [] {
      assert ChunkInv(s, c);
      IndexBreaksIff(s, ls[0], c);
      NextInv(s, ls[0]);
      IndexFrom(Next(s, ls[0]), ls[1..], c);
    }
  }

  /** So in every run without such a step, clean or not, the two directions agree. */
  lemma {:induction false} IndexAgreesUnlessBroken(ls: seq<Label>, c: ChunkId, n: NodeId)
    requires Feasible(INITIAL, ls) && NeverBreaksIndex(INITIAL, ls, c)
    ensures var cm := After(INITIAL, ls).cm;
      n in Replicas(cm, c) <==> n in cm.nodes && c in cm.nodes[n].chunks
  {
    InitialInv();
    IndexFrom(INITIAL, ls, c);
    ReplicaListsIndexed(ls, c);
  }

  // ------------------------------------------------------------ replica conservation

  /** The replica count is the initial one, plus migrations between Add and Remove, minus the absorbed Adds. */
  lemma {:induction false} ReplicaConservation(ls: seq<Label>, c: ChunkId)
    requires Feasible(INITIAL, ls) && Clean(After(INITIAL, ls), c)
    ensures var s := After(INITIAL, ls);
      |Replicas(s.cm, c)| == s.hist[c].initial + |AddedSources(s, c)| - s.hist[c].absorbed
  {
    RunInv(ls);
    assert ChunkInv(After(INITIAL, ls), c);
  }

  /** With no migration of the chunk between Add and Remove, its replica count is kept iff no Add was absorbed. */
  lemma {:induction false} ReplicationKeptIffNothingAbsorbed(ls: seq<Label>, c: ChunkId)
    requires Feasible(INITIAL, ls) && Clean(After(INITIAL, ls), c)
    requires AddedSources(After(INITIAL, ls), c) == {}
    ensures var s := After(INITIAL, ls);
      && (|Replicas(s.cm, c)| == s.hist[c].initial <==> s.hist[c].absorbed == 0)
      && |Replicas(s.cm, c)| <= s.hist[c].initial
  {
    ReplicaConservation(ls, c);
  }

  /**
   A target choice that keeps migrations of the chunk apart: the target is unlisted at that moment and no other
   migration of the chunk is on its way to it.
   */
  ghost predicate ChosenApart(s: Sys, l: Label, c: ChunkId) {
    l.Choose? && ChunkOf(PhaseOf(s, l.node)) == Some(c) ==>
      && l.target !in Replicas(s.cm, c)
      && forall m :: HeadsFor(s, m, c) ==> PhaseOf(s, m).target != l.target
  }

  predicate HeadsFor(s: Sys, m: NodeId, c: ChunkId) {
    (PhaseOf(s, m).Picked? || PhaseOf(s, m).Copied?) && PhaseOf(s, m).chunk == c
  }

  ghost predicate AllChosenApart(s: Sys, ls: seq<Label>, c: ChunkId)
    requires Feasible(s, ls)
    decreases |ls|
  {
    ls == [] || (ChosenApart(s, ls[0], c) && AllChosenApart(Next(s, ls[0]), ls[1..], c))
  }

  ghost predicate HeadsDiffer(s: Sys, c: ChunkId) {
    forall m, n :: HeadsFor(s, m, c) && HeadsFor(s, n, c) && m != n ==> PhaseOf(s, m).target != PhaseOf(s, n).target
  }

  ghost predicate TargetsApart(s: Sys, c: ChunkId)
    requires c in s.hist
  {
    && HeadsDiffer(s, c)
    && (forall m :: HeadsFor(s, m, c) ==> PhaseOf(s, m).target !in Replicas(s.cm, c))
    && s.hist[c].absorbed == 0
  }

  /** If overlapping migrations of the chunk choose distinct targets, quiescence restores its initial replica count. */
  lemma {:induction false} DistinctTargetsKeepReplication(ls: seq<Label>, c: ChunkId)
    requires Feasible(INITIAL, ls) && Clean(After(INITIAL, ls), c)
    requires AllChosenApart(INITIAL, ls, c)
    requires AddedSources(After(INITIAL, ls), c) == {}
    ensures |Replicas(After(INITIAL, ls).cm, c)| == After(INITIAL, ls).hist[c].initial
  {
    InitialInv();
    ApartRun(INITIAL, ls, c);
    ReplicaConservation(ls, c);
  }

  lemma {:induction false} ApartRun(s: Sys, ls: seq<Label>, c: ChunkId)
    requires Inv(s) && Feasible(s, ls) && AllChosenApart(s, ls, c)
    requires Clean(s, c) ==> TargetsApart(s, c)
    ensures Clean(After(s, ls), c) ==> TargetsApart(After(s, ls), c)
    decreases |ls|
  {
    if ls != [] {
      NextInv(s, ls[0]);
      assert ChunkInv(s, c);
      if Clean(Next(s, ls[0]), c) { ApartStep(s, ls[0], c); }
      ApartRun(Next(s, ls[0]), ls[1..], c);
    }
  }

  lemma {:induction false} HeadStep(s: Sys, l: Label, c: ChunkId, m: NodeId)
    requires Enabled(s, l) && HeadsFor(Next(s, l), m, c)
    ensures if l.Choose? && l.node == m then PhaseOf(s, m).Listed? && PhaseOf(s, m).chunk == c
            else HeadsFor(s, m, c) && PhaseOf(s, m).target == PhaseOf(Next(s, l), m).target
  {
  }

  lemma {:induction false} HeadsDifferStep(s: Sys, l: Label, c: ChunkId)
    requires Enabled(s, l) && ChosenApart(s, l, c) && HeadsDiffer(s, c)
    ensures HeadsDiffer(Next(s, l), c)
  {
    var t := Next(s, l);
    forall m, n | HeadsFor(t, m, c) && HeadsFor(t, n, c) && m != n
      ensures PhaseOf(t, m).target != PhaseOf(t, n).target
    {
      HeadStep(s, l, c, m);
      HeadStep(s, l, c, n);
    }
  }

  /** At the beginning of a life no migration is under way; within a life the step keeps migrations apart. */
  lemma {:induction false} ApartStep(s: Sys, l: Label, c: ChunkId)
    requires ChunkInv(s, c) && Enabled(s, l) && ChosenApart(s, l, c)
    requires (Clean(s, c) ==> TargetsApart(s, c)) && Clean(Next(s, l), c)
    ensures TargetsApart(Next(s, l), c)
  {
    CleanStep(s, l, c);
    if l.Allocate? && l.chunk == c {
      assert forall m :: HeadsFor(Next(s, l), m, c) ==> Moving(s, m, c);
    } else {
      ApartWithin(s, l, c);
    }
  }

  lemma {:induction false} ApartWithin(s: Sys, l: Label, c: ChunkId)
    requires ChunkInv(s, c) && Enabled(s, l) && ChosenApart(s, l, c) && !(l.Allocate? && l.chunk == c) && l != Drop(c)
    requires Clean(s, c) && TargetsApart(s, c)
    ensures TargetsApart(Next(s, l), c)
  {
    var t := Next(s, l);
    HeadsDifferStep(s, l, c);
    forall m | HeadsFor(t, m, c) ensures PhaseOf(t, m).target !in Replicas(t.cm, c) {
      HeadStep(s, l, c, m);
      UnlistedStep(s, l, c, m);
    }
  }

  /** Only an allocation of the chunk and the Add of a migration of it put a node on its replica list. */
  lemma {:induction false} ListingStep(s: Sys, l: Label, c: ChunkId, x: NodeId)
    requires Enabled(s, l) && Indexed(s.cm, c)
    requires x in Replicas(Next(s, l).cm, c) && x !in Replicas(s.cm, c)
    ensures || (l.Allocate? && l.chunk == c)
            || (l.AddTarget? && HeadsFor(s, l.node, c) && PhaseOf(s, l.node).target == x)
  {
    if l.RemoveSource? {
      RemoveFirstNoDup(Replicas(s.cm, c), l.node);
    }
  }

  lemma {:induction false} UnlistedStep(s: Sys, l: Label, c: ChunkId, m: NodeId)
    requires ChunkInv(s, c) && Enabled(s, l) && ChosenApart(s, l, c) && !(l.Allocate? && l.chunk == c)
    requires Clean(s, c) && TargetsApart(s, c) && HeadsFor(Next(s, l), m, c)
    ensures PhaseOf(Next(s, l), m).target !in Replicas(Next(s, l).cm, c)
  {
    HeadStep(s, l, c, m);
    var x := PhaseOf(Next(s, l), m).target;
    if x in Replicas(Next(s, l).cm, c) && x !in Replicas(s.cm, c) {
      ListingStep(s, l, c, x);
    }
  }
}
