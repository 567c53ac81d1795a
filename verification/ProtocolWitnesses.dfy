/** Runs from the initial state that show which hypotheses of the theorems cannot be dropped. */
module ProtocolWitnesses {
  import opened Common
  import opened Cluster
  import opened Protocol
  import opened ProtocolInvariant
  import opened ProtocolTheorems

  ghost predicate Reachable(s: Sys) {
    exists ls :: Feasible(INITIAL, ls) && After(INITIAL, ls) == s
  }

  lemma {:induction false} Start()
    ensures Reachable(INITIAL)
  {
    assert Feasible(INITIAL, []) && After(INITIAL, []) == INITIAL;
  }

  lemma {:induction false} ReachableInv(s: Sys)
    requires Reachable(s)
    ensures Inv(s)
  {
    var ls :| Feasible(INITIAL, ls) && After(INITIAL, ls) == s;
    RunInv(ls);
  }

  lemma {:induction false} One(s: Sys, l: Label, t: Sys)
    requires Enabled(s, l) && t == Next(s, l)
    ensures Feasible(s, [l]) && After(s, [l]) == t
  {
    assert [l][1..] == [];
    assert Feasible(t, []) && After(t, []) == t;
  }

  lemma {:induction false} Take(s: Sys, l: Label, t: Sys)
    requires Reachable(s) && Enabled(s, l) && t == Next(s, l)
    ensures Reachable(t)
  {
    var ls :| Feasible(INITIAL, ls) && After(INITIAL, ls) == s;
    One(s, l, t);
    AfterAppend(INITIAL, ls, [l]);
    assert Feasible(INITIAL, ls + [l]) && After(INITIAL, ls + [l]) == t;
  }

  /** Registered nodes, each at the address that spells its name, and nothing else. */
  function Nodes(ids: set<NodeId>): Sys {
    INITIAL.(cm := State(map id | id in ids :: NewNode(id, id, 0, 0), map[]))
  }

  function Fresh(n: nat): Sys { Nodes(NodeNames(n)) }

  lemma {:induction false} NameCount(n: nat)
    ensures |NodeNames(n)| == n
  {
    if n > 0 {
      NameCount(n - 1);
      NextNameIsFresh(n - 1);
    }
  }

  lemma {:induction false} FreshRegistry(n: nat)
    ensures Registry(Fresh(n).cm) && |Fresh(n).cm.nodes| == n
  {
    NameCount(n);
    assert Fresh(n).cm.nodes.Keys == NodeNames(n);
    assert |Fresh(n).cm.nodes| == |Fresh(n).cm.nodes.Keys|;
  }

  lemma {:induction false} NextNameIsGiven(n: nat)
    ensures NodeName(n + 1) !in Fresh(n).cm.nodes && RegisteredName(Fresh(n).cm, NodeName(n + 1)) == NodeName(n + 1)
  {
    var s, id := Fresh(n).cm, NodeName(n + 1);
    FreshRegistry(n);
    NextNameIsFresh(n);
    assert forall m :: m in s.nodes ==> s.nodes[m].address == m;
    RegisteredNameIsOwnerOrFresh(s, id);
  }

  lemma {:induction false} RegisterOneMore(n: nat)
    ensures RegisterNode(Fresh(n).cm, NodeName(n + 1), 0, 0) == Fresh(n + 1).cm
  {
    var s, id := Fresh(n).cm, NodeName(n + 1);
    NextNameIsGiven(n);
    assert s.nodes[id := NewNode(id, id, 0, 0)] == Fresh(n + 1).cm.nodes;
  }

  lemma {:induction false} FreshZero()
    ensures Fresh(0) == INITIAL
  {
    assert NodeNames(0) == {};
    assert Fresh(0).cm.nodes == map[];
  }

  lemma {:induction false} FreshReachable(n: nat)
    ensures Reachable(Fresh(n))
  {
    if n == 0 {
      Start();
      FreshZero();
    } else {
      FreshReachable(n - 1);
      RegisterOneMore(n - 1);
      Take(Fresh(n - 1), Register(NodeName(n), 0, 0), Fresh(n));
    }
  }

  lemma {:induction false} FourNodes() returns (n1: NodeId, n2: NodeId, n3: NodeId, n4: NodeId)
    ensures n1 != n2 && n1 != n3 && n1 != n4 && n2 != n3 && n2 != n4 && n3 != n4
    ensures Reachable(Nodes({n1, n2, n3, n4}))
  {
    n1, n2, n3, n4 := NodeName(1), NodeName(2), NodeName(3), NodeName(4);
    NextNameIsFresh(0);
    NextNameIsFresh(1);
    NextNameIsFresh(2);
    NextNameIsFresh(3);
    assert NodeNames(0) == {};
    assert NodeNames(4) == {n1, n2, n3, n4};
    FreshReachable(4);
  }

  lemma {:induction false} TwoNames() returns (a: NodeId, b: NodeId)
    ensures a != b && a == NodeName(1) && b == NodeName(2) && NodeNames(2) == {a, b}
  {
    a, b := NodeName(1), NodeName(2);
    NextNameIsFresh(0);
    NextNameIsFresh(1);
    assert NodeNames(0) == {};
    assert NodeNames(1) == {a};
  }

  lemma {:induction false} TwoNodes() returns (a: NodeId, b: NodeId)
    ensures a != b && Reachable(Nodes({a, b}))
  {
    a, b := TwoNames();
    FreshReachable(2);
  }

  /** The run of `n`, started on its only chunk, up to the acknowledged copy to `target`. */
  function Approached(s: Sys, n: NodeId, c: ChunkId, target: NodeId): Sys
    requires c in Held(s, n)
  {
    Put(s, target, c, Held(s, n)[c]).(runs := s.runs[n := Run.Working({}, Copied(c, s.clock, target))],
                                      clock := s.clock + 1)
  }

  /** Guard, snapshot and list read of the run of `n`, whose only chunk is `c`. */
  lemma {:induction false} ApproachRead(s: Sys, n: NodeId, c: ChunkId) returns (t: Sys)
    requires Reachable(s) && n !in s.runs && ChunksOnNode(s.cm, n) == {c} && c in s.cm.chunks
    ensures Reachable(t)
    ensures t == s.(runs := s.runs[n := Run.Working({}, Listed(c, s.clock, s.cm.chunks[c].nodeIDs))],
                    clock := s.clock + 1)
  {
    var guarded := s.(runs := s.runs[n := Guarded]);
    Take(s, Begin(n), guarded);
    var ready := s.(runs := s.runs[n := Run.Working({c}, Ready)]);
    assert guarded.runs[n := Run.Working({c}, Ready)] == ready.runs;
    Take(guarded, Snapshot(n), ready);
    assert {c} - {c} == {};
    t := s.(runs := s.runs[n := Run.Working({}, Listed(c, s.clock, s.cm.chunks[c].nodeIDs))], clock := s.clock + 1);
    assert ready.runs[n := t.runs[n]] == t.runs;
    Take(ready, ReadList(n, c), t);
  }

  /** And the choice of the target. */
  lemma {:induction false} ApproachPick(s: Sys, n: NodeId, c: ChunkId, target: NodeId) returns (t: Sys)
    requires Reachable(s) && n !in s.runs && ChunksOnNode(s.cm, n) == {c}
    requires c in s.cm.chunks && target in TargetNodes(s.cm, s.cm.chunks[c].nodeIDs)
    ensures Reachable(t)
    ensures t == s.(runs := s.runs[n := Run.Working({}, Picked(c, s.clock, target))], clock := s.clock + 1)
  {
    var listed := ApproachRead(s, n, c);
    t := listed.(runs := s.runs[n := Run.Working({}, Picked(c, s.clock, target))]);
    assert listed.runs[n := t.runs[n]] == t.runs;
    Take(listed, Choose(n, target), t);
  }

  lemma {:induction false} Approach(s: Sys, n: NodeId, c: ChunkId, target: NodeId)
    requires Reachable(s) && n !in s.runs && ChunksOnNode(s.cm, n) == {c} && c in Held(s, n)
    requires c in s.cm.chunks && target in TargetNodes(s.cm, s.cm.chunks[c].nodeIDs)
    ensures Reachable(Approached(s, n, c, target))
  {
    var picked := ApproachPick(s, n, c, target);
    var t := Approached(s, n, c, target);
    assert picked.runs[n := t.runs[n]] == t.runs;
    Take(picked, Copy(n, true), t);
  }

  /** Put on `targets`, the nodes chosen at time 0, and stored on the first of them. */
  lemma {:induction false} PutAndStore(s: Sys, c: ChunkId, targets: seq<NodeId>) returns (t: Sys)
    requires Reachable(s) && c !in s.hist && s.uploads == {}
    requires HealthyNodes(s.cm, 0) != {}
    requires BestPick(s.cm, HealthyNodes(s.cm, 0), ReplicaGoal(HealthyNodes(s.cm, 0)), targets)
    ensures Reachable(t) && t.runs == s.runs && t.clock == s.clock && t.uploads == {}
    ensures t.cm == PlaceChunk(s.cm, c, 0, 0, c, targets)
    ensures t.hist == s.hist[c := History(true, true, None, |targets|, 0, [])]
    ensures forall n :: n in targets ==> c in Held(t, n)
  {
    t := Next(s, Allocate(c, 0, 0, c, [], targets, 0));
    ReachableInv(s);
    FirstAllocation(s, Allocate(c, 0, 0, c, [], targets, 0));
    Take(s, Allocate(c, 0, 0, c, [], targets, 0), t);
    t := StoreAll(t, c, targets);
  }

  lemma {:induction false} StoreAll(s: Sys, c: ChunkId, targets: seq<NodeId>) returns (t: Sys)
    requires Reachable(s) && NoDup(targets)
    requires s.uploads == set n | n in targets :: Upload(c, n, [])
    ensures Reachable(t) && t.runs == s.runs && t.clock == s.clock && t.cm == s.cm && t.hist == s.hist && t.uploads == {}
    ensures forall n :: n in targets || c in Held(s, n) ==> c in Held(t, n)
    decreases |targets|
  {
    t := s;
    if targets != [] {
      var u := Upload(c, targets[0], []);
      Take(s, Store(u, true), Next(s, Store(u, true)));
      t := StoreAll(Next(s, Store(u, true)), c, targets[1..]);
    }
  }

  lemma {:induction false} TakeAdd(s: Sys, n: NodeId, p: Phase) returns (t: Sys)
    requires Reachable(s) && n in s.runs && s.runs[n] == Run.Working({}, p) && p.Copied? && p.chunk in s.hist
    ensures Reachable(t) && t.cm == AddChunkToNode(s.cm, p.chunk, p.target)
    ensures t.runs == s.runs[n := Run.Working({}, Phase.Added(p.chunk, p.stamp, p.target))]
    ensures t.hist == s.hist[p.chunk := NoteAdd(s.hist[p.chunk], s.cm, p)]
  {
    t := Next(s, AddTarget(n));
    Take(s, AddTarget(n), t);
  }

  lemma {:induction false} TakeRemove(s: Sys, n: NodeId, p: Phase) returns (t: Sys)
    requires Reachable(s) && n in s.runs && s.runs[n] == Run.Working({}, p) && p.Added?
    ensures Reachable(t) && t.cm == RemoveChunkFromNode(s.cm, p.chunk, n)
    ensures t.runs == s.runs[n := Run.Working({}, Ready)] && t.hist == s.hist
  {
    t := Next(s, RemoveSource(n));
    Take(s, RemoveSource(n), t);
  }

  lemma {:induction false} FreshPick(ids: set<NodeId>, targets: seq<NodeId>)
    requires |targets| == 3 && NoDup(targets) && SetOf(targets) <= ids
    ensures HealthyNodes(Nodes(ids).cm, 0) == ids && ids != {}
    ensures BestPick(Nodes(ids).cm, ids, ReplicaGoal(ids), targets)
  {
    NoDupCardinality(targets);
    Subset(SetOf(targets), ids);
    assert forall n :: n in targets ==> n in SetOf(targets);
  }

  lemma {:induction false} Subset<T>(a: set<T>, b: set<T>)
    requires a <= b
    ensures |a| <= |b|
  {
    assert b == a + (b - a);
  }

  /** A chunk put on the first three of four nodes. */
  lemma {:induction false} PutOnThree(c: ChunkId, n1: NodeId, n2: NodeId, n3: NodeId, n4: NodeId) returns (s: Sys)
    requires n1 != n2 && n1 != n3 && n1 != n4 && n2 != n3 && n2 != n4 && n3 != n4
    requires Reachable(Nodes({n1, n2, n3, n4}))
    ensures Reachable(s) && s.runs == map[] && s.clock == 0
    ensures s.hist == map[c := History(true, true, None, 3, 0, [])]
    ensures c in s.cm.chunks && s.cm.chunks[c].nodeIDs == [n1, n2, n3]
    ensures ChunksOnNode(s.cm, n1) == {c} && ChunksOnNode(s.cm, n2) == {c}
    ensures n4 in TargetNodes(s.cm, [n1, n2, n3]) && c in Held(s, n1) && c in Held(s, n2)
  {
    var s0, targets := Nodes({n1, n2, n3, n4}), [n1, n2, n3];
    FreshPick({n1, n2, n3, n4}, targets);
    s := PutAndStore(s0, c, targets);
    assert n1 in targets && n2 in targets && n4 !in targets;
    assert {c} == {} + {c};
  }

  /** Two migrations that share a target: a chunk put on three nodes ends up on two, with nothing left to do. */
  lemma {:induction false} SharedTargetLosesReplica(c: ChunkId) returns (s: Sys)
    ensures Reachable(s) && Clean(s, c)
    ensures forall n :: !Pending(s, n, c) && !Moving(s, n, c)
    ensures s.hist[c].initial == 3 && |Replicas(s.cm, c)| == 2 && s.hist[c].absorbed == 1
  {
    var n1, n2, n3, n4 := FourNodes();
    s := PutOnThree(c, n1, n2, n3, n4);
    BothApproach(s, c, n1, n2, n4);
    s := Approached(Approached(s, n1, c, n4), n2, c, n4);
    s := TwoAddsTwoRemoves(s, c, n1, n2, n3, n4);
  }

  lemma {:induction false} BothApproach(s: Sys, c: ChunkId, n1: NodeId, n2: NodeId, n4: NodeId)
    requires Reachable(s) && n1 !in s.runs && n2 !in s.runs && n1 != n2
    requires ChunksOnNode(s.cm, n1) == {c} && ChunksOnNode(s.cm, n2) == {c} && c in Held(s, n1) && c in Held(s, n2)
    requires c in s.cm.chunks && n4 in TargetNodes(s.cm, s.cm.chunks[c].nodeIDs)
    ensures c in Held(Approached(s, n1, c, n4), n2)
    ensures Reachable(Approached(Approached(s, n1, c, n4), n2, c, n4))
  {
    Approach(s, n1, c, n4);
    Approach(Approached(s, n1, c, n4), n2, c, n4);
  }

  lemma {:induction false} TwoAddsTwoRemoves(s0: Sys, c: ChunkId, n1: NodeId, n2: NodeId, n3: NodeId, n4: NodeId)
    returns (s: Sys)
    requires n1 != n2 && n1 != n3 && n1 != n4 && n2 != n3 && n2 != n4 && n3 != n4
    requires Reachable(s0) && Replicas(s0.cm, c) == [n1, n2, n3]
    requires s0.runs == map[n1 := Run.Working({}, Copied(c, 0, n4)), n2 := Run.Working({}, Copied(c, 1, n4))]
    requires s0.hist == map[c := History(true, true, None, 3, 0, [])]
    ensures Reachable(s) && Clean(s, c)
    ensures forall n :: !Pending(s, n, c) && !Moving(s, n, c)
    ensures s.hist[c].initial == 3 && |Replicas(s.cm, c)| == 2 && s.hist[c].absorbed == 1
  {
    s := TwoAdds(s0, c, n1, n2, n3, n4);
    s := TwoRemoves(s, c, n1, n2, n3, n4);
  }

  lemma {:induction false} TwoAdds(s0: Sys, c: ChunkId, n1: NodeId, n2: NodeId, n3: NodeId, n4: NodeId)
    returns (s: Sys)
    requires n1 != n2 && n4 !in [n1, n2, n3]
    requires Reachable(s0) && Replicas(s0.cm, c) == [n1, n2, n3]
    requires s0.runs == map[n1 := Run.Working({}, Copied(c, 0, n4)), n2 := Run.Working({}, Copied(c, 1, n4))]
    requires s0.hist == map[c := History(true, true, None, 3, 0, [])]
    ensures Reachable(s) && Replicas(s.cm, c) == [n1, n2, n3, n4]
    ensures s.runs == map[n1 := Run.Working({}, Phase.Added(c, 0, n4)), n2 := Run.Working({}, Phase.Added(c, 1, n4))]
    ensures s.hist == map[c := History(true, true, Some(Latest(1, n4)), 3, 1, [])]
  {
    s := TakeAdd(s0, n1, Copied(c, 0, n4));
    assert Replicas(s.cm, c) == [n1, n2, n3, n4];
    s := TakeAdd(s, n2, Copied(c, 1, n4));
  }

  lemma {:induction false} TwoRemoves(s0: Sys, c: ChunkId, n1: NodeId, n2: NodeId, n3: NodeId, n4: NodeId)
      returns (s: Sys)
    requires n1 != n2 && n1 != n3 && n1 != n4 && n2 != n3 && n2 != n4 && n3 != n4
    requires Reachable(s0) && Replicas(s0.cm, c) == [n1, n2, n3, n4]
    requires s0.runs == map[n1 := Run.Working({}, Phase.Added(c, 0, n4)), n2 := Run.Working({}, Phase.Added(c, 1, n4))]
    ensures Reachable(s) && s.hist == s0.hist && Replicas(s.cm, c) == [n3, n4]
    ensures s.runs == map[n1 := Run.Working({}, Ready), n2 := Run.Working({}, Ready)]
  {
    s := TakeRemove(s0, n1, Phase.Added(c, 0, n4));
    assert Replicas(s.cm, c) == [n2, n3, n4];
    s := TakeRemove(s, n2, Phase.Added(c, 1, n4));
    assert Replicas(s.cm, c) == [n3, n4];
  }

  lemma {:induction false} TakeHealth(s: Sys, n: NodeId, status: NodeStatus)
    requires Reachable(s)
    ensures Reachable(s.(cm := UpdateNodeHealth(s.cm, n, status, 0.0)))
  {
    Take(s, SetHealth(n, status, 0.0), s.(cm := UpdateNodeHealth(s.cm, n, status, 0.0)));
  }

  /** Two nodes; while the second is critical the chunk is put on the first alone, then both are healthy. */
  lemma {:induction false} PutOnFirst(c: ChunkId) returns (s: Sys, a: NodeId, b: NodeId)
    ensures a != b && Reachable(s) && s.runs == map[] && s.clock == 0 && s.uploads == {}
    ensures s.hist == map[c := History(true, true, None, 1, 0, [])]
    ensures s.cm.nodes.Keys == {a, b} && s.cm.chunks == map[c := ChunkMeta(c, 0, 0, [a], c)]
    ensures s.cm.nodes[a] == NewNode(a, a, 0, 0).(chunks := {c}) && s.cm.nodes[b] == NewNode(b, b, 0, 0)
    ensures c in Held(s, a)
  {
    a, b := TwoNodes();
    var s0 := Nodes({a, b});
    TakeHealth(s0, b, Critical);
    s := s0.(cm := UpdateNodeHealth(s0.cm, b, Critical, 0.0));
    assert HealthyNodes(s.cm, 0) == {a};
    s := PutAndStore(s, c, [a]);
    assert a in [a] && {c} == {} + {c};
    TakeHealth(s, b, Healthy);
    s := s.(cm := UpdateNodeHealth(s.cm, b, Healthy, 0.0));
  }

  /**
   Dropping a chunk while it is being copied: the late Add leaves the target listing a chunk that does not exist,
   so the node-to-chunks direction of the index needs the chunk not to be dropped.
   */
  lemma {:induction false} DropDuringMigrationDanglesIndex(c: ChunkId) returns (s: Sys, n: NodeId)
    ensures Reachable(s) && c !in s.cm.chunks
    ensures n in s.cm.nodes && c in s.cm.nodes[n].chunks
    ensures !IndexedBack(s.cm, c)
  {
    var a, b;
    s, a, b := PutOnFirst(c);
    n := b;
    Approach(s, a, c, b);
    s := Approached(s, a, c, b);
    var dropped := s.(cm := DropChunk(s.cm, c), hist := s.hist[c := s.hist[c].(orderly := false)]);
    Take(s, Drop(c), dropped);
    s := TakeAdd(dropped, a, Copied(c, 0, b));
  }

  lemma {:induction false} PutAndDropped(c: ChunkId) returns (s: Sys, a: NodeId, b: NodeId)
    ensures a != b && Reachable(s) && s.runs == map[]
    ensures s.cm.nodes.Keys == {a, b} && s.cm.nodes[a].chunks == s.cm.nodes[b].chunks == {}
    ensures s.cm.nodes[b].status == Healthy && s.cm.nodes[b].lastHeartbeat == 0
  {
    s, a, b := PutOnFirst(c);
    assert a in [a] && {c} - {c} == {};
    var gone := Next(s, Drop(c));
    Take(s, Drop(c), gone);
    s := gone;
  }

  /** A chunk that was put, dropped at rest and put again on the other node is clean in its second life. */
  lemma {:induction false} SecondLifeIsClean(c: ChunkId) returns (s: Sys)
    ensures Reachable(s) && Clean(s, c) && c in s.cm.chunks
  {
    var a, b;
    s, a, b := PutAndDropped(c);
    TakeHealth(s, a, Critical);
    s := s.(cm := UpdateNodeHealth(s.cm, a, Critical, 0.0));
    assert HealthyNodes(s.cm, 0) == {b};
    assert BeginsLife(s, c, [b]);
    s := PutOnOnly(s, c, b);
  }

  /** The second half of the run below: the chunk is put again on `b` alone while `a` is still copying it there. */
  lemma {:induction false} PutAgain(s: Sys, c: ChunkId, a: NodeId, b: NodeId) returns (t: Sys)
    requires a != b && Reachable(s) && s.cm.nodes.Keys == {a, b}
    requires s.cm.nodes[a] == NewNode(a, a, 0, 0).(chunks := {c}) && s.cm.nodes[b] == NewNode(b, b, 0, 0)
    requires c in s.hist
    ensures Reachable(t) && t.runs == s.runs && t.clock == s.clock && t.held == s.held && c in t.hist
    ensures t.cm.nodes.Keys == {a, b} && Accepting(t.cm.nodes[a])
    ensures t.cm.nodes[b].chunks == {c} && c in t.cm.chunks && t.cm.chunks[c].nodeIDs == [b]
  {
    TakeHealth(s, a, Critical);
    var u := s.(cm := UpdateNodeHealth(s.cm, a, Critical, 0.0));
    assert HealthyNodes(u.cm, 0) == {b};
    t := PutOnOnly(u, c, b);
    assert {c} == {} + {c};
    TakeHealth(t, a, Healthy);
    t := t.(cm := UpdateNodeHealth(t.cm, a, Healthy, 0.0));
  }

  lemma {:induction false} PutOnOnly(s: Sys, c: ChunkId, b: NodeId) returns (t: Sys)
    requires Reachable(s) && HealthyNodes(s.cm, 0) == {b}
    ensures Reachable(t) && t.runs == s.runs && t.clock == s.clock && t.held == s.held && c in t.hist
    ensures t.cm == PlaceChunk(s.cm, c, 0, 0, c, [b])
    ensures Clean(t, c) <==> BeginsLife(s, c, [b])
  {
    assert b in [b];
    var l := Allocate(c, 0, 0, c, [], [b], 0);
    assert BestPick(s.cm, {b}, 1, [b]);
    t := Next(s, l);
    Take(s, l, t);
  }

  /** Putting a path again while its chunk is being migrated can empty the replica list: the theorem needs one put. */
  lemma {:induction false} PutAgainCanEmptyReplicas(c: ChunkId) returns (s: Sys)
    ensures Reachable(s) && c in s.cm.chunks && Replicas(s.cm, c) == []
  {
    var a, b;
    s, a, b := PutOnFirst(c);
    Approach(s, a, c, b);
    s := Approached(s, a, c, b);
    assert c in Held(s, b);
    s := PutAgain(s, c, a, b);
    assert c in Held(s, b);
    Approach(s, b, c, a);
    s := Approached(s, b, c, a);
    s := CrossedMoves(s, c, a, b);
  }

  lemma {:induction false} CrossedMoves(s0: Sys, c: ChunkId, a: NodeId, b: NodeId) returns (s: Sys)
    requires a != b && Reachable(s0) && c in s0.cm.chunks && s0.cm.chunks[c].nodeIDs == [b] && c in s0.hist
    requires s0.runs == map[a := Run.Working({}, Copied(c, 0, b)), b := Run.Working({}, Copied(c, 1, a))]
    ensures Reachable(s) && c in s.cm.chunks && Replicas(s.cm, c) == []
  {
    s := TakeAdd(s0, b, Copied(c, 1, a));
    assert Replicas(s.cm, c) == [b, a];
    s := TakeAdd(s, a, Copied(c, 0, b));
    assert Replicas(s.cm, c) == [b, a];
    s := TakeRemove(s, a, Phase.Added(c, 0, b));
    assert Replicas(s.cm, c) == [b];
    s := TakeRemove(s, b, Phase.Added(c, 1, a));
    assert Replicas(s.cm, c) == [];
  }
}
