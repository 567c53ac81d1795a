/** An undisturbed run of MigrateNode is a run of the protocol with the same effect. */
module MigrationRuns {
  import opened Common
  import opened Cluster
  import opened ChunkManagers
  import opened Migrators
  import opened Protocol
  import opened ProtocolTheorems

  /** The protocol steps behind one event. */
  function EventLabels(n: NodeId, e: MigrationEvent): seq<Label> {
    if e.success then [ReadList(n, e.chunkID), Choose(n, e.toNodeID), Copy(n, true), AddTarget(n), RemoveSource(n)]
    else match e.error
      case Some(MetadataNotFound) => [ReadList(n, e.chunkID)]
      case Some(NoHealthyTargets) => [ReadList(n, e.chunkID), Fail(n)]
      case _ => [ReadList(n, e.chunkID), Choose(n, e.toNodeID), Fail(n)]
  }

  function RunLabels(n: NodeId, events: seq<MigrationEvent>): seq<Label> {
    if events == [] then [Begin(n), Snapshot(n)]
    else RunLabels(n, events[..|events| - 1]) + EventLabels(n, events[|events| - 1])
  }

  /** The run of node `n` has these chunks left and is between two of them. */
  ghost predicate Between(s: Sys, n: NodeId, todo: set<ChunkId>) {
    n in s.runs && s.runs[n] == Run.Working(todo, Ready)
  }

  /** The state after one event: the metadata moved or stayed, the chunk is done, and no chunk file was lost. */
  ghost predicate EventDone(s: Sys, t: Sys, n: NodeId, e: MigrationEvent, todo: set<ChunkId>) {
    && t.cm == (if e.success then Moved(s.cm, e.chunkID, n, e.toNodeID) else s.cm)
    && Between(t, n, todo - {e.chunkID}) && t.runs == s.runs[n := t.runs[n]]
    && forall c :: c in Held(s, n) ==> c in Held(t, n)
  }

  lemma {:induction false} OneStep(s: Sys, l: Label, ls: seq<Label>)
    requires Enabled(s, l) && Feasible(Next(s, l), ls)
    ensures Feasible(s, [l] + ls) && After(s, [l] + ls) == After(Next(s, l), ls)
  {
    assert ([l] + ls)[1..] == ls;
  }

  lemma {:induction false} NoSteps(s: Sys)
    ensures Feasible(s, []) && After(s, []) == s
  {
  }

  /** Run `n` is in this phase; other runs and the chunk files are as in `s`. */
  ghost predicate InPhase(s: Sys, t: Sys, n: NodeId, todo: set<ChunkId>, phase: Phase) {
    && n in s.runs && t.runs == s.runs[n := Run.Working(todo, phase)]
    && forall c :: c in Held(s, n) ==> c in Held(t, n)
  }

  lemma {:induction false} ReadStep(s: Sys, n: NodeId, c: ChunkId, todo: set<ChunkId>)
    requires Between(s, n, todo) && c in todo
    ensures Enabled(s, ReadList(n, c))
    ensures var t := Next(s, ReadList(n, c));
      && t.cm == s.cm && InPhase(s, t, n, todo - {c},
           if c in s.cm.chunks then Listed(c, s.clock, Replicas(s.cm, c)) else Ready)
  {
  }

  lemma {:induction false} ChooseStep(s: Sys, t: Sys, n: NodeId, todo: set<ChunkId>, c: ChunkId, stamp: nat, to: NodeId)
    requires InPhase(s, t, n, todo, Listed(c, stamp, Replicas(s.cm, c))) && t.cm == s.cm
    requires to in TargetNodes(s.cm, Replicas(s.cm, c))
    ensures Enabled(t, Choose(n, to))
    ensures var u := Next(t, Choose(n, to)); u.cm == s.cm && InPhase(s, u, n, todo, Picked(c, stamp, to))
  {
  }

  lemma {:induction false} CopyStep(s: Sys, t: Sys, n: NodeId, todo: set<ChunkId>, c: ChunkId, stamp: nat, to: NodeId)
    requires InPhase(s, t, n, todo, Picked(c, stamp, to)) && t.cm == s.cm && c in Held(s, n)
    ensures Enabled(t, Copy(n, true))
    ensures var u := Next(t, Copy(n, true)); u.cm == s.cm && InPhase(s, u, n, todo, Copied(c, stamp, to))
  {
  }

  lemma {:induction false} AddStep(s: Sys, t: Sys, n: NodeId, todo: set<ChunkId>, c: ChunkId, stamp: nat, to: NodeId)
    requires InPhase(s, t, n, todo, Copied(c, stamp, to)) && t.cm == s.cm
    ensures Enabled(t, AddTarget(n))
    ensures var u := Next(t, AddTarget(n));
      u.cm == AddChunkToNode(s.cm, c, to) && InPhase(s, u, n, todo, Phase.Added(c, stamp, to))
  {
  }

  lemma {:induction false} RemoveStep(s: Sys, t: Sys, n: NodeId, todo: set<ChunkId>, c: ChunkId, stamp: nat, to: NodeId)
    requires InPhase(s, t, n, todo, Phase.Added(c, stamp, to)) && t.cm == AddChunkToNode(s.cm, c, to)
    ensures Enabled(t, RemoveSource(n))
    ensures var u := Next(t, RemoveSource(n)); u.cm == Moved(s.cm, c, n, to) && InPhase(s, u, n, todo, Ready)
  {
  }

  lemma {:induction false} FailStep(s: Sys, t: Sys, n: NodeId, todo: set<ChunkId>, phase: Phase)
    requires InPhase(s, t, n, todo, phase) && t.cm == s.cm
    requires phase.Picked? || (phase.Listed? && TargetNodes(s.cm, phase.existing) == {})
    ensures Enabled(t, Fail(n))
    ensures var u := Next(t, Fail(n)); u.cm == s.cm && InPhase(s, u, n, todo, Ready)
  {
  }

  lemma {:induction false} FailedEventRun(s: Sys, n: NodeId, transfer: Transfer, e: MigrationEvent, todo: set<ChunkId>)
    requires Between(s, n, todo) && e.chunkID in todo && Explains(s.cm, n, transfer, e) && !e.success
    ensures Feasible(s, EventLabels(n, e)) && EventDone(s, After(s, EventLabels(n, e)), n, e, todo)
  {
    var c, to, rest := e.chunkID, e.toNodeID, todo - {e.chunkID};
    ReadStep(s, n, c, todo);
    var s1 := Next(s, ReadList(n, c));
    match e.error {
      case Some(MetadataNotFound) =>
        NoSteps(s1);
        OneStep(s, ReadList(n, c), []);
        assert EventLabels(n, e) == [ReadList(n, c)] + [];
      case Some(NoHealthyTargets) =>
        FailStep(s, s1, n, rest, Listed(c, s.clock, Replicas(s.cm, c)));
        NoSteps(Next(s1, Fail(n)));
        OneStep(s1, Fail(n), []);
        OneStep(s, ReadList(n, c), [Fail(n)] + []);
        assert EventLabels(n, e) == [ReadList(n, c)] + ([Fail(n)] + []);
      case Some(TransferFailed) =>
        ChooseStep(s, s1, n, rest, c, s.clock, to);
        var s2 := Next(s1, Choose(n, to));
        FailStep(s, s2, n, rest, Picked(c, s.clock, to));
        NoSteps(Next(s2, Fail(n)));
        OneStep(s2, Fail(n), []);
        OneStep(s1, Choose(n, to), [Fail(n)] + []);
        OneStep(s, ReadList(n, c), [Choose(n, to)] + ([Fail(n)] + []));
        assert EventLabels(n, e) == [ReadList(n, c)] + ([Choose(n, to)] + ([Fail(n)] + []));
    }
  }

  /** The second half of a successful migration, once the target is picked. */
  lemma {:induction false} CommitRun(s: Sys, t: Sys, n: NodeId, todo: set<ChunkId>, c: ChunkId, stamp: nat, to: NodeId)
    requires InPhase(s, t, n, todo, Picked(c, stamp, to)) && t.cm == s.cm && c in Held(s, n)
    ensures Feasible(t, [Copy(n, true), AddTarget(n), RemoveSource(n)])
    ensures var u := After(t, [Copy(n, true), AddTarget(n), RemoveSource(n)]);
      u.cm == Moved(s.cm, c, n, to) && InPhase(s, u, n, todo, Ready)
  {
    CopyStep(s, t, n, todo, c, stamp, to);
    var t1 := Next(t, Copy(n, true));
    AddStep(s, t1, n, todo, c, stamp, to);
    var t2 := Next(t1, AddTarget(n));
    RemoveStep(s, t2, n, todo, c, stamp, to);
    NoSteps(Next(t2, RemoveSource(n)));
    OneStep(t2, RemoveSource(n), []);
    OneStep(t1, AddTarget(n), [RemoveSource(n)] + []);
    OneStep(t, Copy(n, true), [AddTarget(n)] + ([RemoveSource(n)] + []));
    assert [Copy(n, true), AddTarget(n), RemoveSource(n)] == [Copy(n, true)] + ([AddTarget(n)] + ([RemoveSource(n)] + []));
  }

  lemma {:induction false} SuccessfulEventRun(s: Sys, n: NodeId, transfer: Transfer, e: MigrationEvent,
                                              todo: set<ChunkId>)
    requires Between(s, n, todo) && e.chunkID in todo && Explains(s.cm, n, transfer, e) && e.success
    requires e.chunkID in Held(s, n)
    ensures Feasible(s, EventLabels(n, e)) && EventDone(s, After(s, EventLabels(n, e)), n, e, todo)
  {
    var c, to, rest := e.chunkID, e.toNodeID, todo - {e.chunkID};
    ReadStep(s, n, c, todo);
    var s1 := Next(s, ReadList(n, c));
    ChooseStep(s, s1, n, rest, c, s.clock, to);
    var s2 := Next(s1, Choose(n, to));
    CommitRun(s, s2, n, rest, c, s.clock, to);
    var commit := [Copy(n, true), AddTarget(n), RemoveSource(n)];
    OneStep(s1, Choose(n, to), commit);
    OneStep(s, ReadList(n, c), [Choose(n, to)] + commit);
    assert EventLabels(n, e) == [ReadList(n, c)] + ([Choose(n, to)] + commit);
  }

  lemma {:induction false} StartRun(s: Sys, n: NodeId)
    requires n !in s.runs
    ensures Feasible(s, [Begin(n), Snapshot(n)])
    ensures After(s, [Begin(n), Snapshot(n)]) == s.(runs := s.runs[n := Run.Working(ChunksOnNode(s.cm, n), Ready)])
  {
    var s1 := Next(s, Begin(n));
    NoSteps(Next(s1, Snapshot(n)));
    OneStep(s1, Snapshot(n), []);
    OneStep(s, Begin(n), [Snapshot(n)] + []);
    assert [Begin(n), Snapshot(n)] == [Begin(n)] + ([Snapshot(n)] + []);
    assert s.runs[n := Run.Guarded][n := Run.Working(ChunksOnNode(s.cm, n), Ready)]
        == s.runs[n := Run.Working(ChunksOnNode(s.cm, n), Ready)];
  }

  /** The run so far: metadata as the events say, the chunks of the events worked off, no chunk file lost. */
  ghost predicate RunSoFar(s: Sys, t: Sys, n: NodeId, events: seq<MigrationEvent>) {
    && t.cm == Replay(s.cm, events)
    && Between(t, n, ChunksOnNode(s.cm, n) - SetOf(EventChunks(events))) && t.runs == s.runs[n := t.runs[n]]
    && forall c :: c in Held(s, n) ==> c in Held(t, n)
  }

  lemma {:induction false} EventsRun(s: Sys, n: NodeId, transfer: Transfer, events: seq<MigrationEvent>)
    requires n !in s.runs && Explained(s.cm, n, transfer, events) && NoDup(EventChunks(events))
    requires SetOf(EventChunks(events)) <= ChunksOnNode(s.cm, n)
    requires forall i :: 0 <= i < |events| && events[i].success ==> events[i].chunkID in Held(s, n)
    ensures Feasible(s, RunLabels(n, events)) && RunSoFar(s, After(s, RunLabels(n, events)), n, events)
  {
    if events == [] {
      StartRun(s, n);
      assert ChunksOnNode(s.cm, n) - SetOf(EventChunks(events)) == ChunksOnNode(s.cm, n);
    } else {
      var k := |events| - 1;
      var init, e := events[..k], events[k];
      PrefixOfRun(s.cm, n, transfer, events);
      EventsRun(s, n, transfer, init);
      var t, todo := After(s, RunLabels(n, init)), ChunksOnNode(s.cm, n) - SetOf(EventChunks(init));
      if e.success { SuccessfulEventRun(t, n, transfer, e, todo); } else { FailedEventRun(t, n, transfer, e, todo); }
      AfterAppend(s, RunLabels(n, init), EventLabels(n, e));
      RunGrows(s, t, After(t, EventLabels(n, e)), n, events);
    }
  }

  lemma {:induction false} RunGrows(s: Sys, t: Sys, u: Sys, n: NodeId, events: seq<MigrationEvent>)
    requires events != [] && RunSoFar(s, t, n, events[..|events| - 1])
    requires events[|events| - 1].fromNodeID == n
    requires EventDone(t, u, n, events[|events| - 1],
                       ChunksOnNode(s.cm, n) - SetOf(EventChunks(events[..|events| - 1])))
    requires SetOf(EventChunks(events)) == SetOf(EventChunks(events[..|events| - 1])) + {events[|events| - 1].chunkID}
    ensures RunSoFar(s, u, n, events)
  {
    assert ChunksOnNode(s.cm, n) - SetOf(EventChunks(events[..|events| - 1])) - {events[|events| - 1].chunkID}
        == ChunksOnNode(s.cm, n) - SetOf(EventChunks(events));
    assert s.runs[n := t.runs[n]][n := u.runs[n]] == s.runs[n := u.runs[n]];
  }

  lemma {:induction false} PrefixOfRun(s: State, n: NodeId, transfer: Transfer, events: seq<MigrationEvent>)
    requires events != [] && Explained(s, n, transfer, events) && NoDup(EventChunks(events))
    requires SetOf(EventChunks(events)) <= ChunksOnNode(s, n)
    ensures var init, e := events[..|events| - 1], events[|events| - 1];
      && Explained(s, n, transfer, init) && NoDup(EventChunks(init)) && Explains(Replay(s, init), n, transfer, e)
      && SetOf(EventChunks(events)) == SetOf(EventChunks(init)) + {e.chunkID}
      && e.chunkID in ChunksOnNode(s, n) && e.chunkID !in SetOf(EventChunks(init))
  {
    var k := |events| - 1;
    var init, e := events[..k], events[k];
    forall i | 0 <= i < k ensures Explains(Replay(s, init[..i]), n, transfer, init[i]) {
      assert init[..i] == events[..i];
      assert Explains(Replay(s, events[..i]), n, transfer, events[i]);
    }
    LastChunk(events);
  }

  lemma {:induction false} LastChunk(events: seq<MigrationEvent>)
    requires events != [] && NoDup(EventChunks(events))
    ensures var init, e := events[..|events| - 1], events[|events| - 1];
      && NoDup(EventChunks(init)) && SetOf(EventChunks(events)) == SetOf(EventChunks(init)) + {e.chunkID}
      && e.chunkID !in SetOf(EventChunks(init))
  {
    var k := |events| - 1;
    var ids, initIds := EventChunks(events), EventChunks(events[..k]);
    assert ids == initIds + [events[k].chunkID];
    assert forall i :: 0 <= i < k ==> ids[i] == initIds[i];
    LastOfSet(initIds, events[k].chunkID);
  }

  lemma {:induction false} LastOfSet(ids: seq<ChunkId>, c: ChunkId)
    ensures SetOf(ids + [c]) == SetOf(ids) + {c}
  {
    var more := ids + [c];
    forall x ensures x in SetOf(more) <==> x in SetOf(ids) + {c} {
      if x in SetOf(ids) {
        var i: nat :| i < |ids| && ids[i] == x;
        assert more[i] == x;
      }
      if x == c { assert more[|ids|] == x; }
    }
  }

  /**
   What MigrateNode does on its own, from the guard to the last event, is a run of the protocol that leaves the
   metadata as MigrateNode does, has worked off every chunk, and can finish.
   */
  lemma {:induction false} MigrateNodeIsRun(s: Sys, n: NodeId, transfer: Transfer, events: seq<MigrationEvent>)
    requires n !in s.runs && Explained(s.cm, n, transfer, events) && NoDup(EventChunks(events))
    requires SetOf(EventChunks(events)) == ChunksOnNode(s.cm, n)
    requires forall i :: 0 <= i < |events| && events[i].success ==> events[i].chunkID in Held(s, n)
    ensures Feasible(s, RunLabels(n, events) + [Finish(n)])
    ensures After(s, RunLabels(n, events) + [Finish(n)]).cm == Replay(s.cm, events)
    ensures After(s, RunLabels(n, events) + [Finish(n)]).runs == s.runs
  {
    EventsRun(s, n, transfer, events);
    var t := After(s, RunLabels(n, events));
    assert ChunksOnNode(s.cm, n) - SetOf(EventChunks(events)) == {};
    NoSteps(Next(t, Finish(n)));
    OneStep(t, Finish(n), []);
    assert [Finish(n)] + [] == [Finish(n)];
    AfterAppend(s, RunLabels(n, events), [Finish(n)]);
    assert s.runs[n := t.runs[n]] - {n} == s.runs;
  }
}
