/** The migration engine: draining one node, chunk by chunk, with its guard and its report. */
module Migrators {
  import opened Common
  import opened Cluster
  import opened ChunkManagers
  import Predictor

  datatype MigrationError = MetadataNotFound | NoHealthyTargets | TransferFailed

  datatype MigrationEvent = MigrationEvent(
    chunkID: ChunkId, fromNodeID: NodeId, toNodeID: NodeId, toAddress: string,
    success: bool, error: Option<MigrationError>)

  datatype MigrationReport = MigrationReport(
    nodeID: NodeId, riskScore: real, status: NodeStatus,
    totalChunks: nat, migratedChunks: nat, failedChunks: nat, events: seq<MigrationEvent>)

  /** Whether the node at the first address manages to send a chunk to the second: the network's answer. */
  type Transfer = (string, ChunkId, string) -> bool

  function Moved(s: State, c: ChunkId, from: NodeId, to: NodeId): State {
    RemoveChunkFromNode(AddChunkToNode(s, c, to), c, from)
  }

  lemma {:induction false} MoveKeepsOwner(s: State, c: ChunkId, from: NodeId, to: NodeId, address: string)
    requires Owns(s, from, address)
    ensures Owns(Moved(s, c, from, to), from, address)
  {
  }

  /** What an event may report about a chunk, given the metadata at that moment. */
  ghost predicate Explains(s: State, from: NodeId, transfer: Transfer, e: MigrationEvent) {
    && from in s.nodes
    && e.fromNodeID == from
    && (e.success <==> e.error == None)
    && (e.error == Some(MetadataNotFound) <==> e.chunkID !in s.chunks)
    && (e.error == Some(NoHealthyTargets) <==>
        e.chunkID in s.chunks && TargetNodes(s, Replicas(s, e.chunkID)) == {})
    && (e.success || e.error == Some(TransferFailed) ==>
        && e.toNodeID in TargetNodes(s, Replicas(s, e.chunkID))
        && s.nodes[e.toNodeID].address == e.toAddress
        && e.success == transfer(s.nodes[from].address, e.chunkID, e.toAddress))
  }

  /** The node is HEALTHY or WARNING and not on the replica list of the chunk. */
  predicate GoodTarget(s: State, c: ChunkId, n: NodeId) {
    && n in s.nodes && n !in Replicas(s, c) && (s.nodes[n].status == Healthy || s.nodes[n].status == Warning)
  }

  /**
   Whom an event may name, and when it may name nobody: a target is good at that moment, and there is none to be had
   exactly when every node that is not on the list is AT_RISK, CRITICAL or DEAD.
   */
  ghost predicate NamesGoodTarget(s: State, e: MigrationEvent) {
    && (e.error == Some(MetadataNotFound) <==> e.chunkID !in s.chunks)
    && (e.error == Some(NoHealthyTargets) <==>
        e.chunkID in s.chunks && forall n :: n in s.nodes && n !in s.chunks[e.chunkID].nodeIDs ==>
          s.nodes[n].status == AtRisk || s.nodes[n].status == Critical || s.nodes[n].status == Dead)
    && (e.success || e.error == Some(TransferFailed) ==>
        GoodTarget(s, e.chunkID, e.toNodeID) && e.toAddress == s.nodes[e.toNodeID].address)
  }

  lemma {:induction false} NobodyToTarget(s: State, c: ChunkId)
    ensures TargetNodes(s, Replicas(s, c)) == {} <==> forall n :: n in s.nodes && n !in Replicas(s, c) ==>
      s.nodes[n].status == AtRisk || s.nodes[n].status == Critical || s.nodes[n].status == Dead
  {
    assert forall n :: n in TargetNodes(s, Replicas(s, c)) <==> GoodTarget(s, c, n);
    forall n | n in s.nodes && n !in Replicas(s, c)
      ensures n !in TargetNodes(s, Replicas(s, c)) <==>
        s.nodes[n].status == AtRisk || s.nodes[n].status == Critical || s.nodes[n].status == Dead
    {
    }
  }

  lemma {:induction false} ExplainedTarget(s: State, from: NodeId, transfer: Transfer, e: MigrationEvent)
    requires Explains(s, from, transfer, e)
    ensures NamesGoodTarget(s, e)
  {
    NobodyToTarget(s, e.chunkID);
  }

  /** The metadata after the events: every success moved its chunk, every failure changed nothing. */
  function Replay(s: State, events: seq<MigrationEvent>): State {
    if events == [] then s else
      var e, t := events[|events| - 1], Replay(s, events[..|events| - 1]);
      if e.success then Moved(t, e.chunkID, e.fromNodeID, e.toNodeID) else t
  }

  ghost predicate Explained(s: State, from: NodeId, transfer: Transfer, events: seq<MigrationEvent>) {
    forall i :: 0 <= i < |events| ==> Explains(Replay(s, events[..i]), from, transfer, events[i])
  }

  function EventChunks(events: seq<MigrationEvent>): (ids: seq<ChunkId>)
    ensures |ids| == |events| && forall i :: 0 <= i < |ids| ==> ids[i] == events[i].chunkID
  {
    seq(|events|, i requires 0 <= i < |events| => events[i].chunkID)
  }

  function FailedChunks(events: seq<MigrationEvent>): set<ChunkId> {
    set i | 0 <= i < |events| && !events[i].success :: events[i].chunkID
  }

  function Successes(events: seq<MigrationEvent>): nat {
    if events == [] then 0 else Successes(events[..|events| - 1]) + (if events[|events| - 1].success then 1 else 0)
  }

  lemma {:induction false} EventChunksNext(events: seq<MigrationEvent>, e: MigrationEvent)
    ensures EventChunks(events + [e]) == EventChunks(events) + [e.chunkID]
  {
  }

  lemma {:induction false} ReplayNext(s: State, events: seq<MigrationEvent>, e: MigrationEvent)
    ensures Replay(s, events + [e]) ==
      if e.success then Moved(Replay(s, events), e.chunkID, e.fromNodeID, e.toNodeID) else Replay(s, events)
    ensures Successes(events + [e]) == Successes(events) + if e.success then 1 else 0
  {
    assert (events + [e])[..|events|] == events;
  }

  lemma {:induction false} MovedEffect(s: State, c: ChunkId, from: NodeId, to: NodeId, d: ChunkId)
    ensures var t := Moved(s, c, from, to);
      if d != c then
        Replicas(t, d) == Replicas(s, d) && (d in ChunksOnNode(t, from) <==> d in ChunksOnNode(s, from))
      else
        && d !in ChunksOnNode(t, from)
        && (d in s.chunks && to !in Replicas(s, d) ==> Replicas(t, d) == RemoveFirst(Replicas(s, d) + [to], from))
        && (d in t.chunks <==> d in s.chunks)
  {
  }

  ghost predicate AllFrom(from: NodeId, events: seq<MigrationEvent>) {
    forall i :: 0 <= i < |events| ==> events[i].fromNodeID == from
  }

  /** Events leave the lists and the source's hold of other chunks alone. */
  lemma {:induction false} ReplayOthers(s: State, from: NodeId, events: seq<MigrationEvent>, d: ChunkId)
    requires AllFrom(from, events) && forall i :: 0 <= i < |events| ==> events[i].chunkID != d
    ensures var t := Replay(s, events);
      && Replicas(t, d) == Replicas(s, d)
      && (d in t.chunks <==> d in s.chunks)
      && (d in ChunksOnNode(t, from) <==> d in ChunksOnNode(s, from))
  {
    if events != [] {
      var init, e := events[..|events| - 1], events[|events| - 1];
      ReplayOthers(s, from, init, d);
      MovedEffect(Replay(s, init), e.chunkID, from, e.toNodeID, d);
    }
  }

  ghost predicate DistinctChunks(events: seq<MigrationEvent>) {
    forall i, j :: 0 <= i < j < |events| ==> events[i].chunkID != events[j].chunkID
  }

  /** A success replaces the source by the target, at the end of the list; a failure changes nothing. */
  lemma {:induction false} ReplayAt(s: State, from: NodeId, events: seq<MigrationEvent>, i: nat)
    requires AllFrom(from, events) && DistinctChunks(events) && i < |events|
    ensures var t, e := Replay(s, events), events[i];
      if e.success then
        && e.chunkID !in ChunksOnNode(t, from)
        && (e.chunkID in s.chunks && e.toNodeID !in Replicas(s, e.chunkID) ==>
            Replicas(t, e.chunkID) == RemoveFirst(Replicas(s, e.chunkID) + [e.toNodeID], from))
      else
        && Replicas(t, e.chunkID) == Replicas(s, e.chunkID)
        && (e.chunkID in ChunksOnNode(t, from) <==> e.chunkID in ChunksOnNode(s, from))
  {
    var k := |events| - 1;
    var init, last := events[..k], events[k];
    if i == k {
      ReplayOthers(s, from, init, last.chunkID);
    } else {
      ReplayAt(s, from, init, i);
    }
    MovedEffect(Replay(s, init), last.chunkID, from, last.toNodeID, events[i].chunkID);
  }

  lemma {:induction false} ExplainedNext(s: State, from: NodeId, transfer: Transfer, events: seq<MigrationEvent>,
                                         e: MigrationEvent)
    requires Explained(s, from, transfer, events) && Explains(Replay(s, events), from, transfer, e)
    ensures Explained(s, from, transfer, events + [e])
  {
    var next := events + [e];
    forall i | 0 <= i < |next| ensures Explains(Replay(s, next[..i]), from, transfer, next[i]) {
      assert next[..i] == events[..i];
      assert events[..|events|] == events;
    }
  }

  /** Successes and failed chunks make up the events. */
  lemma {:induction false} FailuresAdd(events: seq<MigrationEvent>)
    requires NoDup(EventChunks(events))
    ensures Successes(events) + |FailedChunks(events)| == |events|
  {
    DistinctFromNoDup(events);
    CountFailures(events);
  }

  lemma {:induction false} CountFailures(events: seq<MigrationEvent>)
    requires DistinctChunks(events)
    ensures Successes(events) + |FailedChunks(events)| == |events|
  {
    if events == [] {
      assert FailedChunks(events) == {};
    } else {
      var k := |events| - 1;
      var init, last := events[..k], events[k];
      CountFailures(init);
      assert events == init + [last];
      CountsNext(init, last);
    }
  }

  lemma {:induction false} CountsNext(init: seq<MigrationEvent>, last: MigrationEvent)
    requires DistinctChunks(init + [last])
    ensures Successes(init + [last]) == Successes(init) + if last.success then 1 else 0
    ensures |FailedChunks(init + [last])| == |FailedChunks(init)| + if last.success then 0 else 1
  {
    var events := init + [last];
    assert events[..|init|] == init;
    forall i | 0 <= i < |init| ensures init[i] == events[i] && init[i].chunkID != last.chunkID {
      assert events[i].chunkID != events[|init|].chunkID;
    }
    forall c ensures c in FailedChunks(events) <==> c in FailedChunks(init) || (!last.success && c == last.chunkID) {
      if c in FailedChunks(init) {
        var i :| 0 <= i < |init| && !init[i].success && init[i].chunkID == c;
        assert events[i] == init[i];
      }
      if !last.success && c == last.chunkID { assert events[|init|] == last; }
    }
    assert FailedChunks(events) == FailedChunks(init) + (if last.success then {} else {last.chunkID});
  }

  /** Migrations change no status and no address. */
  lemma {:induction false} ReplayKeepsStatus(s: State, events: seq<MigrationEvent>)
    ensures var t := Replay(s, events);
      t.nodes.Keys == s.nodes.Keys && forall n :: n in s.nodes ==>
        t.nodes[n].status == s.nodes[n].status && t.nodes[n].address == s.nodes[n].address
  {
    if events != [] { ReplayKeepsStatus(s, events[..|events| - 1]); }
  }

  /** In a run of its own every event names its target, or nobody, as the metadata before the run say. */
  lemma {:induction false} RunTargets(s: State, from: NodeId, transfer: Transfer, events: seq<MigrationEvent>)
    requires Explained(s, from, transfer, events) && NoDup(EventChunks(events))
    ensures forall i :: 0 <= i < |events| ==> NamesGoodTarget(s, events[i])
  {
    DistinctFromNoDup(events);
    ExplainedFrom(s, from, transfer, events);
    forall i | 0 <= i < |events| ensures NamesGoodTarget(s, events[i]) {
      assert Explains(Replay(s, events[..i]), from, transfer, events[i]);
      ExplainedTarget(Replay(s, events[..i]), from, transfer, events[i]);
      ReplayKeepsStatus(s, events[..i]);
      ReplayOthers(s, from, events[..i], events[i].chunkID);
    }
  }

  class Migrator {
    const locator: ChunkManager
    var migrating: set<NodeId>
    var history: seq<MigrationReport>

    constructor (locator: ChunkManager)
      ensures this.locator == locator && migrating == {} && history == []
    {
      this.locator := locator;
      migrating := {};
      history := [];
    }

    method MigrateChunk(chunkID: ChunkId, fromNodeID: NodeId, sourceAddr: string, transfer: Transfer)
      returns (event: MigrationEvent)
      requires locator.Valid() && Owns(locator.View(), fromNodeID, sourceAddr)
      modifies locator
      ensures locator.Valid() && event.chunkID == chunkID
      ensures Explains(old(locator.View()), fromNodeID, transfer, event)
      ensures NamesGoodTarget(old(locator.View()), event)
      ensures locator.View() ==
        if event.success then Moved(old(locator.View()), chunkID, fromNodeID, event.toNodeID) else old(locator.View())
    {
      var existing := locator.GetChunkMeta(chunkID);
      if existing.None? {
        event := MigrationEvent(chunkID, fromNodeID, "", "", false, Some(MetadataNotFound));
        ExplainedTarget(locator.View(), fromNodeID, transfer, event);
        return;
      }
      var targets := locator.GetHealthyNodeAddresses(existing.value.nodeIDs);
      if |targets| == 0 {
        event := MigrationEvent(chunkID, fromNodeID, "", "", false, Some(NoHealthyTargets));
        ExplainedTarget(locator.View(), fromNodeID, transfer, event);
        return;
      }
      var target := targets[0];
      assert target.nodeID in TargetNodes(locator.View(), existing.value.nodeIDs);
      ghost var s := locator.View();
      if !transfer(sourceAddr, chunkID, target.address) {
        event := MigrationEvent(chunkID, fromNodeID, target.nodeID, target.address, false, Some(TransferFailed));
        ExplainedTarget(s, fromNodeID, transfer, event);
        return;
      }
      locator.AddChunkToNode(chunkID, target.nodeID);
      locator.RemoveChunkFromNode(chunkID, fromNodeID);
      event := MigrationEvent(chunkID, fromNodeID, target.nodeID, target.address, true, None);
      ExplainedTarget(s, fromNodeID, transfer, event);
    }

    /** A run of its own: nothing else touches the chunk manager between the first and the last step. */
    method MigrateNode(prediction: Predictor.PredictionResult, transfer: Transfer) returns (r: Option<MigrationReport>)
      requires locator.Valid()
      modifies this, locator
      ensures locator.Valid() && migrating == old(migrating)
      ensures r.None? <==> prediction.nodeID in old(migrating)
      ensures r.None? ==> history == old(history) && locator.View() == old(locator.View())
      ensures r.Some? ==>
        && history == old(history) + [r.value]
        && r.value.nodeID == prediction.nodeID
        && r.value.riskScore == prediction.overallRisk && r.value.status == prediction.status
        && r.value.migratedChunks + r.value.failedChunks == r.value.totalChunks == |r.value.events|
        && r.value.migratedChunks == Successes(r.value.events)
        && r.value.failedChunks == |FailedChunks(r.value.events)|
        && NoDup(EventChunks(r.value.events))
        && SetOf(EventChunks(r.value.events)) == ChunksOnNode(old(locator.View()), prediction.nodeID)
        && Explained(old(locator.View()), prediction.nodeID, transfer, r.value.events)
        && (forall i :: 0 <= i < |r.value.events| ==> NamesGoodTarget(old(locator.View()), r.value.events[i]))
        && locator.View() == Replay(old(locator.View()), r.value.events)
    {
      var node := prediction.nodeID;
      if node in migrating { return None; }
      migrating := migrating + {node};

      var chunkIDs := locator.GetChunksOnNode(node);
      var report := MigrationReport(node, prediction.overallRisk, prediction.status, |chunkIDs|, 0, 0, []);
      if |chunkIDs| == 0 {
        history := history + [report];
        migrating := migrating - {node};
        return Some(report);
      }
      var sourceAddr := locator.GetNodeAddress(node);
      assert chunkIDs[0] in SetOf(chunkIDs);
      report := MigrateAll(report, chunkIDs, sourceAddr.value, transfer);
      FailuresAdd(report.events);
      RunTargets(old(locator.View()), node, transfer, report.events);
      history := history + [report];
      migrating := migrating - {node};
      return Some(report);
    }

    method MigrateAll(report0: MigrationReport, chunkIDs: seq<ChunkId>, sourceAddr: string, transfer: Transfer)
      returns (report: MigrationReport)
      requires locator.Valid() && Owns(locator.View(), report0.nodeID, sourceAddr)
      requires report0.migratedChunks == report0.failedChunks == 0 && report0.events == []
      modifies locator
      ensures locator.Valid()
      ensures report == report0.(migratedChunks := Successes(report.events),
                                 failedChunks := report.failedChunks, events := report.events)
      ensures report.migratedChunks + report.failedChunks == |report.events|
      ensures EventChunks(report.events) == chunkIDs
      ensures Explained(old(locator.View()), report0.nodeID, transfer, report.events)
      ensures locator.View() == Replay(old(locator.View()), report.events)
    {
      ghost var s := locator.View();
      report := report0;
      for i := 0 to |chunkIDs|
        invariant locator.Valid() && Owns(locator.View(), report0.nodeID, sourceAddr)
        invariant Tally(s, report0, transfer, chunkIDs, i, report)
        invariant locator.View() == Replay(s, report.events)
      {
        ghost var t := locator.View();
        var event := MigrateChunk(chunkIDs[i], report0.nodeID, sourceAddr, transfer);
        TallyNext(s, report0, transfer, chunkIDs, i, report, event);
        MoveKeepsOwner(t, chunkIDs[i], report0.nodeID, event.toNodeID, sourceAddr);
        report := Counted(report, event);
      }
    }
  }

  /** The report with one more event, which counts as migrated or as failed. */
  function Counted(report: MigrationReport, event: MigrationEvent): MigrationReport {
    var more := report.(events := report.events + [event]);
    if event.success then more.(migratedChunks := report.migratedChunks + 1)
    else more.(failedChunks := report.failedChunks + 1)
  }

  /** After `i` chunks: one explained event for each of them, and the counters add up. */
  ghost predicate Tally(s: State, report0: MigrationReport, transfer: Transfer, chunkIDs: seq<ChunkId>, i: nat,
                        report: MigrationReport)
    requires i <= |chunkIDs|
  {
    && report == report0.(migratedChunks := Successes(report.events),
                          failedChunks := report.failedChunks, events := report.events)
    && report.migratedChunks + report.failedChunks == |report.events| == i
    && EventChunks(report.events) == chunkIDs[..i]
    && Explained(s, report0.nodeID, transfer, report.events)
  }

  lemma {:induction false} TallyNext(s: State, report0: MigrationReport, transfer: Transfer, chunkIDs: seq<ChunkId>,
                                     i: nat, report: MigrationReport, event: MigrationEvent)
    requires i < |chunkIDs| && Tally(s, report0, transfer, chunkIDs, i, report)
    requires event.chunkID == chunkIDs[i] && Explains(Replay(s, report.events), report0.nodeID, transfer, event)
    ensures Tally(s, report0, transfer, chunkIDs, i + 1, Counted(report, event))
    ensures Replay(s, Counted(report, event).events) ==
      if event.success then Moved(Replay(s, report.events), event.chunkID, report0.nodeID, event.toNodeID)
      else Replay(s, report.events)
  {
    ReplayNext(s, report.events, event);
    ExplainedNext(s, report0.nodeID, transfer, report.events, event);
    EventChunksNext(report.events, event);
    CountedNext(report0, report, event);
    assert chunkIDs[..i + 1] == chunkIDs[..i] + [chunkIDs[i]];
  }

  lemma {:induction false} CountedNext(report0: MigrationReport, report: MigrationReport, event: MigrationEvent)
    requires report == report0.(migratedChunks := Successes(report.events),
                                failedChunks := report.failedChunks, events := report.events)
    ensures var more := Counted(report, event);
      && more.events == report.events + [event]
      && more == report0.(migratedChunks := Successes(more.events), failedChunks := more.failedChunks, events := more.events)
      && more.migratedChunks + more.failedChunks == report.migratedChunks + report.failedChunks + 1
  {
    assert (report.events + [event])[..|report.events|] == report.events;
  }

  lemma {:induction false} ExplainedFrom(s: State, from: NodeId, transfer: Transfer, events: seq<MigrationEvent>)
    requires Explained(s, from, transfer, events)
    ensures AllFrom(from, events)
  {
    forall i | 0 <= i < |events| ensures events[i].fromNodeID == from {
      assert Explains(Replay(s, events[..i]), from, transfer, events[i]);
    }
  }

  lemma {:induction false} DistinctFromNoDup(events: seq<MigrationEvent>)
    requires NoDup(EventChunks(events))
    ensures DistinctChunks(events)
  {
    var ids := EventChunks(events);
    assert forall i, j :: 0 <= i < j < |events| ==> ids[i] != ids[j];
  }

  lemma {:induction false} EventOf(events: seq<MigrationEvent>, c: ChunkId) returns (i: nat)
    requires DistinctChunks(events) && c in SetOf(EventChunks(events))
    ensures i < |events| && events[i].chunkID == c
    ensures c in FailedChunks(events) <==> !events[i].success
  {
    var ids := EventChunks(events);
    i :| i < |ids| && ids[i] == c;
  }

  /** What is left on a drained node is exactly what the report calls failed. */
  lemma {:induction false} DrainLeavesFailedChunks(s: State, from: NodeId, transfer: Transfer,
                                                   events: seq<MigrationEvent>)
    requires NoDup(EventChunks(events))
    requires SetOf(EventChunks(events)) == ChunksOnNode(s, from)
    requires Explained(s, from, transfer, events)
    ensures ChunksOnNode(Replay(s, events), from) == FailedChunks(events)
  {
    ExplainedFrom(s, from, transfer, events);
    DistinctFromNoDup(events);
    forall c ensures c in ChunksOnNode(Replay(s, events), from) <==> c in FailedChunks(events) {
      DrainOne(s, from, events, c);
    }
  }

  lemma {:induction false} DrainOne(s: State, from: NodeId, events: seq<MigrationEvent>, c: ChunkId)
    requires AllFrom(from, events) && DistinctChunks(events)
    requires SetOf(EventChunks(events)) == ChunksOnNode(s, from)
    ensures c in ChunksOnNode(Replay(s, events), from) <==> c in FailedChunks(events)
  {
    var ids := EventChunks(events);
    if c in SetOf(ids) {
      var i := EventOf(events, c);
      ReplayAt(s, from, events, i);
    } else {
      assert forall i :: 0 <= i < |events| ==> ids[i] in SetOf(ids);
      ReplayOthers(s, from, events, c);
    }
  }

  /** A move keeps the replica count, replaces the source by an unlisted target, and keeps the other nodes. */
  lemma {:induction false} SuccessReplacesSource(s: State, from: NodeId, transfer: Transfer,
                                                 events: seq<MigrationEvent>, i: nat)
    requires NoDup(EventChunks(events)) && Explained(s, from, transfer, events)
    requires i < |events| && events[i].success
    requires Indexed(s, events[i].chunkID) && from in Replicas(s, events[i].chunkID)
    ensures var e, t := events[i], Replay(s, events);
      && e.toNodeID !in Replicas(s, e.chunkID)
      && |Replicas(t, e.chunkID)| == |Replicas(s, e.chunkID)|
      && forall n :: n in Replicas(t, e.chunkID) <==> (n in Replicas(s, e.chunkID) && n != from) || n == e.toNodeID
  {
    ExplainedFrom(s, from, transfer, events);
    DistinctFromNoDup(events);
    assert Explains(Replay(s, events[..i]), from, transfer, events[i]);
    ReplayOthers(s, from, events[..i], events[i].chunkID);
    SwapAt(s, from, events, i);
  }

  lemma {:induction false} SwapAt(s: State, from: NodeId, events: seq<MigrationEvent>, i: nat)
    requires AllFrom(from, events) && DistinctChunks(events) && i < |events| && events[i].success
    requires Indexed(s, events[i].chunkID) && from in Replicas(s, events[i].chunkID)
    requires events[i].toNodeID !in Replicas(s, events[i].chunkID)
    ensures var e, t := events[i], Replay(s, events);
      && |Replicas(t, e.chunkID)| == |Replicas(s, e.chunkID)|
      && forall n :: n in Replicas(t, e.chunkID) <==> (n in Replicas(s, e.chunkID) && n != from) || n == e.toNodeID
  {
    ReplayAt(s, from, events, i);
    RemoveFirstNoDup(Replicas(s, events[i].chunkID) + [events[i].toNodeID], from);
  }
}
