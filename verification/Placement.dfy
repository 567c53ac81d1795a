/** Load balance and replica counts of whole allocations. */
module Placement {
  import opened Common
  import opened Cluster

  /** No candidate carries more than `d` chunks more than another. */
  ghost predicate SpreadAtMost(s: State, candidates: set<NodeId>, d: int)
    requires candidates <= s.nodes.Keys
  {
    forall a, b :: a in candidates && b in candidates ==> |s.nodes[a].chunks| - |s.nodes[b].chunks| <= d
  }

  ghost predicate EqualRisk(s: State, candidates: set<NodeId>)
    requires candidates <= s.nodes.Keys
  {
    forall a, b :: a in candidates && b in candidates ==> s.nodes[a].riskScore == s.nodes[b].riskScore
  }

  /** Chunk `i` of the file is on none of the candidates. */
  ghost predicate FreshChunk(s: State, hash: string -> string, path: string, candidates: set<NodeId>, i: nat)
    requires candidates <= s.nodes.Keys
  {
    forall n :: n in candidates ==> GenerateChunkID(hash, path, i) !in s.nodes[n].chunks
  }

  /** A best pick never prefers a riskier node to one left out, nor a fuller one of the same risk. */
  lemma {:induction false} BestPickPrefersSafeAndEmpty(s: State, candidates: set<NodeId>, count: nat,
                                                       targets: seq<NodeId>, x: NodeId, y: NodeId)
    requires candidates <= s.nodes.Keys && BestPick(s, candidates, count, targets)
    requires x in targets && y in candidates && y !in targets
    ensures s.nodes[x].riskScore <= s.nodes[y].riskScore
    ensures s.nodes[x].riskScore == s.nodes[y].riskScore ==> |s.nodes[x].chunks| <= |s.nodes[y].chunks|
  {
    assert !Before(s.nodes[y], s.nodes[x]);
  }

  lemma {:induction false} PlaceKeepsSpread(s: State, c: ChunkId, index: nat, size: int, path: string,
                         candidates: set<NodeId>, count: nat, targets: seq<NodeId>, d: int)
    requires candidates <= s.nodes.Keys && BestPick(s, candidates, count, targets)
    requires forall n :: n in candidates ==> c !in s.nodes[n].chunks
    requires EqualRisk(s, candidates) && SpreadAtMost(s, candidates, d) && d >= 1
    ensures SpreadAtMost(PlaceChunk(s, c, index, size, path, targets), candidates, d)
  {
    var t := PlaceChunk(s, c, index, size, path, targets);
    forall n | n in candidates
      ensures |t.nodes[n].chunks| == |s.nodes[n].chunks| + if n in targets then 1 else 0
    {
    }
    forall a, b | a in candidates && b in candidates
      ensures |t.nodes[a].chunks| - |t.nodes[b].chunks| <= d
    {
      if a in targets && b !in targets {
        BestPickPrefersSafeAndEmpty(s, candidates, count, targets, a, b);
      }
    }
  }

  /** Placing a file gives nodes no chunk but the file's own, and changes no risk. */
  lemma {:induction false} PlaceFileAdds(s: State, hash: string -> string, path: string, fileSize: int,
                                         picks: seq<seq<NodeId>>)
    ensures var t := PlaceFile(s, hash, path, fileSize, picks);
      && t.nodes.Keys == s.nodes.Keys
      && (forall n :: n in s.nodes ==> t.nodes[n].riskScore == s.nodes[n].riskScore)
      && (forall n, c :: n in s.nodes && c in t.nodes[n].chunks ==>
            c in s.nodes[n].chunks || exists i: nat :: i < |picks| && c == GenerateChunkID(hash, path, i))
  {
    if picks != [] {
      PlaceFileAdds(s, hash, path, fileSize, picks[..|picks| - 1]);
    }
  }

  /** Chunk k is still on no candidate after the chunks before it were placed. */
  lemma {:induction false} NextChunkIsFresh(s: State, hash: string -> string, path: string, fileSize: int,
                         candidates: set<NodeId>, picks: seq<seq<NodeId>>)
    requires CollisionFree(hash) && candidates <= s.nodes.Keys
    requires FreshChunk(s, hash, path, candidates, |picks|)
    ensures var t := PlaceFile(s, hash, path, fileSize, picks);
      candidates <= t.nodes.Keys && FreshChunk(t, hash, path, candidates, |picks|)
  {
    var c := GenerateChunkID(hash, path, |picks|);
    var t := PlaceFile(s, hash, path, fileSize, picks);
    PlaceFileAdds(s, hash, path, fileSize, picks);
    forall n | n in candidates ensures c !in t.nodes[n].chunks {
      if c in t.nodes[n].chunks {
        var i: nat :| i < |picks| && c == GenerateChunkID(hash, path, i);
        ChunkIDInjective(hash, path, i, path, |picks|);
      }
    }
  }

  /** Risks are untouched by placements. */
  lemma {:induction false} EqualRiskStays(s: State, hash: string -> string, path: string, fileSize: int,
                       candidates: set<NodeId>, picks: seq<seq<NodeId>>)
    requires candidates <= s.nodes.Keys && EqualRisk(s, candidates)
    ensures var t := PlaceFile(s, hash, path, fileSize, picks);
      candidates <= t.nodes.Keys && EqualRisk(t, candidates)
  {
    PlaceFileAdds(s, hash, path, fileSize, picks);
  }

  /**
   Allocating any number of fresh chunks over equally risky nodes: the spread of chunk counts stays within the larger
   of what it was and one.
   */
  lemma {:induction false} AllocationBalances(s: State, hash: string -> string, path: string, fileSize: int,
                                              candidates: set<NodeId>, picks: seq<seq<NodeId>>, d: int)
    requires CollisionFree(hash)
    requires candidates <= s.nodes.Keys && GoodPicks(s, hash, path, fileSize, candidates, picks)
    requires EqualRisk(s, candidates) && SpreadAtMost(s, candidates, d) && d >= 1
    requires forall i :: 0 <= i < |picks| ==> FreshChunk(s, hash, path, candidates, i)
    ensures candidates <= PlaceFile(s, hash, path, fileSize, picks).nodes.Keys
    ensures SpreadAtMost(PlaceFile(s, hash, path, fileSize, picks), candidates, d)
  {
    if picks != [] {
      var k := |picks| - 1;
      var t := PlaceFile(s, hash, path, fileSize, picks[..k]);
      AllocationBalances(s, hash, path, fileSize, candidates, picks[..k], d);
      EqualRiskStays(s, hash, path, fileSize, candidates, picks[..k]);
      assert FreshChunk(s, hash, path, candidates, k);
      NextChunkIsFresh(s, hash, path, fileSize, candidates, picks[..k]);
      PlaceKeepsSpread(t, GenerateChunkID(hash, path, k), k, RecordedSize(fileSize, k), path,
                       candidates, ReplicaGoal(candidates), picks[k], d);
    }
  }

  /** Each chunk gets distinct candidates: all of them if there are at most three, and exactly three otherwise. */
  lemma {:induction false} AllocationReplicates(s: State, hash: string -> string, path: string, fileSize: int,
                                                candidates: set<NodeId>, picks: seq<seq<NodeId>>, i: nat)
    requires candidates <= s.nodes.Keys && GoodPicks(s, hash, path, fileSize, candidates, picks)
    requires i < |picks|
    ensures NoDup(picks[i]) && SetOf(picks[i]) <= candidates
    ensures |candidates| <= 3 ==> SetOf(picks[i]) == candidates
    ensures |candidates| >= 3 ==> |picks[i]| == 3
  {
    if i < |picks| - 1 {
      AllocationReplicates(s, hash, path, fileSize, candidates, picks[..|picks| - 1], i);
    } else {
      NoDupCardinality(picks[i]);
      if |candidates| <= 3 { SubsetOfSameSize(SetOf(picks[i]), candidates); }
    }
  }

  lemma {:induction false} SubsetOfSameSize<T>(a: set<T>, b: set<T>)
    requires a <= b && |a| == |b|
    ensures a == b
  {
    assert b == a + (b - a);
  }

  /** In other words, node by node: three distinct candidates, or fewer and then every candidate. */
  lemma {:induction false} ThreeOrAll(s: State, hash: string -> string, path: string, fileSize: int,
                                      candidates: set<NodeId>, picks: seq<seq<NodeId>>, i: nat)
    requires candidates <= s.nodes.Keys && GoodPicks(s, hash, path, fileSize, candidates, picks)
    requires i < |picks|
    ensures NoDup(picks[i]) && forall n :: n in picks[i] ==> n in candidates
    ensures |picks[i]| == 3 || (|picks[i]| < 3 && forall n :: n in candidates ==> n in picks[i])
  {
    AllocationReplicates(s, hash, path, fileSize, candidates, picks, i);
    NoDupCardinality(picks[i]);
    assert forall n :: n in picks[i] <==> n in SetOf(picks[i]);
  }
}
