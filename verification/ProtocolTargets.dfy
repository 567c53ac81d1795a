/** Which nodes are ever given a chunk: in every run only nodes that are HEALTHY or WARNING at that moment. */
module ProtocolTargets {
  import opened Common
  import opened Cluster
  import opened Protocol
  import opened ProtocolInvariant
  import opened ProtocolTheorems

  /** A run up to its last step, and that step. */
  lemma {:induction false} LastStep(s: Sys, ls: seq<Label>)
    requires Feasible(s, ls) && ls != []
    ensures var k := |ls| - 1;
      Feasible(s, ls[..k]) && Enabled(After(s, ls[..k]), ls[k]) && After(s, ls) == Next(After(s, ls[..k]), ls[k])
    decreases |ls|
  {
    var k := |ls| - 1;
    if k == 0 {
      assert ls[..0] == [] && ls[1..] == [];
    } else {
      LastStep(Next(s, ls[0]), ls[1..]);
      assert ls[..k][1..] == ls[1..][..k - 1];
    }
  }

  lemma {:induction false} StepAt(s: Sys, ls: seq<Label>, i: nat)
    requires Feasible(s, ls) && i < |ls|
    ensures Feasible(s, ls[..i]) && Enabled(After(s, ls[..i]), ls[i])
    decreases |ls|
  {
    LastStep(s, ls);
    if i < |ls| - 1 {
      StepAt(s, ls[..|ls| - 1], i);
      assert ls[..|ls| - 1][..i] == ls[..i];
    }
  }

  /** The step allocates `c` on node `n`, or picks `n` as the target of a migration of `c`. */
  ghost predicate Gives(s: Sys, l: Label, c: ChunkId, n: NodeId) {
    || (l.Allocate? && l.chunk == c && n in l.targets)
    || (l.Choose? && PhaseOf(s, l.node).Listed? && PhaseOf(s, l.node).chunk == c && l.target == n)
  }

  /** No step of any run gives a chunk to a node that is AT_RISK, CRITICAL or DEAD at that step. */
  lemma {:induction false} OnlyGoodNodesAreGiven(ls: seq<Label>, i: nat, c: ChunkId, n: NodeId)
    requires Feasible(INITIAL, ls) && i < |ls|
    ensures Feasible(INITIAL, ls[..i])
    ensures var s, l := After(INITIAL, ls[..i]), ls[i];
      Gives(s, l, c, n) ==>
        && n in s.cm.nodes && (s.cm.nodes[n].status == Healthy || s.cm.nodes[n].status == Warning)
        && (l.Allocate? ==> l.now - s.cm.nodes[n].lastHeartbeat < 15_000)
        && (l.Choose? ==> n !in PhaseOf(s, l.node).existing)
  {
    StepAt(INITIAL, ls, i);
  }

  /** A replica stays outstanding until a store of it is acknowledged. */
  lemma {:induction false} UploadWaits(s: Sys, ls: seq<Label>, u: Upload)
    requires Feasible(s, ls) && u in s.uploads
    ensures u in After(s, ls).uploads || exists i :: 0 <= i < |ls| && ls[i] == Store(u, true)
    decreases |ls|
  {
    if ls != [] {
      if ls[0] != Store(u, true) {
        UploadWaits(Next(s, ls[0]), ls[1..], u);
        if i :| 0 <= i < |ls[1..]| && ls[1..][i] == Store(u, true) { assert ls[i + 1] == Store(u, true); }
      }
    }
  }

  /** A migration that heads for a target has chosen it. */
  lemma {:induction false} HeadWasChosen(ls: seq<Label>, c: ChunkId, m: NodeId) returns (i: nat)
    requires Feasible(INITIAL, ls) && HeadsFor(After(INITIAL, ls), m, c)
    ensures i < |ls| && Feasible(INITIAL, ls[..i])
    ensures Gives(After(INITIAL, ls[..i]), ls[i], c, PhaseOf(After(INITIAL, ls), m).target)
    decreases |ls|
  {
    var k := |ls| - 1;
    LastStep(INITIAL, ls);
    var s, l := After(INITIAL, ls[..k]), ls[k];
    HeadStep(s, l, c, m);
    if l.Choose? && l.node == m {
      i := k;
    } else {
      i := HeadWasChosen(ls[..k], c, m);
      assert ls[..k][..i] == ls[..i];
    }
  }

  /**
   Whoever is on a replica list was put there by an allocation or a migration that chose it, and was HEALTHY or WARNING
   when it was chosen.
   */
  lemma {:induction false} ListedWasGood(ls: seq<Label>, c: ChunkId, n: NodeId) returns (i: nat)
    requires Feasible(INITIAL, ls) && n in Replicas(After(INITIAL, ls).cm, c)
    ensures i < |ls| && Feasible(INITIAL, ls[..i]) && Gives(After(INITIAL, ls[..i]), ls[i], c, n)
    ensures var s := After(INITIAL, ls[..i]);
      n in s.cm.nodes && (s.cm.nodes[n].status == Healthy || s.cm.nodes[n].status == Warning)
    decreases |ls|
  {
    var k := |ls| - 1;
    LastStep(INITIAL, ls);
    var s, l := After(INITIAL, ls[..k]), ls[k];
    if n in Replicas(s.cm, c) {
      i := ListedWasGood(ls[..k], c, n);
      assert ls[..k][..i] == ls[..i];
    } else {
      ReplicaListsIndexed(ls[..k], c);
      ListingStep(s, l, c, n);
      if l.Allocate? {
        i := k;
      } else {
        i := HeadWasChosen(ls[..k], c, l.node);
        assert ls[..k][..i] == ls[..i];
      }
      OnlyGoodNodesAreGiven(ls, i, c, n);
    }
  }
}
