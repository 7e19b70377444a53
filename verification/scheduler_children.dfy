/** Parent and child waiting is well founded. */
module SchedulerChildren {
  import opened SchedulerCore

  /** `chain` goes from a task to the child it waits for, and so on. */
  ghost predicate IsChain(slots: seq<Slot>, chain: seq<nat>) {
    && |chain| > 0 && (forall k :: 0 <= k < |chain| ==> chain[k] < |slots|)
    && forall k :: 0 <= k < |chain| - 1 ==> ChildOf(slots, chain[k + 1], chain[k])
  }

  /** No chain visits a task twice: parent links are acyclic. */
  lemma ChainsAcyclic(c: Core, chain: seq<nat>)
    requires CoreInv(c) && IsChain(c.slots, chain)
    ensures Distinct(chain)
  {
    forall a, b | 0 <= a < b < |chain|
      ensures chain[a] != chain[b]
    {
      BornIncreases(c, chain, a, b);
    }
  }

  lemma {:induction false} BornIncreases(c: Core, chain: seq<nat>, a: nat, b: nat)
    requires ParentInv(c.slots, c.born, |c.issued|) && IsChain(c.slots, chain) && a < b < |chain|
    ensures c.born[chain[a]] < c.born[chain[b]]
  {
    assert ChildOf(c.slots, chain[b], chain[b - 1]);
    if a + 1 < b {
      BornIncreases(c, chain, a, b - 1);
    }
  }

  /** Each task waiting for a child has exactly one live child that points to it. */
  lemma OneChild(c: Core, p: nat)
    requires CoreInv(c) && p < |c.slots| && c.slots[p].state == WaitingChild
    ensures exists i: nat :: ChildOf(c.slots, i, p) && Live(c.slots[i]) && forall j: nat :: ChildOf(c.slots, j, p) ==> j == i
  {
    var i: nat :| ChildOf(c.slots, i, p);
  }

  /** Every wait chain ends in a live task that is not waiting for a child. */
  lemma {:induction false} ChainEnds(c: Core, p: nat) returns (chain: seq<nat>)
    requires CoreInv(c) && p < |c.slots| && Live(c.slots[p])
    ensures IsChain(c.slots, chain) && chain[0] == p
    ensures Live(c.slots[chain[|chain| - 1]]) && c.slots[chain[|chain| - 1]].state != WaitingChild
    decreases |c.issued| - c.born[p]
  {
    if c.slots[p].state != WaitingChild {
      chain := [p];
    } else {
      var i: nat :| ChildOf(c.slots, i, p);
      var rest := ChainEnds(c, i);
      chain := [p] + rest;
    }
  }
}
