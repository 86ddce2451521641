/**
 * The snapshot's basic block.  It has no `equals` of its own, so `connect`
 * finds an existing edge by object identity, not by name.
 */
module SnapshotBlocks {
  import opened SnapshotInstructions

  class BasicBlock {
    const name: string
    var inst: seq<Instruction>
    var pred: seq<BasicBlock>
    var succ: seq<BasicBlock>

    constructor (name: string)
      ensures this.name == name && inst == [] && pred == [] && succ == []
    {
      this.name := name;
      inst, pred, succ := [], [], [];
    }

    /** `connect`: adds the edge in both directions unless `to` is already a successor. */
    method Connect(to: BasicBlock)
      modifies this, to
      ensures old(to in succ) ==> succ == old(succ) && to.pred == old(to.pred)
      ensures old(to !in succ) ==> succ == old(succ) + [to] && to.pred == old(to.pred) + [this]
      ensures to in succ
      ensures inst == old(inst) && to.inst == old(to.inst)
      ensures to != this ==> pred == old(pred) && to.succ == old(to.succ)
    {
      if to in succ {
        return;
      }
      succ := succ + [to];
      to.pred := to.pred + [this];
    }
  }

  predicate NoDuplicates<T(==)>(s: seq<T>)
  {
    forall i, j :: 0 <= i < j < |s| ==> s[i] != s[j]
  }

  /**
   * The graph invariant `connect` keeps: edges stay inside the graph, `pred`
   * and `succ` mirror each other, and no list repeats a block.
   */
  ghost predicate Consistent(g: set<BasicBlock>)
    reads g
  {
    && (forall a, k :: a in g && 0 <= k < |a.succ| ==> a.succ[k] in g)
    && (forall a, k :: a in g && 0 <= k < |a.pred| ==> a.pred[k] in g)
    && (forall a, b :: a in g && b in g ==> (b in a.succ <==> a in b.pred))
    && (forall a :: a in g ==> NoDuplicates(a.succ) && NoDuplicates(a.pred))
  }

  /** A graph edited only by `connect` stays consistent, and the edge is present afterwards. */
  method Link(g: set<BasicBlock>, a: BasicBlock, b: BasicBlock)
    requires Consistent(g) && a in g && b in g
    modifies a, b
    ensures Consistent(g)
    ensures b in a.succ && a in b.pred
    ensures a.inst == old(a.inst) && b.inst == old(b.inst)
  {
    ghost var succA, predB := a.succ, b.pred;
    ghost var linked := b in a.succ;
    a.Connect(b);
    if !linked {
      assert a !in predB;
      assert forall x :: x in g && x != a ==> x.succ == old(x.succ);
      assert forall x :: x in g && x != b ==> x.pred == old(x.pred);
      forall x, k | x in g && 0 <= k < |x.succ| ensures x.succ[k] in g {
        if x == a && k < |succA| { assert x.succ[k] == succA[k]; }
      }
      forall x, k | x in g && 0 <= k < |x.pred| ensures x.pred[k] in g {
        if x == b && k < |predB| { assert x.pred[k] == predB[k]; }
      }
      forall x, y | x in g && y in g ensures y in x.succ <==> x in y.pred {
        assert y in old(x.succ) <==> x in old(y.pred);
      }
      forall x | x in g ensures NoDuplicates(x.succ) && NoDuplicates(x.pred) {
        assert NoDuplicates(old(x.succ)) && NoDuplicates(old(x.pred));
      }
    }
  }

  /**
   * Two blocks that share a name are still told apart: connecting to the
   * second after the first adds a second edge.
   */
  method ConnectByIdentity(a: BasicBlock, b1: BasicBlock, b2: BasicBlock)
    requires a.succ == [] && b1 != b2 && a != b1 && a != b2 && b1.name == b2.name
    modifies a, b1, b2
    ensures a.succ == [b1, b2]
  {
    a.Connect(b1);
    a.Connect(b2);
  }
}
