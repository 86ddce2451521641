/**
 * Basic blocks of the control-flow graph: a name, the instructions, and the
 * predecessor and successor lists that `connect` keeps in step.
 */
module Blocks {
  import opened Jvm
  import opened Instructions

  class BasicBlock {
    const name: string
    var inst: seq<Instruction>
    var pred: seq<BasicBlock>
    var succ: seq<BasicBlock>

    constructor (name: string)
      ensures this.name == name && inst == [] && pred == [] && succ == []
    {
      this.name := name;
      inst, pred, succ := [], [], [];
    }

    /** `size`: the number of instructions. */
    function Size(): (n: nat)
      reads this
      ensures n == |inst|
    {
      |inst|
    }

    /** `equals`: blocks are equal when their names are, so exactly when they print alike; equal blocks hash alike. */
    predicate Equals(other: BasicBlock): (eq: bool)
      ensures eq <==> ToString() == other.ToString()
      ensures eq ==> HashCode() == other.HashCode()
    {
      name == other.name
    }

    /** `hashCode`: the name's `String.hashCode`. */
    function HashCode(): (h: int32)
      ensures (h as int - HashPoly(name)) % 0x1_0000_0000 == 0
    {
      StringHash(name)
    }

    /** `toString`: `%name`. */
    function ToString(): (s: string)
      ensures |s| == |name| + 1 && s[0] == '%' && s[1..] == name
    {
      "%" + name
    }

    /** `succ.contains(to)`, which goes through the name-based `equals`. */
    predicate HasSucc(to: BasicBlock): (r: bool)
      reads this
      ensures to in succ ==> r
      ensures r <==> exists k :: 0 <= k < |succ| && succ[k].ToString() == to.ToString()
    {
      exists k :: 0 <= k < |succ| && succ[k].Equals(to)
    }

    /** `connect`: adds the edge in both directions unless `to` is already a successor. */
    method Connect(to: BasicBlock)
      modifies this, to
      ensures old(HasSucc(to)) ==> succ == old(succ) && to.pred == old(to.pred)
      ensures !old(HasSucc(to)) ==> succ == old(succ) + [to] && to.pred == old(to.pred) + [this]
      ensures HasSucc(to)
      ensures inst == old(inst) && to.inst == old(to.inst)
      ensures to != this ==> pred == old(pred) && to.succ == old(to.succ)
    {
      if exists k :: 0 <= k < |succ| && succ[k].Equals(to) {
        return;
      }
      succ := succ + [to];
      assert succ[|succ| - 1] == to;
      to.pred := to.pred + [this];
    }
  }

  /** Blocks are equal exactly by name, and the hash agrees. */
  lemma EqualsByName(a: BasicBlock, b: BasicBlock)
    ensures a.Equals(b) <==> a.name == b.name
    ensures a.Equals(b) ==> a.HashCode() == b.HashCode()
    ensures a.Equals(b) ==> a.ToString() == b.ToString()
  {
  }

  predicate NoDuplicates<T(==)>(s: seq<T>)
  {
    forall i, j :: 0 <= i < j < |s| ==> s[i] != s[j]
  }

  /** Block names identify blocks inside the graph. */
  ghost predicate UniqueNames(g: set<BasicBlock>)
  {
    forall a, b :: a in g && b in g && a.name == b.name ==> a == b
  }

  /** Every edge stays inside the graph. */
  ghost predicate Closed(g: set<BasicBlock>)
    reads g
  {
    && (forall a, k :: a in g && 0 <= k < |a.succ| ==> a.succ[k] in g)
    && (forall a, k :: a in g && 0 <= k < |a.pred| ==> a.pred[k] in g)
  }

  /** `pred` and `succ` mirror each other. */
  ghost predicate Mutual(g: set<BasicBlock>)
    reads g
  {
    forall a, b :: a in g && b in g ==> (b in a.succ <==> a in b.pred)
  }

  ghost predicate EdgesUnrepeated(g: set<BasicBlock>)
    reads g
  {
    forall a :: a in g ==> NoDuplicates(a.succ) && NoDuplicates(a.pred)
  }

  /**
   * The CFG invariant the builder establishes: names are unique, edges stay
   * inside the graph, `pred` and `succ` mirror each other and repeat nothing.
   */
  ghost predicate Consistent(g: set<BasicBlock>)
    reads g
  {
    UniqueNames(g) && Closed(g) && Mutual(g) && EdgesUnrepeated(g)
  }

  /** A graph edited only by `connect` stays consistent. */
  method Link(g: set<BasicBlock>, a: BasicBlock, b: BasicBlock)
    requires Consistent(g) && a in g && b in g
    modifies a, b
    ensures Consistent(g)
    ensures b in a.succ && a in b.pred
    ensures a.inst == old(a.inst) && b.inst == old(b.inst)
  {
    if a.HasSucc(b) {
      var k :| 0 <= k < |a.succ| && a.succ[k].Equals(b);
      assert a.succ[k] == b;
      a.Connect(b);
      return;
    }
    LinkNew(g, a, b);
  }

  /** `connect` between blocks not yet linked appends one edge in each direction. */
  method LinkNew(g: set<BasicBlock>, a: BasicBlock, b: BasicBlock)
    requires Consistent(g) && a in g && b in g && !a.HasSucc(b)
    modifies a, b
    ensures Consistent(g)
    ensures b in a.succ && a in b.pred
    ensures a.inst == old(a.inst) && b.inst == old(b.inst)
  {
    assert b !in a.succ;
    assert a !in b.pred;
    ghost var succA, predB := a.succ, b.pred;
    a.Connect(b);
    assert a.succ == succA + [b] && b.pred == predB + [a];
    assert forall x :: x in g && x != a ==> x.succ == old(x.succ);
    assert forall x :: x in g && x != b ==> x.pred == old(x.pred);
    assert Closed(g) by {
      forall x, k | x in g && 0 <= k < |x.succ| ensures x.succ[k] in g {
        if x == a && k < |succA| { assert x.succ[k] == succA[k]; }
      }
      forall x, k | x in g && 0 <= k < |x.pred| ensures x.pred[k] in g {
        if x == b && k < |predB| { assert x.pred[k] == predB[k]; }
      }
    }
    assert Mutual(g) by {
      forall x, y | x in g && y in g ensures y in x.succ <==> x in y.pred {
        assert y in old(x.succ) <==> x in old(y.pred);
      }
    }
    assert EdgesUnrepeated(g) by {
      forall x | x in g ensures NoDuplicates(x.succ) && NoDuplicates(x.pred) {
        assert NoDuplicates(old(x.succ)) && NoDuplicates(old(x.pred));
      }
    }
  }

  /** The set of the blocks' names. */
  function BlockNames(bs: seq<BasicBlock>): set<string>
    decreases |bs|
  {
    if bs == [] then {} else BlockNames(bs[..|bs| - 1]) + {bs[|bs| - 1].name}
  }

  /** A name is a block name exactly when some block of the list carries it. */
  lemma {:induction false} BlockNamesMember(bs: seq<BasicBlock>, x: string)
    ensures x in BlockNames(bs) <==> exists k :: 0 <= k < |bs| && bs[k].name == x
    decreases |bs|
  {
    if bs != [] {
      var front := bs[..|bs| - 1];
      BlockNamesMember(front, x);
      if x in BlockNames(front) {
        var k :| 0 <= k < |front| && front[k].name == x;
        assert bs[k] == front[k];
      }
      if exists k :: 0 <= k < |bs| && bs[k].name == x {
        var k :| 0 <= k < |bs| && bs[k].name == x;
        if k < |front| {
          assert front[k] == bs[k];
        }
      }
    }
  }

  /** Adding one block to the list adds its name. */
  lemma BlockNamesSnoc(bs: seq<BasicBlock>, k: nat)
    requires k < |bs|
    ensures BlockNames(bs[..k + 1]) == BlockNames(bs[..k]) + {bs[k].name}
  {
    assert bs[..k + 1][..k] == bs[..k];
  }
}
