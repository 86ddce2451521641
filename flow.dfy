/**
 * Forward-dataflow scaffolding for one block: a checkpoint list with the IN
 * value first and the OUT value last, and `converge`, which folds the
 * predecessors' OUT values through a meet operator.
 */
module Flows {
  import opened Wrappers
  import opened BitVectors
  import opened Blocks

  type Meet = (seq<bool>, seq<bool>) -> seq<bool>

  /** `fold(initial, meet)`: combines the values from left to right. */
  function Fold(acc: seq<bool>, meet: Meet, xs: seq<seq<bool>>): (r: seq<bool>)
    ensures (forall a, b :: |a| == |b| ==> |meet(a, b)| == |a|) && (forall k :: 0 <= k < |xs| ==> |xs[k]| == |acc|)
            ==> |r| == |acc|
    decreases |xs|
  {
    if xs == [] then acc else Fold(meet(acc, xs[0]), meet, xs[1..])
  }

  /** Folding one more value meets it with the fold of the others. */
  lemma {:induction false} FoldSnoc(acc: seq<bool>, meet: Meet, xs: seq<seq<bool>>, x: seq<bool>)
    ensures Fold(acc, meet, xs + [x]) == meet(Fold(acc, meet, xs), x)
    decreases |xs|
  {
    if xs == [] {
      assert ([] + [x])[1..] == [];
    } else {
      assert (xs + [x])[1..] == xs[1..] + [x];
      FoldSnoc(meet(acc, xs[0]), meet, xs[1..], x);
    }
  }

  /** With intersection as the meet, a bit survives the fold iff it is set everywhere. */
  lemma {:induction false} FoldOfIntersection(acc: seq<bool>, meet: Meet, xs: seq<seq<bool>>)
    requires forall a: seq<bool>, b: seq<bool> :: |a| == |b| ==> meet(a, b) == Intersect(a, b)
    requires forall k :: 0 <= k < |xs| ==> |xs[k]| == |acc|
    ensures |Fold(acc, meet, xs)| == |acc|
    ensures forall i :: 0 <= i < |acc| ==>
              (Fold(acc, meet, xs)[i] <==> acc[i] && forall k :: 0 <= k < |xs| ==> xs[k][i])
    decreases |xs|
  {
    if xs != [] {
      var acc' := meet(acc, xs[0]);
      assert acc' == Intersect(acc, xs[0]);
      FoldOfIntersection(acc', meet, xs[1..]);
      forall i | 0 <= i < |acc|
        ensures Fold(acc, meet, xs)[i] <==> acc[i] && forall k :: 0 <= k < |xs| ==> xs[k][i]
      {
        if acc[i] && forall k :: 0 <= k < |xs| ==> xs[k][i] {
          assert forall k :: 0 <= k < |xs[1..]| ==> xs[1..][k][i] by {
            forall k | 0 <= k < |xs[1..]| ensures xs[1..][k][i] { assert xs[1..][k] == xs[k + 1]; }
          }
        }
        if Fold(acc, meet, xs)[i] {
          forall k | 0 <= k < |xs| ensures xs[k][i] {
            if k > 0 { assert xs[1..][k - 1] == xs[k]; }
          }
        }
      }
    }
  }

  /**
   * The checkpoint list the constructor means to build for a block of `n`
   * instructions: `n + 1` slots, IN in slot 0, OUT in slot `n` unless that is
   * slot 0 too, zero vectors between.
   */
  function Checkpoints(n: nat, setSize: nat, inVal: seq<bool>, outVal: seq<bool>): (vs: seq<seq<bool>>)
    ensures |vs| == n + 1 && vs[0] == inVal
    ensures n > 0 ==> vs[n] == outVal
    ensures forall i :: 0 < i < n ==> vs[i] == Zeros(setSize)
  {
    seq(n + 1, i requires 0 <= i <= n => if i == 0 then inVal else if i == n then outVal else Zeros(setSize))
  }

  /**
   * The list as written: `toList()` of a one-element array is a singleton
   * list, not an `ArrayList`, so the cast fails for an empty block.
   */
  function CheckpointsAsWritten(n: nat, setSize: nat, inVal: seq<bool>, outVal: seq<bool>): (r: Result<seq<seq<bool>>>)
    ensures r.Err? <==> n == 0
    ensures r.Err? ==> r.error == ClassCast
    ensures r.Ok? ==> r.value == Checkpoints(n, setSize, inVal, outVal)
  {
    if n + 1 == 1 then Err(ClassCast) else Ok(Checkpoints(n, setSize, inVal, outVal))
  }

  /** An empty block cannot get a `Flow` as written, though the intended list is just `[IN]`. */
  lemma EmptyBlockFlowFails(setSize: nat, inVal: seq<bool>, outVal: seq<bool>)
    ensures CheckpointsAsWritten(0, setSize, inVal, outVal) == Err(ClassCast)
    ensures Checkpoints(0, setSize, inVal, outVal) == [inVal]
  {
  }

  /** Every predecessor has an entry in the block-to-flow map. */
  predicate AllMapped(preds: seq<BasicBlock>, m: map<string, Flow>)
  {
    forall k :: 0 <= k < |preds| ==> preds[k].name in m
  }

  /** The predecessors' OUT values, in `pred` order. */
  function PredOuts(preds: seq<BasicBlock>, m: map<string, Flow>): (outs: seq<seq<bool>>)
    reads m.Values
    requires AllMapped(preds, m)
    requires forall n :: n in m ==> m[n].Valid()
    ensures |outs| == |preds|
    ensures forall k :: 0 <= k < |preds| ==> outs[k] == m[preds[k].name].OutVal()
    decreases |preds|
  {
    if preds == [] then []
    else PredOuts(preds[..|preds| - 1], m) + [m[preds[|preds| - 1].name].OutVal()]
  }

  class Flow {
    const block: BasicBlock
    const setSize: nat
    var values: seq<seq<bool>>
    const meet: Meet
    const initial: seq<bool>

    ghost predicate Valid()
      reads this
    {
      |values| > 0
    }

    /** The constructor with the intended checkpoint list (see `CheckpointsAsWritten`). */
    constructor (block: BasicBlock, setSize: nat, inVal: seq<bool>, outVal: seq<bool>,
                 meet: Meet, initial: seq<bool>)
      ensures this.block == block && this.setSize == setSize
      ensures this.meet == meet && this.initial == initial
      ensures values == Checkpoints(|block.inst|, setSize, inVal, outVal)
      ensures Valid()
    {
      this.block, this.setSize := block, setSize;
      this.meet, this.initial := meet, initial;
      values := Checkpoints(|block.inst|, setSize, inVal, outVal);
    }

    /** `inVal`: the first checkpoint. */
    function InVal(): (v: seq<bool>)
      reads this
      requires Valid()
      ensures v == values[0]
    {
      values[0]
    }

    /** `outVal`: the last checkpoint. */
    function OutVal(): (v: seq<bool>)
      reads this
      requires Valid()
      ensures v == values[|values| - 1]
    {
      values[|values| - 1]
    }

    /** Setting IN overwrites slot 0 and nothing else. */
    method SetInVal(v: seq<bool>)
      requires Valid()
      modifies this
      ensures Valid() && values == old(values)[0 := v] && InVal() == v
    {
      values := values[0 := v];
    }

    /** Setting OUT overwrites the slot at the block's current size; out of range throws. */
    method SetOutVal(v: seq<bool>) returns (r: Outcome)
      requires Valid()
      modifies this
      ensures r.Pass? <==> old(|block.inst|) < |old(values)|
      ensures r.Pass? ==> values == old(values)[|block.inst| := v]
      ensures r.Fail? ==> r.error == IndexOutOfBounds && values == old(values)
      ensures Valid()
    {
      var n := block.Size();
      if n < |values| {
        values := values[n := v];
        r := Pass;
      } else {
        r := Fail(IndexOutOfBounds);
      }
    }

    /**
     * `converge`: with no predecessors IN is kept; an unmapped predecessor
     * fails; otherwise IN becomes the fold of the predecessors' OUT values.
     */
    method Converge(m: map<string, Flow>) returns (r: Outcome)
      requires Valid()
      requires forall n :: n in m ==> m[n].Valid()
      modifies this
      ensures Valid()
      ensures block.pred == [] ==> r == Pass && values == old(values)
      ensures block.pred != [] && !AllMapped(block.pred, m) ==>
                r == Fail(IllegalState("Invalid block-flow map")) && values == old(values)
      ensures block.pred != [] && AllMapped(block.pred, m) ==>
                r == Pass && values == old(values)[0 := Fold(initial, meet, old(PredOuts(block.pred, m)))]
    {
      var preds := block.pred;
      if |preds| == 0 {
        return Pass;
      }
      var outs: seq<seq<bool>> := [];
      for k := 0 to |preds|
        invariant AllMapped(preds[..k], m)
        invariant outs == PredOuts(preds[..k], m)
      {
        var p := preds[k];
        if p.name !in m {
          return Fail(IllegalState("Invalid block-flow map"));
        }
        outs := outs + [m[p.name].OutVal()];
      }
      assert preds[..|preds|] == preds;
      values := values[0 := Fold(initial, meet, outs)];
      r := Pass;
    }
  }

  /** For an empty block IN and OUT are the same slot. */
  lemma EmptyBlockInIsOut(f: Flow)
    requires f.Valid() && |f.values| == 1
    ensures f.InVal() == f.OutVal()
  {
  }

  /** A fresh flow's accessors return the values it was built with. */
  lemma CheckpointsAccessors(n: nat, setSize: nat, inVal: seq<bool>, outVal: seq<bool>)
    ensures var vs := Checkpoints(n, setSize, inVal, outVal);
            vs[0] == inVal && vs[|vs| - 1] == (if n == 0 then inVal else outVal)
  {
  }
}
