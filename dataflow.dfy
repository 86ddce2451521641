/**
 * The block-level dataflow equations the worklist in `checkFunc` solves, on
 * bit sequences keyed by block name: IN is the intersection of the
 * predecessors' OUT values (the entry keeps its seeded IN), OUT is IN ∪ gen.
 */
module Dataflow {
  import opened BitVectors
  import opened Blocks

  type Bits = seq<bool>

  /** Every block of `g` has an entry of width `size` in `m`. */
  predicate Sized(g: set<BasicBlock>, m: map<string, Bits>, size: nat)
  {
    forall c :: c in g ==> c.name in m && |m[c.name]| == size
  }

  /** Every block of `preds` has an OUT value of width `size`. */
  predicate PredsMapped(preds: seq<BasicBlock>, outs: map<string, Bits>, size: nat)
  {
    forall k :: 0 <= k < |preds| ==> preds[k].name in outs && |outs[preds[k].name]| == size
  }

  /** `pred.map { outVal }.fold(acc, BitVector::and)`. */
  function MeetOuts(acc: Bits, preds: seq<BasicBlock>, outs: map<string, Bits>): (r: Bits)
    requires PredsMapped(preds, outs, |acc|)
    ensures |r| == |acc|
    decreases |preds|
  {
    if preds == [] then acc
    else MeetOuts(Intersect(acc, outs[preds[0].name]), preds[1..], outs)
  }

  /** The fold keeps exactly the bits set in the start value and in every predecessor's OUT. */
  lemma {:induction false} MeetOutsIsIntersection(acc: Bits, preds: seq<BasicBlock>, outs: map<string, Bits>)
    requires PredsMapped(preds, outs, |acc|)
    ensures forall i :: 0 <= i < |acc| ==>
              (MeetOuts(acc, preds, outs)[i] <==>
                 acc[i] && forall k :: 0 <= k < |preds| ==> outs[preds[k].name][i])
    decreases |preds|
  {
    if preds != [] {
      var rest := preds[1..];
      var acc' := Intersect(acc, outs[preds[0].name]);
      assert PredsMapped(rest, outs, |acc'|) by {
        forall k | 0 <= k < |rest| ensures rest[k].name in outs && |outs[rest[k].name]| == |acc'| {
          assert rest[k] == preds[k + 1];
        }
      }
      MeetOutsIsIntersection(acc', rest, outs);
      forall i | 0 <= i < |acc|
        ensures MeetOuts(acc, preds, outs)[i] <==>
                  acc[i] && forall k :: 0 <= k < |preds| ==> outs[preds[k].name][i]
      {
        if acc[i] && forall k :: 0 <= k < |preds| ==> outs[preds[k].name][i] {
          forall k | 0 <= k < |rest| ensures outs[rest[k].name][i] {
            assert rest[k] == preds[k + 1];
          }
        }
        if MeetOuts(acc, preds, outs)[i] {
          assert acc'[i];
          forall k | 0 <= k < |preds| ensures outs[preds[k].name][i] {
            if k > 0 {
              assert rest[k - 1] == preds[k];
              assert outs[rest[k - 1].name][i];
            }
          }
        }
      }
    }
  }

  /** Two OUT maps that agree on the predecessors give the same meet. */
  lemma MeetOutsFrame(acc: Bits, preds: seq<BasicBlock>, outs: map<string, Bits>, outs': map<string, Bits>)
    requires PredsMapped(preds, outs, |acc|) && PredsMapped(preds, outs', |acc|)
    requires forall k :: 0 <= k < |preds| ==> outs'[preds[k].name] == outs[preds[k].name]
    ensures MeetOuts(acc, preds, outs') == MeetOuts(acc, preds, outs)
  {
    MeetOutsIsIntersection(acc, preds, outs);
    MeetOutsIsIntersection(acc, preds, outs');
  }

  /** Smaller OUT values give a smaller meet. */
  lemma MeetOutsMonotone(acc: Bits, preds: seq<BasicBlock>, outs: map<string, Bits>, outs': map<string, Bits>)
    requires PredsMapped(preds, outs, |acc|) && PredsMapped(preds, outs', |acc|)
    requires forall k :: 0 <= k < |preds| ==> Subset(outs'[preds[k].name], outs[preds[k].name])
    ensures Subset(MeetOuts(acc, preds, outs'), MeetOuts(acc, preds, outs))
  {
    MeetOutsIsIntersection(acc, preds, outs);
    MeetOutsIsIntersection(acc, preds, outs');
    forall i | 0 <= i < |acc| && MeetOuts(acc, preds, outs')[i]
      ensures MeetOuts(acc, preds, outs)[i]
    {
      forall k | 0 <= k < |preds| ensures outs[preds[k].name][i] {
        assert outs'[preds[k].name][i];
      }
    }
  }

  /** A closed graph whose blocks all have OUT values has them for every predecessor too. */
  lemma ClosedPredsMapped(g: set<BasicBlock>, outs: map<string, Bits>, size: nat)
    requires Closed(g) && Sized(g, outs, size)
    ensures forall c :: c in g ==> PredsMapped(c.pred, outs, size)
  {
  }

  /** The IN a block gets: the entry keeps its own, every other block meets its predecessors. */
  function InOf(c: BasicBlock, entry: string, ins: map<string, Bits>, outs: map<string, Bits>, size: nat): (r: Bits)
    reads c
    requires c.name in ins && |ins[c.name]| == size
    requires PredsMapped(c.pred, outs, size)
    ensures |r| == size
  {
    if c.name == entry then ins[c.name] else MeetOuts(Ones(size), c.pred, outs)
  }

  /** The state sizes every equation below needs. */
  ghost predicate WellSized(g: set<BasicBlock>, ins: map<string, Bits>, outs: map<string, Bits>,
                            gens: map<string, Bits>, size: nat)
    reads g
  {
    Closed(g) && Sized(g, ins, size) && Sized(g, outs, size) && Sized(g, gens, size)
  }

  /** Every OUT already contains what one more `update` would give it. */
  ghost predicate PostFixpoint(g: set<BasicBlock>, entry: string, ins: map<string, Bits>,
                               outs: map<string, Bits>, gens: map<string, Bits>, size: nat)
    reads g
    requires WellSized(g, ins, outs, gens, size)
  {
    forall c {:trigger InOf(c, entry, ins, outs, size)} :: c in g ==>
      Subset(Union(InOf(c, entry, ins, outs, size), gens[c.name]), outs[c.name])
  }

  /** A block whose equations hold: IN is the meet (entry excepted) and OUT = IN ∪ gen. */
  ghost predicate Stable(c: BasicBlock, entry: string, ins: map<string, Bits>,
                         outs: map<string, Bits>, gens: map<string, Bits>, size: nat)
    reads c
    requires c.name in ins && |ins[c.name]| == size
    requires c.name in outs && c.name in gens && |gens[c.name]| == size
    requires PredsMapped(c.pred, outs, size)
  {
    && (c.name != entry ==> ins[c.name] == InOf(c, entry, ins, outs, size))
    && outs[c.name] == Union(ins[c.name], gens[c.name])
  }

  lemma UnionMonotone(a: Bits, a': Bits, g: Bits)
    requires Subset(a', a) && |g| == |a|
    ensures Subset(Union(a', g), Union(a, g))
  {
  }

  /**
   * One `update` of block `b`: its IN becomes `InOf`, its OUT `IN ∪ gen`. From
   * a post-fixpoint this only shrinks OUT, and the result is a post-fixpoint.
   */
  lemma StepKeepsPostFixpoint(g: set<BasicBlock>, entry: string, ins: map<string, Bits>,
                              outs: map<string, Bits>, gens: map<string, Bits>, size: nat, b: BasicBlock)
    requires WellSized(g, ins, outs, gens, size) && UniqueNames(g)
    requires b in g && PostFixpoint(g, entry, ins, outs, gens, size)
    ensures PredsMapped(b.pred, outs, size)
    ensures var newIn := InOf(b, entry, ins, outs, size);
            var ins' := ins[b.name := newIn];
            var outs' := outs[b.name := Union(newIn, gens[b.name])];
            && Subset(outs'[b.name], outs[b.name])
            && WellSized(g, ins', outs', gens, size)
            && PostFixpoint(g, entry, ins', outs', gens, size)
  {
    ClosedPredsMapped(g, outs, size);
    var newIn := InOf(b, entry, ins, outs, size);
    var ins' := ins[b.name := newIn];
    var outs' := outs[b.name := Union(newIn, gens[b.name])];
    assert Sized(g, outs', size);
    ClosedPredsMapped(g, outs', size);
    forall c | c in g
      ensures Subset(Union(InOf(c, entry, ins', outs', size), gens[c.name]), outs'[c.name])
    {
      if c.name != entry {
        forall k | 0 <= k < |c.pred| ensures Subset(outs'[c.pred[k].name], outs[c.pred[k].name]) {
          assert c.pred[k] in g;
        }
        MeetOutsMonotone(Ones(size), c.pred, outs, outs');
      }
      UnionMonotone(InOf(c, entry, ins, outs, size), InOf(c, entry, ins', outs', size), gens[c.name]);
      if c.name == b.name {
        assert c == b;
      }
    }
  }

  /**
   * After the step on `b`, a block stays stable if it was stable (or is `b`)
   * and is not left out of the queue while an OUT it reads has changed.
   */
  lemma StepKeepsStable(g: set<BasicBlock>, entry: string, ins: map<string, Bits>,
                        outs: map<string, Bits>, gens: map<string, Bits>, size: nat,
                        b: BasicBlock, c: BasicBlock)
    requires WellSized(g, ins, outs, gens, size) && UniqueNames(g) && Mutual(g)
    requires b in g && c in g
    requires PredsMapped(b.pred, outs, size) && PredsMapped(c.pred, outs, size)
    requires c == b || Stable(c, entry, ins, outs, gens, size)
    requires var newIn := InOf(b, entry, ins, outs, size);
             Union(newIn, gens[b.name]) != outs[b.name] ==> c !in b.succ
    ensures var newIn := InOf(b, entry, ins, outs, size);
            var ins' := ins[b.name := newIn];
            var outs' := outs[b.name := Union(newIn, gens[b.name])];
            PredsMapped(c.pred, outs', size) && Stable(c, entry, ins', outs', gens, size)
  {
    var newIn := InOf(b, entry, ins, outs, size);
    var ins' := ins[b.name := newIn];
    var outs' := outs[b.name := Union(newIn, gens[b.name])];
    assert Sized(g, outs', size);
    ClosedPredsMapped(g, outs', size);
    if c.name != entry {
      if outs' == outs {
      } else {
        assert outs'[b.name] != outs[b.name];
        assert b !in c.pred;
        forall k | 0 <= k < |c.pred| ensures outs'[c.pred[k].name] == outs[c.pred[k].name] {
          assert c.pred[k] in g;
          assert c.pred[k] != b;
        }
        MeetOutsFrame(Ones(size), c.pred, outs, outs');
      }
    }
    if c.name == b.name {
      assert c == b;
    }
  }

  /**
   * One iteration on `b` keeps every processed block off the queue stable:
   * `b` joins the processed blocks, and when its OUT changed its successors
   * are on the new queue.
   */
  lemma StepKeepsAllStable(g: set<BasicBlock>, entry: string, ins: map<string, Bits>,
                           outs: map<string, Bits>, gens: map<string, Bits>, size: nat,
                           b: BasicBlock, rest: seq<BasicBlock>, work: seq<BasicBlock>, processed: set<string>)
    requires WellSized(g, ins, outs, gens, size) && UniqueNames(g) && Mutual(g) && b in g
    requires forall c {:trigger Stable(c, entry, ins, outs, gens, size)} ::
               c in g && c.name in processed && c !in [b] + rest ==> Stable(c, entry, ins, outs, gens, size)
    requires forall c :: c in rest ==> c in work
    requires PredsMapped(b.pred, outs, size)
    requires var newIn := InOf(b, entry, ins, outs, size);
             Union(newIn, gens[b.name]) != outs[b.name] ==> forall c :: c in b.succ ==> c in work
    ensures var newIn := InOf(b, entry, ins, outs, size);
            var ins' := ins[b.name := newIn];
            var outs' := outs[b.name := Union(newIn, gens[b.name])];
            && WellSized(g, ins', outs', gens, size)
            && forall c {:trigger Stable(c, entry, ins', outs', gens, size)} ::
                 c in g && c.name in processed + {b.name} && c !in work ==> Stable(c, entry, ins', outs', gens, size)
  {
    var newIn := InOf(b, entry, ins, outs, size);
    var ins' := ins[b.name := newIn];
    var outs' := outs[b.name := Union(newIn, gens[b.name])];
    assert Sized(g, outs', size);
    ClosedPredsMapped(g, outs, size);
    ClosedPredsMapped(g, outs', size);
    forall c | c in g && c.name in processed + {b.name} && c !in work
      ensures Stable(c, entry, ins', outs', gens, size)
    {
      if c != b {
        assert c.name != b.name;
        assert c !in [b] + rest;
      }
      StepKeepsStable(g, entry, ins, outs, gens, size, b, c);
    }
  }

  /**
   * What holds for one analysis between iterations of the worklist loop:
   * the values are a post-fixpoint, the entry keeps its seed, blocks never
   * taken from the queue keep their initial values, and (with mutual edges)
   * every processed block off the queue is stable.
   */
  ghost predicate LoopInv(g: set<BasicBlock>, entry: string, seed: Bits, ins: map<string, Bits>,
                          outs: map<string, Bits>, gens: map<string, Bits>, size: nat,
                          work: seq<BasicBlock>, processed: set<string>)
    reads g
  {
    && WellSized(g, ins, outs, gens, size)
    && entry in ins && ins[entry] == seed
    && PostFixpoint(g, entry, ins, outs, gens, size)
    && (forall k :: 0 <= k < |work| ==> work[k] in g)
    && (forall c :: c in g && c.name !in processed ==>
          outs[c.name] == Ones(size) && ins[c.name] == (if c.name == entry then seed else Zeros(size)))
    && (Mutual(g) ==> forall c {:trigger Stable(c, entry, ins, outs, gens, size)} ::
          c in g && c.name in processed && c !in work ==> Stable(c, entry, ins, outs, gens, size))
  }

  /** Before the first iteration: OUT is all ones everywhere and only the entry is queued. */
  lemma LoopInvInit(g: set<BasicBlock>, entry: BasicBlock, seed: Bits, ins: map<string, Bits>,
                    outs: map<string, Bits>, gens: map<string, Bits>, size: nat)
    requires entry in g && Closed(g) && Sized(g, ins, size) && Sized(g, outs, size) && Sized(g, gens, size)
    requires ins[entry.name] == seed
    requires forall c :: c in g ==>
               outs[c.name] == Ones(size) && ins[c.name] == (if c.name == entry.name then seed else Zeros(size))
    ensures LoopInv(g, entry.name, seed, ins, outs, gens, size, [entry], {})
  {
    ClosedPredsMapped(g, outs, size);
  }

  /** The head of the queue is a block of the graph whose values have the width. */
  lemma LoopInvHead(g: set<BasicBlock>, entry: string, seed: Bits, ins: map<string, Bits>,
                    outs: map<string, Bits>, gens: map<string, Bits>, size: nat,
                    b: BasicBlock, rest: seq<BasicBlock>, processed: set<string>)
    requires LoopInv(g, entry, seed, ins, outs, gens, size, [b] + rest, processed)
    ensures b in g && b.name in ins && b.name in outs && b.name in gens
    ensures |ins[b.name]| == size && |gens[b.name]| == size && PredsMapped(b.pred, outs, size)
  {
    assert ([b] + rest)[0] == b;
    ClosedPredsMapped(g, outs, size);
  }

  /**
   * One iteration takes `b` off the queue, updates it, and queues its
   * successors when `moved` (which must hold when its OUT changed).
   */
  lemma LoopInvStep(g: set<BasicBlock>, entry: string, seed: Bits, ins: map<string, Bits>,
                    outs: map<string, Bits>, gens: map<string, Bits>, size: nat,
                    b: BasicBlock, rest: seq<BasicBlock>, processed: set<string>, moved: bool)
    requires UniqueNames(g) && LoopInv(g, entry, seed, ins, outs, gens, size, [b] + rest, processed)
    ensures b in g && PredsMapped(b.pred, outs, size)
    ensures var newIn := InOf(b, entry, ins, outs, size);
            var newOut := Union(newIn, gens[b.name]);
            var work := if moved then rest + b.succ else rest;
            && Subset(newOut, outs[b.name])
            && ((moved || newOut == outs[b.name]) ==>
                  LoopInv(g, entry, seed, ins[b.name := newIn], outs[b.name := newOut], gens, size,
                          work, processed + {b.name}))
  {
    assert ([b] + rest)[0] == b;
    StepKeepsPostFixpoint(g, entry, ins, outs, gens, size, b);
    var newIn := InOf(b, entry, ins, outs, size);
    var newOut := Union(newIn, gens[b.name]);
    var work := if moved then rest + b.succ else rest;
    var ins', outs' := ins[b.name := newIn], outs[b.name := newOut];
    if moved || newOut == outs[b.name] {
      forall k | 0 <= k < |work| ensures work[k] in g {
        if k < |rest| {
          assert work[k] == ([b] + rest)[k + 1];
        } else {
          assert work[k] == b.succ[k - |rest|];
        }
      }
      assert ins'[entry] == seed;
      if Mutual(g) {
        forall c | c in rest ensures c in work {
        }
        StepKeepsAllStable(g, entry, ins, outs, gens, size, b, rest, work, processed);
      }
    }
  }

  /** The termination measure: set bits over every block's two OUT values (absent ones count 0). */
  function Total(bs: seq<BasicBlock>, d: map<string, Bits>, s: map<string, Bits>): nat
    decreases |bs|
  {
    if bs == [] then 0
    else SetBits(d, bs[0].name) + SetBits(s, bs[0].name) + Total(bs[1..], d, s)
  }

  function SetBits(m: map<string, Bits>, x: string): nat
  {
    if x in m then Count(m[x]) else 0
  }

  /** Shrinking one block's OUT values never raises the measure, and strictly lowers it on a change. */
  lemma {:induction false} TotalShrinks(bs: seq<BasicBlock>, d: map<string, Bits>, s: map<string, Bits>,
                                        x: string, dv: Bits, sv: Bits)
    requires x in d && x in s && Subset(dv, d[x]) && Subset(sv, s[x])
    ensures Total(bs, d[x := dv], s[x := sv]) <= Total(bs, d, s)
    ensures (exists k :: 0 <= k < |bs| && bs[k].name == x) && (dv != d[x] || sv != s[x]) ==>
              Total(bs, d[x := dv], s[x := sv]) < Total(bs, d, s)
    decreases |bs|
  {
    if bs != [] {
      var rest := bs[1..];
      assert forall k :: 0 <= k < |rest| ==> rest[k] == bs[k + 1];
      TotalShrinks(rest, d, s, x, dv, sv);
      CountMonotone(dv, d[x]);
      CountMonotone(sv, s[x]);
      if (exists k :: 0 <= k < |bs| && bs[k].name == x) && bs[0].name != x {
        var k :| 0 <= k < |bs| && bs[k].name == x;
        assert rest[k - 1].name == x;
      }
    }
  }
}
