/**
 * The breadth-first walk over a function's control-flow graph that the
 * plotter lays out by level.  A block is marked visited when it is queued,
 * and `visited` compares blocks by name, as the block's `equals` does.
 *
 * The proofs follow the whole trace: the blocks already yielded followed by
 * the queue.  A `next` call moves the head of the queue to the yielded part
 * and appends the head's unvisited successors, so the trace only grows.
 */
module Bfs {
  import opened Wrappers
  import opened Blocks
  import opened Funcs
  import opened BfsTrace

  class BfsIterator {
    var queue: seq<BlockLevel>
    var visited: set<string>
    /** The entries yielded so far and the successor list read for each of them. */
    ghost var emitted: seq<BlockLevel>
    ghost var observed: seq<seq<BasicBlock>>
    ghost const entry: BasicBlock

    /**
     * The iterator's state is the one its `next` calls produce from the
     * entry, reading the recorded successor lists; those lists are still
     * the yielded blocks' successors.
     */
    ghost predicate Valid()
      reads this, Objects(emitted)
    {
      && Walk(queue, visited, emitted) == Replay(entry, observed)
      && |emitted| == |observed|
      && Faithful(emitted, observed)
    }

    /** `init`: the entry block is queued at level 0 and visited. */
    constructor (entry: BasicBlock)
      ensures Valid()
      ensures queue == [BlockLevel(0, entry)] && visited == {entry.name}
      ensures emitted == [] && observed == [] && this.entry == entry
    {
      queue := [BlockLevel(0, entry)];
      visited := {entry.name};
      emitted, observed := [], [];
      this.entry := entry;
    }

    /** `hasNext`: the queue is non-empty. */
    function HasNext(): (b: bool)
      reads this
      ensures b <==> queue != []
    {
      |queue| > 0
    }

    /**
     * `next`: an empty queue throws; otherwise the head is removed and
     * returned after its unvisited successors are queued one level deeper.
     */
    method Next() returns (r: Result<BlockLevel>)
      requires Valid()
      modifies this
      ensures Valid()
      ensures old(queue) == [] ==>
                && r == Err(NoSuchElement)
                && Walk(queue, visited, emitted) == old(Walk(queue, visited, emitted))
                && observed == old(observed)
      ensures old(queue) != [] ==>
                && r == Ok(old(queue[0]))
                && Walk(queue, visited, emitted) == Advance(old(Walk(queue, visited, emitted)), old(queue[0].block.succ))
                && observed == old(observed + [queue[0].block.succ])
    {
      if |queue| == 0 {
        return Err(NoSuchElement);
      }
      var elem := queue[0];
      ghost var w, o0 := Walk(queue, visited, emitted), observed;
      var queue', visited' := Enqueue(queue[1..], visited, elem.block.succ, elem.level + 1);
      ghost var emitted' := emitted + [elem];
      ghost var ss := elem.block.succ;
      assert Walk(queue', visited', emitted') == Advance(w, ss);
      ReplayLast(entry, o0 + [ss], o0, ss);
      FaithfulExtend(emitted, o0, elem, ss);
      queue, visited, emitted, observed := queue', visited', emitted', o0 + [ss];
      r := Ok(elem);
    }
  }

  /** Yielding `x` after reading its successors `ss` keeps the recorded lists faithful. */
  lemma FaithfulExtend(t: seq<BlockLevel>, obs: seq<seq<BasicBlock>>, x: BlockLevel, ss: seq<BasicBlock>)
    requires Faithful(t, obs) && |t| == |obs| && x.block.succ == ss
    ensures Faithful(t + [x], obs + [ss])
  {
  }

  /**
   * The successor loop of `next`: each successor not yet visited is queued
   * at `level` and marked visited.
   */
  method Enqueue(queue: seq<BlockLevel>, visited: set<string>, succ: seq<BasicBlock>, level: int)
    returns (queue': seq<BlockLevel>, visited': set<string>)
    ensures queue' == queue + Appended(succ, visited, level)
    ensures visited' == visited + BlockNames(succ)
  {
    queue', visited' := queue, visited;
    for k := 0 to |succ|
      invariant queue' == queue + Appended(succ[..k], visited, level)
      invariant visited' == visited + BlockNames(succ[..k])
    {
      var s := succ[k];
      assert succ[..k + 1][..k] == succ[..k];
      if s.name !in visited' {
        queue' := queue' + [BlockLevel(level, s)];
        visited' := visited' + {s.name};
      }
    }
    assert succ[..|succ|] == succ;
  }

  /** The iterator over a function: `func.entry` throws when there are no blocks. */
  method Create(func: Func) returns (r: Result<BfsIterator>)
    ensures r.Ok? <==> |func.blocks| > 0
    ensures r.Err? ==> r.error == IndexOutOfBounds
    ensures r.Ok? ==> fresh(r.value) && r.value.Valid() && r.value.emitted == []
                      && r.value.queue == [BlockLevel(0, func.blocks[0])]
                      && r.value.visited == {func.blocks[0].name}
  {
    var entry := func.Entry();
    if entry.Err? {
      return Err(IndexOutOfBounds);
    }
    var it := new BfsIterator(entry.value);
    r := Ok(it);
  }

  // ---------------------------------------------------------------------
  // What the walk yields.

  /** The trace invariant holds for every state the iterator reaches. */
  lemma Invariant(it: BfsIterator) returns (pos: map<string, nat>, parents: seq<nat>)
    requires it.Valid()
    ensures Inv(it.emitted + it.queue, |it.emitted|, it.visited, pos, parents, it.entry, it.observed)
    ensures Faithful(it.emitted + it.queue, it.observed)
  {
    var r;
    r, pos, parents := ReplayInv(it.entry, it.observed);
    var t := it.emitted + it.queue;
    forall i | 0 <= i < |it.observed| && i < |t| ensures t[i].block.succ == it.observed[i] {
      assert t[i] == it.emitted[i];
    }
  }

  /** The first entry yielded is the entry block at level 0. */
  lemma FirstIsEntry(it: BfsIterator)
    requires it.Valid() && it.emitted != []
    ensures it.emitted[0] == BlockLevel(0, it.entry)
  {
    var pos, parents := Invariant(it);
    assert it.emitted[0] == (it.emitted + it.queue)[0];
  }

  /**
   * No name is yielded twice, nor yielded and still queued, and the visited
   * set is exactly the names yielded or queued.
   */
  lemma YieldedOnce(it: BfsIterator)
    requires it.Valid()
    ensures forall i, j :: 0 <= i < j < |it.emitted + it.queue| ==>
              (it.emitted + it.queue)[i].block.name != (it.emitted + it.queue)[j].block.name
    ensures it.visited == TraceNames(it.emitted + it.queue)
  {
    var pos, parents := Invariant(it);
  }

  /** Yielded levels never decrease and start at 0. */
  lemma LevelsOrdered(it: BfsIterator)
    requires it.Valid()
    ensures forall i, j :: 0 <= i < j < |it.emitted| ==> it.emitted[i].level <= it.emitted[j].level
    ensures forall i :: 0 <= i < |it.emitted| ==> it.emitted[i].level >= 0
  {
    var pos, parents := Invariant(it);
    var t := it.emitted + it.queue;
    forall i, j | 0 <= i < j < |it.emitted| ensures it.emitted[i].level <= it.emitted[j].level {
      assert it.emitted[i] == t[i] && it.emitted[j] == t[j];
    }
    forall i | 0 <= i < |it.emitted| ensures it.emitted[i].level >= 0 {
      assert it.emitted[i] == t[i] && t[0].level == 0;
      assert i == 0 || t[0].level <= t[i].level;
    }
  }

  /** Every yielded or queued block is reached from the entry by a walk as long as its level. */
  lemma Reachable(it: BfsIterator, i: nat) returns (w: seq<BasicBlock>)
    requires it.Valid() && i < |it.emitted + it.queue|
    ensures IsWalk(w) && w[0] == it.entry
    ensures w[|w| - 1] == (it.emitted + it.queue)[i].block && |w| == (it.emitted + it.queue)[i].level + 1
  {
    var pos, parents := Invariant(it);
    w := WalkTo(it.emitted + it.queue, |it.emitted|, parents, it.entry, it.observed, i);
  }

  /**
   * Once the queue is empty, every block that a walk from the entry reaches
   * inside a closed, name-unique graph has been yielded, at a level no
   * larger than the walk's length.
   */
  lemma WalksCovered(it: BfsIterator, g: set<BasicBlock>, w: seq<BasicBlock>) returns (j: nat)
    requires it.Valid() && it.queue == []
    requires it.entry in g && Closed(g) && UniqueNames(g)
    requires IsWalk(w) && w[0] == it.entry && forall k :: 0 <= k < |w| ==> w[k] in g
    ensures j < |it.emitted| && it.emitted[j].block == w[|w| - 1] && it.emitted[j].level <= |w| - 1
  {
    var pos, parents := Invariant(it);
    assert it.emitted + it.queue == it.emitted;
    j := Exhaustive(it.emitted, it.visited, pos, parents, it.entry, it.observed, g, w);
  }

  /**
   * Once the queue is empty, each yielded block's level is its shortest
   * distance from the entry: no walk to it is shorter, and one is as long.
   */
  lemma ShortestLevels(it: BfsIterator, g: set<BasicBlock>, i: nat, w: seq<BasicBlock>)
    requires it.Valid() && it.queue == []
    requires it.entry in g && Closed(g) && UniqueNames(g)
    requires i < |it.emitted|
    requires IsWalk(w) && w[0] == it.entry && forall k :: 0 <= k < |w| ==> w[k] in g
    requires w[|w| - 1] == it.emitted[i].block
    ensures it.emitted[i].level <= |w| - 1
  {
    var j := WalksCovered(it, g, w);
    YieldedOnce(it);
    assert it.emitted + it.queue == it.emitted;
    assert i == j by {
      assert it.emitted[i].block.name == it.emitted[j].block.name;
    }
  }
}
