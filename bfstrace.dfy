/**
 * The trace of the breadth-first walk: the blocks already yielded followed
 * by the queue.  A `next` call moves the head of the queue to the yielded
 * part and appends the head's unvisited successors, so the trace only
 * grows; the invariant below is what every step keeps.
 */
module BfsTrace {
  import opened Blocks

  /** `BlockLevel`: a block with the level at which the walk reached it. */
  datatype BlockLevel = BlockLevel(level: int, block: BasicBlock)

  ghost function Objects(t: seq<BlockLevel>): set<BasicBlock>
  {
    set i | 0 <= i < |t| :: t[i].block
  }

  /** The names of the trace's blocks. */
  function TraceNames(t: seq<BlockLevel>): set<string>
    decreases |t|
  {
    if t == [] then {} else TraceNames(t[..|t| - 1]) + {t[|t| - 1].block.name}
  }

  lemma {:induction false} TraceNamesHas(t: seq<BlockLevel>, i: nat)
    requires i < |t|
    ensures t[i].block.name in TraceNames(t)
    decreases |t|
  {
    if i < |t| - 1 {
      TraceNamesHas(t[..|t| - 1], i);
    }
  }

  lemma {:induction false} TraceNamesWitness(t: seq<BlockLevel>, x: string) returns (i: nat)
    requires x in TraceNames(t)
    ensures i < |t| && t[i].block.name == x
    decreases |t|
  {
    if x == t[|t| - 1].block.name {
      i := |t| - 1;
    } else {
      i := TraceNamesWitness(t[..|t| - 1], x);
    }
  }

  /**
   * What the successor loop of `next` appends, for successors `ss` seen in
   * order, starting from the visited set `seen`: each successor whose name
   * is neither in `seen` nor carried by an earlier successor, at `level`.
   */
  function Appended(ss: seq<BasicBlock>, seen: set<string>, level: int): seq<BlockLevel>
    decreases |ss|
  {
    if ss == [] then []
    else
      var front := ss[..|ss| - 1];
      var s := ss[|ss| - 1];
      Appended(front, seen, level) + (if s.name in seen + BlockNames(front) then [] else [BlockLevel(level, s)])
  }

  /**
   * The appended entries are successors at `level`, none was seen before,
   * no two share a name, and together they carry exactly the unseen names.
   */
  lemma AppendedFacts(ss: seq<BasicBlock>, seen: set<string>, level: int, a: seq<BlockLevel>)
    requires a == Appended(ss, seen, level)
    ensures && (forall j :: 0 <= j < |a| ==> a[j].level == level && a[j].block in ss && a[j].block.name !in seen)
            && (forall i, j :: 0 <= i < j < |a| ==> a[i].block.name != a[j].block.name)
            && TraceNames(a) == BlockNames(ss) - seen
  {
    AppendedEntries(ss, seen, level);
    AppendedNames(ss, seen, level, a);
  }

  /** Each appended entry is an unseen successor at `level`. */
  lemma {:induction false} AppendedEntries(ss: seq<BasicBlock>, seen: set<string>, level: int)
    ensures forall j :: 0 <= j < |Appended(ss, seen, level)| ==>
              && Appended(ss, seen, level)[j].level == level
              && Appended(ss, seen, level)[j].block in ss
              && Appended(ss, seen, level)[j].block.name !in seen
    decreases |ss|
  {
    if ss != [] {
      var front := ss[..|ss| - 1];
      var s := ss[|ss| - 1];
      AppendedEntries(front, seen, level);
      var a0 := Appended(front, seen, level);
      var a := Appended(ss, seen, level);
      var added := s.name !in seen + BlockNames(front);
      assert a == if added then a0 + [BlockLevel(level, s)] else a0;
      forall j | 0 <= j < |a| ensures a[j].level == level && a[j].block in ss && a[j].block.name !in seen {
        if j < |a0| {
          assert a[j] == a0[j];
          assert a0[j].level == level && a0[j].block in front && a0[j].block.name !in seen;
          var k :| 0 <= k < |front| && front[k] == a0[j].block;
          assert ss[k] == front[k];
        } else {
          assert added && a[j] == BlockLevel(level, s);
        }
      }
    }
  }

  /** The appended entries carry distinct names, exactly the unseen ones. */
  lemma {:induction false} AppendedNames(ss: seq<BasicBlock>, seen: set<string>, level: int, a: seq<BlockLevel>)
    requires a == Appended(ss, seen, level)
    ensures && (forall i, j :: 0 <= i < j < |a| ==> a[i].block.name != a[j].block.name)
            && TraceNames(a) == BlockNames(ss) - seen
    decreases |ss|
  {
    if ss != [] {
      var front := ss[..|ss| - 1];
      var s := ss[|ss| - 1];
      var a0 := Appended(front, seen, level);
      AppendedNames(front, seen, level, a0);
      assert BlockNames(ss) == BlockNames(front) + {s.name};
      if s.name !in seen + BlockNames(front) {
        assert a == a0 + [BlockLevel(level, s)];
        assert a[..|a| - 1] == a0;
        assert TraceNames(a) == TraceNames(a0) + {s.name};
        forall i | 0 <= i < |a0| ensures a[i].block.name != s.name {
          TraceNamesHas(a0, i);
        }
      } else {
        assert Appended(ss, seen, level) == a0;
      }
    }
  }

  /** Numbers the entries of `t` from `base` on, by name. */
  function AddPositions(pos: map<string, nat>, t: seq<BlockLevel>, base: nat): map<string, nat>
    decreases |t|
  {
    if t == [] then pos
    else AddPositions(pos, t[..|t| - 1], base)[t[|t| - 1].block.name := base + |t| - 1]
  }

  lemma {:induction false} AddPositionsFacts(pos: map<string, nat>, t: seq<BlockLevel>, base: nat, p: map<string, nat>)
    requires forall i, j :: 0 <= i < j < |t| ==> t[i].block.name != t[j].block.name
    requires forall j :: 0 <= j < |t| ==> t[j].block.name !in pos
    requires p == AddPositions(pos, t, base)
    ensures && p.Keys == pos.Keys + TraceNames(t)
            && (forall n :: n in pos ==> p[n] == pos[n])
            && (forall j :: 0 <= j < |t| ==> t[j].block.name in p && p[t[j].block.name] == base + j)
    decreases |t|
  {
    if t != [] {
      var front := t[..|t| - 1];
      AddPositionsFacts(pos, front, base, AddPositions(pos, front, base));
      forall j | 0 <= j < |front| ensures t[j] == front[j] { }
    }
  }

  // ---------------------------------------------------------------------
  // The trace invariant.  `t` is the trace, `e` the number of yielded
  // entries (the queue is `t[e..]`), and `obs[i]` the successor list that
  // was read when entry `i` was yielded.

  /** The walk starts at the entry, at level 0. */
  ghost predicate Rooted(t: seq<BlockLevel>, entry: BasicBlock)
  {
    |t| > 0 && t[0] == BlockLevel(0, entry)
  }

  /** `visited` holds exactly the trace's names, each at one position of the trace. */
  ghost predicate Numbered(t: seq<BlockLevel>, visited: set<string>, pos: map<string, nat>)
  {
    && visited == pos.Keys == TraceNames(t)
    && (forall i :: 0 <= i < |t| ==> t[i].block.name in pos && pos[t[i].block.name] == i)
  }

  /** A numbered name sits at its position in the trace. */
  lemma NumberedAt(t: seq<BlockLevel>, visited: set<string>, pos: map<string, nat>, n: string)
    requires Numbered(t, visited, pos) && n in pos
    ensures pos[n] < |t| && t[pos[n]].block.name == n
  {
    var i := TraceNamesWitness(t, n);
  }

  lemma {:induction false} TraceNamesAppend(t: seq<BlockLevel>, a: seq<BlockLevel>)
    ensures TraceNames(t + a) == TraceNames(t) + TraceNames(a)
    decreases |a|
  {
    if a != [] {
      var front := a[..|a| - 1];
      TraceNamesAppend(t, front);
      assert (t + a)[..|t + a| - 1] == t + front;
      assert (t + a)[|t + a| - 1] == a[|a| - 1];
    } else {
      assert t + a == t;
    }
  }

  /** Levels never decrease along the trace, and the queue spans at most two levels. */
  ghost predicate Layered(t: seq<BlockLevel>, e: nat)
  {
    && (forall i, j :: 0 <= i < j < |t| ==> t[i].level <= t[j].level)
    && (forall i :: e <= i < |t| ==> t[i].level <= t[e].level + 1)
  }

  /**
   * One successor list was read per yielded entry, and every entry after the
   * first was read as a successor of a yielded entry, one level deeper.
   */
  ghost predicate Discovered(t: seq<BlockLevel>, e: nat, parents: seq<nat>, obs: seq<seq<BasicBlock>>)
  {
    && |parents| == |t| && |obs| == e
    && forall i {:trigger parents[i]} :: 0 < i < |t| ==>
         && parents[i] < i && parents[i] < e
         && t[i].block in obs[parents[i]]
         && t[i].level == t[parents[i]].level + 1
  }

  /** Every successor read for a yielded entry is in the trace, at most one level deeper. */
  ghost predicate Covered(t: seq<BlockLevel>, e: nat, pos: map<string, nat>, obs: seq<seq<BasicBlock>>)
  {
    forall i, k :: 0 <= i < e && i < |t| && i < |obs| && 0 <= k < |obs[i]| ==>
      && obs[i][k].name in pos
      && pos[obs[i][k].name] < |t|
      && t[pos[obs[i][k].name]].level <= t[i].level + 1
  }

  ghost predicate Inv(t: seq<BlockLevel>, e: nat, visited: set<string>, pos: map<string, nat>,
                      parents: seq<nat>, entry: BasicBlock, obs: seq<seq<BasicBlock>>)
  {
    && e <= |t|
    && Rooted(t, entry)
    && Numbered(t, visited, pos)
    && Layered(t, e)
    && Discovered(t, e, parents, obs)
    && Covered(t, e, pos, obs)
  }

  // ---------------------------------------------------------------------
  // One `next` step on the trace: the head `t[e]` is yielded and its
  // successor list `ss` is read.

  /** Appending entries with fresh, distinct names numbers them after the trace. */
  lemma NumberedAppend(t: seq<BlockLevel>, visited: set<string>, pos: map<string, nat>, a: seq<BlockLevel>)
    requires Numbered(t, visited, pos)
    requires forall i, j :: 0 <= i < j < |a| ==> a[i].block.name != a[j].block.name
    requires forall j :: 0 <= j < |a| ==> a[j].block.name !in visited
    ensures Numbered(t + a, visited + TraceNames(a), AddPositions(pos, a, |t|))
  {
    var t' := t + a;
    var p := AddPositions(pos, a, |t|);
    AddPositionsFacts(pos, a, |t|, p);
    TraceNamesAppend(t, a);
    forall i | 0 <= i < |t'| ensures t'[i].block.name in p && p[t'[i].block.name] == i {
      if i >= |t| {
        assert t'[i] == a[i - |t|];
        TraceNamesHas(a, i - |t|);
      } else {
        assert t'[i] == t[i];
      }
    }
  }

  lemma StepNumbered(t: seq<BlockLevel>, visited: set<string>, pos: map<string, nat>,
                     ss: seq<BasicBlock>, level: int, a: seq<BlockLevel>)
    requires Numbered(t, visited, pos) && a == Appended(ss, visited, level)
    ensures Numbered(t + a, visited + BlockNames(ss), AddPositions(pos, a, |t|))
  {
    AppendedFacts(ss, visited, level, a);
    NumberedAppend(t, visited, pos, a);
    assert visited + TraceNames(a) == visited + BlockNames(ss);
  }

  lemma StepLayered(t: seq<BlockLevel>, e: nat, a: seq<BlockLevel>)
    requires e < |t| && Layered(t, e)
    requires forall j :: 0 <= j < |a| ==> a[j].level == t[e].level + 1
    ensures Layered(t + a, e + 1)
  {
    var t' := t + a;
    forall i, j | 0 <= i < j < |t'| ensures t'[i].level <= t'[j].level {
      if j >= |t| && i < |t| {
        assert t[i].level <= t[|t| - 1].level || i == |t| - 1;
      }
    }
    if e + 1 < |t'| {
      assert t'[e + 1].level >= t[e].level by {
        if e + 1 < |t| { assert t'[e + 1] == t[e + 1]; }
      }
    }
  }

  /** `n` copies of the parent position `e`. */
  function Repeat(e: nat, n: nat): (r: seq<nat>)
    ensures |r| == n && forall j :: 0 <= j < n ==> r[j] == e
  {
    if n == 0 then [] else Repeat(e, n - 1) + [e]
  }

  lemma StepDiscovered(t: seq<BlockLevel>, e: nat, parents: seq<nat>, obs: seq<seq<BasicBlock>>,
                       ss: seq<BasicBlock>, a: seq<BlockLevel>)
    requires e < |t| && Discovered(t, e, parents, obs)
    requires forall j :: 0 <= j < |a| ==> a[j].level == t[e].level + 1 && a[j].block in ss
    ensures Discovered(t + a, e + 1, parents + Repeat(e, |a|), obs + [ss])
  {
    var t' := t + a;
    var p' := parents + Repeat(e, |a|);
    var o' := obs + [ss];
    forall i | 0 < i < |t'|
      ensures && p'[i] < i && p'[i] < e + 1
              && t'[i].block in o'[p'[i]]
              && t'[i].level == t'[p'[i]].level + 1
    {
      if i < |t| {
        assert p'[i] == parents[i] && o'[parents[i]] == obs[parents[i]];
      } else {
        assert p'[i] == e && t'[i] == a[i - |t|] && o'[e] == ss;
      }
    }
  }

  /** Successors read for earlier entries stay covered when the trace and the numbering grow. */
  lemma CoveredKept(t: seq<BlockLevel>, e: nat, pos: map<string, nat>, obs: seq<seq<BasicBlock>>,
                    ss: seq<BasicBlock>, a: seq<BlockLevel>, p: map<string, nat>)
    requires e <= |t| && |obs| == e && Covered(t, e, pos, obs)
    requires forall n :: n in pos ==> n in p && p[n] == pos[n]
    ensures forall i, k :: 0 <= i < e && 0 <= k < |(obs + [ss])[i]| ==>
              && (obs + [ss])[i][k].name in p
              && p[(obs + [ss])[i][k].name] < |t + a|
              && (t + a)[p[(obs + [ss])[i][k].name]].level <= (t + a)[i].level + 1
  {
    var t': seq<BlockLevel>, o': seq<seq<BasicBlock>> := t + a, obs + [ss];
    forall i, k | 0 <= i < e && 0 <= k < |o'[i]|
      ensures && o'[i][k].name in p
              && p[o'[i][k].name] < |t'|
              && t'[p[o'[i][k].name]].level <= t'[i].level + 1
    {
      assert t'[i] == t[i] && o'[i] == obs[i];
      var n := obs[i][k].name;
      assert t'[pos[n]] == t[pos[n]];
    }
  }

  /** A successor already in the trace keeps its position, at most one level below the head. */
  lemma HeadSuccOld(t: seq<BlockLevel>, e: nat, visited: set<string>, pos: map<string, nat>,
                    a: seq<BlockLevel>, p: map<string, nat>, n: string)
    requires e < |t| && Numbered(t, visited, pos) && Layered(t, e)
    requires forall m :: m in pos ==> m in p && p[m] == pos[m]
    requires n in pos
    ensures n in p && p[n] < |t + a| && (t + a)[p[n]].level <= t[e].level + 1
  {
    NumberedAt(t, visited, pos, n);
    var q := pos[n];
    assert (t + a)[q] == t[q];
    if q < e {
      assert t[q].level <= t[e].level;
    } else {
      assert t[q].level <= t[e].level + 1;
    }
  }

  /** A successor appended by the step sits after the trace, at the appended level. */
  lemma HeadSuccNew(t: seq<BlockLevel>, a: seq<BlockLevel>, p: map<string, nat>, n: string, level: int)
    requires n in TraceNames(a)
    requires forall j :: 0 <= j < |a| ==> a[j].level == level
    requires forall j :: 0 <= j < |a| ==> a[j].block.name in p && p[a[j].block.name] == |t| + j
    ensures n in p && p[n] < |t + a| && (t + a)[p[n]].level == level
  {
    var j := TraceNamesWitness(a, n);
    assert (t + a)[|t| + j] == a[j];
  }

  /** After a step, every successor read for the head is in the trace, at most one level deeper. */
  lemma CoveredHead(t: seq<BlockLevel>, e: nat, visited: set<string>, pos: map<string, nat>,
                    ss: seq<BasicBlock>, a: seq<BlockLevel>, p: map<string, nat>)
    requires e < |t| && Numbered(t, visited, pos) && Layered(t, e)
    requires a == Appended(ss, visited, t[e].level + 1) && p == AddPositions(pos, a, |t|)
    ensures forall k :: 0 <= k < |ss| ==>
              && ss[k].name in p && p[ss[k].name] < |t + a|
              && (t + a)[p[ss[k].name]].level <= t[e].level + 1
  {
    AppendedFacts(ss, visited, t[e].level + 1, a);
    AddPositionsFacts(pos, a, |t|, p);
    forall k | 0 <= k < |ss|
      ensures && ss[k].name in p && p[ss[k].name] < |t + a|
              && (t + a)[p[ss[k].name]].level <= t[e].level + 1
    {
      var n := ss[k].name;
      if n in pos {
        HeadSuccOld(t, e, visited, pos, a, p, n);
      } else {
        BlockNamesMember(ss, n);
        HeadSuccNew(t, a, p, n, t[e].level + 1);
      }
    }
  }

  lemma StepCovered(t: seq<BlockLevel>, e: nat, visited: set<string>, pos: map<string, nat>,
                    obs: seq<seq<BasicBlock>>, ss: seq<BasicBlock>, a: seq<BlockLevel>, p: map<string, nat>)
    requires e < |t| && |obs| == e
    requires Numbered(t, visited, pos) && Layered(t, e) && Covered(t, e, pos, obs)
    requires a == Appended(ss, visited, t[e].level + 1) && p == AddPositions(pos, a, |t|)
    ensures Covered(t + a, e + 1, p, obs + [ss])
  {
    AppendedFacts(ss, visited, t[e].level + 1, a);
    AddPositionsFacts(pos, a, |t|, p);
    CoveredKept(t, e, pos, obs, ss, a, p);
    CoveredHead(t, e, visited, pos, ss, a, p);
    assert (t + a)[e] == t[e] && (obs + [ss])[e] == ss;
  }

  /**
   * A `next` step keeps the invariant: the trace grows by the appended
   * successors `a`, which get the next positions and the head as parent.
   */
  lemma StepInv(t: seq<BlockLevel>, e: nat, visited: set<string>, pos: map<string, nat>,
                parents: seq<nat>, entry: BasicBlock, obs: seq<seq<BasicBlock>>, ss: seq<BasicBlock>)
    returns (a: seq<BlockLevel>, pos': map<string, nat>, parents': seq<nat>)
    requires Inv(t, e, visited, pos, parents, entry, obs) && e < |t|
    ensures a == Appended(ss, visited, t[e].level + 1)
    ensures pos' == AddPositions(pos, a, |t|) && parents' == parents + Repeat(e, |a|)
    ensures Inv(t + a, e + 1, visited + BlockNames(ss), pos', parents', entry, obs + [ss])
  {
    a := Appended(ss, visited, t[e].level + 1);
    pos', parents' := AddPositions(pos, a, |t|), parents + Repeat(e, |a|);
    AppendedFacts(ss, visited, t[e].level + 1, a);
    StepNumbered(t, visited, pos, ss, t[e].level + 1, a);
    StepLayered(t, e, a);
    StepDiscovered(t, e, parents, obs, ss, a);
    StepCovered(t, e, visited, pos, obs, ss, a, pos');
    assert (t + a)[0] == t[0];
  }

  // ---------------------------------------------------------------------
  // The iterator's state as a function of the successor lists it has read.

  /** What an iterator holds: its queue, the visited names, and the entries yielded so far. */
  datatype Walk = Walk(queue: seq<BlockLevel>, visited: set<string>, emitted: seq<BlockLevel>)

  /** `init`: the entry block queued at level 0 and visited. */
  function Start(entry: BasicBlock): Walk
  {
    Walk([BlockLevel(0, entry)], {entry.name}, [])
  }

  /**
   * One `next` call that reads `ss` as the head's successors: the head is
   * yielded and the unvisited successors are queued one level deeper.  On
   * an empty queue the call throws and the state stays as it was.
   */
  function Advance(w: Walk, ss: seq<BasicBlock>): Walk
  {
    if w.queue == [] then w
    else Walk(w.queue[1..] + Appended(ss, w.visited, w.queue[0].level + 1),
              w.visited + BlockNames(ss),
              w.emitted + [w.queue[0]])
  }

  /** The state after the `next` calls that read the successor lists `obs`, in order. */
  function Replay(entry: BasicBlock, obs: seq<seq<BasicBlock>>): Walk
    decreases |obs|
  {
    if obs == [] then Start(entry) else Advance(Replay(entry, obs[..|obs| - 1]), obs[|obs| - 1])
  }

  /** Each call yields at most one entry. */
  lemma {:induction false} ReplayYields(entry: BasicBlock, obs: seq<seq<BasicBlock>>)
    ensures |Replay(entry, obs).emitted| <= |obs|
    decreases |obs|
  {
    if obs != [] {
      ReplayYields(entry, obs[..|obs| - 1]);
    }
  }

  /** Moving the queue's head to the yielded part and appending `a` extends the trace by `a`. */
  lemma MoveHead(x: seq<BlockLevel>, q: seq<BlockLevel>, a: seq<BlockLevel>)
    requires q != []
    ensures (x + [q[0]]) + (q[1..] + a) == (x + q) + a
  {
    assert q == [q[0]] + q[1..];
  }

  /** The state before any `next` call satisfies the trace invariant. */
  lemma StartInv(entry: BasicBlock) returns (pos: map<string, nat>, parents: seq<nat>)
    ensures Inv(Start(entry).emitted + Start(entry).queue, 0, Start(entry).visited, pos, parents, entry, [])
  {
    pos, parents := map[entry.name := 0], [0];
    var t := [BlockLevel(0, entry)];
    assert Start(entry).emitted + Start(entry).queue == t;
    assert t[..0] == [];
    assert Numbered(t, {entry.name}, pos);
    assert Layered(t, 0);
    assert Discovered(t, 0, parents, []);
  }

  /**
   * The invariant after a `next` step that yields the head of `w`'s queue
   * and reads `ss` as its successors.
   */
  lemma StepKeepsInv(w: Walk, pos: map<string, nat>, parents: seq<nat>, entry: BasicBlock,
                     obs: seq<seq<BasicBlock>>, ss: seq<BasicBlock>)
    returns (pos': map<string, nat>, parents': seq<nat>)
    requires w.queue != [] && Inv(w.emitted + w.queue, |w.emitted|, w.visited, pos, parents, entry, obs) == true
    ensures Inv(Advance(w, ss).emitted + Advance(w, ss).queue, |w.emitted| + 1,
                Advance(w, ss).visited, pos', parents', entry, obs + [ss]) == true
  {
    var t, e := w.emitted + w.queue, |w.emitted|;
    assert t[e] == w.queue[0];
    var a;
    a, pos', parents' := StepInv(t, e, w.visited, pos, parents, entry, obs, ss);
    MoveHead(w.emitted, w.queue, a);
  }

  /** Replaying one more successor list is one more `next` call. */
  lemma ReplayLast(entry: BasicBlock, obs: seq<seq<BasicBlock>>, front: seq<seq<BasicBlock>>, ss: seq<BasicBlock>)
    requires obs != [] && front == obs[..|obs| - 1] && ss == obs[|obs| - 1]
    ensures Replay(entry, obs) == Advance(Replay(entry, front), ss) && front + [ss] == obs
  {
  }

  /**
   * Every state the iterator reaches by `next` calls that each yielded an
   * entry satisfies the trace invariant.
   */
  lemma {:induction false} ReplayInv(entry: BasicBlock, obs: seq<seq<BasicBlock>>)
    returns (r: Walk, pos: map<string, nat>, parents: seq<nat>)
    requires |Replay(entry, obs).emitted| == |obs|
    ensures r == Replay(entry, obs)
    ensures Inv(r.emitted + r.queue, |obs|, r.visited, pos, parents, entry, obs) == true
    decreases |obs|
  {
    if obs == [] {
      r := Start(entry);
      pos, parents := StartInv(entry);
    } else {
      var front, ss := obs[..|obs| - 1], obs[|obs| - 1];
      ReplayLast(entry, obs, front, ss);
      ReplayYields(entry, front);
      var w, pos0, parents0 := ReplayInv(entry, front);
      assert w.queue != [] && |w.emitted| == |front|;
      r := Advance(w, ss);
      pos, parents := StepKeepsInv(w, pos0, parents0, entry, front, ss);
    }
  }

  // ---------------------------------------------------------------------
  // The trace in the graph.

  /** The successor lists read for the yielded entries are their blocks' successor lists. */
  ghost predicate Faithful(t: seq<BlockLevel>, obs: seq<seq<BasicBlock>>)
    reads Objects(t)
  {
    forall i :: 0 <= i < |obs| && i < |t| ==> t[i].block.succ == obs[i]
  }

  /** `w` follows successor edges from its first block to its last. */
  ghost predicate IsWalk(w: seq<BasicBlock>)
    reads set i | 0 <= i < |w| :: w[i]
  {
    |w| > 0 && forall i :: 0 <= i < |w| - 1 ==> w[i + 1] in w[i].succ
  }

  /** The walk from the entry along parent links to entry `i` of the trace. */
  ghost function WalkTo(t: seq<BlockLevel>, e: nat, parents: seq<nat>, entry: BasicBlock,
                        obs: seq<seq<BasicBlock>>, i: nat): (w: seq<BasicBlock>)
    reads Objects(t)
    requires i < |t| && Rooted(t, entry) && Discovered(t, e, parents, obs) && Faithful(t, obs)
    ensures |w| > 0 && w[0] == entry && w[|w| - 1] == t[i].block && |w| == t[i].level + 1
    ensures forall j :: 0 <= j < |w| ==> w[j] in Objects(t)
    ensures forall j :: 0 <= j < |w| - 1 ==> w[j + 1] in w[j].succ
    decreases i
  {
    if i == 0 then [entry]
    else WalkTo(t, e, parents, entry, obs, parents[i]) + [t[i].block]
  }

  /** Inside a closed graph, every block of the trace belongs to the graph. */
  lemma {:induction false} TraceInGraph(t: seq<BlockLevel>, e: nat, parents: seq<nat>, entry: BasicBlock,
                                        obs: seq<seq<BasicBlock>>, g: set<BasicBlock>, i: nat)
    requires Rooted(t, entry) && Discovered(t, e, parents, obs) && Faithful(t, obs)
    requires entry in g && Closed(g) && i < |t|
    ensures t[i].block in g
    decreases i
  {
    if i > 0 {
      TraceInGraph(t, e, parents, entry, obs, g, parents[i]);
      var ss := t[parents[i]].block.succ;
      var k :| 0 <= k < |ss| && ss[k] == t[i].block;
    }
  }

  /**
   * Once the queue is empty, every block a walk from the entry reaches
   * inside a closed, name-unique graph is in the trace, at a level no larger
   * than the walk's length.
   */
  lemma {:induction false} Exhaustive(t: seq<BlockLevel>, visited: set<string>, pos: map<string, nat>,
                                      parents: seq<nat>, entry: BasicBlock, obs: seq<seq<BasicBlock>>,
                                      g: set<BasicBlock>, w: seq<BasicBlock>)
    returns (j: nat)
    requires Inv(t, |t|, visited, pos, parents, entry, obs) && Faithful(t, obs)
    requires entry in g && Closed(g) && UniqueNames(g)
    requires IsWalk(w) && w[0] == entry && forall k :: 0 <= k < |w| ==> w[k] in g
    ensures j < |t| && t[j].block == w[|w| - 1] && t[j].level <= |w| - 1
    decreases |w|
  {
    if |w| == 1 {
      j := 0;
    } else {
      var front := w[..|w| - 1];
      assert IsWalk(front) by {
        forall k | 0 <= k < |front| - 1 ensures front[k + 1] in front[k].succ {
          assert front[k] == w[k] && front[k + 1] == w[k + 1];
        }
      }
      var i := Exhaustive(t, visited, pos, parents, entry, obs, g, front);
      var prev, last := w[|w| - 2], w[|w| - 1];
      assert t[i].block == prev;
      var k :| 0 <= k < |prev.succ| && prev.succ[k] == last;
      assert obs[i][k] == last;
      NumberedAt(t, visited, pos, last.name);
      j := pos[last.name];
      TraceInGraph(t, |t|, parents, entry, obs, g, j);
    }
  }
}
