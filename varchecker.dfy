/**
 * `checkFunc`: builds a Defined and a Stored value per block, then runs the
 * worklist until no OUT value changes.  Bit vectors are held as `Bits`.
 */
module VarCheckers {
  import opened Wrappers
  import opened BitVectors
  import opened Values
  import opened Instructions
  import opened Scopes
  import opened Blocks
  import opened Funcs
  import opened Dataflow

  // ---------------------------------------------------------------------
  // Gen sets.

  /** Every symbol the instructions define has an index in the scope. */
  predicate DefsInScope(insts: seq<Instruction>, index: map<string, int>)
  {
    forall k :: 0 <= k < |insts| && Def(insts[k]).Some? ==> Def(insts[k]).value.name in index
  }

  /** Every `Store` target has an index in the scope. */
  predicate StoresInScope(insts: seq<Instruction>, index: map<string, int>)
  {
    forall k :: 0 <= k < |insts| && insts[k].Store? ==> insts[k].dst.name in index
  }

  predicate ParamsInScope(params: seq<Symbol>, index: map<string, int>)
  {
    forall k :: 0 <= k < |params| ==> params[k].name in index
  }

  /** The scope indices of the defined symbols. */
  function DefIndices(insts: seq<Instruction>, index: map<string, int>): set<int>
    decreases |insts|
  {
    if insts == [] then {}
    else
      var d := Def(insts[|insts| - 1]);
      DefIndices(insts[..|insts| - 1], index)
        + (if d.Some? && d.value.name in index then {index[d.value.name]} else {})
  }

  /** The scope indices of the parameters. */
  function ParamIndices(params: seq<Symbol>, index: map<string, int>): set<int>
    decreases |params|
  {
    if params == [] then {}
    else
      var p := params[|params| - 1];
      ParamIndices(params[..|params| - 1], index) + (if p.name in index then {index[p.name]} else {})
  }

  /** The Defined gen vector: exactly the indices of the block's definitions. */
  function DefGen(insts: seq<Instruction>, index: map<string, int>, size: nat): (v: Bits)
    ensures |v| == size
  {
    seq(size, i => i in DefIndices(insts, index))
  }

  /** The entry block's seeded IN: exactly the indices of the parameters. */
  function ParamGen(params: seq<Symbol>, index: map<string, int>, size: nat): (v: Bits)
    ensures |v| == size
  {
    seq(size, i => i in ParamIndices(params, index))
  }

  /** A `Store` defines its target, so a block whose definitions resolve has resolving stores. */
  lemma DefsCoverStores(insts: seq<Instruction>, index: map<string, int>)
    requires DefsInScope(insts, index)
    ensures StoresInScope(insts, index)
  {
    forall k | 0 <= k < |insts| && insts[k].Store? ensures insts[k].dst.name in index {
      assert Def(insts[k]) == Some(insts[k].dst);
    }
  }

  /** `setDefined`: sets the bit of every defined symbol; an unknown symbol throws. */
  method SetDefined(sc: Scope, vec: Bits, block: BasicBlock) returns (r: Result<Bits>)
    requires sc.Valid() && |vec| == sc.Size()
    ensures r.Ok? <==> DefsInScope(block.inst, sc.index)
    ensures r.Err? ==> r.error == NullPointer
    ensures r.Ok? ==> |r.value| == |vec|
    ensures r.Ok? ==> forall i :: 0 <= i < |vec| ==> (r.value[i] <==> vec[i] || i in DefIndices(block.inst, sc.index))
  {
    var insts := block.inst;
    var v := vec;
    for k := 0 to |insts|
      invariant DefsInScope(insts[..k], sc.index)
      invariant |v| == |vec|
      invariant forall i :: 0 <= i < |vec| ==> (v[i] <==> vec[i] || i in DefIndices(insts[..k], sc.index))
    {
      assert insts[..k + 1][..k] == insts[..k];
      var d := Def(insts[k]);
      if d.Some? {
        var idx := sc.IndexOf(d.value);
        if idx.Err? {
          return Err(NullPointer);
        }
        v := v[idx.value := true];
      }
    }
    assert insts[..|insts|] == insts;
    return Ok(v);
  }

  /** `setStored`: looks up every `Store` target but never sets a bit. */
  method SetStored(sc: Scope, vec: Bits, block: BasicBlock) returns (r: Result<Bits>)
    requires sc.Valid() && |vec| == sc.Size()
    ensures r.Ok? <==> StoresInScope(block.inst, sc.index)
    ensures r.Err? ==> r.error == NullPointer
    ensures r.Ok? ==> r.value == vec
  {
    var insts := block.inst;
    for k := 0 to |insts|
      invariant StoresInScope(insts[..k], sc.index)
    {
      if insts[k].Store? {
        var idx := sc.IndexOf(insts[k].dst);
        if idx.Err? {
          return Err(NullPointer);
        }
        var _ := vec[idx.value];
      }
    }
    assert insts[..|insts|] == insts;
    return Ok(vec);
  }

  /** `param.forEach { inVal[scope[param]] = true }`. */
  method SeedParams(sc: Scope, params: seq<Symbol>, vec: Bits) returns (r: Result<Bits>)
    requires sc.Valid() && |vec| == sc.Size()
    ensures r.Ok? <==> ParamsInScope(params, sc.index)
    ensures r.Err? ==> r.error == NullPointer
    ensures r.Ok? ==> |r.value| == |vec|
    ensures r.Ok? ==> forall i :: 0 <= i < |vec| ==> (r.value[i] <==> vec[i] || i in ParamIndices(params, sc.index))
  {
    var v := vec;
    for k := 0 to |params|
      invariant ParamsInScope(params[..k], sc.index)
      invariant |v| == |vec|
      invariant forall i :: 0 <= i < |vec| ==> (v[i] <==> vec[i] || i in ParamIndices(params[..k], sc.index))
    {
      assert params[..k + 1][..k] == params[..k];
      var idx := sc.IndexOf(params[k]);
      if idx.Err? {
        return Err(NullPointer);
      }
      v := v[idx.value := true];
    }
    assert params[..|params|] == params;
    return Ok(v);
  }

  // ---------------------------------------------------------------------
  // Per-block values.

  class DataFlowValue {
    const transfer: Bits
    var inVal: Bits
    var outVal: Bits

    constructor (transfer: Bits, inVal: Bits, outVal: Bits)
      ensures this.transfer == transfer && this.inVal == inVal && this.outVal == outVal
    {
      this.transfer, this.inVal, this.outVal := transfer, inVal, outVal;
    }

    /** The constructor: OUT starts all ones; a transfer of the wrong size throws. */
    static method Create(size: nat, transfer: Bits, inVal: Bits) returns (r: Result<DataFlowValue>)
      ensures r.Err? <==> |transfer| != size
      ensures r.Err? ==> r.error == IllegalArgument
      ensures r.Ok? ==> fresh(r.value) && r.value.transfer == transfer
      ensures r.Ok? ==> r.value.inVal == inVal && r.value.outVal == Ones(size)
    {
      if |transfer| != size {
        return Err(IllegalArgument);
      }
      var v := new DataFlowValue(transfer, inVal, Ones(size));
      return Ok(v);
    }

    /** `update`: OUT = IN ∪ transfer; vectors of different sizes throw. */
    method Update() returns (r: Outcome)
      modifies this
      ensures inVal == old(inVal)
      ensures r.Pass? <==> |inVal| == |transfer|
      ensures r.Pass? ==> outVal == Union(inVal, transfer)
      ensures r.Fail? ==> r.error == IllegalArgument && outVal == old(outVal)
    {
      if |inVal| != |transfer| {
        return Fail(IllegalArgument);
      }
      outVal := Union(inVal, transfer);
      return Pass;
    }
  }

  /** Update keeps IN inside OUT and the transfer inside OUT. */
  lemma UpdateBounds(inVal: Bits, transfer: Bits)
    requires |inVal| == |transfer|
    ensures Subset(inVal, Union(inVal, transfer)) && Subset(transfer, Union(inVal, transfer))
  {
    UnionIsUpperBound(inVal, transfer);
  }

  function InsOf(m: map<string, DataFlowValue>): map<string, Bits>
    reads m.Values
  {
    map n | n in m :: m[n].inVal
  }

  function OutsOf(m: map<string, DataFlowValue>): map<string, Bits>
    reads m.Values
  {
    map n | n in m :: m[n].outVal
  }

  function GensOf(m: map<string, DataFlowValue>): map<string, Bits>
  {
    map n | n in m :: m[n].transfer
  }

  ghost function BlockSet(f: Func): set<BasicBlock>
    reads f
  {
    set b | b in f.blocks
  }

  /** Distinct keys hold distinct objects. */
  ghost predicate Injective(m: map<string, DataFlowValue>)
  {
    forall a, b :: a in m && b in m && a != b ==> m[a] != m[b]
  }

  ghost predicate Disjoint(m1: map<string, DataFlowValue>, m2: map<string, DataFlowValue>)
  {
    forall a, b :: a in m1 && b in m2 ==> m1[a] != m2[b]
  }

  /** What `checkFunc` needs to resolve: every definition and every parameter. */
  predicate AllInScope(f: Func)
    reads f, f.blocks, f.scope
  {
    (forall k :: 0 <= k < |f.blocks| ==> DefsInScope(f.blocks[k].inst, f.scope.index))
    && ParamsInScope(f.param, f.scope.index)
  }

  /** One value for every name. */
  function Uniform(names: set<string>, v: Bits): (m: map<string, Bits>)
    ensures m.Keys == names && forall n :: n in m ==> m[n] == v
  {
    map n | n in names :: v
  }

  /** The IN snapshot `associateWith` starts from: `seed` for the entry, zeros elsewhere. */
  function Seeded(names: set<string>, entry: string, seed: Bits, size: nat): (m: map<string, Bits>)
    ensures m.Keys == names
    ensures forall n :: n in m ==> m[n] == (if n == entry then seed else Zeros(size))
  {
    map n | n in names :: if n == entry then seed else Zeros(size)
  }

  /** Seeding with zeros seeds nothing. */
  lemma SeededZeros(names: set<string>, entry: string, size: nat)
    ensures Seeded(names, entry, Zeros(size), size) == Uniform(names, Zeros(size))
  {
  }

  /** The snapshots of values that all start the same way. */
  lemma StartSnapshots(m: map<string, DataFlowValue>, names: set<string>, entry: string, seed: Bits, size: nat)
    requires m.Keys == names
    requires forall n :: n in m ==> m[n].outVal == Ones(size) && m[n].inVal == (if n == entry then seed else Zeros(size))
    ensures OutsOf(m) == Uniform(names, Ones(size)) && InsOf(m) == Seeded(names, entry, seed, size)
  {
  }

  /**
   * How `associateWith` leaves a map: one value per block name, no value
   * shared, gen vectors of the width, the given IN snapshot and OUT all ones.
   */
  ghost predicate StartValues(m: map<string, DataFlowValue>, names: set<string>, ins: map<string, Bits>, size: nat)
    reads m.Values
  {
    && m.Keys == names && Injective(m)
    && (forall n :: n in m ==> |m[n].transfer| == size)
    && InsOf(m) == ins && OutsOf(m) == Uniform(names, Ones(size))
  }

  /** The entry's name, or the empty name for a function without blocks. */
  function EntryName(blocks: seq<BasicBlock>): string
  {
    if |blocks| > 0 then blocks[0].name else ""
  }

  /**
   * The value `associateWith` makes for one block of Defined: its gen
   * vector, IN seeded with the parameters for the entry, OUT all ones.
   */
  method DefinedValue(func: Func, b: BasicBlock, size: nat) returns (r: Result<DataFlowValue>)
    requires func.scope.Valid() && size == func.scope.Size() && |func.blocks| > 0
    ensures r.Ok? <==> DefsInScope(b.inst, func.scope.index)
                       && (b.name == func.blocks[0].name ==> ParamsInScope(func.param, func.scope.index))
    ensures r.Err? ==> r.error == NullPointer
    ensures r.Ok? ==> fresh(r.value) && r.value.transfer == DefGen(b.inst, func.scope.index, size)
    ensures r.Ok? ==> r.value.outVal == Ones(size)
    ensures r.Ok? ==>
              r.value.inVal == (if b.name == func.blocks[0].name then ParamGen(func.param, func.scope.index, size) else Zeros(size))
  {
    var sc := func.scope;
    var t := SetDefined(sc, Zeros(size), b);
    if t.Err? {
      return Err(NullPointer);
    }
    assert t.value == DefGen(b.inst, sc.index, size);
    var inV := Zeros(size);
    if b.Equals(func.blocks[0]) {
      var s := SeedParams(sc, func.param, inV);
      if s.Err? {
        return Err(NullPointer);
      }
      inV := s.value;
      assert inV == ParamGen(func.param, sc.index, size);
    }
    var v := DataFlowValue.Create(size, t.value, inV);
    return Ok(v.value);
  }

  /** The keys `associateWith` has entered for Defined after the first `k` blocks. */
  ghost predicate KeysUpTo(func: Func, D: map<string, DataFlowValue>, k: nat)
    reads func, func.blocks, func.scope
    requires k <= |func.blocks|
  {
    var blocks, idx := func.blocks, func.scope.index;
    && (forall j :: 0 <= j < k ==> DefsInScope(blocks[j].inst, idx))
    && (k > 0 ==> ParamsInScope(func.param, idx))
    && D.Keys == BlockNames(blocks[..k])
    && (forall j :: 0 <= j < k ==> blocks[j].name in D)
    && Injective(D)
  }

  /** The values under those keys: gen vectors, the seeded IN, OUT all ones. */
  ghost predicate ValuesUpTo(func: Func, D: map<string, DataFlowValue>, k: nat, size: nat)
    reads func, func.blocks, func.scope, D.Values
    requires k <= |func.blocks|
  {
    var blocks, idx := func.blocks, func.scope.index;
    && (forall j :: 0 <= j < k && blocks[j].name in D ==> D[blocks[j].name].transfer == DefGen(blocks[j].inst, idx, size))
    && (forall n :: n in D ==>
          && |D[n].inVal| == size && |D[n].transfer| == size && D[n].outVal == Ones(size)
          && D[n].inVal == (if |blocks| > 0 && n == blocks[0].name then ParamGen(func.param, idx, size) else Zeros(size)))
  }

  /** Entering block `k` extends the keys by its name. */
  lemma KeysUpToStep(func: Func, D: map<string, DataFlowValue>, k: nat, v: DataFlowValue)
    requires k < |func.blocks| && KeysUpTo(func, D, k) && v !in D.Values
    requires DefsInScope(func.blocks[k].inst, func.scope.index)
    requires k == 0 ==> ParamsInScope(func.param, func.scope.index)
    ensures KeysUpTo(func, D[func.blocks[k].name := v], k + 1)
  {
    var blocks := func.blocks;
    var b := blocks[k];
    var D' := D[b.name := v];
    BlockNamesSnoc(blocks, k);
    assert Injective(D') by {
      forall x, y | x in D' && y in D' && x != y ensures D'[x] != D'[y] {
        if x != b.name && y != b.name {
          assert D'[x] == D[x] && D'[y] == D[y];
        }
      }
    }
  }

  /** The value of block `k` is what `associateWith` makes for it. */
  lemma ValuesUpToStep(func: Func, D: map<string, DataFlowValue>, k: nat, size: nat, v: DataFlowValue)
    requires UniqueNames(BlockSet(func)) && k < |func.blocks| && ValuesUpTo(func, D, k, size)
    requires v.transfer == DefGen(func.blocks[k].inst, func.scope.index, size) && v.outVal == Ones(size)
    requires v.inVal == (if func.blocks[k].name == func.blocks[0].name then ParamGen(func.param, func.scope.index, size)
                         else Zeros(size))
    ensures ValuesUpTo(func, D[func.blocks[k].name := v], k + 1, size)
  {
    var blocks, idx := func.blocks, func.scope.index;
    var b := blocks[k];
    var D' := D[b.name := v];
    forall j | 0 <= j < k + 1 && blocks[j].name in D'
      ensures D'[blocks[j].name].transfer == DefGen(blocks[j].inst, idx, size)
    {
      if blocks[j].name == b.name {
        assert blocks[j] in BlockSet(func) && b in BlockSet(func);
      }
    }
  }

  /** One pass of that loop: the value for block `k`, or the exception its `set` or `scope[param]` throws. */
  method Enter(func: Func, D: map<string, DataFlowValue>, k: nat, size: nat) returns (r: Result<map<string, DataFlowValue>>)
    requires func.scope.Valid() && size == func.scope.Size()
    requires UniqueNames(BlockSet(func))
    requires k < |func.blocks| && KeysUpTo(func, D, k) && ValuesUpTo(func, D, k, size)
    ensures r.Ok? <==> DefsInScope(func.blocks[k].inst, func.scope.index) && (k == 0 ==> ParamsInScope(func.param, func.scope.index))
    ensures r.Err? ==> r.error == NullPointer
    ensures r.Ok? ==> KeysUpTo(func, r.value, k + 1) && ValuesUpTo(func, r.value, k + 1, size)
    ensures r.Ok? ==> forall n :: n in r.value ==> (n in D && r.value[n] == D[n]) || fresh(r.value[n])
  {
    var b := func.blocks[k];
    var v := DefinedValue(func, b, size);
    if v.Err? {
      return Err(NullPointer);
    }
    KeysUpToStep(func, D, k, v.value);
    ValuesUpToStep(func, D, k, size, v.value);
    return Ok(D[b.name := v.value]);
  }

  /**
   * The loop of `associateWith` for Defined: one value per block, keyed by
   * name; the first block whose definitions or (for the entry) parameters
   * do not resolve throws.
   */
  method CollectDefined(func: Func, size: nat) returns (r: Result<map<string, DataFlowValue>>)
    requires func.scope.Valid() && size == func.scope.Size()
    requires UniqueNames(BlockSet(func))
    ensures r.Ok? <==> (forall k :: 0 <= k < |func.blocks| ==> DefsInScope(func.blocks[k].inst, func.scope.index))
                       && (|func.blocks| > 0 ==> ParamsInScope(func.param, func.scope.index))
    ensures r.Err? ==> r.error == NullPointer
    ensures r.Ok? ==> KeysUpTo(func, r.value, |func.blocks|) && ValuesUpTo(func, r.value, |func.blocks|, size)
    ensures r.Ok? ==> forall n :: n in r.value ==> fresh(r.value[n])
  {
    var D: map<string, DataFlowValue> := map[];
    for k := 0 to |func.blocks|
      invariant KeysUpTo(func, D, k) && ValuesUpTo(func, D, k, size)
      invariant forall n :: n in D ==> fresh(D[n])
    {
      var e := Enter(func, D, k, size);
      if e.Err? {
        return Err(NullPointer);
      }
      D := e.value;
    }
    return Ok(D);
  }

  /** What the loop has built, stated per block and as IN/OUT snapshots. */
  lemma DefinedFacts(func: Func, D: map<string, DataFlowValue>, size: nat)
    requires KeysUpTo(func, D, |func.blocks|) && ValuesUpTo(func, D, |func.blocks|, size)
    ensures var names := BlockNames(func.blocks);
            StartValues(D, names, Seeded(names, EntryName(func.blocks), ParamGen(func.param, func.scope.index, size), size), size)
    ensures forall c :: c in BlockSet(func) ==>
              c.name in D && D[c.name].transfer == DefGen(c.inst, func.scope.index, size)
  {
    assert func.blocks[..|func.blocks|] == func.blocks;
    forall c | c in BlockSet(func) ensures c.name in D && D[c.name].transfer == DefGen(c.inst, func.scope.index, size) {
      var j :| 0 <= j < |func.blocks| && func.blocks[j] == c;
    }
    StartSnapshots(D, BlockNames(func.blocks), EntryName(func.blocks), ParamGen(func.param, func.scope.index, size), size);
  }

  /** `associateWith` for Defined, stated about the function as it was at the call. */
  method BuildDefined(func: Func, size: nat) returns (r: Result<map<string, DataFlowValue>>)
    requires func.scope.Valid() && size == func.scope.Size()
    requires UniqueNames(BlockSet(func))
    ensures func.blocks == old(func.blocks)
    ensures r.Ok? <==> old((forall k :: 0 <= k < |func.blocks| ==> DefsInScope(func.blocks[k].inst, func.scope.index))
                           && (|func.blocks| > 0 ==> ParamsInScope(func.param, func.scope.index)))
    ensures r.Ok? ==> forall k :: 0 <= k < |func.blocks| ==> DefsInScope(func.blocks[k].inst, func.scope.index)
    ensures r.Err? ==> r.error == NullPointer
    ensures r.Ok? ==> var D, names := r.value, BlockNames(old(func.blocks));
              && StartValues(D, names, Seeded(names, old(EntryName(func.blocks)), old(ParamGen(func.param, func.scope.index, size)), size), size)
              && (forall n :: n in D ==> fresh(D[n]))
              && (forall c :: c in old(BlockSet(func)) ==> c.name in D)
              && (forall c :: c in old(BlockSet(func)) ==> D[c.name].transfer == old(DefGen(c.inst, func.scope.index, size)))
  {
    r := CollectDefined(func, size);
    assert unchanged(func) && unchanged(BlockSet(func));
    if r.Ok? {
      DefinedFacts(func, r.value, size);
    }
  }

  /** `associateWith` for Stored: an all-zero gen, IN all zeros, OUT all ones. */
  method BuildStored(func: Func, size: nat, ghost D: map<string, DataFlowValue>) returns (S: map<string, DataFlowValue>)
    requires func.scope.Valid() && size == func.scope.Size()
    requires forall k :: 0 <= k < |func.blocks| ==> DefsInScope(func.blocks[k].inst, func.scope.index)
    ensures var names := BlockNames(func.blocks);
            StartValues(S, names, Uniform(names, Zeros(size)), size) && GensOf(S) == Uniform(names, Zeros(size))
    ensures forall n :: n in S ==> fresh(S[n])
    ensures Disjoint(D, S)
  {
    var sc := func.scope;
    var blocks := func.blocks;
    S := map[];
    for k := 0 to |blocks|
      invariant S.Keys == BlockNames(blocks[..k])
      invariant Injective(S) && forall n :: n in S ==> fresh(S[n])
      invariant forall n :: n in S ==>
                  S[n].transfer == Zeros(size) && S[n].outVal == Ones(size) && S[n].inVal == Zeros(size)
    {
      var b := blocks[k];
      DefsCoverStores(b.inst, sc.index);
      var t := SetStored(sc, Zeros(size), b);
      var v := DataFlowValue.Create(size, t.value, Zeros(size));
      S := S[b.name := v.value];
      BlockNamesSnoc(blocks, k);
    }
    assert blocks[..|blocks|] == blocks;
    StartSnapshots(S, BlockNames(blocks), "", Zeros(size), size);
    SeededZeros(BlockNames(blocks), "", size);
    assert GensOf(S) == Uniform(BlockNames(blocks), Zeros(size));
  }

  /** The values under `x` are shared with no other key of either map. */
  ghost predicate Apart(D: map<string, DataFlowValue>, S: map<string, DataFlowValue>, x: string)
    requires x in D && x in S
  {
    && D[x] != S[x]
    && (forall n :: n in D && n != x ==> D[n] != D[x] && D[n] != S[x])
    && (forall n :: n in S && n != x ==> S[n] != D[x] && S[n] != S[x])
  }

  lemma ApartOf(D: map<string, DataFlowValue>, S: map<string, DataFlowValue>, x: string)
    requires x in D && x in S && Injective(D) && Injective(S) && Disjoint(D, S)
    ensures Apart(D, S, x)
  {
  }

  /** When only the value under `x` may differ from the snapshots, they change only at `x`. */
  lemma SnapshotUpdate(m: map<string, DataFlowValue>, x: string, ins: map<string, Bits>, outs: map<string, Bits>)
    requires x in m && ins.Keys == outs.Keys == m.Keys
    requires forall n :: n in m && n != x ==> m[n].inVal == ins[n] && m[n].outVal == outs[n]
    ensures InsOf(m) == ins[x := m[x].inVal] && OutsOf(m) == outs[x := m[x].outVal]
  {
    var ins', outs' := ins[x := m[x].inVal], outs[x := m[x].outVal];
    assert InsOf(m).Keys == ins'.Keys;
    assert forall n :: n in ins' ==> InsOf(m)[n] == ins'[n];
    assert OutsOf(m).Keys == outs'.Keys;
    assert forall n :: n in outs' ==> OutsOf(m)[n] == outs'[n];
  }

  /**
   * One analysis' part of an iteration on block `b`: a non-entry block gets
   * the meet of its predecessors' OUT values as IN, then the value
   * `update`s. Reports whether OUT changed. The other analysis' values,
   * none of which is this one, keep their snapshots.
   */
  method Refresh(b: BasicBlock, entry: BasicBlock, m: map<string, DataFlowValue>,
                 other: map<string, DataFlowValue>, size: nat) returns (changed: bool)
    requires b.name in m && forall n :: n in m && n != b.name ==> m[n] != m[b.name]
    requires forall n :: n in other ==> other[n] != m[b.name]
    requires PredsMapped(b.pred, OutsOf(m), size)
    requires |m[b.name].inVal| == size == |m[b.name].transfer|
    modifies m[b.name]
    ensures var newIn := old(InOf(b, entry.name, InsOf(m), OutsOf(m), size));
            && InsOf(m) == old(InsOf(m))[b.name := newIn]
            && OutsOf(m) == old(OutsOf(m))[b.name := Union(newIn, GensOf(m)[b.name])]
    ensures changed <==> OutsOf(m)[b.name] != old(OutsOf(m))[b.name]
    ensures InsOf(other) == old(InsOf(other)) && OutsOf(other) == old(OutsOf(other))
  {
    var v := m[b.name];
    var prevOut := v.outVal;
    ghost var ins0, outs0 := InsOf(m), OutsOf(m);
    ghost var ins1, outs1 := InsOf(other), OutsOf(other);
    label Pre:
    if !b.Equals(entry) {
      v.inVal := MeetOuts(Ones(size), b.pred, OutsOf(m));
    }
    var _ := v.Update();
    assert unchanged@Pre(other.Values);
    assert InsOf(other) == ins1 && OutsOf(other) == outs1;
    SnapshotUpdate(m, b.name, ins0, outs0);
    changed := prevOut != v.outVal;
  }

  /**
   * One iteration on block `b`: both analyses refresh their value for `b`,
   * which lives in neither map under another key. Reports whether either
   * OUT changed.
   */
  method Process(b: BasicBlock, entry: BasicBlock, D: map<string, DataFlowValue>,
                 S: map<string, DataFlowValue>, size: nat) returns (changed: bool)
    requires b.name in D && b.name in S && Apart(D, S, b.name)
    requires PredsMapped(b.pred, OutsOf(D), size) && PredsMapped(b.pred, OutsOf(S), size)
    requires |D[b.name].inVal| == size == |D[b.name].transfer|
    requires |S[b.name].inVal| == size == |S[b.name].transfer|
    modifies D[b.name], S[b.name]
    ensures var newIn := old(InOf(b, entry.name, InsOf(D), OutsOf(D), size));
            && InsOf(D) == old(InsOf(D))[b.name := newIn]
            && OutsOf(D) == old(OutsOf(D))[b.name := Union(newIn, GensOf(D)[b.name])]
    ensures var newIn := old(InOf(b, entry.name, InsOf(S), OutsOf(S), size));
            && InsOf(S) == old(InsOf(S))[b.name := newIn]
            && OutsOf(S) == old(OutsOf(S))[b.name := Union(newIn, GensOf(S)[b.name])]
    ensures changed <==> OutsOf(D)[b.name] != old(OutsOf(D))[b.name] || OutsOf(S)[b.name] != old(OutsOf(S))[b.name]
  {
    ghost var sIn := InOf(b, entry.name, InsOf(S), OutsOf(S), size);
    var c1 := Refresh(b, entry, D, S, size);
    assert InOf(b, entry.name, InsOf(S), OutsOf(S), size) == sIn;
    var c2 := Refresh(b, entry, S, D, size);
    changed := c1 || c2;
  }

  /** A block of the list has its name among the list's names, and each name comes from a block. */
  lemma BlockNamesOf(blocks: seq<BasicBlock>, g: set<BasicBlock>)
    requires g == set b | b in blocks
    ensures forall c :: c in g ==> c.name in BlockNames(blocks)
  {
    forall c | c in g ensures c.name in BlockNames(blocks) {
      var j :| 0 <= j < |blocks| && blocks[j] == c;
      BlockNamesMember(blocks, c.name);
    }
  }

  /**
   * One pass of the loop body: take the head of the queue, update it, and
   * queue its successors when either OUT changed. The queue or the measure
   * shrinks.
   */
  method Step(entry: BasicBlock, blocks: seq<BasicBlock>, D: map<string, DataFlowValue>,
              S: map<string, DataFlowValue>, size: nat, ghost g: set<BasicBlock>, ghost seed: Bits,
              work: seq<BasicBlock>, ghost processed: set<string>)
      returns (work': seq<BasicBlock>, ghost processed': set<string>)
    requires work != [] && UniqueNames(g) && forall c :: c in g ==> c.name in BlockNames(blocks)
    requires forall x {:trigger Apart(D, S, x)} :: x in D && x in S ==> Apart(D, S, x)
    requires LoopInv(g, entry.name, seed, InsOf(D), OutsOf(D), GensOf(D), size, work, processed)
    requires LoopInv(g, entry.name, Zeros(size), InsOf(S), OutsOf(S), GensOf(S), size, work, processed)
    modifies D.Values, S.Values
    ensures processed' == processed + {work[0].name} && work[0].name in BlockNames(blocks)
    ensures LoopInv(g, entry.name, seed, InsOf(D), OutsOf(D), GensOf(D), size, work', processed')
    ensures LoopInv(g, entry.name, Zeros(size), InsOf(S), OutsOf(S), GensOf(S), size, work', processed')
    ensures Total(blocks, OutsOf(D), OutsOf(S)) < old(Total(blocks, OutsOf(D), OutsOf(S)))
            || (Total(blocks, OutsOf(D), OutsOf(S)) == old(Total(blocks, OutsOf(D), OutsOf(S))) && |work'| < |work|)
  {
    ghost var e := entry.name;
    var b := work[0];
    var rest := work[1..];
    assert work == [b] + rest;
    ghost var ins0, outs0, sins0, souts0 := InsOf(D), OutsOf(D), InsOf(S), OutsOf(S);
    LoopInvHead(g, e, seed, ins0, outs0, GensOf(D), size, b, rest, processed);
    LoopInvHead(g, e, Zeros(size), sins0, souts0, GensOf(S), size, b, rest, processed);
    BlockNamesMember(blocks, b.name);
    ghost var dIn, sIn := InOf(b, e, ins0, outs0, size), InOf(b, e, sins0, souts0, size);
    label Pre:
    var changed := Process(b, entry, D, S, size);
    assert unchanged@Pre(g);
    assert InOf(b, e, ins0, outs0, size) == dIn && InOf(b, e, sins0, souts0, size) == sIn;
    LoopInvStep(g, e, seed, ins0, outs0, GensOf(D), size, b, rest, processed, changed);
    LoopInvStep(g, e, Zeros(size), sins0, souts0, GensOf(S), size, b, rest, processed, changed);
    TotalShrinks(blocks, outs0, souts0, b.name, OutsOf(D)[b.name], OutsOf(S)[b.name]);
    work' := if changed then rest + b.succ else rest;
    processed' := processed + {b.name};
  }

  /**
   * The `while (work.isNotEmpty())` loop, started with only the entry queued.
   * It ends, and keeps `LoopInv` for both analyses, now with an empty queue.
   */
  method Worklist(entry: BasicBlock, blocks: seq<BasicBlock>, D: map<string, DataFlowValue>,
                  S: map<string, DataFlowValue>, size: nat, ghost g: set<BasicBlock>, ghost seed: Bits)
      returns (ghost processed: set<string>)
    requires UniqueNames(g) && forall c :: c in g ==> c.name in BlockNames(blocks)
    requires forall x {:trigger Apart(D, S, x)} :: x in D && x in S ==> Apart(D, S, x)
    requires LoopInv(g, entry.name, seed, InsOf(D), OutsOf(D), GensOf(D), size, [entry], {})
    requires LoopInv(g, entry.name, Zeros(size), InsOf(S), OutsOf(S), GensOf(S), size, [entry], {})
    modifies D.Values, S.Values
    ensures entry.name in processed && processed <= BlockNames(blocks)
    ensures LoopInv(g, entry.name, seed, InsOf(D), OutsOf(D), GensOf(D), size, [], processed)
    ensures LoopInv(g, entry.name, Zeros(size), InsOf(S), OutsOf(S), GensOf(S), size, [], processed)
  {
    processed := {};
    var work := [entry];
    while work != []
      invariant LoopInv(g, entry.name, seed, InsOf(D), OutsOf(D), GensOf(D), size, work, processed)
      invariant LoopInv(g, entry.name, Zeros(size), InsOf(S), OutsOf(S), GensOf(S), size, work, processed)
      invariant processed <= BlockNames(blocks)
      invariant entry.name in processed || (processed == {} && work == [entry])
      decreases Total(blocks, OutsOf(D), OutsOf(S)), |work|
    {
      work, processed := Step(entry, blocks, D, S, size, g, seed, work, processed);
    }
  }

  // ---------------------------------------------------------------------
  // The checker.

  /** Distinct keys hold distinct objects in both maps and across them. */
  lemma ApartAll(D: map<string, DataFlowValue>, S: map<string, DataFlowValue>)
    requires Injective(D) && Injective(S) && Disjoint(D, S)
    ensures forall x {:trigger Apart(D, S, x)} :: x in D && x in S ==> Apart(D, S, x)
  {
    forall x | x in D && x in S ensures Apart(D, S, x) {
      ApartOf(D, S, x);
    }
  }

  /** The values `associateWith` builds satisfy the loop invariant with only the entry queued. */
  lemma InitialLoopInv(names: set<string>, g: set<BasicBlock>, entry: BasicBlock, ins: map<string, Bits>,
                       outs: map<string, Bits>, gens: map<string, Bits>, size: nat, seed: Bits)
    requires entry in g && Closed(g) && |seed| == size
    requires forall c :: c in g ==> c.name in names
    requires ins == Seeded(names, entry.name, seed, size) && outs == Uniform(names, Ones(size))
    requires gens.Keys == names && forall n :: n in gens ==> |gens[n]| == size
    ensures LoopInv(g, entry.name, seed, ins, outs, gens, size, [entry], {})
  {
    LoopInvInit(g, entry, seed, ins, outs, gens, size);
  }

  /**
   * Both `associateWith` calls of `checkFunc`: Defined throws on an
   * unresolved definition or parameter, and Stored then cannot throw. The
   * graph is left as it was.
   */
  method Associate(func: Func, size: nat, ghost g: set<BasicBlock>)
      returns (r: Result<(map<string, DataFlowValue>, map<string, DataFlowValue>)>)
    requires func.scope.Valid() && size == func.scope.Size()
    requires g == BlockSet(func) && UniqueNames(g) && Closed(g)
    ensures func.blocks == old(func.blocks) && Closed(g)
    ensures r.Ok? <==> old((forall k :: 0 <= k < |func.blocks| ==> DefsInScope(func.blocks[k].inst, func.scope.index))
                           && (|func.blocks| > 0 ==> ParamsInScope(func.param, func.scope.index)))
    ensures r.Err? ==> r.error == NullPointer
    ensures r.Ok? ==>
              var (D, S) := r.value;
              var names := BlockNames(old(func.blocks));
              && StartValues(D, names, Seeded(names, old(EntryName(func.blocks)), old(ParamGen(func.param, func.scope.index, size)), size), size)
              && StartValues(S, names, Uniform(names, Zeros(size)), size) && GensOf(S) == Uniform(names, Zeros(size))
              && Disjoint(D, S)
              && (forall n :: n in D ==> fresh(D[n])) && (forall n :: n in S ==> fresh(S[n]))
              && (forall c :: c in g ==> c.name in names)
              && (forall c :: c in g ==> D[c.name].transfer == old(DefGen(c.inst, func.scope.index, size)))
  {
    var dr := BuildDefined(func, size);
    if dr.Err? {
      return Err(NullPointer);
    }
    var S := BuildStored(func, size, dr.value);
    return Ok((dr.value, S));
  }

  class VarChecker {
    var scope: Scope?
    var defined: map<string, DataFlowValue>
    var stored: map<string, DataFlowValue>

    constructor ()
      ensures scope == null && defined == map[] && stored == map[]
    {
      scope, defined, stored := null, map[], map[];
    }

    /** The assignments to `scope`, `defined` and `stored`; the values themselves are untouched. */
    method Publish(sc: Scope, D: map<string, DataFlowValue>, S: map<string, DataFlowValue>,
                   ghost names: set<string>, ghost ins: map<string, Bits>, size: nat, ghost g: set<BasicBlock>)
      requires StartValues(D, names, ins, size)
      requires StartValues(S, names, Uniform(names, Zeros(size)), size) && GensOf(S) == Uniform(names, Zeros(size))
      requires Closed(g)
      modifies this
      ensures scope == sc && defined == D && stored == S
      ensures StartValues(defined, names, ins, size)
      ensures StartValues(stored, names, Uniform(names, Zeros(size)), size) && GensOf(stored) == Uniform(names, Zeros(size))
      ensures Closed(g)
    {
      label Assign:
      scope, defined, stored := sc, D, S;
      assert unchanged@Assign(D.Values) && unchanged@Assign(S.Values) && unchanged@Assign(g);
    }

    /**
     * The loop of `checkFunc` over the values `associateWith` built: the
     * entry alone is queued and the worklist runs until the queue is empty.
     */
    method Solve(blocks: seq<BasicBlock>, size: nat, ghost g: set<BasicBlock>, ghost seed: Bits)
        returns (ghost processed: set<string>)
      requires |blocks| > 0 && UniqueNames(g) && Closed(g) && |seed| == size
      requires blocks[0] in g && forall c :: c in g ==> c.name in BlockNames(blocks)
      requires var names := BlockNames(blocks);
               && StartValues(defined, names, Seeded(names, EntryName(blocks), seed, size), size)
               && StartValues(stored, names, Uniform(names, Zeros(size)), size) && GensOf(stored) == Uniform(names, Zeros(size))
      requires Disjoint(defined, stored)
      modifies defined.Values, stored.Values
      ensures scope == old(scope) && defined == old(defined) && stored == old(stored)
      ensures blocks[0].name in processed && processed <= BlockNames(blocks)
      ensures LoopInv(g, blocks[0].name, seed, InsOf(defined), OutsOf(defined), GensOf(defined), size, [], processed)
      ensures LoopInv(g, blocks[0].name, Zeros(size), InsOf(stored), OutsOf(stored), GensOf(stored), size, [], processed)
    {
      var D, S := defined, stored;
      ApartAll(D, S);
      InitialLoopInv(BlockNames(blocks), g, blocks[0], InsOf(D), OutsOf(D), GensOf(D), size, seed);
      SeededZeros(BlockNames(blocks), blocks[0].name, size);
      InitialLoopInv(BlockNames(blocks), g, blocks[0], InsOf(S), OutsOf(S), GensOf(S), size, Zeros(size));
      label L:
      processed := Worklist(blocks[0], blocks, D, S, size, g, seed);
      assert unchanged@L(this);
    }

    /**
     * `checkFunc`. With an unresolved definition or parameter `associateWith`
     * throws; with no blocks `entry` throws. Otherwise each block has its gen
     * vector, and the loop ends with `LoopInv` and an empty queue for both
     * analyses: OUT is a post-fixpoint, blocks never taken from the queue keep
     * their initial values, and (with mutual edges) every processed block
     * satisfies IN = meet of the predecessors' OUT (entry excepted) and
     * OUT = IN ∪ gen.
     */
    method CheckFunc(func: Func) returns (r: Outcome, ghost processed: set<string>)
      requires func.scope.Valid()
      requires UniqueNames(BlockSet(func)) && Closed(BlockSet(func))
      modifies this
      ensures scope == func.scope
      ensures |old(func.blocks)| == 0 ==> r == Fail(IndexOutOfBounds)
      ensures |old(func.blocks)| > 0 ==> (r.Pass? <==> old(AllInScope(func)))
      ensures |old(func.blocks)| > 0 && r.Fail? ==> r.error == NullPointer
      ensures r.Pass? ==>
                var g, size, e := old(BlockSet(func)), old(func.scope.Size()), old(func.blocks[0].name);
                && defined.Keys == stored.Keys == BlockNames(old(func.blocks))
                && (forall c :: c in g ==> c.name in defined && c.name in stored)
                && (forall c :: c in g ==> defined[c.name].transfer == old(DefGen(c.inst, func.scope.index, size)))
                && (forall c :: c in g ==> stored[c.name].transfer == Zeros(size))
                && e in processed && processed <= BlockNames(old(func.blocks))
                && LoopInv(g, e, old(ParamGen(func.param, func.scope.index, size)),
                           InsOf(defined), OutsOf(defined), GensOf(defined), size, [], processed)
                && LoopInv(g, e, Zeros(size), InsOf(stored), OutsOf(stored), GensOf(stored), size, [], processed)
    {
      var blocks := func.blocks;
      ghost var g := BlockSet(func);
      var size := func.scope.Size();
      var built := Associate(func, size, g);
      if built.Err? {
        scope := func.scope;
        return Fail(NullPointer), {};
      }
      var (D, S) := built.value;
      ghost var names := BlockNames(blocks);
      ghost var seed := old(ParamGen(func.param, func.scope.index, size));
      Publish(func.scope, D, S, names, Seeded(names, EntryName(blocks), seed, size), size, g);
      if |blocks| == 0 {
        return Fail(IndexOutOfBounds), {};
      }
      assert blocks[0] in g;
      processed := Solve(blocks, size, g, seed);
      r := Pass;
    }
  }
}
