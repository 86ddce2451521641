/** The snapshot's function: signature, blocks, exit blocks and the scope holding its parameters. */
module SnapshotFunctions {
  import opened Wrappers
  import opened SnapshotValues
  import opened SnapshotScopes
  import opened SnapshotBlocks

  class Function {
    const name: string
    const ret: Type
    const param: seq<Symbol>
    var blocks: seq<BasicBlock>
    var exit: seq<BasicBlock>
    const scope: Scope

    /** `init`: every parameter is added to the fresh scope, in order. */
    constructor (name: string, ret: Type, param: seq<Symbol>)
      ensures this.name == name && this.ret == ret && this.param == param
      ensures blocks == [] && exit == []
      ensures fresh(scope) && scope.Valid()
      ensures scope.list == AddAll([], param)
    {
      this.name, this.ret, this.param := name, ret, param;
      blocks, exit := [], [];
      var sc := new Scope();
      for i := 0 to |param|
        invariant sc.Valid()
        invariant sc.list == AddAll([], param[..i])
      {
        AddAllSnoc([], param[..i], param[i]);
        assert param[..i + 1] == param[..i] + [param[i]];
        sc.Add(param[i]);
      }
      assert param[..|param|] == param;
      scope := sc;
    }

    /** `entry`: the first block; reading it while `blocks` is empty throws. */
    function Entry(): (r: Result<BasicBlock>)
      reads this
      ensures r.Ok? <==> |blocks| > 0
      ensures r.Ok? ==> r.value == blocks[0]
      ensures r.Err? ==> r.error == IndexOutOfBounds
    {
      if |blocks| > 0 then Ok(blocks[0]) else Err(IndexOutOfBounds)
    }
  }

  /**
   * What the constructor leaves in the scope: each parameter name once, in
   * first-occurrence order, and with distinct names exactly the parameters.
   */
  lemma {:induction false} ParamsRegistered(param: seq<Symbol>)
    ensures DistinctNames(AddAll([], param))
    ensures Names(AddAll([], param)) == Names(param)
    ensures DistinctNames(param) ==> AddAll([], param) == param
  {
    AddAllNames([], param);
    if DistinctNames(param) {
      AddAllFresh([], param);
    }
  }

  /** With no name repeated or already present, adding appends every symbol in order. */
  lemma {:induction false} AddAllFresh(list: seq<Symbol>, syms: seq<Symbol>)
    requires DistinctNames(syms)
    requires forall i :: 0 <= i < |syms| ==> syms[i].name !in Names(list)
    ensures AddAll(list, syms) == list + syms
    decreases |syms|
  {
    if syms != [] {
      var l := list + [syms[0]];
      NamesAppend(list, syms[0]);
      forall i | 0 <= i < |syms[1..]| ensures syms[1..][i].name !in Names(l) {
        assert syms[1..][i] == syms[i + 1];
      }
      AddAllFresh(l, syms[1..]);
      assert l + syms[1..] == list + syms;
    }
  }

  /** Parameters sharing a name are registered once, as the first of them. */
  lemma DuplicateParamRegisteredOnce(p: Symbol, q: Symbol)
    requires p.name == q.name
    ensures AddAll([], [p, q]) == [p]
  {
    assert Names([]) == {};
    assert [p, q][1..] == [q];
    assert AddAll([], [p, q]) == AddAll([p], [q]) by { assert [] + [p] == [p]; }
    assert q.name in Names([p]) by { assert [p][0] == p; }
    assert AddAll([p], [q]) == AddAll([p], []) by { assert [q][1..] == []; }
  }
}
