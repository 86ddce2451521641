/** A function: signature, blocks, exit blocks and the scope holding its parameters. */
module Funcs {
  import opened Wrappers
  import opened Types
  import opened Values
  import opened Scopes
  import opened Blocks

  /** Adding symbols one at a time is adding the prefix, then the last one. */
  lemma {:induction false} AddAllSnoc(list: seq<Symbol>, syms: seq<Symbol>, s: Symbol)
    ensures AddAll(list, syms + [s]) == AddAll(AddAll(list, syms), [s])
    decreases |syms|
  {
    if syms == [] {
      assert syms + [s] == [s];
    } else {
      assert (syms + [s])[1..] == syms[1..] + [s];
      if syms[0].name in Names(list) {
        AddAllSnoc(list, syms[1..], s);
      } else {
        AddAllSnoc(list + [syms[0]], syms[1..], s);
      }
    }
  }

  class Func {
    const name: string
    const ret: Type
    const param: seq<Symbol>
    var blocks: seq<BasicBlock>
    var exit: seq<BasicBlock>
    const scope: Scope

    /** `init`: every parameter is added to the fresh scope, in order. */
    constructor (name: string, ret: Type, param: seq<Symbol>)
      ensures this.name == name && this.ret == ret && this.param == param
      ensures blocks == [] && exit == []
      ensures fresh(scope) && scope.Valid()
      ensures scope.list == AddAll([], param)
    {
      this.name, this.ret, this.param := name, ret, param;
      blocks, exit := [], [];
      var sc := new Scope();
      for i := 0 to |param|
        invariant sc.Valid()
        invariant sc.list == AddAll([], param[..i])
      {
        AddAllSnoc([], param[..i], param[i]);
        assert param[..i + 1] == param[..i] + [param[i]];
        sc.Add(param[i]);
      }
      assert param[..|param|] == param;
      scope := sc;
    }

    /** `entry`: the first block; there is none while `blocks` is empty. */
    function Entry(): (r: Result<BasicBlock>)
      reads this
      ensures r.Ok? <==> |blocks| > 0
      ensures r.Ok? ==> r.value == blocks[0]
      ensures r.Err? ==> r.error == IndexOutOfBounds
    {
      if |blocks| > 0 then Ok(blocks[0]) else Err(IndexOutOfBounds)
    }

    /**
     * `toString`: `<ret> @<name>(<T %p>, ...)`: the return type, ` @`, the
     * name and `(` come first, and `)` closes it.
     */
    function ToString(): (r: string)
      ensures var h := Types.ToString(ret) + " @" + name + "(";
              |h| < |r| && r[..|h|] == h && r[|r| - 1] == ')'
    {
      Types.ToString(ret) + " @" + name + "(" + ParamList(param) + ")"
    }
  }

  function Param(p: Symbol): string { Types.ToString(p.ty) + " " + Values.ToString(Sym(p)) }

  /** `joinToString` with the default `", "` separator. */
  function ParamList(ps: seq<Symbol>): (s: string)
    ensures ps == [] <==> s == []
  {
    if ps == [] then ""
    else if |ps| == 1 then Param(ps[0])
    else Param(ps[0]) + ", " + ParamList(ps[1..])
  }

  /**
   * What the constructor leaves in the scope: each parameter name once, and
   * with distinct names exactly the parameters, parameter `i` at index `i`.
   */
  lemma ParamsRegistered(param: seq<Symbol>)
    ensures DistinctNames(AddAll([], param))
    ensures Names(AddAll([], param)) == Names(param)
    ensures DistinctNames(param) ==> AddAll([], param) == param
  {
    AddAllNames([], param);
    if DistinctNames(param) {
      AddAllFresh([], param);
    }
  }

  /** Parameters sharing a name are registered once, under the first one's position. */
  lemma DuplicateParamRegisteredOnce(p: Symbol, q: Symbol)
    requires p.name == q.name
    ensures AddAll([], [p, q]) == [p]
  {
    assert Names([]) == {};
    assert [p, q][1..] == [q];
    assert AddAll([], [p, q]) == AddAll([p], [q]) by { assert [] + [p] == [p]; }
    assert q.name in Names([p]) by { assert [p][0] == p; }
    assert AddAll([p], [q]) == AddAll([p], []) by { assert [q][1..] == []; }
  }

  /** A function without parameters prints `()`. */
  lemma NoParamsText(f: Func)
    requires f.param == []
    ensures f.ToString() == Types.ToString(f.ret) + " @" + f.name + "()"
  {
  }
}
