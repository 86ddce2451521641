/**
 * The eight IR instructions with the symbol each defines (`def`) and the
 * symbols each reads (`use`).  Branch targets are held by block name.
 */
module Instructions {
  import opened Wrappers
  import opened Jvm
  import opened Types
  import opened Values

  datatype Instruction =
    | Alloca(dst: Symbol, ty: Type)
    | Load(dst: Symbol, ty: Type, ptr: Symbol)   // `src`, the pointer read
    | Store(src: Value, dst: Symbol)
    | Call(dst: Symbol, ty: Type, callee: string, args: seq<Value>)
    | Binary(dst: Symbol, op: string, ty: Type, lhs: Value, rhs: Value)
    | ICmp(dst: Symbol, op: string, ty: Type, lhs: Value, rhs: Value)
    | Br(cond: Option<Value>, tr: string, fls: Option<string>)
    | Ret(value: Value)

  /** `filterIsInstance<Symbol>()`: the symbols among the values, in order. */
  function SymbolsOf(vs: seq<Value>): seq<Symbol>
  {
    if vs == [] then []
    else (if vs[0].Sym? then [vs[0].sym] else []) + SymbolsOf(vs[1..])
  }

  /** `def`: the symbol written; the pointer for `Store`; nothing for `Br` and `Ret`. */
  function Def(i: Instruction): (r: Option<Symbol>)
    ensures r.None? <==> i.Br? || i.Ret?
    ensures r.Some? ==> r.value == i.dst
  {
    match i
    case Alloca(dst, _) => Some(dst)
    case Load(dst, _, _) => Some(dst)
    case Store(_, dst) => Some(dst)
    case Call(dst, _, _, _) => Some(dst)
    case Binary(dst, _, _, _, _) => Some(dst)
    case ICmp(dst, _, _, _, _) => Some(dst)
    case Br(_, _, _) => None
    case Ret(_) => None
  }

  /** `use`: the symbol operands read, constants dropped. */
  function Use(i: Instruction): (r: seq<Symbol>)
    ensures forall s :: s in r <==> Sym(s) in Operands(i)
  {
    SymbolsOfMembers(Operands(i));
    match i
    case Alloca(_, _) => []
    case Load(_, _, src) => [src]
    case Store(src, _) => SymbolsOf([src])
    case Call(_, _, _, args) => SymbolsOf(args)
    case Binary(_, _, _, lhs, rhs) => SymbolsOf([lhs, rhs])
    case ICmp(_, _, _, lhs, rhs) => SymbolsOf([lhs, rhs])
    case Br(cond, _, _) => if cond.None? then [] else SymbolsOf([cond.value])
    case Ret(value) => SymbolsOf([value])
  }

  /** Every value an instruction reads, constants included (independent of `Use`). */
  function Operands(i: Instruction): seq<Value>
  {
    match i
    case Alloca(_, _) => []
    case Load(_, _, src) => [Sym(src)]
    case Store(src, _) => [src]
    case Call(_, _, _, args) => args
    case Binary(_, _, _, lhs, rhs) => [lhs, rhs]
    case ICmp(_, _, _, lhs, rhs) => [lhs, rhs]
    case Br(cond, _, _) => if cond.Some? then [cond.value] else []
    case Ret(value) => [value]
  }

  // ---------------------------------------------------------------------
  // Text.

  function Label(name: string): string { "%" + name }

  function Join(vs: seq<Value>): string
  {
    if vs == [] then ""
    else if |vs| == 1 then Values.ToString(vs[0])
    else Values.ToString(vs[0]) + ", " + Join(vs[1..])
  }

  function Typed(v: Value): string { Types.ToString(TypeOf(v)) + " " + Values.ToString(v) }

  /** `%dst = rhs`. */
  function Assign(dst: Symbol, rhs: string): string
  {
    Values.ToString(Sym(dst)) + " = " + rhs
  }

  /**
   * `toString`: the textual IR form.  `store`, `br` and `ret` print their
   * opcode first; every other instruction starts with the `%` of its `dst`.
   */
  function ToString(i: Instruction): (r: string)
    ensures i.Store? ==> |r| >= 6 && r[..6] == "store "
    ensures i.Br? ==> |r| >= 3 && r[..3] == "br "
    ensures i.Ret? ==> |r| >= 4 && r[..4] == "ret "
    ensures !(i.Store? || i.Br? || i.Ret?) ==> |r| >= 1 && r[0] == '%'
  {
    match i
    case Alloca(dst, ty) => Assign(dst, "alloca " + Types.ToString(ty))
    case Load(dst, ty, src) => Assign(dst, "load " + Types.ToString(ty) + ", " + Typed(Sym(src)))
    case Store(src, dst) => "store " + Typed(src) + ", " + Typed(Sym(dst))
    case Call(dst, ty, callee, args) =>
      Assign(dst, "call " + Types.ToString(ty) + " @" + callee + "(" + Join(args) + ")")
    case Binary(dst, op, ty, lhs, rhs) =>
      Assign(dst, op + " " + Types.ToString(ty) + " " + Values.ToString(lhs) + ", " + Values.ToString(rhs))
    case ICmp(dst, op, ty, lhs, rhs) =>
      Assign(dst, "icmp " + op + " " + Types.ToString(ty) + " " + Values.ToString(lhs) + ", " + Values.ToString(rhs))
    case Br(cond, tr, fls) =>
      if cond.None? then "br label " + Label(tr)
      else ("br " + Typed(cond.value) + ", label " + Label(tr)
            + ", label " + (if fls.Some? then Label(fls.value) else "null"))
    case Ret(value) => "ret " + Typed(value)
  }

  // ---------------------------------------------------------------------
  // Properties.

  /** The symbol filter keeps exactly the symbols, in their order. */
  lemma {:induction false} SymbolsOfMembers(vs: seq<Value>)
    ensures forall s :: s in SymbolsOf(vs) <==> Sym(s) in vs
    ensures |SymbolsOf(vs)| <= |vs|
  {
    if vs != [] {
      SymbolsOfMembers(vs[1..]);
      assert vs == [vs[0]] + vs[1..];
    }
  }

  lemma {:induction false} SymbolsOfAppend(a: seq<Value>, b: seq<Value>)
    ensures SymbolsOf(a + b) == SymbolsOf(a) + SymbolsOf(b)
  {
    if a != [] {
      assert (a + b)[1..] == a[1..] + b;
      SymbolsOfAppend(a[1..], b);
    } else {
      assert a + b == b;
    }
  }

  /** Constants contribute nothing; a list of constants has no uses. */
  lemma {:induction false} SymbolsOfConstants(vs: seq<Value>)
    requires forall k :: 0 <= k < |vs| ==> vs[k].I32Const?
    ensures SymbolsOf(vs) == []
  {
    if vs != [] {
      SymbolsOfConstants(vs[1..]);
    }
  }

  /** `use` is the symbol part of the operand list for every variant. */
  lemma UseIsSymbolOperands(i: Instruction)
    ensures Use(i) == SymbolsOf(Operands(i))
  {
    match i
    case Load(_, _, src) => assert SymbolsOf([Sym(src)]) == [src];
    case _ =>
  }

  /** Binary, ICmp, Store and Ret drop constant operands from `use`. */
  lemma ConstantOperandsDropped(dst: Symbol, op: string, ty: Type, x: int32, r: Value)
    ensures Use(Binary(dst, op, ty, I32Const(x), r)) == SymbolsOf([r])
    ensures Use(ICmp(dst, op, ty, I32Const(x), r)) == SymbolsOf([r])
    ensures Use(Store(I32Const(x), dst)) == []
    ensures Use(Ret(I32Const(x))) == []
    ensures Use(Br(Some(I32Const(x)), "t", None)) == []
  {
    assert SymbolsOf([I32Const(x), r]) == SymbolsOf([r]) by {
      assert [I32Const(x), r][1..] == [r];
    }
  }

  /** An instruction that defines a value other than `Store` prints as `%dst = ...`. */
  lemma DefPrintedFirst(i: Instruction)
    requires Def(i).Some? && !i.Store?
    ensures var p := "%" + Def(i).value.name + " = ";
            |p| <= |ToString(i)| && ToString(i)[..|p|] == p
  {
    var rhs := match i
      case Alloca(_, ty) => "alloca " + Types.ToString(ty)
      case Load(_, ty, src) => "load " + Types.ToString(ty) + ", " + Typed(Sym(src))
      case Call(_, ty, callee, args) => "call " + Types.ToString(ty) + " @" + callee + "(" + Join(args) + ")"
      case Binary(_, op, ty, lhs, rhs) =>
        op + " " + Types.ToString(ty) + " " + Values.ToString(lhs) + ", " + Values.ToString(rhs)
      case ICmp(_, op, ty, lhs, rhs) =>
        "icmp " + op + " " + Types.ToString(ty) + " " + Values.ToString(lhs) + ", " + Values.ToString(rhs)
      case _ => "";
    assert ToString(i) == Assign(Def(i).value, rhs);
    var p := "%" + Def(i).value.name + " = ";
    assert Assign(Def(i).value, rhs)[..|p|] == p;
  }

  /** An unconditional branch prints as `br label %target`. */
  lemma UnconditionalBrText(t: string, fls: Option<string>)
    ensures ToString(Br(None, t, fls)) == "br label %" + t
  {
  }

  /** A conditional branch with no false target prints `null` in its place. */
  lemma ConditionalBrWithoutFalseTarget(c: Value, t: string)
    ensures var s := ToString(Br(Some(c), t, None));
            |s| >= 4 && s[|s| - 4..] == "null"
  {
  }
}
