/**
 * The snapshot's eight instructions.  Unlike the later IR, `use` lists every
 * operand value, constants included, and `Call` hands back its argument
 * list itself.  Branch targets are held by block name.
 */
module SnapshotInstructions {
  import opened Wrappers
  import opened SnapshotValues

  datatype Instruction =
    | Alloca(dst: Symbol, ty: Type)
    | Load(dst: Symbol, ty: Type, src: Value)
    | Store(src: Value, dst: Symbol)
    | Call(dst: Symbol, func: string, arg: seq<Value>)
    | Binary(dst: Symbol, op: string, lhs: Value, rhs: Value)
    | ICmp(dst: Symbol, op: string, lhs: Value, rhs: Value)
    | Br(cond: Option<Value>, tr: string, fls: Option<string>)
    | Ret(value: Value)

  /** `use`: the operand values read, constants included; every value held in an operand field is used, and nothing else is. */
  function Use(i: Instruction): (r: seq<Value>)
    ensures forall v :: v in r <==>
              || (i.Load? && v == i.src)
              || (i.Store? && v == i.src)
              || (i.Call? && v in i.arg)
              || ((i.Binary? || i.ICmp?) && (v == i.lhs || v == i.rhs))
              || (i.Br? && i.cond == Some(v))
              || (i.Ret? && v == i.value)
  {
    match i
    case Alloca(_, _) => []
    case Load(_, _, src) => [src]
    case Store(src, _) => [src]
    case Call(_, _, arg) => arg
    case Binary(_, _, lhs, rhs) => [lhs, rhs]
    case ICmp(_, _, lhs, rhs) => [lhs, rhs]
    case Br(cond, _, _) => if cond.None? then [] else [cond.value]
    case Ret(value) => [value]
  }

  /** `def`: the symbol written; exactly the non-terminators define one, and it is their destination. */
  function Def(i: Instruction): (r: Option<Symbol>)
    ensures r.Some? <==> !IsTerminator(i)
    ensures r.Some? ==> r.value == i.dst
  {
    match i
    case Alloca(dst, _) => Some(dst)
    case Load(dst, _, _) => Some(dst)
    case Store(_, dst) => Some(dst)
    case Call(dst, _, _) => Some(dst)
    case Binary(dst, _, _, _) => Some(dst)
    case ICmp(dst, _, _, _) => Some(dst)
    case Br(_, _, _) => None
    case Ret(_) => None
  }

  /** The instructions that end a block. */
  predicate IsTerminator(i: Instruction)
  {
    i.Br? || i.Ret?
  }

  /** A constant stored, compared or returned still counts as used. */
  lemma ConstantsAreUsed(dst: Symbol, id: nat, op: string, c: Value)
    ensures Other(id) in Use(Store(Other(id), dst))
    ensures Use(ICmp(dst, op, Other(id), c)) == [Other(id), c]
    ensures Use(Ret(Other(id))) == [Other(id)]
  {
  }

  /** Binary operations read exactly two operands, in order, and a `Br` one at most. */
  lemma UseLength(i: Instruction)
    ensures (i.Binary? || i.ICmp?) ==> |Use(i)| == 2
    ensures i.Br? ==> |Use(i)| == (if i.cond.Some? then 1 else 0)
    ensures i.Alloca? ==> Use(i) == []
  {
  }
}
