/** IR values: named symbols and 32-bit integer constants. */
module Values {
  import opened Jvm
  import opened Types
  import opened Wrappers

  /** A variable: its type and its name.  Its identity is the name alone. */
  datatype Symbol = Symbol(ty: Type, name: string)

  datatype Value = Sym(sym: Symbol) | I32Const(value: int32)

  /** `type`: a symbol's declared type; a constant is always `i32`. */
  function TypeOf(v: Value): Type
  {
    match v
    case Sym(s) => s.ty
    case I32Const(_) => IntegerType(32)
  }

  /**
   * `equals`: symbols compare by name, constants by value, never across
   * kinds.  Two values are equal exactly when they print alike, and equal
   * values hash alike.
   */
  predicate Equals(a: Value, b: Value): (eq: bool)
    ensures eq <==> ToString(a) == ToString(b)
    ensures eq ==> HashCode(a) == HashCode(b)
  {
    PrintedForms(a, b);
    match a
    case Sym(s) => b.Sym? && s.name == b.sym.name
    case I32Const(x) => b.I32Const? && x == b.value
  }

  /** `hashCode`: the name's string hash (the type plays no part), or the constant itself. */
  function HashCode(v: Value): (h: int32)
    ensures v.Sym? ==> (h as int - HashPoly(v.sym.name)) % 0x1_0000_0000 == 0
    ensures v.I32Const? ==> h == v.value
  {
    match v
    case Sym(s) => StringHash(s.name)
    case I32Const(x) => x
  }

  /** `toString`: `%name` for a symbol, the decimal value for a constant; only symbols start with `%`. */
  function ToString(v: Value): (r: string)
    ensures |r| >= 1 && (r[0] == '%' <==> v.Sym?)
  {
    match v
    case Sym(s) => "%" + s.name
    case I32Const(x) => IntToString(x as int)
  }

  /** The printed forms of two values agree exactly when both are symbols with one name or both constants with one value. */
  lemma PrintedForms(a: Value, b: Value)
    ensures ToString(a) == ToString(b) <==>
              || (a.Sym? && b.Sym? && a.sym.name == b.sym.name)
              || (a.I32Const? && b.I32Const? && a.value == b.value)
  {
    if a.Sym? && b.Sym? {
      assert ToString(a)[1..] == a.sym.name && ToString(b)[1..] == b.sym.name;
    } else if a.I32Const? && b.I32Const? {
      IntToStringInjective(a.value as int, b.value as int);
    }
  }

  lemma SymbolEqualsIffSameName(a: Symbol, b: Symbol)
    ensures Equals(Sym(a), Sym(b)) <==> a.name == b.name
  {
  }

  /** Two symbols with one name but different types are still equal. */
  lemma SymbolEqualityIgnoresType(t1: Type, t2: Type, name: string)
    ensures Equals(Sym(Symbol(t1, name)), Sym(Symbol(t2, name)))
  {
  }

  lemma ConstEqualsIffSameValue(x: int32, y: int32)
    ensures Equals(I32Const(x), I32Const(y)) <==> x == y
  {
  }

  lemma SymbolNeverEqualsConst(s: Symbol, x: int32)
    ensures !Equals(Sym(s), I32Const(x)) && !Equals(I32Const(x), Sym(s))
  {
  }

  /** `equals` is an equivalence relation. */
  lemma EqualsIsEquivalence(a: Value, b: Value, c: Value)
    ensures Equals(a, a)
    ensures Equals(a, b) ==> Equals(b, a)
    ensures Equals(a, b) && Equals(b, c) ==> Equals(a, c)
  {
  }

  lemma ConstTypeIsI32(x: int32)
    ensures TypeOf(I32Const(x)) == IntegerType(32)
    ensures Types.ToString(TypeOf(I32Const(x))) == "i32"
  {
    assert IntToString(32) == "32" by {
      assert NatToString(32) == NatToString(3) + [DigitChar(2)];
    }
  }

  /** A constant's rendering reads back as its value. */
  lemma ConstToStringRoundTrip(x: int32)
    ensures ParseInt(ToString(I32Const(x))) == Some(x as int)
  {
    IntToStringRoundTrip(x as int);
  }

  /** Rendering a symbol shows its name after `%` and never its type. */
  lemma SymbolToStringIsName(s: Symbol)
    ensures ToString(Sym(s))[0] == '%' && ToString(Sym(s))[1..] == s.name
  {
  }
}
