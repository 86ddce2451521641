/** IR types: `IntegerType(bit)` and `PointerType(target)` with structural equality. */
module Types {
  import opened Jvm

  datatype Type = IntegerType(bit: int32) | PointerType(target: Type)

  /**
   * `equals`: same variant, then same width or (recursively) equal targets;
   * this is exactly equality of the type values.
   */
  predicate Equals(a: Type, b: Type): (eq: bool)
    ensures eq <==> a == b
  {
    match a
    case IntegerType(w) => b.IntegerType? && w == b.bit
    case PointerType(t) => b.PointerType? && Equals(t, b.target)
  }

  /** `hashCode`: the width of the innermost integer type, whatever the pointer depth. */
  function HashCode(t: Type): (h: int32)
    ensures h == BaseBit(t)
  {
    match t
    case IntegerType(w) => w
    case PointerType(target) => HashCode(target)
  }

  /**
   * `toString`: `i<bit>` for an integer, `<target>*` for a pointer.  Every
   * rendering starts with `i`, and it ends with `*` exactly for a pointer.
   */
  function ToString(t: Type): (r: string)
    ensures |r| >= 2 && r[0] == 'i'
    ensures r[|r| - 1] == '*' <==> t.PointerType?
  {
    match t
    case IntegerType(w) => "i" + IntToString(w as int)
    case PointerType(target) => ToString(target) + "*"
  }

  /** The width of the integer type a chain of pointers ends in. */
  function BaseBit(t: Type): int32
  {
    match t
    case IntegerType(w) => w
    case PointerType(target) => BaseBit(target)
  }

  /** How many pointer levels wrap the base integer type. */
  function Depth(t: Type): nat
  {
    match t
    case IntegerType(_) => 0
    case PointerType(target) => 1 + Depth(target)
  }

  function Stars(n: nat): (s: string)
    ensures |s| == n && forall i :: 0 <= i < n ==> s[i] == '*'
  {
    if n == 0 then "" else Stars(n - 1) + "*"
  }

  /** An integer type never equals a pointer type, in either order. */
  lemma IntegerNeverEqualsPointer(w: int32, t: Type)
    ensures !Equals(IntegerType(w), PointerType(t)) && !Equals(PointerType(t), IntegerType(w))
  {
  }

  /** `hashCode` agrees with `equals`. */
  lemma HashConsistent(a: Type, b: Type)
    ensures Equals(a, b) ==> HashCode(a) == HashCode(b)
  {
  }

  /** The rendering is the base width in decimal followed by one `*` per pointer level. */
  lemma {:induction false} ToStringShape(t: Type)
    ensures ToString(t) == "i" + IntToString(BaseBit(t) as int) + Stars(Depth(t))
  {
    match t
    case IntegerType(_) =>
    case PointerType(target) => ToStringShape(target);
  }

  lemma {:induction false} BaseAndDepthDetermine(a: Type, b: Type)
    requires BaseBit(a) == BaseBit(b) && Depth(a) == Depth(b)
    ensures a == b
  {
    match a
    case IntegerType(_) =>
    case PointerType(t) => BaseAndDepthDetermine(t, b.target);
  }

  /** Distinct types render differently, so `toString` could serve as a key. */
  lemma ToStringInjective(a: Type, b: Type)
    ensures ToString(a) == ToString(b) <==> a == b
  {
    if ToString(a) == ToString(b) {
      ToStringShape(a);
      ToStringShape(b);
      var sa, sb := IntToString(BaseBit(a) as int), IntToString(BaseBit(b) as int);
      var da, db := Depth(a), Depth(b);
      // The decimal part never contains '*', so the trailing stars have the same length.
      assert forall i :: 0 <= i < |sa| ==> sa[i] != '*' by { IntToStringNoStar(BaseBit(a) as int); }
      assert forall i :: 0 <= i < |sb| ==> sb[i] != '*' by { IntToStringNoStar(BaseBit(b) as int); }
      var s := ToString(a);
      assert s == "i" + sa + Stars(da) == "i" + sb + Stars(db);
      StarSuffix("i" + sa, da, "i" + sb, db);
      assert "i" + sa == "i" + sb;
      assert sa == ("i" + sa)[1..] == ("i" + sb)[1..] == sb;
      IntToStringInjective(BaseBit(a) as int, BaseBit(b) as int);
      BaseAndDepthDetermine(a, b);
    }
  }

  lemma IntToStringNoStar(n: int)
    ensures forall i :: 0 <= i < |IntToString(n)| ==> IntToString(n)[i] != '*'
  {
    var s := IntToString(n);
    if n < 0 {
      var t := NatToString(-n);
      assert forall i :: 1 <= i < |s| ==> s[i] == t[i - 1];
    }
  }

  /** Length of the run of `*` that ends a string. */
  function TrailingStars(s: string): nat
  {
    if s != [] && s[|s| - 1] == '*' then 1 + TrailingStars(s[..|s| - 1]) else 0
  }

  lemma {:induction false} TrailingStarsOf(p: string, m: nat)
    requires |p| >= 1 && p[|p| - 1] != '*'
    ensures TrailingStars(p + Stars(m)) == m
  {
    if m > 0 {
      var s := p + Stars(m);
      assert s[..|s| - 1] == p + Stars(m - 1);
      TrailingStarsOf(p, m - 1);
    } else {
      assert p + Stars(m) == p;
    }
  }

  /** Two strings ending in runs of stars, with no star just before the run, split alike. */
  lemma StarSuffix(p: string, m: nat, q: string, n: nat)
    requires |p| >= 1 && |q| >= 1 && p[|p| - 1] != '*' && q[|q| - 1] != '*'
    requires p + Stars(m) == q + Stars(n)
    ensures m == n && p == q
  {
    var s := p + Stars(m);
    TrailingStarsOf(p, m);
    TrailingStarsOf(q, n);
    assert p == s[..|p|] == q;
  }
}
