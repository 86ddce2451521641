/**
 * The fixed-size bit vector that carries every dataflow value.
 *
 * The source packs the bits into 64-bit words.  Here each word is spread out
 * over 64 consecutive booleans of one array, so bit `i` of the vector is
 * element `i` of `words`, and the positions from `size` up to the end of the
 * last word are the padding bits.  The padding is kept: complement flips it,
 * and equality must not see it.
 */
module BitVectors {
  import opened Wrappers

  /** Bits per backing word (`Long.SIZE_BITS`). */
  const WordBits: nat := 64

  /**
   * Number of backing words of a fresh vector: `(size - 1) / 64 + 1` in Kotlin,
   * whose division truncates, so an empty vector still gets one word.
   */
  function WordCount(size: nat): (n: nat)
    ensures size <= WordBits * n
    ensures size == 0 ==> n == 1
    ensures size > 0 ==> WordBits * (n - 1) < size
  {
    if size == 0 then 1 else (size - 1) / WordBits + 1
  }

  // ---------------------------------------------------------------------
  // The logical value of a vector: its first `size` bits.

  function Zeros(n: nat): (r: seq<bool>)
    ensures |r| == n && forall i :: 0 <= i < n ==> !r[i]
  {
    seq(n, _ => false)
  }

  function Ones(n: nat): (r: seq<bool>)
    ensures |r| == n && forall i :: 0 <= i < n ==> r[i]
  {
    seq(n, _ => true)
  }

  function Complement(s: seq<bool>): (r: seq<bool>)
    ensures |r| == |s|
  {
    seq(|s|, i requires 0 <= i < |s| => !s[i])
  }

  function Union(a: seq<bool>, b: seq<bool>): (r: seq<bool>)
    requires |a| == |b|
    ensures |r| == |a|
  {
    seq(|a|, i requires 0 <= i < |a| => a[i] || b[i])
  }

  function Intersect(a: seq<bool>, b: seq<bool>): (r: seq<bool>)
    requires |a| == |b|
    ensures |r| == |a|
  {
    seq(|a|, i requires 0 <= i < |a| => a[i] && b[i])
  }

  /** Set inclusion between two vectors of the same size. */
  predicate Subset(a: seq<bool>, b: seq<bool>)
  {
    |a| == |b| && forall i :: 0 <= i < |a| ==> a[i] ==> b[i]
  }

  /** Number of set bits, the height measure of the intersection lattice. */
  function Count(s: seq<bool>): (n: nat)
    ensures n <= |s|
  {
    if s == [] then 0 else (if s[|s| - 1] then 1 else 0) + Count(s[..|s| - 1])
  }

  /** `toString`: the bits from the highest index down to index 0, as '1'/'0'. */
  function Render(s: seq<bool>): (r: string)
    ensures |r| == |s|
  {
    seq(|s|, k requires 0 <= k < |s| => if s[|s| - 1 - k] then '1' else '0')
  }

  // ---------------------------------------------------------------------
  // Algebra of the logical values.

  lemma DoubleComplement(s: seq<bool>)
    ensures Complement(Complement(s)) == s
  {
  }

  lemma ComplementFlips(s: seq<bool>, i: nat)
    requires i < |s|
    ensures Complement(s)[i] == !s[i]
  {
  }

  lemma UnionCommutes(a: seq<bool>, b: seq<bool>)
    requires |a| == |b|
    ensures Union(a, b) == Union(b, a)
  {
  }

  lemma IntersectCommutes(a: seq<bool>, b: seq<bool>)
    requires |a| == |b|
    ensures Intersect(a, b) == Intersect(b, a)
  {
  }

  lemma UnionAssociates(a: seq<bool>, b: seq<bool>, c: seq<bool>)
    requires |a| == |b| == |c|
    ensures Union(Union(a, b), c) == Union(a, Union(b, c))
  {
  }

  lemma IntersectAssociates(a: seq<bool>, b: seq<bool>, c: seq<bool>)
    requires |a| == |b| == |c|
    ensures Intersect(Intersect(a, b), c) == Intersect(a, Intersect(b, c))
  {
  }

  lemma IntersectComplementIsZero(s: seq<bool>)
    ensures Intersect(s, Complement(s)) == Zeros(|s|)
  {
  }

  lemma UnionIsUpperBound(a: seq<bool>, b: seq<bool>)
    requires |a| == |b|
    ensures Subset(a, Union(a, b)) && Subset(b, Union(a, b))
  {
  }

  lemma IntersectIsGreatestLowerBound(a: seq<bool>, b: seq<bool>, c: seq<bool>)
    requires |a| == |b| == |c|
    ensures Subset(Intersect(a, b), a) && Subset(Intersect(a, b), b)
    ensures Subset(c, a) && Subset(c, b) ==> Subset(c, Intersect(a, b))
  {
  }

  lemma OnesIsIntersectIdentity(s: seq<bool>)
    ensures Intersect(Ones(|s|), s) == s
  {
  }

  lemma SubsetTransitive(a: seq<bool>, b: seq<bool>, c: seq<bool>)
    requires Subset(a, b) && Subset(b, c)
    ensures Subset(a, c)
  {
  }

  lemma {:induction false} CountMonotone(a: seq<bool>, b: seq<bool>)
    requires Subset(a, b)
    ensures Count(a) <= Count(b)
    ensures Count(a) == Count(b) ==> a == b
  {
    if a != [] {
      var n := |a| - 1;
      assert Subset(a[..n], b[..n]);
      CountMonotone(a[..n], b[..n]);
      if Count(a) == Count(b) {
        assert a[..n] == b[..n];
        assert a == a[..n] + [a[n]] && b == b[..n] + [b[n]];
      }
    }
  }

  /** `toString` decides `equals`: distinct bit sequences render differently. */
  lemma RenderInjective(a: seq<bool>, b: seq<bool>)
    ensures Render(a) == Render(b) <==> a == b
  {
    if Render(a) == Render(b) {
      assert |a| == |b|;
      forall i | 0 <= i < |a| ensures a[i] == b[i] {
        var k := |a| - 1 - i;
        assert Render(a)[k] == Render(b)[k];
      }
    }
  }

  // ---------------------------------------------------------------------
  // Flat positions: where an index lands in the word array.

  /**
   * The element of `words` that `get`/`set` touch for `index`, or -1 when
   * the word index is negative.  For a negative index Kotlin's truncating
   * division gives word 0 for -63..-1, and `1L shl k` only uses the low six
   * bits of `k`, so those indices reach bit `64 + index` of word 0.
   */
  function FlatPos(index: int): (p: int)
    ensures index >= 0 ==> p == index
    ensures -(WordBits as int) < index < 0 ==> p == WordBits as int + index
    ensures index <= -(WordBits as int) ==> p == -1
  {
    if index >= 0 then index
    else if index > -(WordBits as int) then WordBits as int + index
    else -1
  }

  lemma FlatPosInjectiveOnNat(i: nat, j: nat)
    ensures FlatPos(i) == FlatPos(j) <==> i == j
  {
  }

  // ---------------------------------------------------------------------

  /** The bit vector object.  `size` and the `words` reference never change. */
  class BitVector {
    const size: nat
    const words: array<bool>

    /** What every vector built by the secondary constructor or an operation satisfies. */
    ghost predicate Valid()
    {
      words.Length == WordBits * WordCount(size)
    }

    /** The logical value: the first `size` bits. */
    function Bits(): (s: seq<bool>)
      reads words
      requires Valid()
      ensures |s| == size
    {
      words[..size]
    }

    /** The primary constructor: a size and an arbitrary word array, unchecked. */
    constructor FromWords(size: nat, words: array<bool>)
      ensures this.size == size && this.words == words
    {
      this.size := size;
      this.words := words;
    }

    /** `BitVector(size)`: all bits, padding included, cleared. */
    constructor (size: nat)
      ensures this.size == size && fresh(words)
      ensures Valid() && Bits() == Zeros(size)
      ensures forall k :: 0 <= k < words.Length ==> !words[k]
    {
      this.size := size;
      this.words := new bool[WordBits * WordCount(size)](_ => false);
    }

    /** `get`: the bit at `index`; `index >= size` or a word outside the array throws. */
    function Get(index: int): (r: Result<bool>)
      reads words
      ensures r.Ok? <==> index < size && 0 <= FlatPos(index) < words.Length
      ensures r.Err? ==> r.error == IndexOutOfBounds
      ensures Valid() && 0 <= index < size ==> r == Ok(Bits()[index])
    {
      if index >= size then Err(IndexOutOfBounds)
      else
        var p := FlatPos(index);
        if p < 0 || p >= words.Length then Err(IndexOutOfBounds) else Ok(words[p])
    }

    /** `set`: writes one bit of the shared word array in place. */
    method Set(index: int, bit: bool) returns (r: Outcome)
      modifies words
      ensures r.Pass? <==> old(Get(index)).Ok?
      ensures r.Fail? ==> r.error == IndexOutOfBounds && words[..] == old(words[..])
      ensures r.Pass? ==> words[..] == old(words[..])[FlatPos(index) := bit]
      ensures r.Pass? ==> Get(index) == Ok(bit)
      ensures r.Pass? ==> forall j :: FlatPos(j) != FlatPos(index) ==> Get(j) == old(Get(j))
    {
      if index >= size {
        return Fail(IndexOutOfBounds);
      }
      var p := FlatPos(index);
      if p < 0 || p >= words.Length {
        return Fail(IndexOutOfBounds);
      }
      words[p] := bit;
      r := Pass;
    }

    /** `not`: a new vector over the complement of every word, padding included. */
    method Not() returns (r: BitVector)
      ensures fresh(r.words) && r.size == size && r.words.Length == words.Length
      ensures forall k :: 0 <= k < words.Length ==> r.words[k] == !words[k]
      ensures Valid() ==> r.Valid() && r.Bits() == Complement(Bits())
    {
      var w := new bool[words.Length](k reads words => if 0 <= k < words.Length then !words[k] else false);
      r := new BitVector.FromWords(size, w);
    }

    /** `or`: word-wise disjunction over the common length; different sizes throw. */
    method Or(other: BitVector) returns (r: Result<BitVector>)
      ensures r.Err? <==> size != other.size
      ensures r.Err? ==> r.error == IllegalArgument
      ensures r.Ok? ==> fresh(r.value.words) && r.value.size == size
      ensures r.Ok? ==> r.value.words.Length == Min(words.Length, other.words.Length)
      ensures r.Ok? ==> forall k :: 0 <= k < r.value.words.Length ==>
                          r.value.words[k] == (words[k] || other.words[k])
      ensures r.Ok? && Valid() && other.Valid() ==>
                r.value.Valid() && r.value.Bits() == Union(Bits(), other.Bits())
    {
      if size != other.size {
        return Err(IllegalArgument);
      }
      var n := Min(words.Length, other.words.Length);
      var w := new bool[n](k reads words, other.words =>
        if 0 <= k < words.Length && k < other.words.Length then words[k] || other.words[k] else false);
      var v := new BitVector.FromWords(size, w);
      r := Ok(v);
    }

    /** `and`: word-wise conjunction over the common length; different sizes throw. */
    method And(other: BitVector) returns (r: Result<BitVector>)
      ensures r.Err? <==> size != other.size
      ensures r.Err? ==> r.error == IllegalArgument
      ensures r.Ok? ==> fresh(r.value.words) && r.value.size == size
      ensures r.Ok? ==> r.value.words.Length == Min(words.Length, other.words.Length)
      ensures r.Ok? ==> forall k :: 0 <= k < r.value.words.Length ==>
                          r.value.words[k] == (words[k] && other.words[k])
      ensures r.Ok? && Valid() && other.Valid() ==>
                r.value.Valid() && r.value.Bits() == Intersect(Bits(), other.Bits())
    {
      if size != other.size {
        return Err(IllegalArgument);
      }
      var n := Min(words.Length, other.words.Length);
      var w := new bool[n](k reads words, other.words =>
        if 0 <= k < words.Length && k < other.words.Length then words[k] && other.words[k] else false);
      var v := new BitVector.FromWords(size, w);
      r := Ok(v);
    }

    /** `toString`, read through the bit iterator. */
    function ToString(): (s: string)
      reads words
      requires Valid()
      ensures s == Render(Bits())
    {
      Render(Bits())
    }

    /** `equals`: decided by comparing the two `toString` renderings. */
    function Equals(other: BitVector): (b: bool)
      reads words, other.words
      requires Valid() && other.Valid()
      ensures b <==> size == other.size && Bits() == other.Bits()
    {
      RenderInjective(Bits(), other.Bits());
      ToString() == other.ToString()
    }

    /** `clone`: a new object that shares this vector's word array. */
    method Clone() returns (c: BitVector)
      ensures fresh(c) && c.size == size && c.words == words
      ensures Valid() ==> c.Valid() && c.Bits() == Bits()
    {
      c := new BitVector.FromWords(size, words);
    }
  }

  function Min(a: int, b: int): int { if a < b then a else b }

  /** A write through a clone is seen through the original, since both share `words`. */
  method CloneSharesWords(v: BitVector, i: nat, bit: bool) returns (c: BitVector)
    requires v.Valid() && i < v.size
    modifies v.words
    ensures c.words == v.words && c.size == v.size
    ensures v.Get(i) == Ok(bit) && c.Get(i) == Ok(bit)
  {
    c := v.Clone();
    var r := c.Set(i, bit);
  }

  /** Iterator over the logical bits, from index 0 upwards. */
  class BitIterator {
    const vec: BitVector
    var index: int

    constructor (vec: BitVector)
      ensures this.vec == vec && index == 0
    {
      this.vec := vec;
      index := 0;
    }

    function HasNext(): (b: bool)
      reads this
      ensures b <==> index < vec.size
    {
      index < vec.size
    }

    /** `vec[index++]`: the index moves on before `get` runs, even when `get` throws. */
    method Next() returns (r: Result<bool>)
      modifies this
      ensures index == old(index) + 1
      ensures r == vec.Get(old(index))
    {
      var i := index;
      index := index + 1;
      r := vec.Get(i);
    }
  }
}
