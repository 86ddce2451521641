/**
 * The snapshot's symbol table.  As in the later IR, a new name is appended
 * with the next dense index and a known name is skipped; the index map is
 * keyed by the symbol itself, so only the symbol that was added has an
 * index, and `toArray` copies the symbols out in insertion order.
 */
module SnapshotScopes {
  import opened Wrappers
  import opened SnapshotValues

  function Names(syms: seq<Symbol>): set<string>
  {
    set i | 0 <= i < |syms| :: syms[i].name
  }

  predicate DistinctNames(syms: seq<Symbol>)
  {
    forall i, j :: 0 <= i < j < |syms| ==> syms[i].name != syms[j].name
  }

  /** The list `add` builds from `list` when given `syms` one after another. */
  function AddAll(list: seq<Symbol>, syms: seq<Symbol>): seq<Symbol>
    decreases |syms|
  {
    if syms == [] then list
    else if syms[0].name in Names(list) then AddAll(list, syms[1..])
    else AddAll(list + [syms[0]], syms[1..])
  }

  lemma NamesAppend(list: seq<Symbol>, s: Symbol)
    ensures Names(list + [s]) == Names(list) + {s.name}
  {
    var l := list + [s];
    assert l[|list|] == s;
    forall n | n in Names(list) ensures n in Names(l) {
      var i :| 0 <= i < |list| && list[i].name == n;
      assert l[i] == list[i];
    }
  }

  /** Adding one more symbol is adding the prefix, then that symbol. */
  lemma {:induction false} AddAllSnoc(list: seq<Symbol>, syms: seq<Symbol>, s: Symbol)
    ensures AddAll(list, syms + [s]) == AddAll(AddAll(list, syms), [s])
    decreases |syms|
  {
    if syms == [] {
      assert syms + [s] == [s];
    } else {
      assert (syms + [s])[1..] == syms[1..] + [s];
      if syms[0].name in Names(list) {
        AddAllSnoc(list, syms[1..], s);
      } else {
        AddAllSnoc(list + [syms[0]], syms[1..], s);
      }
    }
  }

  /** Adding keeps names distinct and the earlier symbols in place, and covers both inputs' names. */
  lemma {:induction false} AddAllNames(list: seq<Symbol>, syms: seq<Symbol>)
    requires DistinctNames(list)
    ensures DistinctNames(AddAll(list, syms))
    ensures Names(AddAll(list, syms)) == Names(list) + Names(syms)
    ensures |list| <= |AddAll(list, syms)| && AddAll(list, syms)[..|list|] == list
    decreases |syms|
  {
    if syms != [] {
      var rest := syms[1..];
      assert Names(syms) == {syms[0].name} + Names(rest) by {
        forall n | n in Names(syms) ensures n in {syms[0].name} + Names(rest) {
          var i :| 0 <= i < |syms| && syms[i].name == n;
          if i > 0 { assert rest[i - 1] == syms[i]; }
        }
        forall n | n in Names(rest) ensures n in Names(syms) {
          var i :| 0 <= i < |rest| && rest[i].name == n;
          assert syms[i + 1] == rest[i];
        }
      }
      if syms[0].name in Names(list) {
        AddAllNames(list, rest);
      } else {
        var l := list + [syms[0]];
        NamesAppend(list, syms[0]);
        assert DistinctNames(l) by {
          forall i, j | 0 <= i < j < |l| ensures l[i].name != l[j].name {
            if j == |list| {
              assert l[i] == list[i];
              assert list[i].name in Names(list);
            }
          }
        }
        AddAllNames(l, rest);
        assert AddAll(l, rest)[..|l|] == l;
        assert AddAll(l, rest)[..|list|] == l[..|list|];
      }
    }
  }

  /** Positions, the symbol index and the name table agree. */
  ghost predicate Indexed(list: seq<Symbol>, index: map<Symbol, int>, table: map<string, Symbol>)
  {
    && DistinctNames(list)
    && (forall i :: 0 <= i < |list| ==> list[i] in index && index[list[i]] == i)
    && (forall s :: s in index ==> 0 <= index[s] < |list| && list[index[s]] == s)
    && table.Keys == Names(list)
    && (forall n :: n in table ==> table[n] in index && table[n].name == n)
  }

  /** A symbol with a new name, appended at position `|list|`, keeps the three views in agreement. */
  lemma AddFresh(list: seq<Symbol>, index: map<Symbol, int>, table: map<string, Symbol>, s: Symbol)
    requires Indexed(list, index, table) && s.name !in table
    ensures Indexed(list + [s], index[s := |list|], table[s.name := s])
  {
    var l, ix, tb := list + [s], index[s := |list|], table[s.name := s];
    assert s !in index;
    assert DistinctNames(l) by {
      forall i, j | 0 <= i < j < |l| ensures l[i].name != l[j].name {
        if j == |list| {
          assert l[i] == list[i];
          assert list[i].name in Names(list);
        }
      }
    }
    forall i | 0 <= i < |l| ensures l[i] in ix && ix[l[i]] == i {
      if i < |list| {
        assert l[i] == list[i];
      }
    }
    forall x | x in ix ensures 0 <= ix[x] < |l| && l[ix[x]] == x {
      if x != s {
        assert l[index[x]] == list[index[x]];
      }
    }
    NamesAppend(list, s);
  }

  class Scope {
    var list: seq<Symbol>
    var index: map<Symbol, int>
    var table: map<string, Symbol>

    ghost predicate Valid()
      reads this
    {
      Indexed(list, index, table)
    }

    constructor ()
      ensures Valid() && list == [] && index == map[] && table == map[]
    {
      list, index, table := [], map[], map[];
    }

    function Size(): (n: nat)
      reads this
      ensures n == |list|
    {
      |list|
    }

    /** `contains(name)`: whether a symbol of that name was added. */
    function Contains(name: string): (b: bool)
      reads this
      requires Valid()
      ensures b <==> exists i :: 0 <= i < |list| && list[i].name == name
    {
      name in table
    }

    /** `get(index: Int)`: the symbol at a position; out of range throws. */
    function GetAt(i: int): (r: Result<Symbol>)
      reads this
      ensures r.Ok? <==> 0 <= i < |list|
      ensures r.Ok? ==> r.value == list[i]
      ensures r.Err? ==> r.error == IndexOutOfBounds
    {
      if 0 <= i < |list| then Ok(list[i]) else Err(IndexOutOfBounds)
    }

    /** `get(symbol)`: the index of that very symbol; a symbol never added throws (`!!`). */
    function IndexOf(s: Symbol): (r: Result<int>)
      reads this
      requires Valid()
      ensures r.Ok? <==> s in list
      ensures r.Ok? ==> 0 <= r.value < |list| && list[r.value] == s
      ensures r.Err? ==> r.error == NullPointer
    {
      if s in index then Ok(index[s]) else Err(NullPointer)
    }

    /** `get(name)`: the symbol registered under a name; absent throws (`!!`). */
    function Lookup(name: string): (r: Result<Symbol>)
      reads this
      requires Valid()
      ensures r.Ok? <==> Contains(name)
      ensures r.Ok? ==> r.value.name == name && r.value in list
      ensures r.Err? ==> r.error == NullPointer
    {
      if name in table then Ok(table[name]) else Err(NullPointer)
    }

    /** `add`: a new name is appended with index `size`; a known name changes nothing. */
    method Add(s: Symbol)
      requires Valid()
      modifies this
      ensures Valid()
      ensures list == AddAll(old(list), [s])
      ensures old(Contains(s.name)) ==> list == old(list) && index == old(index) && table == old(table)
      ensures !old(Contains(s.name)) ==>
                && list == old(list) + [s]
                && index == old(index)[s := old(|list|)]
                && table == old(table)[s.name := s]
    {
      assert [s][1..] == [];
      if s.name in table {
        return;
      }
      var i := Size();
      AddFresh(list, index, table, s);
      list := list + [s];
      index := index[s := i];
      table := table[s.name := s];
    }

    /** `toArray`: a new array holding the symbols in insertion order. */
    method ToArray() returns (a: array<Symbol>)
      ensures fresh(a) && a[..] == list
    {
      var l := list;
      a := new Symbol[|l|](i requires 0 <= i < |l| => l[i]);
    }

    /** Round trip from positions: the symbol at `i` has index `i`. */
    lemma IndexOfGetAt(i: nat)
      requires Valid() && i < |list|
      ensures GetAt(i).Ok? && IndexOf(GetAt(i).value) == Ok(i)
    {
    }

    /** Round trip from symbols: `get(get(s)) == s` for every added symbol. */
    lemma GetAtIndexOf(s: Symbol)
      requires Valid() && s in list
      ensures IndexOf(s).Ok? && GetAt(IndexOf(s).value) == Ok(s)
    {
    }
  }
}
