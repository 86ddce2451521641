/**
 * A function's symbol table: each distinct name gets the next dense index,
 * in insertion order, and keeps it.
 */
module Scopes {
  import opened Wrappers
  import opened Values

  /** The names of a list of symbols, as a set. */
  function Names(syms: seq<Symbol>): set<string>
  {
    set i | 0 <= i < |syms| :: syms[i].name
  }

  predicate DistinctNames(syms: seq<Symbol>)
  {
    forall i, j :: 0 <= i < j < |syms| ==> syms[i].name != syms[j].name
  }

  /** The list `add` builds from `list` when given `syms` one after another. */
  function AddAll(list: seq<Symbol>, syms: seq<Symbol>): seq<Symbol>
    decreases |syms|
  {
    if syms == [] then list
    else if syms[0].name in Names(list) then AddAll(list, syms[1..])
    else AddAll(list + [syms[0]], syms[1..])
  }

  lemma NamesAppend(list: seq<Symbol>, s: Symbol)
    ensures Names(list + [s]) == Names(list) + {s.name}
  {
    var l := list + [s];
    assert l[|list|] == s;
    forall n | n in Names(list) ensures n in Names(l) {
      var i :| 0 <= i < |list| && list[i].name == n;
      assert l[i] == list[i];
    }
  }

  /** Adding keeps every name once: the result has distinct names covering both inputs. */
  lemma {:induction false} AddAllNames(list: seq<Symbol>, syms: seq<Symbol>)
    requires DistinctNames(list)
    ensures DistinctNames(AddAll(list, syms))
    ensures Names(AddAll(list, syms)) == Names(list) + Names(syms)
    ensures |list| <= |AddAll(list, syms)| && AddAll(list, syms)[..|list|] == list
    decreases |syms|
  {
    if syms != [] {
      var rest := syms[1..];
      assert Names(syms) == {syms[0].name} + Names(rest) by {
        forall n | n in Names(syms) ensures n in {syms[0].name} + Names(rest) {
          var i :| 0 <= i < |syms| && syms[i].name == n;
          if i > 0 { assert rest[i - 1] == syms[i]; }
        }
        forall n | n in Names(rest) ensures n in Names(syms) {
          var i :| 0 <= i < |rest| && rest[i].name == n;
          assert syms[i + 1] == rest[i];
        }
      }
      if syms[0].name in Names(list) {
        AddAllNames(list, rest);
      } else {
        var l := list + [syms[0]];
        NamesAppend(list, syms[0]);
        assert DistinctNames(l) by {
          forall i, j | 0 <= i < j < |l| ensures l[i].name != l[j].name {
            if j == |list| {
              assert l[i] == list[i];
              assert list[i].name in Names(list);
            }
          }
        }
        AddAllNames(l, rest);
        assert AddAll(l, rest)[..|l|] == l;
        assert AddAll(l, rest)[..|list|] == l[..|list|];
      }
    }
  }

  /** With no name repeated or already present, adding appends every symbol in order. */
  lemma {:induction false} AddAllFresh(list: seq<Symbol>, syms: seq<Symbol>)
    requires DistinctNames(syms)
    requires forall i :: 0 <= i < |syms| ==> syms[i].name !in Names(list)
    ensures AddAll(list, syms) == list + syms
    decreases |syms|
  {
    if syms != [] {
      var l := list + [syms[0]];
      NamesAppend(list, syms[0]);
      forall i | 0 <= i < |syms[1..]| ensures syms[1..][i].name !in Names(l) {
        assert syms[1..][i] == syms[i + 1];
      }
      AddAllFresh(l, syms[1..]);
      assert l + syms[1..] == list + syms;
    }
  }

  /** Indices are dense in `[0, |list|)`; names, indices and table entries agree. */
  ghost predicate Indexed(list: seq<Symbol>, index: map<string, int>, table: map<string, Symbol>)
  {
    && (forall i :: 0 <= i < |list| ==> list[i].name in index && index[list[i].name] == i)
    && index.Keys == Names(list)
    && table.Keys == Names(list)
    && (forall n :: n in table ==> n in index && 0 <= index[n] < |list| && list[index[n]] == table[n])
  }

  /** A new name appended at index `|list|` keeps the three views in agreement. */
  lemma AddFresh(list: seq<Symbol>, index: map<string, int>, table: map<string, Symbol>, s: Symbol)
    requires Indexed(list, index, table) && s.name !in table
    ensures Indexed(list + [s], index[s.name := |list|], table[s.name := s])
  {
    AddFreshPositions(list, index, s);
    AddFreshTable(list, index, table, s);
    AddFreshKeys(list, index, table, s);
  }

  /** A new name is appended. */
  lemma AddFreshAppends(list: seq<Symbol>, s: Symbol)
    requires s.name !in Names(list)
    ensures AddAll(list, [s]) == list + [s]
  {
    assert [s][1..] == [];
  }

  lemma AddFreshKeys(list: seq<Symbol>, index: map<string, int>, table: map<string, Symbol>, s: Symbol)
    requires index.Keys == Names(list) && table.Keys == Names(list)
    ensures index[s.name := |list|].Keys == Names(list + [s]) && table[s.name := s].Keys == Names(list + [s])
  {
    NamesAppend(list, s);
  }

  lemma AddFreshPositions(list: seq<Symbol>, index: map<string, int>, s: Symbol)
    requires forall i :: 0 <= i < |list| ==> list[i].name in index && index[list[i].name] == i
    requires index.Keys == Names(list) && s.name !in index
    ensures var l, ix := list + [s], index[s.name := |list|];
            forall i :: 0 <= i < |l| ==> l[i].name in ix && ix[l[i].name] == i
  {
    var l, ix := list + [s], index[s.name := |list|];
    forall i | 0 <= i < |l| ensures l[i].name in ix && ix[l[i].name] == i {
      if i < |list| {
        assert l[i] == list[i];
        assert list[i].name in Names(list);
      }
    }
  }

  lemma AddFreshTable(list: seq<Symbol>, index: map<string, int>, table: map<string, Symbol>, s: Symbol)
    requires forall n :: n in table ==> n in index && 0 <= index[n] < |list| && list[index[n]] == table[n]
    ensures var l, ix, tb := list + [s], index[s.name := |list|], table[s.name := s];
            forall n :: n in tb ==> n in ix && 0 <= ix[n] < |l| && l[ix[n]] == tb[n]
  {
    var l, ix, tb := list + [s], index[s.name := |list|], table[s.name := s];
    forall n | n in tb ensures n in ix && 0 <= ix[n] < |l| && l[ix[n]] == tb[n] {
      if n != s.name {
        assert l[index[n]] == list[index[n]];
      }
    }
  }

  /** A known name is skipped. */
  lemma AddKnown(list: seq<Symbol>, s: Symbol)
    requires s.name in Names(list)
    ensures AddAll(list, [s]) == list
  {
    assert [s][1..] == [];
  }

  class Scope {
    var list: seq<Symbol>
    /** `HashMap<Symbol, Int>`: symbols hash and compare by name, so it is keyed by name. */
    var index: map<string, int>
    var table: map<string, Symbol>

    /** Indices are dense in `[0, size)`; names, indices and table entries agree. */
    ghost predicate Valid()
      reads this
    {
      Indexed(list, index, table)
    }

    constructor ()
      ensures Valid() && list == [] && index == map[] && table == map[]
    {
      list, index, table := [], map[], map[];
    }

    function Size(): (n: nat)
      reads this
      ensures n == |list|
    {
      |list|
    }

    /** `contains(name)`: whether a symbol of that name was added. */
    function Contains(name: string): (b: bool)
      reads this
      requires Valid()
      ensures b <==> exists i :: 0 <= i < |list| && list[i].name == name
    {
      name in table
    }

    /** `get(index: Int)`: the symbol at a position; out of range throws. */
    function GetAt(i: int): (r: Result<Symbol>)
      reads this
      ensures r.Ok? <==> 0 <= i < |list|
      ensures r.Ok? ==> r.value == list[i]
      ensures r.Err? ==> r.error == IndexOutOfBounds
    {
      if 0 <= i < |list| then Ok(list[i]) else Err(IndexOutOfBounds)
    }

    /** `get(symbol)`: the index of the symbol with that name; absent throws (`!!`). */
    function IndexOf(s: Symbol): (r: Result<int>)
      reads this
      requires Valid()
      ensures r.Ok? <==> Contains(s.name)
      ensures r.Ok? ==> 0 <= r.value < |list| && list[r.value].name == s.name
      ensures r.Err? ==> r.error == NullPointer
    {
      if s.name in index then Ok(index[s.name]) else Err(NullPointer)
    }

    /** `get(name)`: the symbol registered under a name; absent throws (`!!`). */
    function Lookup(name: string): (r: Result<Symbol>)
      reads this
      requires Valid()
      ensures r.Ok? <==> Contains(name)
      ensures r.Ok? ==> r.value.name == name && r.value in list
      ensures r.Err? ==> r.error == NullPointer
    {
      if name in table then Ok(table[name]) else Err(NullPointer)
    }

    /** Iteration order: the symbols as they were added. */
    function Symbols(): (s: seq<Symbol>)
      reads this
      requires Valid()
      ensures |s| == Size() && DistinctNames(s)
    {
      list
    }

    /** `add`: a new name is appended with index `size`; a known name changes nothing. */
    method Add(s: Symbol)
      requires Valid()
      modifies this
      ensures Valid()
      ensures list == AddAll(old(list), [s])
      ensures old(Contains(s.name)) ==> list == old(list) && index == old(index) && table == old(table)
      ensures !old(Contains(s.name)) ==>
                && list == old(list) + [s]
                && index == old(index)[s.name := old(|list|)]
                && table == old(table)[s.name := s]
      ensures forall n :: n in old(index) ==> n in index && index[n] == old(index[n])
    {
      if s.name in table {
        AddKnown(list, s);
        return;
      }
      var i := Size();
      AddFresh(list, index, table, s);
      AddFreshAppends(list, s);
      list := list + [s];
      index := index[s.name := i];
      table := table[s.name := s];
    }

    /** Round trip from positions: the symbol at `i` has index `i`. */
    lemma IndexOfGetAt(i: nat)
      requires Valid() && i < |list|
      ensures GetAt(i).Ok? && IndexOf(GetAt(i).value) == Ok(i)
    {
    }

    /** Round trip from symbols: `get(get(s))` is the symbol registered under `s`'s name. */
    lemma GetAtIndexOf(s: Symbol)
      requires Valid() && Contains(s.name)
      ensures IndexOf(s).Ok? && GetAt(IndexOf(s).value) == Lookup(s.name)
      ensures s in list ==> GetAt(IndexOf(s).value) == Ok(s)
    {
      if s in list {
        var i :| 0 <= i < |list| && list[i] == s;
        assert index[s.name] == i;
      }
    }

    /** Lookup is by name: a separately built symbol with the same name has the same index. */
    lemma IndexByName(a: Symbol, b: Symbol)
      requires Valid() && a.name == b.name
      ensures IndexOf(a) == IndexOf(b)
    {
    }
  }
}
