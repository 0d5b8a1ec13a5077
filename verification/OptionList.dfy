/** The sorted, stable option list: where an option goes, and what fragments of a long
    value read back as. */
module OptionList {
  import opened OptionTable

  /** Where `o` goes: behind the last option whose symbol does not exceed its own. */
  function Place(s: seq<Opt>, o: Opt): (k: nat)
    ensures k <= |s| && (k > 0 ==> s[k - 1].sym <= o.sym)
    ensures forall i :: k <= i < |s| ==> o.sym < s[i].sym
  {
    if s == [] || s[|s| - 1].sym <= o.sym then |s| else Place(s[..|s| - 1], o)
  }

  function Insert(s: seq<Opt>, o: Opt): (r: seq<Opt>)
    ensures |r| == |s| + 1
  {
    s[..Place(s, o)] + [o] + s[Place(s, o)..]
  }

  function InsertAll(s: seq<Opt>, os: seq<Opt>): (r: seq<Opt>)
    ensures |r| == |s| + |os|
  {
    if os == [] then s else Insert(InsertAll(s, os[..|os| - 1]), os[|os| - 1])
  }

  /** The options of one symbol, in list order. */
  function Select(s: seq<Opt>, sym: Sym): seq<Opt> {
    if s == [] then []
    else Select(s[..|s| - 1], sym) + (if s[|s| - 1].sym == sym then [s[|s| - 1]] else [])
  }

  /** All value bytes, in list order. */
  function Values(s: seq<Opt>): bytes {
    if s == [] then [] else Values(s[..|s| - 1]) + s[|s| - 1].val
  }

  /** Insertion loses or gains nothing else. */
  lemma InsertMultiset(s: seq<Opt>, o: Opt)
    ensures multiset(Insert(s, o)) == multiset(s) + multiset{o}
  {
    assert s == s[..Place(s, o)] + s[Place(s, o)..];
  }

  /** Insertion keeps the list sorted. */
  lemma InsertSorted(s: seq<Opt>, o: Opt)
    requires Sorted(s)
    ensures Sorted(Insert(s, o))
  {}

  lemma InsertAreOpts(s: seq<Opt>, o: Opt)
    requires AreOpts(s) && IsOpt(o)
    ensures AreOpts(Insert(s, o))
  {
    hide Place, IsOpt, TypeOf;
    var k, r := Place(s, o), Insert(s, o);
    forall i | 0 <= i < |r| ensures IsOpt(r[i]) {
      assert r[i] == if i < k then s[i] else if i == k then o else s[i - 1];
    }
  }

  lemma {:induction false} SelectConcat(s: seq<Opt>, t: seq<Opt>, sym: Sym)
    ensures Select(s + t, sym) == Select(s, sym) + Select(t, sym)
  {
    if t == [] {
      assert s + t == s;
    } else {
      assert (s + t)[..|s + t| - 1] == s + t[..|t| - 1];
      SelectConcat(s, t[..|t| - 1], sym);
    }
  }

  lemma {:induction false} SelectNone(s: seq<Opt>, sym: Sym)
    requires forall i :: 0 <= i < |s| ==> s[i].sym != sym
    ensures Select(s, sym) == []
  {
    if s != [] {
      SelectNone(s[..|s| - 1], sym);
    }
  }

  /** Insertion is stable: a new option comes last among those of its own symbol and does
      not disturb the order of any other symbol's. */
  lemma InsertStable(s: seq<Opt>, o: Opt, sym: Sym)
    ensures Select(Insert(s, o), sym) == Select(s, sym) + (if o.sym == sym then [o] else [])
  {
    hide Select;
    var low, high := s[..Place(s, o)], s[Place(s, o)..];
    if o.sym == sym {
      SelectNone(high, sym);
    }
    hide Place;
    assert s == low + high;
    SelectAround(low, o, high, sym);
  }

  lemma SelectAround(low: seq<Opt>, o: Opt, high: seq<Opt>, sym: Sym)
    ensures Select(low + high, sym) == Select(low, sym) + Select(high, sym)
    ensures Select(low + [o] + high, sym)
            == Select(low, sym) + (if o.sym == sym then [o] else []) + Select(high, sym)
  {
    SelectConcat(low, high, sym);
    SelectConcat(low + [o], high, sym);
    SelectAppend(low, o, sym);
  }

  lemma SelectAppend(s: seq<Opt>, o: Opt, sym: Sym)
    ensures Select(s + [o], sym) == Select(s, sym) + (if o.sym == sym then [o] else [])
  {
    assert (s + [o])[..|s|] == s;
  }

  lemma {:induction false} InsertAllStable(s: seq<Opt>, os: seq<Opt>, sym: Sym)
    ensures Select(InsertAll(s, os), sym) == Select(s, sym) + Select(os, sym)
  {
    if os != [] {
      var n := |os| - 1;
      InsertAllStable(s, os[..n], sym);
      InsertStable(InsertAll(s, os[..n]), os[n], sym);
    }
  }

  lemma {:induction false} InsertAllSorted(s: seq<Opt>, os: seq<Opt>)
    requires Sorted(s)
    ensures Sorted(InsertAll(s, os))
    ensures AreOpts(s) && AreOpts(os) ==> AreOpts(InsertAll(s, os))
  {
    hide Insert, Place, IsOpt, TypeOf;
    if os != [] {
      var n := |os| - 1;
      InsertAllSorted(s, os[..n]);
      InsertSorted(InsertAll(s, os[..n]), os[n]);
      if AreOpts(s) && AreOpts(os) {
        InsertAreOpts(InsertAll(s, os[..n]), os[n]);
      }
    }
  }

  lemma {:induction false} ValuesConcat(s: seq<Opt>, t: seq<Opt>)
    ensures Values(s + t) == Values(s) + Values(t)
  {
    if t == [] {
      assert s + t == s;
    } else {
      var n := |t| - 1;
      assert (s + t)[..|s + t| - 1] == s + t[..n];
      ValuesConcat(s, t[..n]);
    }
  }

  // ------------------------------------------------------------- fragmentation

  /** Slots used by a value of `l` bytes: full fragments, and one more for a remainder or
      for an empty value. */
  function Slots(l: nat): nat {
    l / OPT_LEN_MAX + (if l % OPT_LEN_MAX != 0 || l == 0 then 1 else 0)
  }

  lemma SlotsRoundUp(l: nat)
    ensures Slots(l) >= 1 && (Slots(l) - 1) * OPT_LEN_MAX <= l <= Slots(l) * OPT_LEN_MAX
    ensures l > 0 ==> (Slots(l) - 1) * OPT_LEN_MAX < l
  {}

  function Min(a: nat, b: nat): nat {
    if a <= b then a else b
  }

  /** Fragment number `k` of a value. */
  function Fragment(sym: Sym, v: bytes, k: nat): (o: Opt)
    requires k < Slots(|v|)
    ensures IsOpt(o) && o.sym == sym
  {
    SlotsRoundUp(|v|);
    MakeOpt(sym, v[k * OPT_LEN_MAX..Min((k + 1) * OPT_LEN_MAX, |v|)])
  }

  /** The first `n` fragments of a value, in order. */
  function Fragments(sym: Sym, v: bytes, n: nat): (r: seq<Opt>)
    requires n <= Slots(|v|)
    ensures |r| == n && AreOpts(r) && forall i :: 0 <= i < n ==> r[i].sym == sym
  {
    if n == 0 then [] else Fragments(sym, v, n - 1) + [Fragment(sym, v, n - 1)]
  }

  lemma {:induction false} FragmentsJoin(sym: Sym, v: bytes, n: nat)
    requires TypeOf(sym) != Empty && n <= Slots(|v|)
    ensures Values(Fragments(sym, v, n)) == v[..Min(n * OPT_LEN_MAX, |v|)]
  {
    SlotsRoundUp(|v|);
    hide Slots, TypeOf;
    if n > 0 {
      FragmentsJoin(sym, v, n - 1);
      assert v[..Min(n * OPT_LEN_MAX, |v|)]
          == v[..(n - 1) * OPT_LEN_MAX] + v[(n - 1) * OPT_LEN_MAX..Min(n * OPT_LEN_MAX, |v|)];
    }
  }

  lemma {:induction false} SelectAll(s: seq<Opt>, sym: Sym, other: Sym)
    requires forall i :: 0 <= i < |s| ==> s[i].sym == sym
    ensures Select(s, other) == if other == sym then s else []
  {
    if s != [] {
      SelectAll(s[..|s| - 1], sym, other);
    }
  }

  /** Fragmentation is invisible to a reader who concatenates the options of a symbol:
      adding a value of any length appends it to what was there. */
  lemma FragmentsReadBack(s: seq<Opt>, sym: Sym, v: bytes)
    requires TypeOf(sym) != Empty
    ensures Values(Select(InsertAll(s, Fragments(sym, v, Slots(|v|))), sym)) == Values(Select(s, sym)) + v
  {
    hide Slots, TypeOf, Insert, InsertAll, Select, Values;
    var f := Fragments(sym, v, Slots(|v|));
    InsertAllStable(s, f, sym);
    SelectAll(f, sym, sym);
    ValuesConcat(Select(s, sym), f);
    FragmentsJoin(sym, v, |f|);
    SlotsRoundUp(|v|);
    assert v[..|v|] == v;
  }

  lemma FragmentsLeaveOthers(s: seq<Opt>, sym: Sym, v: bytes, other: Sym)
    requires other != sym
    ensures Select(InsertAll(s, Fragments(sym, v, Slots(|v|))), other) == Select(s, other)
  {
    hide Slots, TypeOf, Insert, InsertAll, Select, Values;
    var f := Fragments(sym, v, Slots(|v|));
    InsertAllStable(s, f, other);
    SelectAll(f, sym, other);
  }
}
