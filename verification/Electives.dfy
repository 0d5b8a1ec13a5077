/** Option lists of other senders: records of any number among them, in the same format.
    Unknown elective options are passed over without disturbing what follows; an unknown
    critical one is refused. */
module Electives {
  import opened OptionTable
  import opened OptionCodec

  /** A record as another sender may write it: any number, any value. */
  datatype Item = Item(num: nat, val: bytes)

  /** May the items be written after an option numbered `last`? */
  predicate Ascending(last: nat, items: seq<Item>)
    decreases |items|
  {
    items != [] ==>
      last <= items[0].num && |items[0].val| <= OPT_LEN_MAX && Ascending(items[0].num, items[1..])
  }

  /** Fenceposts, head and value. */
  function ItemBytes(last: nat, x: Item): bytes
    requires last <= x.num && |x.val| <= OPT_LEN_MAX
  {
    FencepostsBridgeGap(last, x.num);
    FenceBytes(Fences(last, x.num)) + Head(FinalDelta(last, x.num), |x.val|) + x.val
  }

  function AllBytes(last: nat, items: seq<Item>): bytes
    requires Ascending(last, items)
    decreases |items|
  {
    if items == [] then [] else ItemBytes(last, items[0]) + AllBytes(items[0].num, items[1..])
  }

  /** Records written: items, and fenceposts before them. */
  function Records(last: nat, items: seq<Item>): nat
    requires Ascending(last, items)
    decreases |items|
  {
    if items == [] then 0 else |Fences(last, items[0].num)| + 1 + Records(items[0].num, items[1..])
  }

  /** The numbers of the option table, and even ones, which are elective. */
  predicate Acceptable(items: seq<Item>) {
    forall x :: x in items ==> (1 <= x.num <= 13 || x.num in {15, 17, 19, 21, 23} || x.num % 2 == 0) && |x.val| != 15
  }

  /** The options of the table among the items; If-None-Match has no value. */
  function TableOptions(items: seq<Item>): seq<Opt> {
    if items == [] then []
    else
      var x := items[0];
      (if 1 <= x.num <= 13 then [Opt(x.num, |x.val|, x.val)]
       else if x.num == 15 then [Opt(URI_QUERY, |x.val|, x.val)]
       else if x.num == 17 then [Opt(BLOCK2, |x.val|, x.val)]
       else if x.num == 19 then [Opt(BLOCK1, |x.val|, x.val)]
       else if x.num == 21 then [Opt(IF_NONE_MATCH, |x.val|, [])]
       else if x.num == 23 then [Opt(PUBLISH, |x.val|, x.val)]
       else []) + TableOptions(items[1..])
  }

  lemma Kept(x: Item)
    requires Acceptable([x])
    ensures TableOptions([x]) == if Known(x.num) then [MakeOpt(SymbolOf(x.num), x.val)] else []
  {
    assert x in [x];
    assert [x][1..] == [];
  }

  lemma KeptFirst(items: seq<Item>)
    requires items != []
    ensures TableOptions(items) == TableOptions([items[0]]) + TableOptions(items[1..])
  {
    assert [items[0]][1..] == [] && TableOptions([]) == [];
    var rest := TableOptions(items[1..]);
    assert [] + rest == rest;
  }

  /** The record itself, after its fenceposts. */
  lemma StepItem(b: bytes, p: nat, x: Item, delta: nat)
    requires Acceptable([x]) && |x.val| <= OPT_LEN_MAX && delta <= 14 && delta <= x.num
    requires Holds(b, p, Head(delta, |x.val|) + x.val)
    ensures DecodeRecord(b, p, x.num - delta)
            == Take(TableOptions([x]), |Head(delta, |x.val|)| + |x.val|, x.num)
  {
    hide Head, Holds, TableOptions, MakeOpt, SymbolOf;
    var h := Head(delta, |x.val|);
    assert x in [x];
    HeadParts(delta, |x.val|);
    PartsAt(b, p, h, x.val);
    HoldsParts(b, p, h, x.val);
    AtPlace(b, p + |h|, x.val);
    Kept(x);
    NotFence(x.num);
  }

  lemma NotFence(num: nat)
    ensures Known(num) ==> !IsFencepost(num)
  {}

  lemma AtPlace(b: bytes, p: nat, v: bytes)
    requires Holds(b, p, v)
    ensures p + |v| <= |b| && b[p..p + |v|] == v
  {}

  lemma DecodeItem(b: bytes, p: nat, last: nat, x: Item, count: nat, sofar: seq<Opt>)
    requires Acceptable([x]) && |x.val| <= OPT_LEN_MAX && last <= x.num && Holds(b, p, ItemBytes(last, x))
    ensures DecodeFrom(b, p, last, |Fences(last, x.num)| + 1 + count, sofar)
            == DecodeFrom(b, p + |ItemBytes(last, x)|, x.num, count, sofar + TableOptions([x]))
  {
    hide DecodeRecord, DecodeFrom, Fences, FenceBytes, Head, Holds, TableOptions;
    FencepostsBridgeGap(last, x.num);
    var ds, delta := Fences(last, x.num), FinalDelta(last, x.num);
    var h := Head(delta, |x.val|);
    FenceBytesLength(ds);
    assert ItemBytes(last, x) == FenceBytes(ds) + (h + x.val);
    HoldsParts(b, p, FenceBytes(ds), h + x.val);
    PassFences(b, p, last, x.num, 1 + count, sofar);
    StepItem(b, p + |ds|, x, delta);
    DecodeStep(b, p + |ds|, x.num - delta, 1 + count, sofar, TableOptions([x]), |h| + |x.val|, x.num);
  }

  lemma Parts(items: seq<Item>)
    requires items != [] && Acceptable(items)
    ensures Acceptable([items[0]]) && Acceptable(items[1..])
  {}

  /** Wherever such records stand, with unknown elective options of any number among them and
      no value of 15 bytes, decoding them gives exactly the options of the table, in order,
      and ends where the last record ends. */
  lemma {:induction false} ElectivesPassedOver(b: bytes, p: nat, last: nat, items: seq<Item>, count: nat, sofar: seq<Opt>)
    requires Ascending(last, items) && Acceptable(items) && Holds(b, p, AllBytes(last, items))
    ensures DecodeFrom(b, p, last, Records(last, items) + count, sofar)
            == DecodeFrom(b, p + |AllBytes(last, items)|, if items == [] then last else items[|items| - 1].num, count,
                          sofar + TableOptions(items))
    ensures count == 0 ==>
              DecodeFrom(b, p, last, Records(last, items), sofar)
              == Done(sofar + TableOptions(items), p + |AllBytes(last, items)|)
    decreases |items|
  {
    hide DecodeRecord, DecodeFrom, Holds, ItemBytes, Fences, Acceptable;
    if items == [] {
      assert sofar + [] == sofar;
      DecodeNone(b, p, last, sofar);
    } else {
      var x, rest := items[0], items[1..];
      Parts(items);
      var e, f := ItemBytes(last, x), AllBytes(x.num, rest);
      HoldsParts(b, p, e, f);
      DecodeItem(b, p, last, x, Records(x.num, rest) + count, sofar);
      ElectivesPassedOver(b, p + |e|, x.num, rest, count, sofar + TableOptions([x]));
      KeptFirst(items);
      assert sofar + TableOptions([x]) + TableOptions(rest) == sofar + TableOptions(items);
      if count == 0 {
        DecodeNone(b, p + |e + f|, items[|items| - 1].num, sofar + TableOptions(items));
      }
    }
  }

  // ------------------------------------------------- values of fifteen bytes

  /** The numbers of the table and elective ones, with values of any length. */
  predicate Elected(items: seq<Item>) {
    forall x :: x in items ==> 1 <= x.num <= 13 || x.num in {15, 17, 19, 21, 23} || (x.num % 2 == 0 && x.num > 0)
  }

  /** A byte that, taken for the next record, is refused after an option that has lost its value. */
  function Filler(num: nat): byte {
    if num == 21 then 0x40 else 0xB0
  }

  function Filled(num: nat, len: nat): bytes {
    seq(len, _ => Filler(num))
  }

  /** What is read of an item whose value is 15 bytes long: the value shifted by the second
      length byte; its last byte is left to stand for the next record. */
  function Misread(x: Item): seq<Opt>
    requires |x.val| == 15
  {
    if Known(x.num) then [MakeOpt(SymbolOf(x.num), [0] + x.val[..14])] else []
  }

  lemma StepFifteen(b: bytes, p: nat, x: Item, delta: nat)
    requires Elected([x]) && |x.val| == 15 && delta <= 14 && delta <= x.num
    requires Holds(b, p, Head(delta, 15) + x.val)
    ensures DecodeRecord(b, p, x.num - delta)
            == Take(Misread(x), 16, x.num)
  {
    hide Head, MakeOpt, SymbolOf;
    var h := Head(delta, 15);
    assert x in [x];
    HeadParts(delta, 15);
    PartsAt(b, p, h, x.val);
    HoldsParts(b, p, h, x.val);
    AtPlace(b, p + |h|, x.val);
    assert b[p + 1..p + 16] == [0] + x.val[..14];
    NotFence(x.num);
  }

  lemma DecodeFifteen(b: bytes, p: nat, last: nat, x: Item, count: nat, sofar: seq<Opt>)
    requires Elected([x]) && |x.val| == 15 && last <= x.num && Holds(b, p, ItemBytes(last, x))
    ensures var q := p + |ItemBytes(last, x)| - 1;
            p <= q < |b| && b[q] == x.val[14]
            && DecodeFrom(b, p, last, |Fences(last, x.num)| + 1 + count, sofar)
               == DecodeFrom(b, q, x.num, count, sofar + Misread(x))
  {
    hide DecodeRecord, DecodeFrom, Fences, FenceBytes, Head, Holds, MakeOpt, SymbolOf;
    FencepostsBridgeGap(last, x.num);
    var ds, delta := Fences(last, x.num), FinalDelta(last, x.num);
    var h := Head(delta, 15);
    FenceBytesLength(ds);
    HeadParts(delta, 15);
    assert ItemBytes(last, x) == FenceBytes(ds) + (h + x.val);
    HoldsParts(b, p, FenceBytes(ds), h + x.val);
    PassFences(b, p, last, x.num, 1 + count, sofar);
    StepFifteen(b, p + |ds|, x, delta);
    DecodeStep(b, p + |ds|, x.num - delta, 1 + count, sofar, Misread(x), 16, x.num);
    LastOf(b, p + |ds|, h + x.val);
  }

  /** A list whose first item is filled like that and 15 bytes long is not read back. */
  lemma FilledFails(b: bytes, p: nat, last: nat, items: seq<Item>, sofar: seq<Opt>)
    requires Ascending(last, items) && items != [] && Elected(items) && items[0].val == Filled(items[0].num, 15)
    requires Holds(b, p, AllBytes(last, items))
    ensures DecodeFrom(b, p, last, Records(last, items), sofar)
            != Done(sofar + TableOptions(items), p + |AllBytes(last, items)|)
  {
    hide DecodeRecord, DecodeFrom, Holds, ItemBytes, Fences, TableOptions;
    var x, rest := items[0], items[1..];
    var e, f := ItemBytes(last, x), AllBytes(x.num, rest);
    HoldsParts(b, p, e, f);
    assert x in [x] && x in items;
    var left, q := Records(x.num, rest), p + |e| - 1;
    DecodeFifteen(b, p, last, x, left, sofar);
    hide AllBytes, Records, Misread, Elected, Filled, Known, Ascending;
    if Known(x.num) && x.num != 21 {
      FilledDiffers(items);
      OtherOption(b, q, x.num, left, sofar, Misread(x), TableOptions(items), p + |e + f|);
    } else {
      FillerRefused(x);
      OneShort(b, q, x.num, left, sofar + Misread(x), sofar + TableOptions(items), p + |e + f|);
    }
  }

  lemma OtherOption(b: bytes, q: nat, num: nat, count: nat, s: seq<Opt>, a: seq<Opt>,
                    t: seq<Opt>, end: nat)
    requires |a| == 1 && t != [] && a[0] != t[0]
    ensures DecodeFrom(b, q, num, count, s + a) != Done(s + t, end)
  {
    DecodeKeeps(b, q, num, count, s + a);
    NotBefore(s, a, t);
  }

  lemma OneShort(b: bytes, q: nat, num: nat, count: nat, s: seq<Opt>, t: seq<Opt>, end: nat)
    requires q < |b| && q < end
    requires var cur := num + b[q] as int / 16; cur % 2 == 1 && cur > 13 && cur !in {15, 17, 19, 21, 23}
    ensures DecodeFrom(b, q, num, count, s) != Done(t, end)
  {
    hide DecodeRecord, DecodeFrom;
    if count == 0 {
      DecodeNone(b, q, num, s);
    } else {
      Refused(b, q, num, num + b[q] as int / 16);
      RefusedAt(b, q, num, count, s);
    }
  }

  lemma FillerRefused(x: Item)
    requires Elected([x]) && x.val == Filled(x.num, 15) && (!Known(x.num) || x.num == 21)
    ensures var cur := x.num + x.val[14] as int / 16; cur % 2 == 1 && cur > 13 && cur !in {15, 17, 19, 21, 23}
  {
    assert x in [x];
  }

  lemma NotBefore(s: seq<Opt>, a: seq<Opt>, t: seq<Opt>)
    requires |a| == 1 && t != [] && a[0] != t[0]
    ensures !(s + a <= s + t)
  {
    assert (s + a)[|s|] == a[0] && (s + t)[|s|] == t[0];
  }

  lemma LastOf(b: bytes, p: nat, v: bytes)
    requires Holds(b, p, v) && v != []
    ensures p + |v| <= |b| && b[p + |v| - 1] == v[|v| - 1]
  {
    assert b[p..p + |v|][|v| - 1] == b[p + |v| - 1];
  }

  lemma FilledDiffers(items: seq<Item>)
    requires items != [] && Known(items[0].num) && items[0].num != 21
    requires items[0].val == Filled(items[0].num, 15)
    ensures TableOptions(items) != [] && |Misread(items[0])| == 1 && TableOptions(items)[0] != Misread(items[0])[0]
  {
    var v := items[0].val;
    assert v[0] != 0 && ([0] + v[..14])[0] == 0;
  }

  lemma {:induction false} FifteenAnywhere(b: bytes, p: nat, last: nat, items: seq<Item>, sofar: seq<Opt>)
    requires Ascending(last, items) && Elected(items) && !Acceptable(items)
    requires forall x :: x in items ==> x.val == Filled(x.num, |x.val|)
    requires Holds(b, p, AllBytes(last, items))
    ensures DecodeFrom(b, p, last, Records(last, items), sofar)
            != Done(sofar + TableOptions(items), p + |AllBytes(last, items)|)
    decreases |items|
  {
    hide DecodeRecord, DecodeFrom, Holds, ItemBytes, Fences, Filled;
    assert items != [];
    var x, rest := items[0], items[1..];
    assert x in items;
    if |x.val| == 15 {
      FilledFails(b, p, last, items, sofar);
    } else {
      assert Acceptable([x]);
      assert forall y :: y in rest ==> y in items;
      assert !Acceptable(rest) by {
        var y :| y in items && |y.val| == 15;
        assert y in rest;
      }
      HoldsParts(b, p, ItemBytes(last, x), AllBytes(x.num, rest));
      DecodeItem(b, p, last, x, Records(x.num, rest), sofar);
      KeptFirst(items);
      assert sofar + TableOptions([x]) + TableOptions(rest) == sofar + TableOptions(items);
      FifteenAnywhere(b, p + |ItemBytes(last, x)|, x.num, rest, sofar + TableOptions([x]));
    }
  }

  /** Is a list of records of its own read back? */
  predicate ReadsBack(items: seq<Item>)
    requires Ascending(0, items)
  {
    DecodeFrom(AllBytes(0, items), 0, 0, Records(0, items), [])
    == Done(TableOptions(items), |AllBytes(0, items)|)
  }

  /** Items of given numbers and lengths. */
  predicate HasShape(items: seq<Item>, nums: seq<nat>, lens: seq<nat>) {
    |items| == |nums| == |lens| && forall i :: 0 <= i < |items| ==> items[i].num == nums[i] && |items[i].val| == lens[i]
  }

  /** For any numbers and lengths: lists of records are read back whatever their values if and
      only if no length is 15. */
  lemma WhateverValues(nums: seq<nat>, lens: seq<nat>, items: seq<Item>)
    requires HasShape(items, nums, lens) && Ascending(0, items) && Elected(items)
    ensures (forall xs :: HasShape(xs, nums, lens) && Ascending(0, xs) ==> ReadsBack(xs)) <==> 15 !in lens
  {
    hide DecodeFrom, AllBytes, Records, Ascending, TableOptions, Filled;
    if 15 !in lens {
      forall xs | HasShape(xs, nums, lens) && Ascending(0, xs) ensures ReadsBack(xs) {
        ShapeAcceptable(xs, items, nums, lens);
        Alone(AllBytes(0, xs));
        ElectivesPassedOver(AllBytes(0, xs), 0, 0, xs, 0, []);
        assert [] + TableOptions(xs) == TableOptions(xs);
      }
    } else {
      var xs := seq(|nums|, i requires 0 <= i < |nums| => Item(nums[i], Filled(nums[i], lens[i])));
      FilledLength(nums, lens);
      assert HasShape(xs, nums, lens);
      SameShape(0, items, xs);
      var k :| 0 <= k < |lens| && lens[k] == 15;
      assert xs[k] in xs;
      Alone(AllBytes(0, xs));
      FifteenAnywhere(AllBytes(0, xs), 0, 0, xs, []);
      assert [] + TableOptions(xs) == TableOptions(xs);
      assert !ReadsBack(xs);
    }
  }

  lemma ShapeAcceptable(xs: seq<Item>, items: seq<Item>, nums: seq<nat>, lens: seq<nat>)
    requires HasShape(xs, nums, lens) && HasShape(items, nums, lens) && Elected(items) && 15 !in lens
    ensures Acceptable(xs)
  {
    forall x | x in xs
      ensures (1 <= x.num <= 13 || x.num in {15, 17, 19, 21, 23} || x.num % 2 == 0) && |x.val| != 15
    {
      var k :| 0 <= k < |xs| && xs[k] == x;
      assert items[k] in items && lens[k] in lens;
    }
  }

  lemma Alone(e: bytes)
    ensures Holds(e, 0, e)
  {
    assert e[0..|e|] == e;
  }

  lemma FilledLength(nums: seq<nat>, lens: seq<nat>)
    requires |nums| == |lens|
    ensures forall i :: 0 <= i < |nums| ==> |Filled(nums[i], lens[i])| == lens[i]
  {}

  lemma {:induction false} SameShape(last: nat, items: seq<Item>, xs: seq<Item>)
    requires Ascending(last, items) && |xs| == |items|
    requires forall i :: 0 <= i < |xs| ==> xs[i].num == items[i].num && |xs[i].val| == |items[i].val|
    ensures Ascending(last, xs)
    ensures Elected(items) ==> Elected(xs)
    decreases |items|
  {
    if items != [] {
      assert forall i :: 0 <= i < |xs| - 1 ==> xs[1..][i] == xs[i + 1] && items[1..][i] == items[i + 1];
      SameShape(items[0].num, items[1..], xs[1..]);
    }
    if Elected(items) {
      forall x | x in xs ensures 1 <= x.num <= 13 || x.num in {15, 17, 19, 21, 23} || (x.num % 2 == 0 && x.num > 0) {
        var k :| 0 <= k < |xs| && xs[k] == x;
        assert items[k] in items;
      }
    }
  }

  // ------------------------------------------------------- unknown critical ones

  /** An unknown critical option after any such records is refused, whatever follows it. */
  lemma CriticalRefused(b: bytes, p: nat, last: nat, items: seq<Item>, x: Item, count: nat, sofar: seq<Opt>)
    requires Ascending(last, items) && Acceptable(items)
    requires (if items == [] then last else items[|items| - 1].num) <= x.num && |x.val| <= OPT_LEN_MAX
    requires x.num % 2 == 1 && x.num > 13 && x.num !in {15, 17, 19, 21, 23}
    requires var at := if items == [] then last else items[|items| - 1].num;
             Holds(b, p, AllBytes(last, items) + ItemBytes(at, x))
             && count > Records(last, items) + |Fences(at, x.num)|
    ensures DecodeFrom(b, p, last, count, sofar) == BadOption
  {
    hide DecodeRecord, DecodeFrom, Holds, AllBytes, Fences, FenceBytes, Head, Acceptable, TableOptions;
    var at := if items == [] then last else items[|items| - 1].num;
    var e := AllBytes(last, items);
    HoldsParts(b, p, e, ItemBytes(at, x));
    var left := count - Records(last, items);
    ElectivesPassedOver(b, p, last, items, left, sofar);
    FencepostsBridgeGap(at, x.num);
    var ds, delta := Fences(at, x.num), FinalDelta(at, x.num);
    var h, q := Head(delta, |x.val|), p + |e| + |ds|;
    FenceBytesLength(ds);
    assert ItemBytes(at, x) == FenceBytes(ds) + (h + x.val);
    HoldsParts(b, p + |e|, FenceBytes(ds), h + x.val);
    PassFences(b, p + |e|, at, x.num, left - |ds|, sofar + TableOptions(items));
    HeadParts(delta, |x.val|);
    PartsAt(b, q, h, x.val);
    Refused(b, q, x.num - delta, x.num);
    RefusedAt(b, q, x.num - delta, left - |ds|, sofar + TableOptions(items));
  }

  lemma Refused(b: bytes, p: nat, num: nat, cur: nat)
    requires p < |b| && cur == num + b[p] as int / 16
    requires cur % 2 == 1 && cur > 13 && cur !in {15, 17, 19, 21, 23}
    ensures DecodeRecord(b, p, num) == Refuse
  {}

  lemma RefusedAt(b: bytes, p: nat, num: nat, count: nat, sofar: seq<Opt>)
    requires count > 0 && DecodeRecord(b, p, num) == Refuse
    ensures DecodeFrom(b, p, num, count, sofar) == BadOption
  {
    hide DecodeRecord;
  }

  /** For example: Uri-Path "a", an unknown elective option 18, and Block1. */
  lemma Eighteen()
    ensures DecodeFrom([0x91, 0x61, 0x91, 0x78, 0x11, 0x06], 0, 0, 3, [])
            == Done([Opt(URI_PATH, 1, [0x61]), Opt(BLOCK1, 1, [0x06])], 6)
  {
    var b: bytes := [0x91, 0x61, 0x91, 0x78, 0x11, 0x06];
    assert b[1..2] == [0x61] && b[5..6] == [0x06];
    assert DecodeRecord(b, 0, 0) == Take([Opt(URI_PATH, 1, [0x61])], 2, 9);
    assert DecodeRecord(b, 2, 9) == Take([], 2, 18);
    assert DecodeRecord(b, 4, 18) == Take([Opt(BLOCK1, 1, [0x06])], 2, 19);
    hide DecodeRecord;
    DecodeStep(b, 0, 0, 3, [], [Opt(URI_PATH, 1, [0x61])], 2, 9);
    DecodeStep(b, 2, 9, 2, [Opt(URI_PATH, 1, [0x61])], [], 2, 18);
    DecodeStep(b, 4, 18, 1, [Opt(URI_PATH, 1, [0x61])], [Opt(BLOCK1, 1, [0x06])], 2, 19);
  }
}
