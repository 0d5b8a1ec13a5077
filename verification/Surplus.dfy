/** Empty options given a length.  Space is charged for their values but nothing is written
    there, so the encoding ends in as many surplus bytes of whatever the buffer held.  The
    list is read back whatever they are exactly if only its last option has any. */
module Surplus {
  import opened OptionTable
  import opened OptionCodec

  function Missing(o: Opt): (r: nat)
    requires IsOpt(o)
  {
    o.len - |o.val|
  }

  /** Surplus bytes of a whole list. */
  function SurplusSize(last: nat, os: seq<Opt>): (r: nat)
    requires Follows(last, os)
  {
    EncodedLength(last, os);
    SizeFrom(last, os) - |EncodeFrom(last, os)|
  }

  lemma {:induction false} SurplusOfLast(last: nat, os: seq<Opt>)
    requires Follows(last, os) && os != []
    ensures IsOpt(os[|os| - 1])
    ensures SurplusSize(last, os) >= Missing(os[|os| - 1])
    ensures !PlainButLast(os) ==> SurplusSize(last, os) > Missing(os[|os| - 1])
    decreases |os|
  {
    hide EncodeFrom, SizeFrom, Follows, Fences, FenceBytes, Sorted;
    var o, n := os[0], Number(os[0].sym);
    Unfold(last, os);
    UnfoldSize(last, os);
    FencepostsBridgeGap(last, n);
    FenceBytesLength(Fences(last, n));
    EncodedLength(n, os[1..]);
    NothingEncoded(n);
    if |os| > 1 {
      SurplusOfLast(n, os[1..]);
      SplitPlain(os);
    }
  }

  lemma SplitPlain(os: seq<Opt>)
    requires |os| > 1
    ensures PlainButLast(os) <==> |os[0].val| == os[0].len && PlainButLast(os[1..])
  {
    assert forall i :: 0 <= i < |os[1..]| ==> os[1..][i] == os[i + 1];
    if PlainButLast(os[1..]) && |os[0].val| == os[0].len {
      forall i | 0 <= i < |os| - 1 ensures |os[i].val| == os[i].len {
        assert i > 0 ==> os[i] == os[1..][i - 1];
      }
    }
  }

  // ------------------------------------------------- what reading back would need

  /** A record of the option that ends at `end`: the last byte of what is written for it. */
  predicate Ends(b: bytes, end: int, o: Opt)
    requires IsOpt(o)
  {
    0 <= end - Missing(o) - 1 < |b|
    && (var x := b[end - Missing(o) - 1];
        if o.val != [] then x == o.val[|o.val| - 1]
        else if o.len > 14 then x as int == o.len - 15
        else x as int % 16 == o.len)
  }

  /** A byte that can never stand there. */
  function Spoiler(o: Opt): (x: byte)
    requires IsOpt(o)
    ensures o.val != [] ==> x != o.val[|o.val| - 1]
    ensures o.val == [] && o.len > 14 ==> x as int != o.len - 15
    ensures o.val == [] && o.len <= 14 ==> x as int % 16 != o.len
  {
    if o.val != [] then (if o.val[|o.val| - 1] == 0 then 1 else 0)
    else if o.len > 14 then (if o.len == 15 then 1 else 0)
    else 15
  }

  /** Header and length of an option. */
  function Bare(o: Opt): nat {
    (if o.len > 14 then 2 else 1) + o.len
  }

  function AllBare(os: seq<Opt>): nat {
    if os == [] then 0 else Bare(os[0]) + AllBare(os[1..])
  }

  /** A record from which the option was read. */
  lemma ReadFrom(b: bytes, p: nat, num: nat, o: Opt)
    requires IsOpt(o) && DecodeRecord(b, p, num).Take? && DecodeRecord(b, p, num).kept == [o]
    ensures DecodeRecord(b, p, num).size == Bare(o) - Lag(o)
    ensures o.len != 15 ==> Ends(b, p + Bare(o), o)
  {}

  /** Every record adds one option at most. */
  lemma {:induction false} OneEach(b: bytes, p: nat, num: nat, count: nat, sofar: seq<Opt>)
    ensures var r := DecodeFrom(b, p, num, count, sofar);
            r.Done? ==> |r.opts| <= |sofar| + count
    decreases count
  {
    hide DecodeRecord;
    if count > 0 && DecodeRecord(b, p, num).Take? {
      var Take(kept, size, cur) := DecodeRecord(b, p, num);
      AtMostOne(b, p, num);
      OneEach(b, p + size, cur, count - 1, sofar + kept);
    }
  }

  lemma AtMostOne(b: bytes, p: nat, num: nat)
    ensures DecodeRecord(b, p, num).Take? ==> |DecodeRecord(b, p, num).kept| <= 1
  {}

  /** As many records as options: then every record's place and size is forced. */
  lemma {:induction false} AllKept(b: bytes, p: nat, num: nat, os: seq<Opt>, sofar: seq<Opt>)
    requires os != [] && AreOpts(os)
    requires DecodeFrom(b, p, num, |os|, sofar).Done? && DecodeFrom(b, p, num, |os|, sofar).opts == sofar + os
    ensures var q := DecodeFrom(b, p, num, |os|, sofar).pos;
            q <= p + AllBare(os) && (HasFifteen(os) ==> q < p + AllBare(os))
    ensures !HasFifteen(os) ==> Ends(b, p + AllBare(os), os[|os| - 1])
    decreases |os|
  {
    hide DecodeRecord, DecodeFrom, Ends, Bare, HasFifteen;
    var o, rest := os[0], os[1..];
    MustTake(b, p, num, |os|, sofar);
    var Take(kept, size, cur) := DecodeRecord(b, p, num);
    DecodeStep(b, p, num, |os|, sofar, kept, size, cur);
    AtMostOne(b, p, num);
    OneEach(b, p + size, cur, |os| - 1, sofar + kept);
    DecodeKeeps(b, p + size, cur, |os| - 1, sofar + kept);
    assert (sofar + os)[|sofar|] == o && (sofar + kept)[|sofar|] == kept[0];
    assert kept == [o];
    ReadFrom(b, p, num, o);
    SplitFifteen(os);
    NoneFifteen();
    assert sofar + os == sofar + [o] + rest;
    if rest != [] {
      assert forall i :: 0 <= i < |rest| ==> rest[i] == os[i + 1];
      AllKept(b, p + size, cur, rest, sofar + [o]);
    } else {
      DecodeNone(b, p + size, cur, sofar + [o]);
    }
  }

  lemma NoneFifteen()
    ensures !HasFifteen([])
  {}

  lemma MustTake(b: bytes, p: nat, num: nat, count: nat, sofar: seq<Opt>)
    requires count > 0 && DecodeFrom(b, p, num, count, sofar).Done?
    ensures DecodeRecord(b, p, num).Take?
  {
    hide DecodeRecord;
  }

  lemma {:induction false} SizeIsBare(last: nat, os: seq<Opt>)
    requires Follows(last, os) && last > 14
    ensures SizeFrom(last, os) == AllBare(os) && FenceCount(last, os) == 0
    decreases |os|
  {
    NoLateFences(last, os);
    if os != [] {
      FollowsTail(last, os);
      SizeIsBare(Number(os[0].sym), os[1..]);
    }
  }

  /** Reading back a list with surplus bytes before its last option needs the last byte
      written for that option among them. */
  lemma {:induction false} ReadBackNeeds(b: bytes, p: nat, last: nat, os: seq<Opt>, sofar: seq<Opt>)
    requires Follows(last, os) && !PlainButLast(os)
    requires Holds(b, p, EncodeFrom(last, os)) && p + SizeFrom(last, os) <= |b|
    requires DecodeFrom(b, p, last, |os| + FenceCount(last, os), sofar)
             == Done(sofar + os, p + SizeFrom(last, os))
    ensures IsOpt(os[|os| - 1]) && Ends(b, p + SizeFrom(last, os), os[|os| - 1])
    decreases |os|
  {
    hide DecodeRecord, DecodeFrom, Follows, EncodeFrom, SizeFrom, FenceCount, Record, Fences, FenceBytes,
      PlainButLast, HasFifteen, Ends;
    assert |os| > 1 by { ShortIsPlain(os); }
    var o, n := os[0], Number(os[0].sym);
    Unfold(last, os);
    UnfoldSize(last, os);
    SplitPlain(os);
    if |o.val| == o.len {
      var left := |os| - 1 + FenceCount(n, os[1..]);
      if o.len == 15 {
        FifteenFails(b, p, last, os, left, sofar);
      } else {
        HoldsParts(b, p, Record(last, o), EncodeFrom(n, os[1..]));
        DecodeWhole(b, p, last, o, left, sofar);
        PlainRecord(last, o);
        assert sofar + os == sofar + [o] + os[1..];
        ReadBackNeeds(b, p + RecordSize(last, o), n, os[1..], sofar + [o]);
      }
    } else {
      FromFirstMissing(b, p, last, os, sofar);
    }
  }

  lemma ShortIsPlain(os: seq<Opt>)
    ensures |os| <= 1 ==> PlainButLast(os)
  {}

  lemma PlainRecord(last: nat, o: Opt)
    requires IsOpt(o) && |o.val| == o.len && last <= Number(o.sym)
    ensures |Record(last, o)| == RecordSize(last, o)
  {
    FencepostsBridgeGap(last, Number(o.sym));
    FenceBytesLength(Fences(last, Number(o.sym)));
  }

  lemma FromFirstMissing(b: bytes, p: nat, last: nat, os: seq<Opt>, sofar: seq<Opt>)
    requires Follows(last, os) && os != [] && |os[0].val| != os[0].len
    requires Holds(b, p, EncodeFrom(last, os)) && p + SizeFrom(last, os) <= |b|
    requires DecodeFrom(b, p, last, |os| + FenceCount(last, os), sofar)
             == Done(sofar + os, p + SizeFrom(last, os))
    ensures IsOpt(os[|os| - 1]) && Ends(b, p + SizeFrom(last, os), os[|os| - 1])
  {
    hide DecodeRecord, DecodeFrom, EncodeFrom, SizeFrom, FenceCount, Fences, FenceBytes, HasFifteen, Ends, Sorted;
    var o, n := os[0], Number(os[0].sym);
    Unfold(last, os);
    UnfoldSize(last, os);
    var ds := Fences(last, n);
    FencepostsBridgeGap(last, n);
    FenceBytesLength(ds);
    var h := Head(FinalDelta(last, n), o.len);
    assert Record(last, o) + EncodeFrom(n, os[1..]) == FenceBytes(ds) + (h + o.val + EncodeFrom(n, os[1..]));
    HoldsParts(b, p, FenceBytes(ds), h + o.val + EncodeFrom(n, os[1..]));
    SizeIsBare(n, os[1..]);
    PassFences(b, p, last, n, |os|, sofar);
    AllKept(b, p + |ds|, n - FinalDelta(last, n), os, sofar);
  }

  // --------------------------------------------------------------------- the law

  predicate ReadsWith(last: nat, os: seq<Opt>, pad: bytes)
    requires Follows(last, os)
  {
    DecodeFrom(EncodeFrom(last, os) + pad, 0, last, |os| + FenceCount(last, os), [])
    == Done(os, SizeFrom(last, os))
  }

  /** Whatever the surplus bytes are, the list is read back and the payload begins in the
      right place: exactly if all but the last option are plain and none is 15 bytes long. */
  lemma WhateverSurplus(last: nat, os: seq<Opt>)
    requires Follows(last, os)
    ensures (forall pad: bytes :: |pad| == SurplusSize(last, os) ==> ReadsWith(last, os, pad))
            <==> PlainButLast(os) && !HasFifteen(os)
  {
    hide DecodeFrom, EncodeFrom, SizeFrom, FenceCount, HasFifteen, PlainButLast, Follows, Sorted;
    if PlainButLast(os) {
      forall pad: bytes | |pad| == SurplusSize(last, os)
        ensures ReadsWith(last, os, pad) <==> !HasFifteen(os)
      {
        OptionRoundTrip(EncodeFrom(last, os) + pad, 0, last, os, |os| + FenceCount(last, os), []);
        assert [] + os == os;
      }
      assert |seq(SurplusSize(last, os), _ => 0 as byte)| == SurplusSize(last, os);
    } else {
      Spoiled(last, os);
    }
  }

  /** Otherwise there are surplus bytes with which it is not. */
  lemma Spoiled(last: nat, os: seq<Opt>)
    requires Follows(last, os) && !PlainButLast(os)
    ensures IsOpt(os[|os| - 1])
    ensures !ReadsWith(last, os, seq(SurplusSize(last, os), _ => Spoiler(os[|os| - 1])))
  {
    hide DecodeFrom, EncodeFrom, SizeFrom, FenceCount, HasFifteen, PlainButLast, Follows, Sorted;
    ShortIsPlain(os);
    SurplusOfLast(last, os);
    var o := os[|os| - 1];
    var pad := seq(SurplusSize(last, os), _ => Spoiler(o));
    var e := EncodeFrom(last, os);
    assert (e + pad)[0..|e|] == e && [] + os == os;
    assert forall k :: |e| <= k < |e + pad| ==> (e + pad)[k] == pad[k - |e|] == Spoiler(o);
    if ReadsWith(last, os, pad) {
      ReadBackNeeds(e + pad, 0, last, os, []);
    }
  }
}
