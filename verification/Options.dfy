/** The option pool of a PDU: a list kept sorted in place, and the buffer its encoding is
    written to. */
module Options {
  import opened OptionTable
  import opened OptionList
  import opened OptionCodec

  datatype DecodeRc = RcUnset | RcBadOption | RcOverrun

  class Pool {
    var bundle: seq<Opt>
    /** Options plus, after an encoding, the fenceposts it wrote. */
    var noptions: nat
    const enc: array<byte>
    var encSz: nat

    ghost predicate Valid()
      reads this
    {
      AreOpts(bundle) && Sorted(bundle) && |bundle| <= noptions && enc.Length == ENC_MAX
    }

    constructor ()
      ensures Valid() && fresh(enc)
      ensures bundle == [] && noptions == 0 && encSz == 0
    {
      bundle, noptions, encSz := [], 0, 0;
      enc := new byte[ENC_MAX](_ => 0);
    }

    /** Ordered insertion, scanning from the tail; refused only when the count is exactly
        the maximum. */
    method Push(o: Opt) returns (ok: bool)
      requires Valid() && IsOpt(o)
      modifies this
      ensures Valid() && encSz == old(encSz)
      ensures ok <==> old(noptions) != MAX_OPTIONS
      ensures ok ==> bundle == Insert(old(bundle), o) && noptions == old(noptions) + 1
      ensures !ok ==> bundle == old(bundle) && noptions == old(noptions)
    {
      if noptions == MAX_OPTIONS {
        return false;
      }
      InsertSorted(bundle, o);
      InsertAreOpts(bundle, o);
      var k := |bundle|;
      while k > 0 && o.sym < bundle[k - 1].sym
        invariant 0 <= k <= |bundle|
        invariant forall i :: k <= i < |bundle| ==> o.sym < bundle[i].sym
      {
        k := k - 1;
      }
      PlaceUnique(bundle, o, k);
      hide Place, Sorted, AreOpts;
      bundle := bundle[..k] + [o] + bundle[k..];
      noptions := noptions + 1;
      return true;
    }

    method Add(sym: int, v: bytes) returns (ok: bool)
      requires Valid()
      modifies this
      ensures Valid() && encSz == old(encSz)
      ensures ok <==> 1 <= sym <= 18 && |v| <= OPT_LEN_MAX && old(noptions) != MAX_OPTIONS
      ensures ok ==> bundle == Insert(old(bundle), MakeOpt(sym, v)) && noptions == old(noptions) + 1
      ensures !ok ==> bundle == old(bundle) && noptions == old(noptions)
    {
      var o := NewOpt(sym, v);
      if o.None? {
        return false;
      }
      ok := Push(o.value);
    }

    /** Adds a value of any length, fragmented over as many slots as it takes; nothing
        changes when the slots are short. */
    method AddRaw(sym: Sym, v: bytes) returns (ok: bool)
      requires Valid()
      modifies this
      ensures Valid() && encSz == old(encSz)
      ensures ok <==> old(noptions) + Slots(|v|) <= MAX_OPTIONS
      ensures ok ==> bundle == InsertAll(old(bundle), Fragments(sym, v, Slots(|v|)))
                     && noptions == old(noptions) + Slots(|v|)
      ensures !ok ==> bundle == old(bundle) && noptions == old(noptions)
    {
      hide Slots, Fragments, InsertAll, Insert, Place, Sorted, AreOpts, IsOpt, TypeOf;
      var full, last := SlotsNeeded(|v|);
      if noptions + full + last > MAX_OPTIONS {
        return false;
      }
      NoFragments(bundle, sym, v);
      var nseg := 0;
      while nseg < full
        invariant 0 <= nseg <= full
        invariant Valid() && encSz == old(encSz) && noptions == old(noptions) + nseg
        invariant bundle == InsertAll(old(bundle), Fragments(sym, v, nseg))
      {
        AddFragment(old(bundle), sym, v, nseg);
        nseg := nseg + 1;
      }
      if last != 0 {
        AddFragment(old(bundle), sym, v, nseg);
      }
      return true;
    }

    method AddFragment(ghost start: seq<Opt>, sym: Sym, v: bytes, k: nat)
      requires Valid() && k < Slots(|v|) && noptions < MAX_OPTIONS
      requires bundle == InsertAll(start, Fragments(sym, v, k))
      modifies this
      ensures Valid() && encSz == old(encSz) && noptions == old(noptions) + 1
      ensures bundle == InsertAll(start, Fragments(sym, v, k + 1))
    {
      hide Slots, Fragments, Fragment, MakeOpt, InsertAll, Insert, Place, Sorted, AreOpts, IsOpt, TypeOf;
      FragmentIs(sym, v, k);
      InsertNext(start, sym, v, k);
      var offset := k * OPT_LEN_MAX;
      var ok := Add(sym, v[offset..if offset + OPT_LEN_MAX <= |v| then offset + OPT_LEN_MAX else |v|]);
    }

    /** Buffer space taken by the fenceposts before an option. */
    method FencepostsEncSz(cur: nat, last: nat) returns (n: nat)
      requires last <= cur
      ensures n == |Fences(last, cur)|
    {
      n := 0;
      if cur - last > 14 {
        var i, l := last, last;
        while i < cur
          invariant last <= l <= i <= cur
          invariant n + |FenceDeltas(l, i, cur)| == |FenceDeltas(last, last, cur)|
        {
          if IsFencepost(i) {
            n := n + 1;
            l := i;
          }
          i := i + 1;
        }
      }
    }

    /** Writes the fenceposts for a gap of more than 14 and returns the remaining delta. */
    method AddFenceposts(p: nat, cur: nat, delta: nat) returns (q: nat, d: nat)
      requires 14 < delta <= cur && enc.Length == ENC_MAX
      requires p + |Fences(cur - delta, cur)| <= enc.Length
      modifies this`noptions, enc
      ensures var ds := Fences(cur - delta, cur);
              Small(ds) && q == p + |ds| && enc[..q] == old(enc[..p]) + FenceBytes(ds)
              && noptions == old(noptions) + |ds|
      ensures d == FinalDelta(cur - delta, cur)
    {
      ghost var start, before := cur - delta, enc[..p];
      FencingStarts(before, noptions, start, cur);
      hide Fencing, IsFencepost, Fences, Small, FenceBytes, FinalDelta;
      var last: nat := cur - delta;
      var optNum := last;
      q := p;
      while optNum < cur
        invariant last <= optNum <= cur && p <= q <= enc.Length
        invariant Fencing(before, old(noptions), start, cur, last, optNum, enc[..q], noptions)
      {
        FencingGoesOn(before, old(noptions), start, cur, last, optNum, enc[..q], noptions);
        if IsFencepost(optNum) {
          PutByte(q, ((optNum - last) * 16) as byte);
          q := q + 1;
          last := optNum;
          noptions := noptions + 1;
        }
        optNum := optNum + 1;
      }
      FencingEnds(before, old(noptions), start, cur, last, enc[..q], noptions);
      d := cur - last;
    }

    method PutByte(p: nat, x: byte)
      requires p < enc.Length
      modifies enc
      ensures enc[..p + 1] == old(enc[..p]) + [x]
    {
      enc[p] := x;
    }

    method PutBytes(p: nat, v: bytes)
      requires p + |v| <= enc.Length
      modifies enc
      ensures enc[..p + |v|] == old(enc[..p]) + v
    {
      ghost var was := enc[..p];
      var i := 0;
      assert v[..0] == [];
      while i < |v|
        invariant 0 <= i <= |v| && enc[..p + i] == was + v[..i]
      {
        enc[p + i] := v[i];
        assert enc[..p + i + 1] == was + v[..i] + [v[i]];
        i := i + 1;
      }
      assert v[..i] == v;
    }

    /** Writes the length indicator and the value of an option. */
    method PutOption(p: nat, delta: nat, o: Opt) returns (q: nat)
      requires IsOpt(o) && delta <= 14 && p + |Head(delta, o.len)| + |o.val| <= enc.Length
      modifies enc
      ensures q == p + |Head(delta, o.len)| + |o.val|
      ensures enc[..q] == old(enc[..p]) + Head(delta, o.len) + o.val
    {
      ghost var was := enc[..p];
      q := p;
      if o.len > 14 {
        enc[q], enc[q + 1] := (delta * 16 + 15) as byte, (o.len - 15) as byte;
        q := q + 2;
      } else {
        enc[q] := (delta * 16 + o.len) as byte;
        q := q + 1;
      }
      assert enc[..q] == was + Head(delta, o.len);
      PutBytes(q, o.val);
      q := q + |o.val|;
    }

    /** Writes one option with the fenceposts it needs. */
    method EncodeOne(p: nat, last: nat, o: Opt, fpsz: nat) returns (q: nat)
      requires IsOpt(o) && last <= Number(o.sym) && enc.Length == ENC_MAX
      requires fpsz == |Fences(last, Number(o.sym))| && p + RecordSize(last, o) <= ENC_MAX
      modifies this`noptions, enc
      ensures p < q <= p + RecordSize(last, o)
      ensures enc[..q] == old(enc[..p]) + Record(last, o)
      ensures noptions == old(noptions) + fpsz
    {
      hide Fences, FenceBytes;
      var cur := Number(o.sym);
      var delta := cur - last;
      FencepostsBridgeGap(last, cur);
      q := p;
      if delta > 14 {
        q, delta := AddFenceposts(p, cur, delta);
      } else {
        NoFences(last, cur);
      }
      assert enc[..q] == old(enc[..p]) + FenceBytes(Fences(last, cur));
      q := PutOption(q, delta, o);
    }

    lemma FitsFollows()
      requires Valid()
      ensures Follows(0, bundle)
    {}

    /** Encodes the list into the buffer: all of it, byte for byte, exactly when it fits. */
    method Encode() returns (ok: bool)
      requires Valid()
      modifies this`noptions, this`encSz, enc
      ensures Valid()
      ensures ok <==> SizeFrom(0, bundle) <= ENC_MAX
      ensures ok ==> encSz == SizeFrom(0, bundle) && |EncodeFrom(0, bundle)| <= encSz
                     && enc[..|EncodeFrom(0, bundle)|] == EncodeFrom(0, bundle)
      ensures noptions == old(noptions) + FencesWritten(0, bundle, ENC_MAX)
      ensures ok ==> noptions == old(noptions) + FenceCount(0, bundle)
    {
      hide EncodeFrom, SizeFrom, FenceCount, FencesWritten, Record, RecordSize, Fences, IsOpt;
      var p, left, last := 0, enc.Length, 0;
      encSz := enc.Length;
      var i := 0;
      assert bundle[0..] == bundle;
      assert enc[..0] + EncodeFrom(0, bundle) == EncodeFrom(0, bundle);
      while i < |bundle|
        invariant 0 <= i <= |bundle| && Valid() && encSz == ENC_MAX
        invariant Follows(last, bundle[i..])
        invariant 0 <= left && p + left <= ENC_MAX
        invariant left + SizeFrom(0, bundle) == ENC_MAX + SizeFrom(last, bundle[i..])
        invariant enc[..p] + EncodeFrom(last, bundle[i..]) == EncodeFrom(0, bundle)
        invariant noptions + FencesWritten(last, bundle[i..], left)
                  == old(noptions) + FencesWritten(0, bundle, ENC_MAX)
      {
        hide Follows, Sorted, AreOpts;
        var o := bundle[i];
        ghost var rest := bundle[i..];
        assert rest[0] == o && rest[1..] == bundle[i + 1..];
        Unfold(last, rest);
        UnfoldSize(last, rest);
        UnfoldWritten(last, rest, left);
        var cur := Number(o.sym);
        var fpsz := FencepostsEncSz(cur, last);
        var elen := (if o.len > 14 then 2 else 1) + o.len + fpsz;
        assert elen == RecordSize(last, o) by { RecordSizeIs(last, o); }
        if elen > left {
          return false;
        }
        ghost var before, tail := enc[..p], EncodeFrom(cur, rest[1..]);
        p := EncodeOne(p, last, o, fpsz);
        assert enc[..p] + tail == before + (Record(last, o) + tail);
        left := left - elen;
        last := cur;
        i := i + 1;
      }
      assert bundle[i..] == [];
      NothingLeft(last, left);
      FitsFollows();
      AllFencesWritten(0, bundle, ENC_MAX);
      assert enc[..p] + [] == enc[..p];
      encSz := encSz - left;
      return true;
    }

    /** Decodes `oc` records after the four header bytes into an empty pool. */
    method Decode(pdu: bytes, oc: nat) returns (rc: DecodeRc, olen: nat)
      requires Valid() && bundle == [] && noptions == 0
      requires 4 <= |pdu| && oc <= MAX_OPTIONS
      modifies this
      ensures Valid()
      ensures match DecodeFrom(pdu, 4, 0, oc, [])
              case Done(os, q) => rc == RcUnset && bundle == os && noptions == |os| && olen == q - 4
              case BadOption => rc == RcBadOption && olen == 0
              case Overrun => rc == RcOverrun && olen == 0
    {
      hide DecodeRecord, IsOpt;
      olen := 0;
      var p, num, count := 4, 0, oc;
      while count > 0
        invariant Valid() && 0 <= count <= oc && 4 <= p
        invariant noptions == |bundle| <= oc - count
        invariant forall i :: 0 <= i < |bundle| ==> Number(bundle[i].sym) <= num
        invariant DecodeFrom(pdu, p, num, count, bundle) == DecodeFrom(pdu, 4, 0, oc, [])
        decreases count
      {
        hide Insert, Sorted, AreOpts;
        var step := ReadRecord(pdu, p, num);
        match step {
          case Refuse => return RcBadOption, 0;
          case Short => return RcOverrun, 0;
          case Take(kept, size, cur) =>
            ghost var was := bundle;
            if kept != [] {
              AppendLast(bundle, kept[0]);
              var ok := Push(kept[0]);
            }
            assert bundle == was + kept;
            p, num := p + size, cur;
        }
        count := count - 1;
      }
      return RcUnset, p - 4;
    }
  }

  /** Reads the record at `p`: number, length, and value or nothing. */
  method ReadRecord(pdu: bytes, p: nat, num: nat) returns (r: Step)
    ensures r == DecodeRecord(pdu, p, num)
    ensures r.Take? ==> r.num >= num && |r.kept| <= 1
    ensures r.Take? && r.kept != [] ==> IsOpt(r.kept[0]) && Number(r.kept[0].sym) == r.num
  {
    if p >= |pdu| {
      return Short;
    }
    var cur := num + pdu[p] as int / 16;
    var sym := NumberToSymbol(cur);
    var skip := false;
    if sym.None? {
      if cur % 2 == 1 {
        return Refuse;
      }
      skip := true;
    }
    var len: nat := pdu[p] as int % 16;
    if len == 15 {
      if p + 1 >= |pdu| {
        return Short;
      }
      len := pdu[p + 1] as int + 15;
    }
    if len == 0 && IsFencepost(cur) {
      skip := true;
    }
    var hdr := if len > 15 then 2 else 1;
    if p + hdr + len > |pdu| {
      return Short;
    }
    if skip {
      return Take([], hdr + len, cur);
    }
    var o := NewOpt(sym.value, pdu[p + hdr..p + hdr + len]);
    return Take([o.value], hdr + len, cur);
  }

  /** Full fragments of a value, and whether a last partial or empty one is needed. */
  method SlotsNeeded(l: nat) returns (full: nat, last: nat)
    ensures full + last == Slots(l) && last <= 1
  {
    full := l / OPT_LEN_MAX;
    last := if l % OPT_LEN_MAX != 0 || l == 0 then 1 else 0;
  }

  /** The fencepost loop, with `last` and `i` where they stand: what is written and counted,
      and what is still to come. */
  predicate Fencing(before: bytes, n0: nat, start: nat, cur: nat, last: nat, i: nat, written: bytes, n: nat) {
    start <= last <= i <= cur
    && (var rest, all := FenceDeltas(last, i, cur), FenceDeltas(start, start, cur);
        Small(rest) && Small(all)
        && written + FenceBytes(rest) == before + FenceBytes(all)
        && |written| + |rest| == |before| + |all| && n + |rest| == n0 + |all|
        && last + Sum(rest) == start + Sum(all))
  }

  lemma FencingStarts(before: bytes, n0: nat, start: nat, cur: nat)
    requires cur - start > 14
    ensures Fencing(before, n0, start, cur, start, start, before, n0)
  {
    FencepostsBridgeGap(start, cur);
  }

  lemma FencingGoesOn(before: bytes, n0: nat, start: nat, cur: nat, last: nat, i: nat, written: bytes, n: nat)
    requires Fencing(before, n0, start, cur, last, i, written, n) && i < cur
    requires cur - start > 14
    ensures if IsFencepost(i) then
              i - last <= 14 && |written| + 1 <= |before| + |Fences(start, cur)|
              && Fencing(before, n0, start, cur, i, i + 1, written + [((i - last) * 16) as byte], n + 1)
            else Fencing(before, n0, start, cur, last, i + 1, written, n)
  {
    hide FenceDeltas, Small, FenceBytes, Sum, IsFencepost;
    UnfoldFences(last, i, cur);
    if IsFencepost(i) {
      var rest := FenceDeltas(i, i + 1, cur);
      SumCons(i - last, rest);
      var x := [((i - last) * 16) as byte];
      FenceBytesCons(i - last, rest);
      assert written + x + FenceBytes(rest) == written + (x + FenceBytes(rest));
    }
  }

  lemma FencingEnds(before: bytes, n0: nat, start: nat, cur: nat, last: nat, written: bytes, n: nat)
    requires Fencing(before, n0, start, cur, last, cur, written, n) && cur - start > 14
    ensures var ds := Fences(start, cur);
            Small(ds) && |written| == |before| + |ds| && written == before + FenceBytes(ds) && n == n0 + |ds|
            && cur - last == FinalDelta(start, cur)
  {
    assert written + [] == written;
  }

  lemma PlaceUnique(s: seq<Opt>, o: Opt, k: nat)
    requires k <= |s| && (k > 0 ==> s[k - 1].sym <= o.sym)
    requires forall i :: k <= i < |s| ==> o.sym < s[i].sym
    ensures k == Place(s, o)
  {
    hide Place;
  }

  lemma NoFragments(s: seq<Opt>, sym: Sym, v: bytes)
    ensures InsertAll(s, Fragments(sym, v, 0)) == s
  {}

  lemma FragmentIs(sym: Sym, v: bytes, k: nat)
    requires k < Slots(|v|)
    ensures k * OPT_LEN_MAX <= |v|
    ensures var end := if (k + 1) * OPT_LEN_MAX <= |v| then (k + 1) * OPT_LEN_MAX else |v|;
            end <= k * OPT_LEN_MAX + OPT_LEN_MAX
            && Fragment(sym, v, k) == MakeOpt(sym, v[k * OPT_LEN_MAX..end])
  {
    SlotsRoundUp(|v|);
  }

  lemma InsertNext(s: seq<Opt>, sym: Sym, v: bytes, k: nat)
    requires k < Slots(|v|)
    ensures InsertAll(s, Fragments(sym, v, k + 1))
            == Insert(InsertAll(s, Fragments(sym, v, k)), Fragment(sym, v, k))
  {
    var f := Fragments(sym, v, k + 1);
    assert f[..k] == Fragments(sym, v, k);
  }

  lemma AppendLast(s: seq<Opt>, o: Opt)
    requires forall i :: 0 <= i < |s| ==> Number(s[i].sym) <= Number(o.sym)
    ensures Insert(s, o) == s + [o]
  {}

  lemma RecordSizeIs(last: nat, o: Opt)
    requires last <= Number(o.sym)
    ensures RecordSize(last, o) == (if o.len > 14 then 2 else 1) + o.len + |Fences(last, Number(o.sym))|
  {}

  lemma UnfoldWritten(last: nat, os: seq<Opt>, left: nat)
    requires Follows(last, os) && os != []
    ensures last <= Number(os[0].sym) && Follows(Number(os[0].sym), os[1..])
    ensures FencesWritten(last, os, left)
            == if RecordSize(last, os[0]) > left then 0
               else |Fences(last, Number(os[0].sym))|
                    + FencesWritten(Number(os[0].sym), os[1..], left - RecordSize(last, os[0]))
  {
    hide RecordSize;
    FollowsTail(last, os);
  }

  lemma NothingLeft(last: nat, left: nat)
    ensures EncodeFrom(last, []) == [] && FencesWritten(last, [], left) == 0 && SizeFrom(last, []) == 0
  {}

  lemma NoFences(last: nat, cur: nat)
    requires last <= cur <= last + 14
    ensures Fences(last, cur) == [] && FenceBytes([]) == [] && FinalDelta(last, cur) == cur - last
  {}
}
