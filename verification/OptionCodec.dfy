/** Specification of the wire format of the option list: delta-coded numbers with
    fenceposts, one- or two-byte lengths, and a decoder driven by an option count. */
module OptionCodec {
  import opened OptionTable

  // ---------------------------------------------------------------- fenceposts

  /** Deltas of the fenceposts put between option numbers `last` and `cur`, scanning
      upwards from `i`; `last` moves to each fencepost as it is emitted. */
  function FenceDeltas(last: nat, i: nat, cur: nat): seq<nat>
    requires last <= i <= cur
    decreases cur - i
  {
    if i == cur then []
    else if IsFencepost(i) then [i - last] + FenceDeltas(i, i + 1, cur)
    else FenceDeltas(last, i + 1, cur)
  }

  /** Fenceposts are used only for gaps over 14. */
  function Fences(last: nat, cur: nat): seq<nat>
    requires last <= cur
  {
    if cur - last > 14 then FenceDeltas(last, last, cur) else []
  }

  function Sum(s: seq<nat>): nat {
    if s == [] then 0 else s[0] + Sum(s[1..])
  }

  predicate Small(ds: seq<nat>) {
    forall i :: 0 <= i < |ds| ==> ds[i] <= 14
  }

  /** The delta left for the option itself, after its fenceposts. */
  function FinalDelta(last: nat, cur: nat): int
    requires last <= cur
  {
    cur - last - Sum(Fences(last, cur))
  }

  lemma UnfoldFences(last: nat, i: nat, cur: nat)
    requires last <= i < cur
    ensures FenceDeltas(last, i, cur)
            == if IsFencepost(i) then [i - last] + FenceDeltas(i, i + 1, cur) else FenceDeltas(last, i + 1, cur)
    ensures i + 1 == cur ==> FenceDeltas(last, i + 1, cur) == [] && FenceDeltas(i, i + 1, cur) == []
  {}

  lemma SumCons(x: nat, ds: seq<nat>)
    ensures Sum([x] + ds) == x + Sum(ds) && Sum([]) == 0
    ensures Small([x] + ds) <==> x <= 14 && Small(ds)
  {
    assert ([x] + ds)[1..] == ds;
    assert Small([x] + ds) ==> Small(ds) by {
      assert forall k :: 0 <= k < |ds| ==> ds[k] == ([x] + ds)[k + 1];
    }
  }

  /** While no fencepost lies between `last` and `i`: deltas are small, and so is what is
      left over. */
  lemma {:induction false} FenceDeltasBounded(last: nat, i: nat, cur: nat)
    requires last <= i < cur
    requires forall m: nat :: last < m < i ==> !IsFencepost(m)
    ensures Small(FenceDeltas(last, i, cur))
    ensures 0 < cur - last - Sum(FenceDeltas(last, i, cur))
    ensures IsFencepost(last) || last == 0 || FenceDeltas(last, i, cur) != []
            ==> cur - last - Sum(FenceDeltas(last, i, cur)) <= 14
    decreases cur - i
  {
    hide FenceDeltas, Sum, IsFencepost;
    GapBounded(last, i);
    UnfoldFences(last, i, cur);
    SumCons(i - last, FenceDeltas(i, i + 1, cur));
    NextAfter(last, i);
    if i + 1 < cur {
      if IsFencepost(i) {
        FenceDeltasBounded(i, i + 1, cur);
      } else {
        FenceDeltasBounded(last, i + 1, cur);
      }
    }
  }

  /** Fourteen after a fencepost, or after the start, there is another one. */
  lemma NextAfter(last: nat, i: nat)
    requires last <= i && forall m: nat :: last < m < i ==> !IsFencepost(m)
    ensures (IsFencepost(last) || last == 0) && !IsFencepost(i) ==> i - last < 14
  {
    assert (IsFencepost(last) || last == 0) ==> IsFencepost(last + 14);
  }

  lemma GapBounded(last: nat, i: nat)
    requires last <= i
    requires forall m: nat :: last < m < i ==> !IsFencepost(m)
    ensures i - last <= 14
  {
    if i - last > 14 {
      var m := (last / 14 + 1) * 14;
      assert last < m <= last + 14 && IsFencepost(m);
    }
  }

  lemma {:induction false} FenceDeltasNonempty(last: nat, i: nat, cur: nat, m: nat)
    requires last <= i <= m < cur && IsFencepost(m)
    ensures FenceDeltas(last, i, cur) != []
    decreases cur - i
  {
    if !IsFencepost(i) {
      FenceDeltasNonempty(last, i + 1, cur, m);
    }
  }

  /** For option numbers of any size: every fencepost delta and the delta left for the
      option fit the four delta bits with room to spare. */
  lemma FencepostsBridgeGap(last: nat, cur: nat)
    requires last <= cur
    ensures Small(Fences(last, cur))
    ensures 0 <= FinalDelta(last, cur) <= 14
    ensures Sum(Fences(last, cur)) + FinalDelta(last, cur) == cur - last
  {
    if cur - last > 14 {
      FenceDeltasBounded(last, last, cur);
      var m := (last / 14 + 1) * 14;
      assert last < m <= last + 14 < cur && IsFencepost(m);
      FenceDeltasNonempty(last, last, cur, m);
    }
  }

  // ---------------------------------------------------------------- encoding

  function FenceBytes(ds: seq<nat>): (b: bytes)
    requires Small(ds)
  {
    if ds == [] then [] else
    var b := (ds[0] * 16) as byte;
    [b] + FenceBytes(ds[1..])
  }

  lemma FenceBytesCons(x: nat, ds: seq<nat>)
    requires Small([x] + ds) && Small(ds)
    ensures x <= 14 && FenceBytes([x] + ds) == [(x * 16) as byte] + FenceBytes(ds)
  {
    assert ([x] + ds)[0] == x && ([x] + ds)[1..] == ds;
  }

  /** The length indicator shares its first byte with the delta; lengths over 14 use the
      escape value 15 and a second byte. */
  function Head(delta: nat, len: nat): bytes
    requires delta <= 14 && len <= OPT_LEN_MAX
  {
    if len > 14 then [(delta * 16 + 15) as byte, (len - 15) as byte] else [(delta * 16 + len) as byte]
  }

  /** May the list be written after an option numbered `last`? */
  predicate Follows(last: nat, os: seq<Opt>) {
    AreOpts(os) && Sorted(os) && (os != [] ==> last <= Number(os[0].sym))
  }

  lemma FollowsTail(last: nat, os: seq<Opt>)
    requires Follows(last, os) && os != []
    ensures Follows(Number(os[0].sym), os[1..])
  {
    assert forall i :: 0 <= i < |os[1..]| ==> os[1..][i] == os[i + 1];
    if |os| > 1 {
      assert os[0].sym <= os[1].sym;
    }
  }

  function Record(last: nat, o: Opt): (b: bytes)
    requires IsOpt(o) && last <= Number(o.sym)
  {
    FencepostsBridgeGap(last, Number(o.sym));
    FenceBytes(Fences(last, Number(o.sym))) + Head(FinalDelta(last, Number(o.sym)), o.len) + o.val
  }

  /** The bytes written for a list. */
  function EncodeFrom(last: nat, os: seq<Opt>): bytes
    requires Follows(last, os)
    decreases |os|
  {
    if os == [] then []
    else
      FollowsTail(last, os);
      Record(last, os[0]) + EncodeFrom(Number(os[0].sym), os[1..])
  }

  /** Space accounted for one option: its declared length, whatever its value holds. */
  function RecordSize(last: nat, o: Opt): nat
    requires last <= Number(o.sym)
  {
    (if o.len > 14 then 2 else 1) + o.len + |Fences(last, Number(o.sym))|
  }

  function SizeFrom(last: nat, os: seq<Opt>): nat
    requires Follows(last, os)
    decreases |os|
  {
    if os == [] then 0
    else
      FollowsTail(last, os);
      RecordSize(last, os[0]) + SizeFrom(Number(os[0].sym), os[1..])
  }

  function FenceCount(last: nat, os: seq<Opt>): nat
    requires Follows(last, os)
    decreases |os|
  {
    if os == [] then 0
    else
      FollowsTail(last, os);
      |Fences(last, Number(os[0].sym))| + FenceCount(Number(os[0].sym), os[1..])
  }

  /** Fenceposts written when only `left` bytes are there: the encoder stops before the first
      option that does not fit. */
  function FencesWritten(last: nat, os: seq<Opt>, left: nat): nat
    requires Follows(last, os)
    decreases |os|
  {
    if os == [] || RecordSize(last, os[0]) > left then 0
    else
      FollowsTail(last, os);
      |Fences(last, Number(os[0].sym))|
      + FencesWritten(Number(os[0].sym), os[1..], left - RecordSize(last, os[0]))
  }

  lemma {:induction false} AllFencesWritten(last: nat, os: seq<Opt>, left: nat)
    requires Follows(last, os) && SizeFrom(last, os) <= left
    ensures FencesWritten(last, os, left) == FenceCount(last, os)
    decreases |os|
  {
    hide RecordSize, Fences;
    if os != [] {
      FollowsTail(last, os);
      AllFencesWritten(Number(os[0].sym), os[1..], left - RecordSize(last, os[0]));
    }
  }

  lemma Unfold(last: nat, os: seq<Opt>)
    requires Follows(last, os) && os != []
    ensures last <= Number(os[0].sym) && IsOpt(os[0]) && Follows(Number(os[0].sym), os[1..])
    ensures EncodeFrom(last, os) == Record(last, os[0]) + EncodeFrom(Number(os[0].sym), os[1..])
    ensures FenceCount(last, os)
            == |Fences(last, Number(os[0].sym))| + FenceCount(Number(os[0].sym), os[1..])
  {
    hide Record, Fences;
    FollowsTail(last, os);
  }

  lemma UnfoldSize(last: nat, os: seq<Opt>)
    requires Follows(last, os) && os != []
    ensures last <= Number(os[0].sym) && Follows(Number(os[0].sym), os[1..])
    ensures SizeFrom(last, os) == RecordSize(last, os[0]) + SizeFrom(Number(os[0].sym), os[1..])
    ensures SizeFrom(Number(os[0].sym), os[1..]) >= 0
  {
    hide RecordSize;
    FollowsTail(last, os);
  }

  /** Every option declares exactly the bytes it holds (true of all but an Empty option
      given a length). */
  predicate Plain(os: seq<Opt>) {
    forall i :: 0 <= i < |os| ==> |os[i].val| == os[i].len
  }

  /** The same for all but the last, which alone may be an Empty option given a length. */
  predicate PlainButLast(os: seq<Opt>) {
    forall i :: 0 <= i < |os| - 1 ==> |os[i].val| == os[i].len
  }

  predicate HasFifteen(os: seq<Opt>) {
    exists i :: 0 <= i < |os| && os[i].len == 15
  }

  lemma {:induction false} FenceBytesLength(ds: seq<nat>)
    requires Small(ds)
    ensures |FenceBytes(ds)| == |ds|
  {
    if ds != [] {
      FenceBytesLength(ds[1..]);
    }
  }

  /** The size accounting is exact for plain lists: bytes written equal the size charged. */
  lemma {:induction false} EncodedLength(last: nat, os: seq<Opt>)
    requires Follows(last, os)
    ensures |EncodeFrom(last, os)| <= SizeFrom(last, os)
    ensures Plain(os) ==> |EncodeFrom(last, os)| == SizeFrom(last, os)
    decreases |os|
  {
    if os != [] {
      FollowsTail(last, os);
      FencepostsBridgeGap(last, Number(os[0].sym));
      FenceBytesLength(Fences(last, Number(os[0].sym)));
      EncodedLength(Number(os[0].sym), os[1..]);
      assert Plain(os) ==> Plain(os[1..]) by {
        assert forall i :: 0 <= i < |os[1..]| ==> os[1..][i] == os[i + 1];
      }
      assert IsOpt(os[0]);
    }
  }

  lemma {:induction false} NoLateFences(last: nat, os: seq<Opt>)
    requires Follows(last, os) && last > 14
    ensures FenceCount(last, os) == 0
    decreases |os|
  {
    if os != [] {
      FollowsTail(last, os);
      NoLateFences(Number(os[0].sym), os[1..]);
    }
  }

  /** Within the option table at most one fencepost is ever needed. */
  lemma {:induction false} AtMostOneFence(last: nat, os: seq<Opt>)
    requires Follows(last, os)
    ensures FenceCount(last, os) <= 1
    decreases |os|
  {
    if os != [] {
      FollowsTail(last, os);
      var cur := Number(os[0].sym);
      if cur - last > 14 {
        SingleFence(last, last, cur);
        NoLateFences(cur, os[1..]);
      } else {
        AtMostOneFence(cur, os[1..]);
      }
    }
  }

  lemma {:induction false} SingleFence(last: nat, i: nat, cur: nat)
    requires last <= i <= cur <= 23
    ensures |FenceDeltas(last, i, cur)| <= (if i <= 14 then 1 else 0)
    decreases cur - i
  {
    if i < cur {
      if IsFencepost(i) {
        assert i == 14;
        SingleFence(i, i + 1, cur);
      } else {
        SingleFence(last, i + 1, cur);
      }
    }
  }

  // ---------------------------------------------------------------- decoding

  /** The options read and the position reached.  Overrun stands for a record that is not
      wholly inside the received bytes: the original goes on reading whatever memory follows. */
  datatype Decoded = Done(opts: seq<Opt>, pos: nat) | BadOption | Overrun

  predicate Skipped(num: nat, len: nat) {
    !Known(num) || (len == 0 && IsFencepost(num))
  }

  /** What the record at position `p` contributes: the options kept (none or one), its
      size, and the option number reached. */
  datatype Step = Take(kept: seq<Opt>, size: nat, num: nat) | Refuse | Short

  /** Reads one record.  The width test is "length over 15", although lengths from 15 up
      were written with a second length byte. */
  function DecodeRecord(b: bytes, p: nat, num: nat): Step {
    if p >= |b| then Short
    else
      var cur := num + b[p] as int / 16;
      if !Known(cur) && cur % 2 == 1 then Refuse
      else if b[p] as int % 16 == 15 && p + 1 >= |b| then Short
      else
        var len: nat := if b[p] as int % 16 == 15 then b[p + 1] as int + 15 else b[p] as int % 16;
        var hdr := if len > 15 then 2 else 1;
        if p + hdr + len > |b| then Short
        else if Skipped(cur, len) then Take([], hdr + len, cur)
        else Take([MakeOpt(SymbolOf(cur), b[p + hdr..p + hdr + len])], hdr + len, cur)
  }

  /** Decodes `count` records from position `p` on, the previous option being `num`, and
      adds them to the options read so far. */
  function DecodeFrom(b: bytes, p: nat, num: nat, count: nat, sofar: seq<Opt>): Decoded
    decreases count
  {
    if count == 0 then Done(sofar, p)
    else
      match DecodeRecord(b, p, num)
      case Take(kept, size, cur) => DecodeFrom(b, p + size, cur, count - 1, sofar + kept)
      case Refuse => BadOption
      case Short => Overrun
  }

  // ---------------------------------------------------------------- round trip

  /** The bytes `e` stand at position `p`. */
  predicate Holds(b: bytes, p: nat, e: bytes) {
    p + |e| <= |b| && b[p..p + |e|] == e
  }

  lemma HoldsParts(b: bytes, p: nat, e: bytes, f: bytes)
    requires Holds(b, p, e + f)
    ensures Holds(b, p, e) && Holds(b, p + |e|, f)
  {
    assert b[p..p + |e|] == (e + f)[..|e|] == e;
    assert b[p + |e|..p + |e| + |f|] == (e + f)[|e|..] == f;
  }

  lemma DecodeStep(b: bytes, p: nat, num: nat, count: nat, sofar: seq<Opt>,
                   kept: seq<Opt>, size: nat, cur: nat)
    requires count > 0 && DecodeRecord(b, p, num) == Take(kept, size, cur)
    ensures DecodeFrom(b, p, num, count, sofar) == DecodeFrom(b, p + size, cur, count - 1, sofar + kept)
  {
    hide DecodeRecord;
  }

  lemma DecodeNone(b: bytes, p: nat, num: nat, sofar: seq<Opt>)
    ensures DecodeFrom(b, p, num, 0, sofar) == Done(sofar, p)
  {}

  /** Options once read are never taken back. */
  lemma {:induction false} DecodeKeeps(b: bytes, p: nat, num: nat, count: nat, sofar: seq<Opt>)
    ensures var r := DecodeFrom(b, p, num, count, sofar);
            r.Done? ==> sofar <= r.opts
    decreases count
  {
    hide DecodeRecord;
    if count > 0 && DecodeRecord(b, p, num).Take? {
      var Take(kept, size, cur) := DecodeRecord(b, p, num);
      DecodeKeeps(b, p + size, cur, count - 1, sofar + kept);
    }
  }

  lemma FenceRecord(b: bytes, p: nat, delta: nat, num: nat)
    requires p < |b| && delta <= 14 && b[p] as int == delta * 16 && IsFencepost(num + delta)
    ensures DecodeRecord(b, p, num) == Take([], 1, num + delta)
  {
    var n := num + delta;
    assert n == 2 * (7 * (n / 14));
  }

  /** The decoder passes over fenceposts, tracking their numbers. */
  lemma {:induction false} DecodeFences(b: bytes, p: nat, last: nat, i: nat, cur: nat, count: nat,
                                        sofar: seq<Opt>)
    requires last <= i <= cur && Small(FenceDeltas(last, i, cur))
    requires Holds(b, p, FenceBytes(FenceDeltas(last, i, cur)))
    ensures var ds := FenceDeltas(last, i, cur);
            DecodeFrom(b, p, last, |ds| + count, sofar)
            == DecodeFrom(b, p + |ds|, last + Sum(ds), count, sofar)
    decreases cur - i
  {
    hide DecodeRecord, DecodeFrom;
    var ds := FenceDeltas(last, i, cur);
    if i < cur {
      if IsFencepost(i) {
        var ds' := FenceDeltas(i, i + 1, cur);
        assert ds[0] == i - last && ds[1..] == ds';
        assert Small(ds') by { assert forall k :: 0 <= k < |ds'| ==> ds'[k] == ds[k + 1]; }
        var d := ((i - last) * 16) as byte;
        assert FenceBytes(ds) == [d] + FenceBytes(ds');
        HoldsParts(b, p, [d], FenceBytes(ds'));
        assert b[p] == b[p..p + 1][0];
        FenceRecord(b, p, i - last, last);
        DecodeStep(b, p, last, |ds| + count, sofar, [], 1, i);
        assert sofar + [] == sofar;
        DecodeFences(b, p + 1, i, i + 1, cur, count, sofar);
      } else {
        DecodeFences(b, p, last, i + 1, cur, count, sofar);
      }
    }
  }

  /** The decoder reaches the option itself with the right number. */
  lemma PassFences(b: bytes, p: nat, last: nat, cur: nat, count: nat, sofar: seq<Opt>)
    requires last <= cur && Small(Fences(last, cur)) && FinalDelta(last, cur) >= 0
    requires Holds(b, p, FenceBytes(Fences(last, cur)))
    ensures var n := |Fences(last, cur)|;
            DecodeFrom(b, p, last, n + count, sofar)
            == DecodeFrom(b, p + n, cur - FinalDelta(last, cur), count, sofar)
  {
    hide DecodeRecord, DecodeFrom;
    if cur - last > 14 {
      DecodeFences(b, p, last, last, cur, count, sofar);
    }
  }

  /** What the decoder makes of a record: the option itself, unless its length is exactly
      15.  In that case the second length byte is taken for the first value byte and the
      decoder stops one byte early. */
  function ReadBack(o: Opt): (r: Opt)
    requires IsOpt(o)
  {
    if o.len == 15 && o.val != [] then o.(val := [0] + o.val[..14]) else o
  }

  function Lag(o: Opt): nat {
    if o.len == 15 then 1 else 0
  }

  /** A record header read back; a length of exactly 15 is taken to have one header byte. */
  lemma StepHeader(b: bytes, p: nat, num: nat, delta: nat, len: nat)
    requires p < |b| && b[p] as int / 16 == delta && b[p] as int % 16 == (if len > 14 then 15 else len)
    requires len > 14 ==> p + 1 < |b| && b[p + 1] as int == len - 15
    requires p + (if len > 15 then 2 else 1) + len <= |b|
    requires Known(num + delta) && !IsFencepost(num + delta)
    ensures var hdr := if len > 15 then 2 else 1;
            DecodeRecord(b, p, num)
            == Take([MakeOpt(SymbolOf(num + delta), b[p + hdr..p + hdr + len])], hdr + len, num + delta)
  {
    hide Known, IsFencepost, SymbolOf, MakeOpt, TypeOf, Number;
  }

  /** The record of an option after its fenceposts. */
  lemma StepRecord(b: bytes, p: nat, o: Opt, delta: nat)
    requires IsOpt(o) && delta <= 14 && delta <= Number(o.sym)
    requires Holds(b, p, Head(delta, o.len) + o.val) && p + |Head(delta, o.len)| + o.len <= |b|
    ensures DecodeRecord(b, p, Number(o.sym) - delta)
            == Take([ReadBack(o)], |Head(delta, o.len)| + o.len - Lag(o), Number(o.sym))
  {
    hide DecodeRecord, Head, Holds, MakeOpt, ReadBack, Known, SymbolOf, Number, IsFencepost, TypeOf;
    var h := Head(delta, o.len);
    TableNumber(o.sym);
    HeadParts(delta, o.len);
    PartsAt(b, p, h, o.val);
    StepHeader(b, p, Number(o.sym) - delta, delta, o.len);
    ValueReadBack(b, p, h, o);
  }

  lemma HeadParts(delta: nat, len: nat)
    requires delta <= 14 && len <= OPT_LEN_MAX
    ensures var h := Head(delta, len);
            |h| == (if len > 14 then 2 else 1)
            && h[0] as int / 16 == delta && h[0] as int % 16 == (if len > 14 then 15 else len)
            && (len > 14 ==> h[1] as int == len - 15)
  {}

  lemma PartsAt(b: bytes, p: nat, h: bytes, v: bytes)
    requires Holds(b, p, h + v) && 1 <= |h| <= 2
    ensures Holds(b, p, h) && Holds(b, p + |h|, v)
    ensures p + |h| <= |b| && b[p] == h[0] && (|h| == 2 ==> b[p + 1] == h[1])
  {
    HoldsParts(b, p, h, v);
    assert b[p] == b[p..p + |h|][0];
    assert |h| == 2 ==> b[p + 1] == b[p..p + |h|][1];
  }

  lemma ValueReadBack(b: bytes, p: nat, h: bytes, o: Opt)
    requires IsOpt(o) && Holds(b, p, h) && Holds(b, p + |h|, o.val) && p + |h| + o.len <= |b|
    requires |h| == if o.len > 14 then 2 else 1
    requires o.len > 14 ==> b[p + 1] as int == o.len - 15
    ensures var hdr := if o.len > 15 then 2 else 1;
            MakeOpt(o.sym, b[p + hdr..p + hdr + o.len]) == ReadBack(o)
  {
    if o.len == 15 && o.val != [] {
      var v := b[p + 1..p + 16];
      assert v == [0] + o.val[..14];
    }
  }

  lemma TableNumber(s: Sym)
    ensures Known(Number(s)) && SymbolOf(Number(s)) == s && !IsFencepost(Number(s))
  {}

  lemma DecodeWhole(b: bytes, p: nat, last: nat, o: Opt, count: nat, sofar: seq<Opt>)
    requires IsOpt(o) && last <= Number(o.sym)
    requires Holds(b, p, Record(last, o)) && p + RecordSize(last, o) <= |b|
    ensures Lag(o) <= RecordSize(last, o)
    ensures DecodeFrom(b, p, last, |Fences(last, Number(o.sym))| + (1 + count), sofar)
            == DecodeFrom(b, p + RecordSize(last, o) - Lag(o), Number(o.sym), count, sofar + [ReadBack(o)])
  {
    hide DecodeRecord, DecodeFrom, Fences, FenceBytes, ReadBack, Record, RecordSize, Head, Holds, IsOpt;
    var cur := Number(o.sym);
    FencepostsBridgeGap(last, cur);
    var ds, delta := Fences(last, cur), FinalDelta(last, cur);
    RecordParts(last, o);
    var h := Head(delta, o.len);
    FenceBytesLength(ds);
    HoldsParts(b, p, FenceBytes(ds), h + o.val);
    PassFences(b, p, last, cur, 1 + count, sofar);
    StepRecord(b, p + |ds|, o, delta);
    DecodeStep(b, p + |ds|, cur - delta, 1 + count, sofar, [ReadBack(o)], |h| + o.len - Lag(o), cur);
  }

  lemma RecordParts(last: nat, o: Opt)
    requires IsOpt(o) && last <= Number(o.sym)
    ensures o.len <= OPT_LEN_MAX && Small(Fences(last, Number(o.sym))) && 0 <= FinalDelta(last, Number(o.sym)) <= 14
    ensures var ds, h := Fences(last, Number(o.sym)), Head(FinalDelta(last, Number(o.sym)), o.len);
            Record(last, o) == FenceBytes(ds) + (h + o.val) && RecordSize(last, o) == |ds| + |h| + o.len
  {
    hide FenceBytes, Fences, Sum, Small;
    FencepostsBridgeGap(last, Number(o.sym));
  }

  /** Each further record moves the position on. */
  lemma {:induction false} MoreRecords(b: bytes, p: nat, num: nat, c: nat, c': nat, sofar: seq<Opt>)
    requires c < c' && DecodeFrom(b, p, num, c', sofar).Done?
    ensures DecodeFrom(b, p, num, c, sofar).Done?
    ensures p <= DecodeFrom(b, p, num, c, sofar).pos < DecodeFrom(b, p, num, c', sofar).pos
    decreases c'
  {
    hide DecodeRecord;
    assert DecodeRecord(b, p, num).Take?;
    var Take(kept, size, cur) := DecodeRecord(b, p, num);
    assert size > 0 by { RecordsTakeSpace(b, p, num); }
    if c > 0 {
      MoreRecords(b, p + size, cur, c - 1, c' - 1, sofar + kept);
    } else if c' > 1 {
      MoreRecords(b, p + size, cur, 0, c' - 1, sofar + kept);
    }
  }

  lemma RecordsTakeSpace(b: bytes, p: nat, num: nat)
    ensures DecodeRecord(b, p, num).Take? ==> DecodeRecord(b, p, num).size > 0
  {}

  /** Once the decoder is one zero byte behind it can never catch up, however many records
      it reads: each further byte reads as an empty repetition of the last option. */
  lemma {:induction false} OneByteBehind(b: bytes, p: nat, s: Sym, os: seq<Opt>, count: nat, sofar: seq<Opt>)
    requires Follows(Number(s), os) && p < |b| && b[p] == 0
    requires Holds(b, p + 1, EncodeFrom(Number(s), os))
    ensures DecodeFrom(b, p, Number(s), count, sofar)
            != Done(sofar + os, p + 1 + SizeFrom(Number(s), os))
    decreases count
  {
    hide DecodeRecord, DecodeFrom, Follows, EncodeFrom, SizeFrom, Record, Fences;
    var n := Number(s);
    if count == 0 {
      DecodeNone(b, p, n, sofar);
    } else {
      var empty := Opt(s, 0, []);
      StepRecord(b, p, empty, 0);
      DecodeStep(b, p, n, count, sofar, [empty], 1, n);
      DecodeKeeps(b, p + 1, n, count - 1, sofar + [empty]);
      if sofar + [empty] <= sofar + os {
        assert (sofar + os)[|sofar|] == os[0];
        Unfold(n, os);
        UnfoldSize(n, os);
        EmptyRecord(n, empty);
        HoldsParts(b, p + 1, [0], EncodeFrom(n, os[1..]));
        assert b[p + 1] == b[p + 1..p + 2][0];
        assert sofar + os == (sofar + [empty]) + os[1..];
        OneByteBehind(b, p + 1, s, os[1..], count - 1, sofar + [empty]);
      }
    }
  }

  lemma NothingEncoded(n: nat)
    ensures EncodeFrom(n, []) == [] && FenceCount(n, []) == 0 && SizeFrom(n, []) == 0
  {}

  lemma EmptyRecord(n: nat, o: Opt)
    requires IsOpt(o) && Number(o.sym) == n && o.len == 0
    ensures Record(n, o) == [0] && Fences(n, n) == [] && RecordSize(n, o) == 1
  {}

  lemma SplitFifteen(os: seq<Opt>)
    requires os != []
    ensures HasFifteen(os) <==> os[0].len == 15 || HasFifteen(os[1..])
    ensures PlainButLast(os) ==> PlainButLast(os[1..])
  {
    assert forall i :: 0 <= i < |os[1..]| ==> os[1..][i] == os[i + 1];
    if HasFifteen(os) {
      var k :| 0 <= k < |os| && os[k].len == 15;
      assert k > 0 ==> os[1..][k - 1].len == 15;
    }
  }

  /** The one way a list ending in an Empty option of length 15 is read back after all: by
      reading one record too many, made of the last surplus byte and passed over because
      its number is unknown and even. */
  predicate Lucky(b: bytes, end: nat, os: seq<Opt>) {
    os != [] && 0 < end <= |b| && b[end - 1] as int % 32 == 16
    && os[|os| - 1].len == 15 && os[|os| - 1].val == [] && !HasFifteen(os[..|os| - 1])
  }

  lemma LuckyTail(b: bytes, end: nat, os: seq<Opt>)
    requires |os| > 1
    ensures Lucky(b, end, os) <==> os[0].len != 15 && Lucky(b, end, os[1..])
  {
    assert os[..|os| - 1] == [os[0]] + os[1..][..|os| - 2];
    SplitFifteen(os[..|os| - 1]);
    assert os[..|os| - 1][1..] == os[1..][..|os| - 2];
  }

  /** Behind by the last byte of an Empty option: one more record, of that byte alone, may
      be passed over. */
  lemma OneByteLeft(b: bytes, q: nat, count: nat, os: seq<Opt>)
    requires q < |b|
    ensures DecodeFrom(b, q, Number(IF_NONE_MATCH), count, os) == Done(os, q + 1)
            <==> count == 1 && b[q] as int % 32 == 16
  {
    hide DecodeRecord;
    var n := Number(IF_NONE_MATCH);
    if count > 0 {
      RecordsTakeSpace(b, q, n);
      if DecodeRecord(b, q, n).Take? {
        var Take(kept, size, cur) := DecodeRecord(b, q, n);
        DecodeKeeps(b, q + size, cur, count - 1, os + kept);
        if count > 1 && DecodeFrom(b, q, n, count, os).Done? {
          MoreRecords(b, q, n, 1, count, os);
          DecodeNone(b, q + size, cur, os + kept);
        }
        ByteAlone(b, q);
        assert os + kept == os <==> kept == [];
      } else {
        ByteAlone(b, q);
      }
    }
  }

  lemma ByteAlone(b: bytes, q: nat)
    requires q < |b|
    ensures var r := DecodeRecord(b, q, Number(IF_NONE_MATCH));
            r.Take? && r.kept == [] && r.size == 1 <==> b[q] as int % 32 == 16
  {}

  /** A plain option of length 15, the last or not, spoils the whole list. */
  lemma FifteenFails(b: bytes, p: nat, last: nat, os: seq<Opt>, left: nat, sofar: seq<Opt>)
    requires Follows(last, os) && os != [] && os[0].len == 15 && os[0].val != []
    requires Holds(b, p, EncodeFrom(last, os)) && p + SizeFrom(last, os) <= |b|
    ensures DecodeFrom(b, p, last, |Fences(last, Number(os[0].sym))| + (1 + left), sofar)
            != Done(sofar + os, p + SizeFrom(last, os))
  {
    hide DecodeRecord, DecodeFrom, Follows, EncodeFrom, SizeFrom, Fences, Record, RecordSize, Holds;
    var o, n := os[0], Number(os[0].sym);
    Unfold(last, os);
    UnfoldSize(last, os);
    var r, rest := Record(last, o), EncodeFrom(n, os[1..]);
    HoldsParts(b, p, r, rest);
    LastByte(last, o);
    EndOf(b, p, r);
    EndOf(b, p + |r|, rest);
    var q := p + |r| - 1;
    var sofar' := sofar + [ReadBack(o)];
    DecodeWhole(b, p, last, o, left, sofar);
    DecodeKeeps(b, q, n, left, sofar');
    if sofar' <= sofar + os {
      assert (sofar + os)[|sofar|] == o;
      AllZero(o.val);
      assert sofar + os == sofar' + os[1..];
      OneByteBehind(b, q, o.sym, os[1..], left, sofar');
    }
  }

  lemma EndOf(b: bytes, p: nat, r: bytes)
    requires Holds(b, p, r)
    ensures p + |r| <= |b| && (r != [] ==> b[p + |r| - 1] == r[|r| - 1])
  {
    assert r != [] ==> b[p..p + |r|][|r| - 1] == b[p + |r| - 1];
  }

  /** The exact round-trip law of the option codec.  Decoding some number of records where
      an encoded list stands, whatever bytes surround it, gives back the same options in
      the same order and ends exactly where the space charged for them ends, if and only if
      that number counts the options and their fenceposts and no option is 15 bytes long,
      or else by luck. */
  lemma {:induction false} OptionRoundTrip(b: bytes, p: nat, last: nat, os: seq<Opt>, count: nat, sofar: seq<Opt>)
    requires Follows(last, os) && PlainButLast(os)
    requires Holds(b, p, EncodeFrom(last, os)) && p + SizeFrom(last, os) <= |b|
    ensures var all, end := |os| + FenceCount(last, os), p + SizeFrom(last, os);
            DecodeFrom(b, p, last, count, sofar) == Done(sofar + os, end)
            <==> (count == all && !HasFifteen(os)) || (count == all + 1 && Lucky(b, end, os))
    decreases |os|
  {
    hide DecodeRecord, DecodeFrom, Follows, EncodeFrom, SizeFrom, FenceCount, Record, RecordSize, Fences, Holds,
      PlainButLast, HasFifteen, Lucky;
    if os == [] {
      NothingEncoded(last);
      DecodeNone(b, p, last, sofar);
      NeitherEmpty(b, p);
      if count > 0 && DecodeFrom(b, p, last, count, sofar).Done? {
        MoreRecords(b, p, last, 0, count, sofar);
      }
    } else {
      Unfold(last, os);
      UnfoldSize(last, os);
      SplitFifteen(os);
      var o, n := os[0], Number(os[0].sym);
      var end := p + SizeFrom(last, os);
      HoldsParts(b, p, Record(last, o), EncodeFrom(n, os[1..]));
      var q := p + RecordSize(last, o) - Lag(o);
      var here := |Fences(last, n)| + 1;
      if count < here {
        DecodeWhole(b, p, last, o, 0, sofar);
        DecodeNone(b, q, n, sofar + [ReadBack(o)]);
        MoreRecords(b, p, last, count, here, sofar);
      } else if o.len == 15 {
        FirstFifteen(b, p, last, os, count - here, sofar);
      } else {
        var left := count - here;
        DecodeWhole(b, p, last, o, left, sofar);
        assert sofar + os == sofar + [o] + os[1..];
        RestStands(b, p, last, os);
        OptionRoundTrip(b, q, n, os[1..], left, sofar + [o]);
        if |os| > 1 {
          LuckyTail(b, end, os);
        } else {
          NotLucky(b, end, os);
          NeitherEmpty(b, end);
        }
      }
    }
  }

  lemma NeitherEmpty(b: bytes, end: nat)
    ensures !HasFifteen([]) && !Lucky(b, end, [])
  {}

  lemma NotLucky(b: bytes, end: nat, os: seq<Opt>)
    requires os != [] && os[|os| - 1].len != 15
    ensures !Lucky(b, end, os)
  {}

  /** After a first option of another length the rest stands where the decoder is. */
  lemma RestStands(b: bytes, p: nat, last: nat, os: seq<Opt>)
    requires Follows(last, os) && os != [] && PlainButLast(os)
    requires Holds(b, p, EncodeFrom(last, os)) && p + SizeFrom(last, os) <= |b|
    ensures last <= Number(os[0].sym) && Follows(Number(os[0].sym), os[1..])
    ensures Holds(b, p + RecordSize(last, os[0]), EncodeFrom(Number(os[0].sym), os[1..]))
  {
    hide Follows, EncodeFrom, SizeFrom, Fences;
    var n := Number(os[0].sym);
    Unfold(last, os);
    UnfoldSize(last, os);
    HoldsParts(b, p, Record(last, os[0]), EncodeFrom(n, os[1..]));
    FencepostsBridgeGap(last, n);
    FenceBytesLength(Fences(last, n));
    if |os| == 1 {
      NothingEncoded(n);
    }
  }

  lemma FirstFifteen(b: bytes, p: nat, last: nat, os: seq<Opt>, left: nat, sofar: seq<Opt>)
    requires Follows(last, os) && PlainButLast(os) && os != [] && os[0].len == 15
    requires Holds(b, p, EncodeFrom(last, os)) && p + SizeFrom(last, os) <= |b|
    ensures HasFifteen(os)
    ensures var here, end := |Fences(last, Number(os[0].sym))| + 1, p + SizeFrom(last, os);
            DecodeFrom(b, p, last, here + left, sofar) == Done(sofar + os, end)
            <==> left == FenceCount(last, os) + |os| + 1 - here && Lucky(b, end, os)
  {
    hide DecodeRecord, DecodeFrom, Follows, EncodeFrom, SizeFrom, FenceCount, Record, RecordSize, Fences, Holds;
    var o, n := os[0], Number(os[0].sym);
    if o.val != [] {
      FifteenFails(b, p, last, os, left, sofar);
      if |os| > 1 {
        LuckyTail(b, p + SizeFrom(last, os), os);
      }
    } else {
      Unfold(last, os);
      UnfoldSize(last, os);
      NothingEncoded(n);
      assert os == [o] && os[1..] == [] && os[..0] == [];
      HoldsParts(b, p, Record(last, o), EncodeFrom(n, os[1..]));
      DecodeWhole(b, p, last, o, left, sofar);
      OnlyEmpty(last, o);
      OneByteLeft(b, p + RecordSize(last, o) - 1, left, sofar + [o]);
    }
  }

  lemma OnlyEmpty(last: nat, o: Opt)
    requires IsOpt(o) && o.len == 15 && o.val == [] && last <= Number(o.sym)
    ensures o.sym == IF_NONE_MATCH && RecordSize(last, o) > 0
  {}

  lemma LastByte(last: nat, o: Opt)
    requires IsOpt(o) && last <= Number(o.sym) && |o.val| == o.len > 0
    ensures |Record(last, o)| == RecordSize(last, o) > 0
    ensures Record(last, o)[|Record(last, o)| - 1] == o.val[o.len - 1]
  {
    FencepostsBridgeGap(last, Number(o.sym));
    FenceBytesLength(Fences(last, Number(o.sym)));
  }

  lemma AllZero(v: bytes)
    requires |v| == 15 && v == [0] + v[..14]
    ensures v[14] == 0
  {
    assert forall i :: 0 < i < 15 ==> v[i] == ([0] + v[..14])[i] == v[i - 1];
    assert v[2] == 0 && v[4] == 0 && v[6] == 0 && v[8] == 0 && v[10] == 0 && v[12] == 0;
  }
}
