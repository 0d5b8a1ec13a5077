/** Header encoding and the framing of a whole PDU. */
module Pdu {
  import opened OptionTable
  import opened OptionCodec
  import opened Options
  import opened Surplus

  datatype Header = Header(t: nat, oc: nat, code: byte, mid: uint16)

  datatype Message = Message(t: nat, code: byte, mid: uint16, opts: seq<Opt>, payload: bytes)

  datatype Received = Accepted(m: Message) | BadHeader | BadOptions

  function SwapBytes(m: uint16): uint16 {
    (m % 256) * 256 + m / 256
  }

  function Join(hi: byte, lo: byte): uint16 {
    hi as int * 256 + lo as int
  }

  /** htons and ntohs, on a host of either byte order. */
  function NetOrder(m: uint16, littleEndian: bool): uint16 {
    if littleEndian then SwapBytes(m) else m
  }

  /** The four header bytes: version 1, type, the low four bits of the option count, code
      and message id. */
  function HeaderBytes(t: nat, code: byte, mid: uint16, noptions: nat, littleEndian: bool): bytes {
    var m := NetOrder(mid, littleEndian);
    [(64 + (t % 4) * 16 + noptions % 16) as byte, code, (m / 256) as byte, (m % 256) as byte]
  }

  function DecodeHeader(raw: bytes, littleEndian: bool): Option<Header> {
    if |raw| < 4 || raw[0] as int / 64 != 1 then None
    else
      Some(Header(raw[0] as int / 16 % 4, raw[0] as int % 16, raw[1], NetOrder(Join(raw[2], raw[3]), littleEndian)))
  }

  lemma NetOrderUndone(m: uint16, littleEndian: bool)
    ensures NetOrder(NetOrder(m, littleEndian), littleEndian) == m
  {}

  lemma HeaderRoundTrip(t: nat, code: byte, mid: uint16, n: nat, littleEndian: bool, rest: bytes)
    requires t < 4
    ensures DecodeHeader(HeaderBytes(t, code, mid, n, littleEndian) + rest, littleEndian)
            == Some(Header(t, n % 16, code, mid))
  {
    var m := NetOrder(mid, littleEndian);
    var raw := HeaderBytes(t, code, mid, n, littleEndian) + rest;
    NetOrderUndone(mid, littleEndian);
    assert raw[0] as int == 64 + t * 16 + n % 16 && raw[1] == code;
    assert Join(raw[2], raw[3]) == m;
  }

  /** On a little-endian host an ID goes out with its less significant byte first, on another
      one with the more significant: it is brought into network order twice. */
  lemma MidOnTheWire(t: nat, code: byte, mid: uint16, n: nat, littleEndian: bool)
    ensures var h := HeaderBytes(t, code, mid, n, littleEndian);
            h[if littleEndian then 2 else 3] as int == mid % 256 && h[if littleEndian then 3 else 2] as int == mid / 256
  {}

  /** MID mirroring works between hosts of any byte orders: a peer may read another
      number, but what it mirrors comes back as the original. */
  lemma MirroredMid(t: nat, t': nat, code: byte, code': byte, mid: uint16, n: nat, n': nat,
                    mine: bool, theirs: bool)
    requires t < 4 && t' < 4
    ensures var there := DecodeHeader(HeaderBytes(t, code, mid, n, mine), theirs);
            there.Some? && DecodeHeader(HeaderBytes(t', code', there.value.mid, n', theirs), mine)
                           == Some(Header(t', n' % 16, code', mid))
            && (there.value.mid == mid <==> mine == theirs || mid / 256 == mid % 256)
  {
    var h := HeaderBytes(t, code, mid, n, mine);
    var seen := NetOrder(NetOrder(mid, mine), theirs);
    assert Join(h[2], h[3]) == NetOrder(mid, mine);
    var h' := HeaderBytes(t', code', seen, n', theirs);
    NetOrderUndone(NetOrder(mid, mine), theirs);
    assert Join(h'[2], h'[3]) == NetOrder(seen, theirs) == NetOrder(mid, mine);
    NetOrderUndone(mid, mine);
  }

  /** The option count the header is given when a fresh list is encoded once: options
      plus fenceposts. */
  function RecordCount(os: seq<Opt>): nat
    requires Follows(0, os)
  {
    |os| + FenceCount(0, os)
  }

  /** The datagram sent for a message whose option pool counts `noptions`; `pad` is what the
      option buffer holds in the surplus space of Empty options. */
  function WireBytes(m: Message, noptions: nat, pad: bytes, littleEndian: bool): bytes
    requires Follows(0, m.opts)
  {
    HeaderBytes(m.t, m.code, m.mid, noptions, littleEndian) + EncodeFrom(0, m.opts) + pad + m.payload
  }

  function ReadMessage(raw: bytes, littleEndian: bool): Received {
    match DecodeHeader(raw, littleEndian)
    case None => BadHeader
    case Some(h) =>
      match DecodeFrom(raw, 4, 0, h.oc, [])
      case Done(os, q) =>
        if q <= |raw| then Accepted(Message(h.t, h.code, h.mid, os, raw[q..])) else BadOptions
      case _ => BadOptions
  }

  /** Is the message read back when the count bits announce `oc` records? */
  predicate ReadableAs(m: Message, oc: nat, pad: bytes)
    requires Follows(0, m.opts)
  {
    (oc == RecordCount(m.opts) && !HasFifteen(m.opts))
    || (oc == RecordCount(m.opts) + 1 && Lucky(EncodeFrom(0, m.opts) + pad, SizeFrom(0, m.opts), m.opts))
  }

  lemma LuckyAnywhere(h: bytes, e: bytes, rest: bytes, os: seq<Opt>)
    requires os != [] ==> e != []
    ensures Lucky(h + (e + rest), |h| + |e|, os) <==> Lucky(e, |e|, os)
  {
    hide HasFifteen;
    if os != [] && os[|os| - 1].len == 15 && |e| > 0 {
      assert (h + (e + rest))[|h| + |e| - 1] == e[|e| - 1];
    }
  }

  lemma SomeBytes(os: seq<Opt>)
    requires Follows(0, os) && os != []
    ensures SizeFrom(0, os) > 0
  {
    UnfoldSize(0, os);
  }

  /** The exact round-trip law of a whole PDU, on a host of either byte order: type, code,
      message id, options and payload all come back, the payload starting where the space
      charged for the options ends, if and only if the four count bits announce just the
      options and fenceposts written and no option is 15 bytes long, or else by luck. */
  lemma MessageRoundTrip(m: Message, noptions: nat, pad: bytes, littleEndian: bool)
    requires m.t < 4 && Follows(0, m.opts) && PlainButLast(m.opts) && |pad| == SurplusSize(0, m.opts)
    ensures ReadMessage(WireBytes(m, noptions, pad, littleEndian), littleEndian) == Accepted(m)
            <==> ReadableAs(m, noptions % 16, pad)
  {
    hide DecodeFrom, EncodeFrom, SizeFrom, FenceCount, Follows, HeaderBytes, DecodeHeader, HasFifteen,
      PlainButLast, Lucky;
    var e := EncodeFrom(0, m.opts);
    var h := HeaderBytes(m.t, m.code, m.mid, noptions, littleEndian);
    var raw := WireBytes(m, noptions, pad, littleEndian);
    assert |h| == 4 by { HeaderIsFour(m.t, m.code, m.mid, noptions, littleEndian); }
    assert raw == h + (e + pad + m.payload);
    HeaderRoundTrip(m.t, m.code, m.mid, noptions, littleEndian, e + pad + m.payload);
    assert Holds(raw, 4, e) && raw[4 + |e + pad|..] == m.payload;
    OptionRoundTrip(raw, 4, 0, m.opts, noptions % 16, []);
    if m.opts != [] {
      SomeBytes(m.opts);
    }
    LuckyAnywhere(h, e + pad, m.payload, m.opts);
    var d := DecodeFrom(raw, 4, 0, noptions % 16, []);
    assert [] + m.opts == m.opts;
    if d.Done? && d.opts == m.opts && d.pos <= |raw| && raw[d.pos..] == m.payload {
      assert |raw| - d.pos == |m.payload|;
    }
  }

  /** Consequences for the two ways a list gets encoded: once, and again on the same pool,
      which counts its fenceposts twice. */
  lemma EncodedOnceOrTwice(m: Message, pad: bytes, littleEndian: bool)
    requires m.t < 4 && Follows(0, m.opts) && PlainButLast(m.opts) && |pad| == SurplusSize(0, m.opts)
    requires |m.opts| <= MAX_OPTIONS
    ensures ReadMessage(WireBytes(m, RecordCount(m.opts), pad, littleEndian), littleEndian) == Accepted(m)
            <==> RecordCount(m.opts) <= MAX_OPTIONS && !HasFifteen(m.opts)
    ensures var twice := RecordCount(m.opts) + FenceCount(0, m.opts);
            ReadMessage(WireBytes(m, twice, pad, littleEndian), littleEndian) == Accepted(m)
            <==> twice <= MAX_OPTIONS && ReadableAs(m, twice, pad)
    ensures Plain(m.opts)
            ==> (ReadableAs(m, RecordCount(m.opts) + FenceCount(0, m.opts), pad)
                 <==> FenceCount(0, m.opts) == 0 && !HasFifteen(m.opts))
  {
    hide ReadMessage, WireBytes, FenceCount, SizeFrom, EncodeFrom, Follows, HasFifteen, Plain, PlainButLast, Lucky;
    AtMostOneFence(0, m.opts);
    MessageRoundTrip(m, RecordCount(m.opts), pad, littleEndian);
    MessageRoundTrip(m, RecordCount(m.opts) + FenceCount(0, m.opts), pad, littleEndian);
    if Plain(m.opts) {
      PlainIsNotLucky(EncodeFrom(0, m.opts) + pad, SizeFrom(0, m.opts), m.opts);
    }
  }

  lemma PlainIsNotLucky(b: bytes, end: nat, os: seq<Opt>)
    requires Plain(os)
    ensures !Lucky(b, end, os)
  {}

  /** The overflow is real: fifteen options with one fencepost among them announce no
      options at all, and everything lands in the payload. */
  lemma FenceOverflow(m: Message, pad: bytes, littleEndian: bool)
    requires m.t < 4 && Follows(0, m.opts) && |m.opts| == MAX_OPTIONS && FenceCount(0, m.opts) > 0
    ensures ReadMessage(WireBytes(m, RecordCount(m.opts), pad, littleEndian), littleEndian)
            == Accepted(m.(opts := [], payload := EncodeFrom(0, m.opts) + pad + m.payload))
  {
    hide EncodeFrom, FenceCount, Follows, HeaderBytes, DecodeHeader;
    AtMostOneFence(0, m.opts);
    var e, n := EncodeFrom(0, m.opts), RecordCount(m.opts);
    HeaderIsFour(m.t, m.code, m.mid, n, littleEndian);
    HeaderRoundTrip(m.t, m.code, m.mid, n, littleEndian, e + pad + m.payload);
    var raw := WireBytes(m, n, pad, littleEndian);
    assert raw == HeaderBytes(m.t, m.code, m.mid, n, littleEndian) + (e + pad + m.payload);
    assert raw[4..] == e + pad + m.payload;
    DecodeNone(raw, 4, 0, []);
  }

  lemma HeaderIsFour(t: nat, code: byte, mid: uint16, n: nat, littleEndian: bool)
    ensures |HeaderBytes(t, code, mid, n, littleEndian)| == 4
  {}

  class PduObject {
    const hdr: array<byte>
    const opts: Pool
    var header: Header
    var payload: bytes

    ghost predicate Valid()
      reads this, opts, hdr
    {
      hdr.Length == 4 && hdr != opts.enc && opts.Valid()
    }

    constructor ()
      ensures Valid() && fresh(hdr) && fresh(opts) && fresh(opts.enc)
      ensures opts.bundle == [] && opts.noptions == 0 && payload == []
    {
      hdr := new byte[4](_ => 0);
      opts := new Pool();
      header, payload := Header(0, 0, 0, 0), [];
    }

    method EncodeHeader(code: byte, t: nat, mid: uint16, littleEndian: bool)
      requires Valid()
      modifies hdr
      ensures Valid() && hdr[..] == HeaderBytes(t, code, mid, opts.noptions, littleEndian)
    {
      var m := NetOrder(mid, littleEndian);
      hdr[0] := (64 + (t % 4) * 16 + opts.noptions % 16) as byte;
      hdr[1] := code;
      hdr[2] := (m / 256) as byte;
      hdr[3] := (m % 256) as byte;
    }

    /** Encodes options, then the header with the count left by that; what goes out is
        header, option buffer and payload.  Every encoding adds its fenceposts to the count
        the header announces. */
    method Encode(code: byte, t: nat, mid: uint16, littleEndian: bool) returns (ok: bool, wire: bytes)
      requires Valid()
      modifies hdr, opts`noptions, opts`encSz, opts.enc
      ensures Valid()
      ensures ok <==> SizeFrom(0, opts.bundle) <= ENC_MAX
      ensures ok ==> opts.noptions == old(opts.noptions) + FenceCount(0, opts.bundle)
      ensures ok ==> |EncodeFrom(0, opts.bundle)| <= opts.encSz <= opts.enc.Length
      ensures ok
              ==> var pad := opts.enc[|EncodeFrom(0, opts.bundle)|..opts.encSz];
                  |pad| == SurplusSize(0, opts.bundle)
                  && wire == WireBytes(Message(t, code, mid, opts.bundle, payload), opts.noptions, pad, littleEndian)
    {
      hide HeaderBytes, EncodeFrom, SizeFrom, FenceCount, Follows;
      wire := [];
      ok := opts.Encode();
      if ok {
        StartsAnywhere(opts.bundle);
        ghost var e := EncodeFrom(0, opts.bundle);
        assert opts.enc[..opts.encSz] == e + opts.enc[|e|..opts.encSz];
        EncodeHeader(code, t, mid, littleEndian);
        wire := hdr[..] + opts.enc[..opts.encSz] + payload;
      }
    }

    /** Reads a datagram into a fresh PDU. */
    method Receive(raw: bytes, littleEndian: bool) returns (r: Received)
      requires Valid() && opts.bundle == [] && opts.noptions == 0
      modifies this, hdr, opts
      ensures Valid() && r == ReadMessage(raw, littleEndian)
      ensures r.Accepted? ==> hdr[..] == raw[..4] && opts.bundle == r.m.opts && payload == r.m.payload
    {
      hide DecodeHeader, DecodeFrom, DecodeRecord;
      var h := ReadHeader(raw, littleEndian);
      if h.None? {
        return BadHeader;
      }
      header := h.value;
      hdr[0], hdr[1], hdr[2], hdr[3] := raw[0], raw[1], raw[2], raw[3];
      assert hdr[..] == raw[..4];
      var rc, olen := opts.Decode(raw, header.oc);
      if rc != RcUnset {
        return BadOptions;
      }
      if 4 + olen > |raw| {
        return BadOptions;
      }
      payload := raw[4 + olen..];
      r := Accepted(Message(header.t, header.code, header.mid, opts.bundle, payload));
    }
  }

  lemma StartsAnywhere(os: seq<Opt>)
    requires AreOpts(os) && Sorted(os)
    ensures Follows(0, os)
  {}

  method ReadHeader(raw: bytes, littleEndian: bool) returns (h: Option<Header>)
    ensures h == DecodeHeader(raw, littleEndian)
    ensures h.Some? <==> |raw| >= 4 && 64 <= raw[0] as int < 128
    ensures h.Some? ==> |raw| >= 4 && h.value.oc <= MAX_OPTIONS
  {
    if |raw| < 4 || raw[0] as int / 64 != 1 {
      return None;
    }
    return Some(Header(raw[0] as int / 16 % 4, raw[0] as int % 16, raw[1], NetOrder(Join(raw[2], raw[3]), littleEndian)));
  }
}
