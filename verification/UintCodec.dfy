/** Variable-length unsigned integers (section 3.2 of RFC 7252) and Block values. */
module UintCodec {
  import opened OptionTable
  import opened OptionList
  import opened Options

  /** Big-endian digits of a number, without leading zeros. */
  function Digits(u: nat): bytes {
    if u == 0 then [] else Digits(u / 256) + [(u % 256) as byte]
  }

  function Value(b: bytes): nat {
    if b == [] then 0 else Value(b[..|b| - 1]) * 256 + b[|b| - 1] as int
  }

  function Pow256(k: nat): (p: nat)
    ensures p > 0
  {
    if k == 0 then 1 else 256 * Pow256(k - 1)
  }

  /** u >> (8 * j) */
  function ShiftRight(u: nat, j: nat): nat {
    if j == 0 then u else ShiftRight(u / 256, j - 1)
  }

  function Reverse(b: bytes): (r: bytes)
    ensures |r| == |b|
  {
    if b == [] then [] else [b[|b| - 1]] + Reverse(b[..|b| - 1])
  }

  function StripZeros(b: bytes): (r: bytes)
    ensures |r| <= |b| && (r != [] ==> r[0] != 0)
  {
    if b != [] && b[0] == 0 then StripZeros(b[1..]) else b
  }

  lemma {:induction false} ValueOfDigits(u: nat)
    ensures Value(Digits(u)) == u
  {
    if u > 0 {
      ValueOfDigits(u / 256);
      assert Digits(u)[..|Digits(u)| - 1] == Digits(u / 256);
    }
  }

  lemma {:induction false} StripAppend(b: bytes, x: byte)
    ensures StripZeros(b + [x]) == if StripZeros(b) == [] then StripZeros([x]) else StripZeros(b) + [x]
  {
    if b == [] {
      assert b + [x] == [x];
    } else if b[0] == 0 {
      assert (b + [x])[1..] == b[1..] + [x];
      StripAppend(b[1..], x);
    }
  }

  /** Re-encoding what was decoded strips exactly the leading zero bytes. */
  lemma {:induction false} DigitsOfValue(b: bytes)
    ensures Digits(Value(b)) == StripZeros(b)
  {
    if b != [] {
      var n := |b| - 1;
      DigitsOfValue(b[..n]);
      assert b == b[..n] + [b[n]];
      StripAppend(b[..n], b[n]);
      if Value(b) > 0 {
        assert Value(b) / 256 == Value(b[..n]) && Value(b) % 256 == b[n] as int;
        assert Value(b[..n]) == 0 ==> Digits(Value(b[..n])) == [];
      }
    }
  }

  /** No shorter byte string has the same value. */
  lemma DigitsAreShortest(b: bytes)
    ensures |Digits(Value(b))| <= |b|
  {
    DigitsOfValue(b);
  }

  lemma {:induction false} DigitsLength(u: nat, k: nat)
    ensures |Digits(u)| <= k <==> u < Pow256(k)
  {
    if u > 0 && k > 0 {
      DigitsLength(u / 256, k - 1);
    }
  }

  lemma {:induction false} DigitAt(u: nat, j: nat)
    requires j < |Digits(u)|
    ensures Digits(u)[|Digits(u)| - 1 - j] == LowByte(ShiftRight(u, j))
  {
    if j > 0 {
      DigitAt(u / 256, j - 1);
    }
  }

  lemma {:induction false} ReverseAt(b: bytes, j: nat)
    requires j < |b|
    ensures Reverse(b)[j] == b[|b| - 1 - j]
  {
    if j > 0 {
      ReverseAt(b[..|b| - 1], j - 1);
    }
  }

  lemma {:induction false} ReverseTwice(b: bytes)
    ensures Reverse(Reverse(b)) == b
  {
    forall j | 0 <= j < |b| ensures Reverse(Reverse(b))[j] == b[j] {
      ReverseAt(Reverse(b), j);
      ReverseAt(b, |b| - 1 - j);
    }
  }

  lemma {:induction false} ValueCons(x: byte, b: bytes)
    ensures Value([x] + b) == x as int * Pow256(|b|) + Value(b)
  {
    if b == [] {
      assert [x] + b == [x] && [x][..0] == [];
    } else {
      var n := |b| - 1;
      assert ([x] + b)[..|b|] == [x] + b[..n];
      ValueCons(x, b[..n]);
    }
  }

  /** Byte order of an encoded value: network order on a little-endian build, the reverse
      otherwise. */
  function Ordered(b: bytes, littleEndian: bool): bytes {
    if littleEndian then b else Reverse(b)
  }

  /** Smallest number of bytes that holds a nonzero 64-bit value. */
  method PickSize(ui: nat) returns (size: nat)
    requires 0 < ui < Pow256(8)
    ensures size == |Digits(ui)|
  {
    hide Digits;
    var i := 0;
    DigitsLength(ui, 0);
    while Pow256(i + 1) - 1 < ui
      invariant 0 <= i < 8 && |Digits(ui)| > i
      decreases 8 - i
    {
      DigitsLength(ui, i + 1);
      DigitsLength(ui, 8);
      i := i + 1;
    }
    DigitsLength(ui, i + 1);
    size := i + 1;
  }

  /** The last `j` digits are in the buffer, in either order. */
  predicate Filled(s: bytes, d: bytes, j: nat, littleEndian: bool) {
    j <= |d| <= |s|
    && if littleEndian then s[|d| - j..|d|] == d[|d| - j..] else s[..j] == Reverse(d[|d| - j..])
  }

  method PutDigit(e: array<byte>, ghost d: bytes, size: nat, j: nat, x: byte, littleEndian: bool)
    requires j < size == |d| && Filled(e[..], d, j, littleEndian)
    requires d[size - 1 - j..] == [x] + d[size - j..]
    requires Reverse(d[size - 1 - j..]) == Reverse(d[size - j..]) + [x]
    modifies e
    ensures Filled(e[..], d, j + 1, littleEndian)
  {
    hide Reverse;
    ghost var s := e[..];
    if littleEndian {
      e[size - 1 - j] := x;
      assert e[..][size - 1 - j..size] == [x] + s[size - j..size];
    } else {
      e[j] := x;
      assert e[..][..j + 1] == s[..j] + [x];
    }
  }

  /** Encodes into a caller's buffer of `elen` bytes, using as few as possible. */
  method EncodeUint(ui: nat, e: array<byte>, elen: nat, littleEndian: bool) returns (ok: bool, n: nat)
    requires ui < Pow256(8) && elen <= e.Length
    modifies e
    ensures ok <==> |Digits(ui)| <= elen
    ensures ok ==> n == |Digits(ui)| && e[..n] == Ordered(Digits(ui), littleEndian)
  {
    ghost var d := Digits(ui);
    NoDigits(ui, littleEndian);
    hide Digits, ShiftRight, Pow256, LowByte, Filled, Reverse, Ordered;
    assert e[..0] == [];
    if ui == 0 {
      return true, 0;
    }
    var size := PickSize(ui);
    if elen < size {
      return false, 0;
    }
    var j, rest := 0, ui;
    ShiftNone(ui);
    FilledNone(e[..], d, littleEndian);
    while j < size
      invariant 0 <= j <= size && ShiftRight(ui, j) == rest
      invariant Filled(e[..], d, j, littleEndian)
    {
      NextDigit(ui, j);
      PutDigit(e, d, size, j, LowByte(rest), littleEndian);
      rest := rest / 256;
      j := j + 1;
    }
    FilledAll(e[..], d, littleEndian);
    assert e[..][..size] == e[..size];
    return true, size;
  }

  lemma NoDigits(u: nat, littleEndian: bool)
    ensures (Digits(u) == [] <==> u == 0) && Ordered([], littleEndian) == []
  {}

  lemma FilledNone(s: bytes, d: bytes, littleEndian: bool)
    requires |d| <= |s|
    ensures Filled(s, d, 0, littleEndian)
  {}

  lemma FilledAll(s: bytes, d: bytes, littleEndian: bool)
    requires Filled(s, d, |d|, littleEndian)
    ensures s[..|d|] == Ordered(d, littleEndian)
  {
    assert d[0..] == d && s[0..|d|] == s[..|d|];
  }

  function LowByte(u: nat): byte {
    (u % 256) as byte
  }

  /** The next digit, seen from the end, and its place in either order. */
  lemma NextDigit(u: nat, j: nat)
    requires j < |Digits(u)|
    ensures ShiftRight(u, j + 1) == ShiftRight(u, j) / 256
    ensures var d, x := Digits(u), LowByte(ShiftRight(u, j));
            var n := |d|;
            d[n - 1 - j..] == [x] + d[n - j..] && Reverse(d[n - 1 - j..]) == Reverse(d[n - j..]) + [x]
  {
    hide Digits, ShiftRight;
    DigitAt(u, j);
    ShiftOnce(u, j);
    var d, x := Digits(u), LowByte(ShiftRight(u, j));
    assert d[|d| - 1 - j..] == [x] + d[|d| - j..];
    ReverseCons(x, d[|d| - j..]);
  }

  lemma {:induction false} ReverseCons(x: byte, b: bytes)
    ensures Reverse([x] + b) == Reverse(b) + [x]
  {
    if b == [] {
      assert [x] + b == [x] && [x][..0] == [];
    } else {
      var n := |b| - 1;
      assert ([x] + b)[..n + 1] == [x] + b[..n];
      ReverseCons(x, b[..n]);
    }
  }

  lemma ShiftNone(u: nat)
    ensures ShiftRight(u, 0) == u
  {}

  lemma {:induction false} ShiftOnce(u: nat, j: nat)
    ensures ShiftRight(u, j + 1) == ShiftRight(u, j) / 256
  {
    if j > 0 {
      ShiftOnce(u / 256, j - 1);
    }
  }

  /** What a byte counts in place `k` from the end. */
  function Worth(x: byte, k: nat): nat {
    x as int * Pow256(k)
  }

  /** Decodes a value of up to eight bytes. */
  method DecodeUint(v: bytes, littleEndian: bool) returns (r: Option<nat>)
    ensures r == if |v| > 8 then None else Some(Value(Ordered(v, littleEndian)))
  {
    if |v| > 8 {
      return None;
    }
    var ui, i := 0, 0;
    NothingDecoded(v);
    hide Value, Pow256, Reverse, Worth;
    while i < |v|
      invariant 0 <= i <= |v| && ui >= 0
      invariant littleEndian ==> ui + Value(v[i..]) == Value(v)
      invariant !littleEndian ==> ui == Value(Reverse(v[..i]))
    {
      DecodeByte(v, i);
      ui := ui + Worth(v[i], if littleEndian then |v| - (i + 1) else i);
      i := i + 1;
    }
    assert v[..i] == v;
    return Some(ui);
  }

  lemma NothingDecoded(v: bytes)
    ensures v[0..] == v && Value(v[|v|..]) == 0 && Value(Reverse(v[..0])) == 0
  {}

  /** One byte more, from either end. */
  lemma DecodeByte(v: bytes, i: nat)
    requires i < |v|
    ensures Value(v[i..]) == Worth(v[i], |v| - (i + 1)) + Value(v[i + 1..])
    ensures Value(Reverse(v[..i + 1])) == Worth(v[i], i) + Value(Reverse(v[..i]))
  {
    hide Value, Pow256;
    assert v[i..] == [v[i]] + v[i + 1..];
    ValueCons(v[i], v[i + 1..]);
    assert v[..i + 1][..i] == v[..i];
    ValueCons(v[i], Reverse(v[..i]));
  }

  /** Every 64-bit value survives the trip, on a build of either byte order. */
  lemma UintRoundTrip(ui: nat, littleEndian: bool)
    requires ui < Pow256(8)
    ensures var wire := Ordered(Digits(ui), littleEndian);
            |wire| <= 8 && Value(Ordered(wire, littleEndian)) == ui
  {
    DigitsLength(ui, 8);
    ReverseTwice(Digits(ui));
    ValueOfDigits(ui);
  }

  /** On a little-endian build the most significant byte goes first, on the other the least. */
  lemma WireOrder(u: nat, littleEndian: bool)
    ensures var b := Ordered(Digits(u), littleEndian);
            (b == [] <==> u == 0)
            && (b != [] ==> b[if littleEndian then |b| - 1 else 0] as int == u % 256
                            && (u < 65536 && |b| == 2 ==> b[if littleEndian then 0 else 1] as int == u / 256))
  {
    var d := Digits(u);
    if u > 0 {
      assert d[|d| - 1] as int == u % 256;
      if |d| == 2 {
        assert Digits(u / 256) == d[..1] && Digits(u / 256 / 256) == [];
      }
      ReverseAt(d, 0);
      if |d| > 1 {
        ReverseAt(d, 1);
      }
    }
  }

  // ------------------------------------------------------------- Block options

  datatype Block = Block(num: nat, more: bool, szx: nat)

  /** szx | more << 3 | num << 4 */
  function Pack(b: Block): nat {
    b.szx + (if b.more then 8 else 0) + 16 * b.num
  }

  function Unpack(v: nat): Option<Block> {
    if v > 0xff_ffff then None else Some(Block(v / 16, v / 8 % 2 == 1, v % 8))
  }

  /** First value of a symbol, read as a number. */
  function GetUint(os: seq<Opt>, sym: Sym, littleEndian: bool): Option<nat> {
    var found := Select(os, sym);
    if found == [] || |found[0].val| > 8 then None
    else Some(Value(Ordered(found[0].val, littleEndian)))
  }

  function GetBlock(os: seq<Opt>, which: Sym, littleEndian: bool): Option<Block> {
    match GetUint(os, which, littleEndian)
    case None => None
    case Some(v) => Unpack(v)
  }

  /** The size exponent of a power of two from 16 to 1024. */
  method SizeExponent(bsz: nat) returns (r: Option<nat>)
    ensures r.Some? ==> r.value <= 6 && BlockSize(r.value) == bsz
    ensures r.None? ==> forall k: nat :: k <= 6 ==> BlockSize(k) != bsz
  {
    var i, sz := 0, 16;
    while sz <= 1024
      invariant 0 <= i <= 7 && sz == BlockSize(i)
      invariant forall k: nat :: k < i ==> BlockSize(k) != bsz
      decreases 2048 - sz
    {
      if bsz == sz {
        return Some(i);
      }
      i, sz := i + 1, 2 * sz;
      BlockSizes();
    }
    BlockSizes();
    return None;
  }

  /** 1 << (szx + 4) */
  function BlockSize(szx: nat): (n: nat)
    ensures n >= 16
  {
    if szx == 0 then 16 else 2 * BlockSize(szx - 1)
  }

  lemma BlockSizes()
    ensures BlockSize(6) == 1024 && BlockSize(7) == 2048
    ensures forall k: nat :: k > 7 ==> BlockSize(k) > 2048
  {
    assert BlockSize(1) == 32 && BlockSize(3) == 128 && BlockSize(5) == 512;
    forall k: nat | k > 7 ensures BlockSize(k) > 2048 {
      LargeBlock(k);
    }
  }

  lemma {:induction false} LargeBlock(k: nat)
    requires k >= 7
    ensures BlockSize(k) >= 2048 && (k > 7 ==> BlockSize(k) > 2048)
  {
    assert BlockSize(1) == 32 && BlockSize(3) == 128 && BlockSize(5) == 512;
    if k > 7 {
      LargeBlock(k - 1);
    }
  }

  /** Adds a Block option.  The limits are those of the code: 20 bits for the number and three
      for the size exponent, so the reserved exponent 7 is let through. */
  method AddBlock(pool: Pool, which: Sym, b: Block, littleEndian: bool) returns (ok: bool)
    requires pool.Valid() && which in {BLOCK1, BLOCK2}
    modifies pool
    ensures pool.Valid()
    ensures ok <==> b.num <= 0xf_ffff && b.szx <= 7 && old(pool.noptions) < MAX_OPTIONS
    ensures ok ==> pool.bundle == InsertAll(old(pool.bundle), [MakeOpt(which, Ordered(Digits(Pack(b)), littleEndian))])
    ensures !ok ==> pool.bundle == old(pool.bundle)
  {
    if b.num > 0xf_ffff || b.szx > 7 {
      return false;
    }
    var e := new byte[8](_ => 0);
    PackFits(b);
    var fits, n := EncodeUint(Pack(b), e, 8, littleEndian);
    ghost var v := e[..n];
    OneFragment(which, v);
    ok := pool.AddRaw(which, e[..n]);
  }

  lemma PackFits(b: Block)
    requires b.num <= 0xf_ffff && b.szx <= 7
    ensures Pack(b) <= 0xff_ffff < Pow256(8) && |Digits(Pack(b))| <= 3
  {
    assert Pow256(2) == 65536 && Pow256(3) == 256 * 65536;
    assert Pow256(5) == 256 * (256 * Pow256(3)) && Pow256(7) == 256 * (256 * Pow256(5));
    DigitsLength(Pack(b), 3);
  }

  lemma OneFragment(sym: Sym, v: bytes)
    requires |v| <= 8
    ensures Slots(|v|) == 1 && Fragments(sym, v, 1) == [MakeOpt(sym, v)]
  {
    assert Fragments(sym, v, 0) == [];
    assert v[0..|v|] == v;
  }

  /** A Block value goes through packing, the variable-length codec and the sorted option
      list, among any other options, and comes back unchanged. */
  lemma BlockRoundTrip(os: seq<Opt>, which: Sym, b: Block, littleEndian: bool)
    requires which in {BLOCK1, BLOCK2} && Select(os, which) == []
    requires b.num <= 0xf_ffff && b.szx <= 7
    ensures GetBlock(InsertAll(os, [MakeOpt(which, Ordered(Digits(Pack(b)), littleEndian))]), which, littleEndian)
            == Some(b)
  {
    hide InsertAll, Pow256, Digits, Value, Ordered, Select, Pack, Unpack;
    var v := Ordered(Digits(Pack(b)), littleEndian);
    PackFits(b);
    UintRoundTrip(Pack(b), littleEndian);
    UnpackPack(b);
    FoundUint(os, which, v);
  }

  lemma UnpackPack(b: Block)
    requires b.num <= 0xf_ffff && b.szx <= 7
    ensures Unpack(Pack(b)) == Some(b)
  {
    assert Pack(b) / 16 == b.num && Pack(b) % 8 == b.szx && Pack(b) / 8 % 2 == (if b.more then 1 else 0);
  }

  lemma FoundUint(os: seq<Opt>, which: Sym, v: bytes)
    requires which in {BLOCK1, BLOCK2} && Select(os, which) == [] && |v| <= 8
    ensures var found := Select(InsertAll(os, [MakeOpt(which, v)]), which);
            |found| == 1 && found[0].val == v
  {
    hide InsertAll;
    var o := MakeOpt(which, v);
    InsertAllStable(os, [o], which);
    assert [o][..0] == [] && Select([o], which) == [o];
  }

  /** A value is a Block exactly if it has 24 bits at most, and then packing gives it back. */
  lemma PackUnpack(v: nat)
    ensures Unpack(v).Some? <==> v < 0x100_0000
    ensures v < 0x100_0000 ==>
              var b := Unpack(v).value;
              Pack(b) == v && b.num <= 0xf_ffff && b.szx <= 7
  {
    assert v == 16 * (v / 16) + v % 16 && v % 16 == 8 * (v / 8 % 2) + v % 8;
  }

  /** For block numbers below 16 the option is one byte: the number in the upper half, then the
      flag, then the exponent; and none for nothing at all. */
  lemma BlockByte(b: Block, littleEndian: bool)
    requires b.num < 16 && b.szx <= 7
    ensures var x := b.num * 16 + (if b.more then 8 else 0) + b.szx;
            Ordered(Digits(Pack(b)), littleEndian) == if x == 0 then [] else [x as byte]
  {
    var x := Pack(b);
    assert x / 256 == 0 && Digits(0) == [];
    if x > 0 {
      assert Digits(x) == [x as byte] && Reverse([x as byte])[0] == x as byte;
      assert Reverse([x as byte]) == [x as byte];
    }
  }

  /** Of several options of one symbol the first is read. */
  lemma FirstRead(os: seq<Opt>, rest: seq<Opt>, sym: Sym, v: bytes, littleEndian: bool)
    requires Select(os, sym) == [Opt(sym, |v|, v)] && |v| <= 8
    ensures GetUint(os + rest, sym, littleEndian) == Some(Value(Ordered(v, littleEndian)))
  {
    SelectConcat(os, rest, sym);
  }
}
