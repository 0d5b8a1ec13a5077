/** Bytes, options and the static option table of evcoap. */
module OptionTable {

  newtype byte = b: int | 0 <= b < 256

  type bytes = seq<byte>

  type uint16 = n: int | 0 <= n < 0x1_0000

  datatype Option<+T> = None | Some(value: T)

  /** Implicit value type of an option; every number outside the table is "invalid". */
  datatype OptType = Uint | Str | Opaque | Empty

  /** An index into the option table.  Index 0 is the table's "Invalid" row and is not a symbol. */
  type Sym = s: int | 1 <= s <= 18 witness 1

  const CONTENT_TYPE: Sym := 1
  const MAX_AGE: Sym := 2
  const PROXY_URI: Sym := 3
  const ETAG: Sym := 4
  const URI_HOST: Sym := 5
  const LOCATION_PATH: Sym := 6
  const URI_PORT: Sym := 7
  const LOCATION_QUERY: Sym := 8
  const URI_PATH: Sym := 9
  const OBSERVE: Sym := 10
  const TOKEN: Sym := 11
  const ACCEPT: Sym := 12
  const IF_MATCH: Sym := 13
  const URI_QUERY: Sym := 14
  const BLOCK2: Sym := 15
  const BLOCK1: Sym := 16
  const IF_NONE_MATCH: Sym := 17
  const PUBLISH: Sym := 18

  const OPT_LEN_MAX: nat := 270
  const MAX_OPTIONS: nat := 15
  /** Size of the encoding buffer, MAX_OPTIONS * OPT_LEN_MAX. */
  const ENC_MAX: nat := 4050
  const FENCE_STEP: nat := 14

  /** Option number of a symbol: the first thirteen rows carry their own index, the
      other five the odd numbers from 15 to 23. */
  function Number(s: Sym): nat {
    if s <= IF_MATCH then s else 2 * s - 13
  }

  function TypeOf(s: Sym): OptType {
    match s
    case 1 => Uint
    case 2 => Uint
    case 3 => Str
    case 4 => Opaque
    case 5 => Str
    case 6 => Str
    case 7 => Uint
    case 8 => Str
    case 9 => Str
    case 10 => Uint
    case 11 => Opaque
    case 12 => Uint
    case 13 => Opaque
    case 14 => Str
    case 15 => Uint
    case 16 => Uint
    case 17 => Empty
    case _ => Uint
  }

  predicate Known(num: nat) {
    1 <= num <= 13 || num == 15 || num == 17 || num == 19 || num == 21 || num == 23
  }

  function SymbolOf(num: nat): (s: Sym)
    requires Known(num)
    ensures Number(s) == num
  {
    if num <= 13 then num else if num == 15 then 14 else if num == 17 then 15
    else if num == 19 then 16 else if num == 21 then 17 else 18
  }

  /** Looks an option number up by walking the table. */
  method NumberToSymbol(num: nat) returns (s: Option<Sym>)
    ensures s == if Known(num) then Some(SymbolOf(num)) else None
  {
    var i := 1;
    while i <= 18
      invariant 1 <= i <= 19
      invariant forall j: Sym :: j < i ==> Number(j) != num
    {
      if num == Number(i) {
        return Some(i);
      }
      i := i + 1;
    }
    return None;
  }

  /** Numbers 14, 28, 42, ... */
  predicate IsFencepost(n: nat) {
    n != 0 && n % FENCE_STEP == 0
  }

  /** An option as stored: an Empty option, and a zero-length Uint, hold no value bytes
      whatever length they declare. */
  datatype Opt = Opt(sym: Sym, len: nat, val: bytes)

  predicate IsOpt(o: Opt) {
    o.len <= OPT_LEN_MAX && (if TypeOf(o.sym) == Empty then o.val == [] else |o.val| == o.len)
  }

  predicate AreOpts(os: seq<Opt>) {
    forall i :: 0 <= i < |os| ==> IsOpt(os[i])
  }

  /** An option holding the value `v`, which an Empty option drops. */
  function MakeOpt(s: Sym, v: bytes): Opt {
    Opt(s, |v|, if TypeOf(s) == Empty then [] else v)
  }

  /** Creates an option, refusing unknown symbols and values over 270 bytes. */
  function NewOpt(sym: int, v: bytes): (r: Option<Opt>)
    ensures r.Some? <==> 1 <= sym <= 18 && |v| <= OPT_LEN_MAX
    ensures r.Some? ==> r.value.sym == sym && IsOpt(r.value)
    ensures r.Some? && TypeOf(sym) != Empty ==> r.value.val == v
  {
    if 1 <= sym <= 18 && |v| <= OPT_LEN_MAX then Some(MakeOpt(sym, v)) else None
  }

  predicate Sorted(os: seq<Opt>) {
    forall i, j :: 0 <= i <= j < |os| ==> os[i].sym <= os[j].sym
  }
}
