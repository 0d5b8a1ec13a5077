/** Memory of received messages: duplicates are recognised for 60 seconds by message ID and
    peer, and answered with the reply the first copy got. */
module Dups {
  import opened OptionTable

  const DUP_LIFETIME: int := 60

  // ------------------------------------------------------------------- the key

  function Digit(d: nat): (c: char)
    requires d < 10
    ensures c != '+'
  {
    "0123456789"[d]
  }

  /** The number in decimal, as printf writes it. */
  function Decimal(n: nat): (s: string)
    ensures s != [] && '+' !in s
  {
    if n < 10 then [Digit(n)] else Decimal(n / 10) + [Digit(n % 10)]
  }

  lemma {:induction false} DecimalInjective(m: nat, n: nat)
    requires Decimal(m) == Decimal(n)
    ensures m == n
  {
    var s := Decimal(m);
    assert |s| == 1 <==> m < 10;
    assert |s| == 1 <==> n < 10;
    assert s[|s| - 1] == Digit(m % 10) && s[|s| - 1] == Digit(n % 10);
    if m >= 10 {
      assert s[..|s| - 1] == Decimal(m / 10);
      assert s[..|s| - 1] == Decimal(n / 10);
      DecimalInjective(m / 10, n / 10);
    }
  }

  function PlusAt(s: string): nat {
    if s == [] || s[0] == '+' then 0 else 1 + PlusAt(s[1..])
  }

  lemma {:induction false} PlusFollows(a: string, p: string)
    requires '+' !in a
    ensures PlusAt(a + "+" + p) == |a|
  {
    if a != [] {
      PlusFollows(a[1..], p);
      assert (a + "+" + p)[1..] == a[1..] + "+" + p;
    }
  }

  /** "mid+address", the address being text. */
  function Key(mid: uint16, peer: string): string {
    Decimal(mid as nat) + "+" + peer
  }

  /** Different messages have different keys. */
  lemma KeyInjective(m: uint16, p: string, n: uint16, q: string)
    ensures Key(m, p) == Key(n, q) <==> m == n && p == q
  {
    if Key(m, p) == Key(n, q) {
      var k, a, b := Key(m, p), Decimal(m as nat), Decimal(n as nat);
      PlusFollows(a, p);
      PlusFollows(b, q);
      assert k[..|a|] == a && k[..|b|] == b;
      DecimalInjective(m as nat, n as nat);
      assert p == k[|a| + 1..] && q == k[|b| + 1..];
    }
  }

  // ----------------------------------------------------------------- the cache

  /** The pieces of a sent message that are kept for replay. */
  datatype Message = Message(hdr: bytes, opts: bytes, payload: bytes)

  datatype Record = Record(since: int, reply: Option<Message>)

  type Cache = map<string, Record>

  /** Each record's timer removes it 60 seconds after it was made. */
  function Expire(c: Cache, now: int): Cache {
    map k | k in c && now < c[k].since + DUP_LIFETIME :: c[k]
  }

  function Arrive(c: Cache, mid: uint16, peer: string, now: int): Cache {
    var k := Key(mid, peer);
    if k in c then c else c[k := Record(now, None)]
  }

  /** A message sent in answer to another becomes the reply kept with it, if it is still
      remembered. */
  function Answer(c: Cache, mid: uint16, peer: string, m: Message): Cache {
    var k := Key(mid, peer);
    if k in c then c[k := c[k].(reply := Some(m))] else c
  }

  datatype Event =
    | Arrival(mid: uint16, peer: string)
    | Reply(mid: uint16, peer: string, m: Message)

  datatype Timed = Timed(e: Event, at: int)

  function Apply(c: Cache, x: Timed): Cache {
    var c1 := Expire(c, x.at);
    match x.e
    case Arrival(mid, peer) => Arrive(c1, mid, peer, x.at)
    case Reply(mid, peer, m) => Answer(c1, mid, peer, m)
  }

  function After(h: seq<Timed>): Cache {
    if h == [] then map[] else Apply(After(h[..|h| - 1]), h[|h| - 1])
  }

  // ------------------------------------------------- what it should remember

  predicate Ordered(h: seq<Timed>) {
    forall i, j :: 0 <= i < j < |h| ==> h[i].at <= h[j].at
  }

  predicate About(x: Timed, mid: uint16, peer: string) {
    x.e.mid == mid && x.e.peer == peer
  }

  /** Event i is an arrival taken as fresh: the same message was not taken as fresh less
      than 60 seconds before. */
  ghost predicate Taken(h: seq<Timed>, i: nat)
    requires i < |h|
    decreases i
  {
    h[i].e.Arrival?
    && !exists j :: 0 <= j < i && Taken(h, j) && About(h[j], h[i].e.mid, h[i].e.peer)
                    && h[i].at < h[j].at + DUP_LIFETIME
  }

  /** At time `now`, event j is the fresh arrival of a message still remembered. */
  ghost predicate Origin(h: seq<Timed>, j: nat, mid: uint16, peer: string, now: int) {
    j < |h| && Taken(h, j) && About(h[j], mid, peer) && now < h[j].at + DUP_LIFETIME
  }

  /** The latest reply to a message after event j. */
  function LastReply(h: seq<Timed>, j: nat, mid: uint16, peer: string): Option<Message> {
    if |h| <= j then None
    else
      var x := h[|h| - 1];
      if x.e.Reply? && About(x, mid, peer) then Some(x.e.m) else LastReply(h[..|h| - 1], j, mid, peer)
  }

  lemma {:induction false} TakenInPrefix(h: seq<Timed>, n: nat, i: nat)
    requires i < n <= |h|
    ensures Taken(h, i) <==> Taken(h[..n], i)
    decreases i
  {
    forall j | 0 <= j < i ensures Taken(h, j) <==> Taken(h[..n], j) {
      TakenInPrefix(h, n, j);
    }
  }

  lemma OriginInPrefix(h: seq<Timed>, j: nat, mid: uint16, peer: string, now: int)
    requires h != [] && j < |h| - 1
    ensures Origin(h[..|h| - 1], j, mid, peer, now) <==> Origin(h, j, mid, peer, now)
  {
    TakenInPrefix(h, |h| - 1, j);
  }

  ghost predicate Remembers(c: Cache, h: seq<Timed>, mid: uint16, peer: string, now: int) {
    var k := Key(mid, peer);
    (k in c <==> exists j: nat :: Origin(h, j, mid, peer, now))
    && forall j: nat :: Origin(h, j, mid, peer, now) ==>
         k in c && c[k] == Record(h[j].at, LastReply(h, j, mid, peer))
  }

  /** An event about this message. */
  lemma StepAbout(c: Cache, h: seq<Timed>)
    requires h != [] && Ordered(h)
    requires var x := h[|h| - 1]; Remembers(Expire(c, x.at), h[..|h| - 1], x.e.mid, x.e.peer, x.at)
    ensures var x := h[|h| - 1]; Remembers(Apply(c, x), h, x.e.mid, x.e.peer, x.at)
  {
    var n, x := |h| - 1, h[|h| - 1];
    var g, mid, peer := h[..n], x.e.mid, x.e.peer;
    forall j: nat | j < n
      ensures Origin(g, j, mid, peer, x.at) <==> Origin(h, j, mid, peer, x.at)
      ensures Taken(g, j) <==> Taken(h, j)
    {
      OriginInPrefix(h, j, mid, peer, x.at);
      TakenInPrefix(h, n, j);
    }
    assert Taken(h, n) <==> x.e.Arrival? && !exists j: nat :: Origin(g, j, mid, peer, x.at);
    assert Origin(h, n, mid, peer, x.at) <==> Taken(h, n);
    forall j: nat | Origin(h, j, mid, peer, x.at)
      ensures var k := Key(mid, peer);
              k in Apply(c, x) && Apply(c, x)[k] == Record(h[j].at, LastReply(h, j, mid, peer))
    {
      if j < n {
        assert Origin(g, j, mid, peer, x.at);
      }
    }
    if Key(mid, peer) in Apply(c, x) {
      assert exists j: nat :: Origin(h, j, mid, peer, x.at) by {
        if j: nat :| Origin(g, j, mid, peer, x.at) {
          assert Origin(h, j, mid, peer, x.at);
        } else {
          assert Origin(h, n, mid, peer, x.at);
        }
      }
    }
  }

  /** An event about another message. */
  lemma StepBeside(c: Cache, h: seq<Timed>, mid: uint16, peer: string)
    requires h != [] && Ordered(h) && !About(h[|h| - 1], mid, peer)
    requires var x := h[|h| - 1]; Remembers(Expire(c, x.at), h[..|h| - 1], mid, peer, x.at)
    ensures var x := h[|h| - 1]; Remembers(Apply(c, x), h, mid, peer, x.at)
  {
    var n, x := |h| - 1, h[|h| - 1];
    KeyInjective(mid, peer, x.e.mid, x.e.peer);
    forall j: nat | j < n
      ensures Origin(h[..n], j, mid, peer, x.at) <==> Origin(h, j, mid, peer, x.at)
    {
      OriginInPrefix(h, j, mid, peer, x.at);
    }
    assert !Origin(h, n, mid, peer, x.at);
  }

  /** Time passing. */
  lemma Wait(c: Cache, h: seq<Timed>, mid: uint16, peer: string, from: int, now: int)
    requires from <= now && Remembers(c, h, mid, peer, from)
    ensures Remembers(Expire(c, now), h, mid, peer, now)
  {
    var k, c' := Key(mid, peer), Expire(c, now);
    forall j: nat | Origin(h, j, mid, peer, now)
      ensures k in c' && c'[k] == Record(h[j].at, LastReply(h, j, mid, peer))
    {
      assert Origin(h, j, mid, peer, from);
    }
    if k in c' {
      var j: nat :| Origin(h, j, mid, peer, from);
      assert Origin(h, j, mid, peer, now);
    }
  }

  /** The cache holds a message exactly while the fresh arrival of it is less than 60
      seconds old, together with the latest reply since then: it refines a timed map. */
  lemma {:induction false} CacheIsMemory(h: seq<Timed>, mid: uint16, peer: string, now: int)
    requires Ordered(h) && (h != [] ==> h[|h| - 1].at <= now)
    ensures Remembers(Expire(After(h), now), h, mid, peer, now)
  {
    hide Apply;
    if h != [] {
      var g, x := h[..|h| - 1], h[|h| - 1];
      CacheIsMemory(g, mid, peer, x.at);
      if About(x, mid, peer) {
        StepAbout(After(g), h);
      } else {
        StepBeside(After(g), h, mid, peer);
      }
      Wait(After(h), h, mid, peer, x.at, now);
    }
  }

  /** A decision in the trace: the arrival just added is fresh exactly when the message is
      not remembered. */
  lemma FreshIff(h: seq<Timed>, x: Timed)
    requires x.e.Arrival?
    ensures Taken(h + [x], |h|) <==> !exists j: nat :: Origin(h, j, x.e.mid, x.e.peer, x.at)
  {
    var h' := h + [x];
    assert h'[..|h|] == h;
    forall j: nat | j < |h| ensures Taken(h', j) <==> Taken(h, j) {
      TakenInPrefix(h', |h|, j);
    }
    if j: nat :| Origin(h, j, x.e.mid, x.e.peer, x.at) {
      assert Taken(h', j) && About(h'[j], x.e.mid, x.e.peer);
    } else {
      forall j | 0 <= j < |h| && Taken(h', j) && About(h'[j], x.e.mid, x.e.peer)
        ensures h'[j].at + DUP_LIFETIME <= x.at
      {
        assert !Origin(h, j, x.e.mid, x.e.peer, x.at);
      }
    }
  }

  lemma ExpireTwice(c: Cache, s: int, t: int)
    requires s <= t
    ensures Expire(Expire(c, s), t) == Expire(c, t)
  {}

  lemma NothingDue(c: Cache, now: int)
    requires forall k :: k in c ==> now < c[k].since + DUP_LIFETIME
    ensures Expire(c, now) == c
  {}

  /** Nothing that an event leaves is due at once. */
  lemma ApplyNow(c: Cache, x: Timed)
    ensures Apply(Expire(c, x.at), x) == Apply(c, x) && Expire(Apply(c, x), x.at) == Apply(c, x)
  {
    ExpireTwice(c, x.at, x.at);
    NothingDue(Apply(c, x), x.at);
  }

  /** An event now, seen from the records that are left now. */
  lemma HappensNow(h: seq<Timed>, x: Timed, clock: int)
    requires x.at == clock
    ensures Expire(After(h + [x]), clock) == Apply(Expire(After(h), clock), x)
  {
    assert (h + [x])[..|h|] == h;
    hide Expire, Apply;
    ApplyNow(After(h), x);
  }

  lemma OrderedNow(h: seq<Timed>, x: Timed)
    requires Ordered(h) && (h != [] ==> h[|h| - 1].at <= x.at)
    ensures Ordered(h + [x])
  {}

  class DupCache {
    var records: Cache
    ghost var history: seq<Timed>
    var clock: int

    /** The records are those of the history so far whose timers have not fired yet. */
    ghost predicate Valid()
      reads this
    {
      Ordered(history) && (history != [] ==> history[|history| - 1].at <= clock)
      && records == Expire(After(history), clock)
    }

    constructor (now: int)
      ensures Valid() && history == [] && clock == now
    {
      records, history, clock := map[], [], now;
    }

    /** ec_dup_zap: the timer of one record. */
    method Zap(key: string)
      requires key in records
      modifies this`records
      ensures records == old(records) - {key}
    {
      records := records - {key};
    }

    /** Time passes: every timer that is due fires, in any order. */
    method AdvanceTo(now: int)
      requires Valid() && clock <= now
      modifies this
      ensures Valid() && clock == now && history == old(history)
      ensures records == Expire(old(records), now)
    {
      var due := set k | k in records && records[k].since + DUP_LIFETIME <= now;
      while due != {}
        invariant due == set k | k in records && records[k].since + DUP_LIFETIME <= now
        invariant Expire(records, now) == Expire(old(records), now)
        invariant history == old(history) && clock == old(clock)
        decreases |due|
      {
        var key :| key in due;
        Zap(key);
        due := due - {key};
      }
      ExpireTwice(After(history), clock, now);
      forall k | k in records ensures now < records[k].since + DUP_LIFETIME {
        assert k !in due;
      }
      assert records == Expire(records, now);
      clock := now;
    }

    /** ec_dups_handle_incoming_climsg, and _srvmsg: is it a duplicate, and what to send
        again.  A fresh message is remembered from now on. */
    method HandleIncoming(mid: uint16, peer: string) returns (dup: bool, replay: Option<Message>)
      requires Valid()
      modifies this
      ensures Valid() && clock == old(clock)
      ensures history == old(history) + [Timed(Arrival(mid, peer), clock)]
      ensures dup <==> !Taken(history, |old(history)|)
      ensures !dup ==> replay == None
      ensures forall j: nat :: Origin(old(history), j, mid, peer, clock) ==>
                                 dup && replay == LastReply(old(history), j, mid, peer)
    {
      CacheIsMemory(history, mid, peer, clock);
      FreshIff(history, Timed(Arrival(mid, peer), clock));
      HappensNow(history, Timed(Arrival(mid, peer), clock), clock);
      OrderedNow(history, Timed(Arrival(mid, peer), clock));
      ExpireTwice(After(history), clock, clock);
      hide After, Expire, Ordered, Taken, Origin, Key, LastReply;
      var key := Key(mid, peer);
      if key in records {
        dup, replay := true, records[key].reply;
      } else {
        dup, replay := false, None;
        records := records[key := Record(clock, None)];
      }
      history := history + [Timed(Arrival(mid, peer), clock)];
    }
  
    /** The part of ec_pdu_send that follows the sending of an answer: it is kept with the
        message that elicited it, unless that one is forgotten. */
    method KeepReply(mid: uint16, peer: string, m: Message) returns (found: bool)
      requires Valid()
      modifies this
      ensures Valid() && clock == old(clock)
      ensures history == old(history) + [Timed(Reply(mid, peer, m), clock)]
      ensures found <==> exists j: nat :: Origin(old(history), j, mid, peer, clock)
    {
      CacheIsMemory(history, mid, peer, clock);
      HappensNow(history, Timed(Reply(mid, peer, m), clock), clock);
      OrderedNow(history, Timed(Reply(mid, peer, m), clock));
      ExpireTwice(After(history), clock, clock);
      hide After, Expire, Ordered, Taken, Origin, Key, LastReply;
      var key := Key(mid, peer);
      found := key in records;
      if found {
        records := records[key := records[key].(reply := Some(m))];
      }
      history := history + [Timed(Reply(mid, peer, m), clock)];
    }
  }
}
