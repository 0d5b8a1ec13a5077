/** Server and duplicate cache together: what a repeated request is answered with. */
module Replay {
  import opened OptionTable
  import OptionCodec
  import Pdu
  import Surplus
  import C = ClientSpec
  import D = Dups
  import S = ServerSpec
  import R = ServerRuns
  import X = ServerSends
  import M = ServerMessages
  import O = ServerObject

  function TypeCode(t: C.MsgType): nat {
    match t
    case Con => 0
    case Non => 1
    case Ack => 2
    case Rst => 3
  }

  /** The pieces of a sent message as they go out, and into the cache. */
  function Wire(x: S.Sent, littleEndian: bool): D.Message {
    D.Message(Pdu.HeaderBytes(TypeCode(x.t), if x.code < 256 then x.code as byte else 0, x.mid, x.opts.count,
                              littleEndian),
              if OptionCodec.Follows(0, x.opts.list) then OptionCodec.EncodeFrom(0, x.opts.list) else [],
              x.payload)
  }

  /** The datagram put together from such pieces. */
  function Datagram(w: D.Message): bytes {
    w.hdr + w.opts + w.payload
  }

  /** It reads as the message sent, of plain options, exactly if its count of records is right
      modulo 16 and no option is 15 bytes long. */
  predicate Faithful(x: S.Sent, littleEndian: bool)
    requires x.code < 256 && OptionCodec.Follows(0, x.opts.list)
  {
    var t := match x.t case Con => 0 case Non => 1 case Ack => 2 case Rst => 3;
    Pdu.ReadMessage(Datagram(Wire(x, littleEndian)), littleEndian)
    == Pdu.Accepted(Pdu.Message(t, x.code as byte, x.mid, x.opts.list, x.payload))
  }

  predicate FaithfulIfRight(x: S.Sent, littleEndian: bool) {
    x.code < 256 && OptionCodec.Follows(0, x.opts.list)
    && (OptionCodec.Plain(x.opts.list) ==>
          (Faithful(x, littleEndian)
           <==> x.opts.count % 16 == |x.opts.list| + OptionCodec.FenceCount(0, x.opts.list)
                && !OptionCodec.HasFifteen(x.opts.list)))
  }

  lemma FaithfulIff(x: S.Sent, littleEndian: bool)
    requires x.code < 256 && OptionCodec.Follows(0, x.opts.list) && OptionCodec.Plain(x.opts.list)
    ensures Faithful(x, littleEndian)
            <==> x.opts.count % 16 == |x.opts.list| + OptionCodec.FenceCount(0, x.opts.list)
                 && !OptionCodec.HasFifteen(x.opts.list)
  {
    hide OptionCodec.Follows, OptionCodec.EncodeFrom, OptionCodec.SizeFrom, OptionCodec.FenceCount,
      OptionCodec.HasFifteen, OptionCodec.Plain, Pdu.ReadMessage, Pdu.HeaderBytes;
    var m := Pdu.Message(TypeCode(x.t), x.code as byte, x.mid, x.opts.list, x.payload);
    OptionCodec.EncodedLength(0, x.opts.list);
    PlainButLast(x.opts.list);
    var e := OptionCodec.EncodeFrom(0, x.opts.list);
    assert e + [] == e;
    Pdu.PlainIsNotLucky(e + [], OptionCodec.SizeFrom(0, x.opts.list), x.opts.list);
    var h := Pdu.HeaderBytes(m.t, m.code, m.mid, x.opts.count, littleEndian);
    assert Pdu.WireBytes(m, x.opts.count, [], littleEndian) == h + e + x.payload;
    Pdu.MessageRoundTrip(m, x.opts.count, [], littleEndian);
  }

  lemma PlainButLast(os: seq<Opt>)
    ensures OptionCodec.Plain(os) ==> OptionCodec.PlainButLast(os)
  {}

  /** The kept ones among some messages, as replies entered in the cache. */
  function Entries(sent: seq<S.Sent>, mid: uint16, peer: string, at: int, littleEndian: bool): seq<D.Timed> {
    if sent == [] then []
    else
      var x := sent[|sent| - 1];
      Entries(sent[..|sent| - 1], mid, peer, at, littleEndian)
      + (if x.kept then [D.Timed(D.Reply(mid, peer, Wire(x, littleEndian)), at)] else [])
  }

  function KeptWires(sent: seq<S.Sent>, littleEndian: bool): seq<D.Message> {
    if sent == [] then []
    else
      var x := sent[|sent| - 1];
      KeptWires(sent[..|sent| - 1], littleEndian) + (if x.kept then [Wire(x, littleEndian)] else [])
  }

  /** The replies to a message after event j, in order. */
  function Replies(h: seq<D.Timed>, j: nat, mid: uint16, peer: string): seq<D.Message> {
    if |h| <= j then []
    else
      var x := h[|h| - 1];
      Replies(h[..|h| - 1], j, mid, peer) + (if x.e.Reply? && D.About(x, mid, peer) then [x.e.m] else [])
  }

  /** After event j the trace holds, as replies to the message, just what the server has sent
      and marked to be kept, among any other traffic. */
  predicate Records(h: seq<D.Timed>, j: nat, mid: uint16, peer: string, sent: seq<S.Sent>, littleEndian: bool) {
    Replies(h, j, mid, peer) == KeptWires(sent, littleEndian)
  }

  lemma {:induction false} LastOfReplies(h: seq<D.Timed>, j: nat, mid: uint16, peer: string)
    ensures var rs := Replies(h, j, mid, peer);
            D.LastReply(h, j, mid, peer) == if rs == [] then None else Some(rs[|rs| - 1])
  {
    if |h| > j {
      LastOfReplies(h[..|h| - 1], j, mid, peer);
    }
  }

  lemma {:induction false} LastOfKept(sent: seq<S.Sent>, littleEndian: bool)
    ensures var ws := KeptWires(sent, littleEndian);
            if ws == [] then X.LastKept(sent) == None
            else X.LastKept(sent).Some? && ws[|ws| - 1] == Wire(X.LastKept(sent).value, littleEndian)
  {
    hide Wire;
    if sent != [] {
      LastOfKept(sent[..|sent| - 1], littleEndian);
    }
  }

  /** In every run of a server and every trace that records its kept messages: what is there
      to answer a repetition of an acknowledged confirmable request with is the piggybacked
      response, or the empty ACK, until the first retransmission of a separate response, and
      from then on its last copy. */
  lemma DuplicateAnswer(p: C.Params, run: seq<S.Timed>, s: S.Server, h: seq<D.Timed>, j: nat, peer: string,
                        littleEndian: bool)
    requires p.retries >= 1 && run != [] && S.Run(p, run) == Some(s) && R.Answered(run[0].e)
    requires Records(h, j, run[0].e.mid, peer, s.sent, littleEndian)
    ensures var n := |s.sent|;
            n > 0 && s.sent[0].t.Ack? && (s.sent[0].code == 0 <==> run[0].e.Request? && run[0].e.v.Wait?)
            && (n > 2 ==> s.sent[n - 1].t.Con?)
            && D.LastReply(h, j, run[0].e.mid, peer)
               == Some(Wire(if n <= 2 then s.sent[0] else s.sent[n - 1], littleEndian))
  {
    assert run[0].e.Request? || run[0].e.Unhandled?;
    hide S.Run, Wire, R.Answered;
    X.KeptReply(p, run, s);
    LastOfReplies(h, j, run[0].e.mid, peer);
    LastOfKept(s.sent, littleEndian);
  }

  /** So the repetition is answered with a datagram that reads as the kept message, type, code,
      ID, options and payload, if its options are plain, none is 15 bytes long, and the count is
      right: always so for the reply to the request itself, if there are at most 15 records. */
  lemma DuplicateReads(p: C.Params, run: seq<S.Timed>, s: S.Server, h: seq<D.Timed>, j: nat, peer: string,
                       littleEndian: bool)
    requires p.retries >= 1 && run != [] && S.Run(p, run) == Some(s) && R.Answered(run[0].e)
    requires Records(h, j, run[0].e.mid, peer, s.sent, littleEndian)
    ensures var n := |s.sent|;
            var r := D.LastReply(h, j, run[0].e.mid, peer);
            n > 0
            && (var x := if n <= 2 then s.sent[0] else s.sent[n - 1];
                r == Some(Wire(x, littleEndian)) && FaithfulIfRight(x, littleEndian)
                && (n <= 2 ==> x.opts.count == |x.opts.list| + OptionCodec.FenceCount(0, x.opts.list)))
  {
    hide S.Run, Wire, R.Answered, Records, R.WellFormed, D.LastReply, Faithful;
    DuplicateAnswer(p, run, s, h, j, peer, littleEndian);
    M.RunContent(p, run, s);
    var n := |s.sent|;
    var x := if n <= 2 then s.sent[0] else s.sent[n - 1];
    assert x in s.sent;
    ProperCode(x);
    FirstCounted(p, run, s);
    if OptionCodec.Plain(x.opts.list) {
      FaithfulIff(x, littleEndian);
    }
  }

  lemma ProperCode(x: S.Sent)
    requires (x.code == 0 || M.ValidCode(x.code)) && R.WellFormed(x.opts)
    ensures x.code < 256 && OptionCodec.Follows(0, x.opts.list)
  {}

  lemma FirstCounted(p: C.Params, run: seq<S.Timed>, s: S.Server)
    requires p.retries >= 1 && run != [] && S.Run(p, run) == Some(s) && s.sent != [] && R.Answered(run[0].e)
    ensures var o := s.sent[0].opts;
            OptionCodec.Follows(0, o.list) && o.count == |o.list| + OptionCodec.FenceCount(0, o.list)
  {
    M.RunContent(p, run, s);
    M.FirstStays(p, run, s);
    hide S.Run, M.Content, M.IsReply, M.Room, S.AddEach, R.HasRoom, S.Step;
    var e, m, now := run[0].e, run[0].m, run[0].at;
    var first := S.Step(p, S.NEW_SERVER, e, m, now).sent;
    M.FirstReply(p, e, m, now);
    if e.Unhandled? {
      ReplyCounted(first[0], e.con, 132, e.mid, [], e.token, [], now);
    } else if e.v.Wait? {
      NoneCounted();
    } else {
      SameRoom(S.AddEach(R.NO_OPTIONS, e.edit.adds), e.token);
      var own := e.v.Ready? && e.edit.code.Some? && M.ValidCode(e.edit.code.value);
      ReplyCounted(first[0], e.con, if own then e.edit.code.value else 160, e.mid, e.edit.adds, e.token,
                   e.edit.payload, now);
    }
  }

  lemma ReplyCounted(x: S.Sent, con: bool, code: nat, mid: uint16, adds: seq<S.Addition>, token: bytes,
                     payload: bytes, now: int)
    requires M.IsReply(x, con, code, mid, adds, token, payload, now)
    ensures var o := x.opts;
            OptionCodec.Follows(0, o.list) && o.count == |o.list| + OptionCodec.FenceCount(0, o.list)
  {
    hide OptionCodec.Follows, OptionCodec.FenceCount;
  }

  lemma NoneCounted()
    ensures OptionCodec.Follows(0, []) && OptionCodec.FenceCount(0, []) == 0
  {}

  lemma SameRoom(o: S.OptSet, token: bytes)
    requires |token| <= S.TOKEN_MAX
    ensures R.HasRoom(o, token) <==> M.Room(o, token)
  {}

  // ------------------------------------------------------------ on the objects

  lemma {:induction false} RepliesOfEntries(h: seq<D.Timed>, j: nat, sent: seq<S.Sent>, mid: uint16, peer: string,
                                            at: int, littleEndian: bool)
    requires j <= |h|
    ensures Replies(h + Entries(sent, mid, peer, at, littleEndian), j, mid, peer)
            == Replies(h, j, mid, peer) + KeptWires(sent, littleEndian)
  {
    hide Wire;
    if sent == [] {
      assert h + [] == h;
      assert Replies(h, j, mid, peer) + [] == Replies(h, j, mid, peer);
    } else {
      hide Replies;
      var x, es := sent[|sent| - 1], Entries(sent[..|sent| - 1], mid, peer, at, littleEndian);
      RepliesOfEntries(h, j, sent[..|sent| - 1], mid, peer, at, littleEndian);
      if x.kept {
        var y := D.Timed(D.Reply(mid, peer, Wire(x, littleEndian)), at);
        assert h + (es + [y]) == (h + es) + [y];
        OneReply(h + es, j, y);
      } else {
        assert es + [] == es;
      }
    }
  }

  lemma OneReply(h: seq<D.Timed>, j: nat, y: D.Timed)
    requires j <= |h| && y.e.Reply?
    ensures Replies(h + [y], j, y.e.mid, y.e.peer) == Replies(h, j, y.e.mid, y.e.peer) + [y.e.m]
  {
    assert (h + [y])[..|h|] == h;
  }

  lemma {:induction false} KeptWiresConcat(a: seq<S.Sent>, b: seq<S.Sent>, littleEndian: bool)
    ensures KeptWires(a + b, littleEndian) == KeptWires(a, littleEndian) + KeptWires(b, littleEndian)
  {
    hide Wire;
    if b == [] {
      assert a + b == a;
    } else {
      assert (a + b)[..|a + b| - 1] == a + b[..|b| - 1];
      KeptWiresConcat(a, b[..|b| - 1], littleEndian);
    }
  }

  /** The kept messages sent since there were `from` of them go into the cache. */
  method KeepSent(dups: D.DupCache, sent: seq<S.Sent>, from: nat, mid: uint16, peer: string, littleEndian: bool)
    requires dups.Valid() && from <= |sent|
    modifies dups
    ensures dups.Valid() && dups.clock == old(dups.clock)
    ensures dups.history == old(dups.history) + Entries(sent[from..], mid, peer, dups.clock, littleEndian)
  {
    hide Wire, D.After, D.Expire, D.Ordered, D.Origin;
    var i := from;
    assert sent[from..from] == [];
    while i < |sent|
      invariant from <= i <= |sent| && dups.Valid() && dups.clock == old(dups.clock)
      invariant dups.history == old(dups.history) + Entries(sent[from..i], mid, peer, dups.clock, littleEndian)
    {
      OneEntry(sent, from, i, mid, peer, dups.clock, littleEndian);
      if sent[i].kept {
        var found := dups.KeepReply(mid, peer, Wire(sent[i], littleEndian));
      }
      i := i + 1;
    }
    assert sent[from..i] == sent[from..];
  }

  lemma OneEntry(sent: seq<S.Sent>, from: nat, i: nat, mid: uint16, peer: string, at: int, littleEndian: bool)
    requires from <= i < |sent|
    ensures Entries(sent[from..i + 1], mid, peer, at, littleEndian)
            == Entries(sent[from..i], mid, peer, at, littleEndian)
               + (if sent[i].kept then [D.Timed(D.Reply(mid, peer, Wire(sent[i], littleEndian)), at)] else [])
  {
    assert sent[from..i + 1] == sent[from..i] + [sent[i]];
    hide Entries;
    EntriesGrow(sent[from..i], sent[i], mid, peer, at, littleEndian);
  }

  lemma EntriesGrow(xs: seq<S.Sent>, x: S.Sent, mid: uint16, peer: string, at: int, littleEndian: bool)
    ensures Entries(xs + [x], mid, peer, at, littleEndian)
            == Entries(xs, mid, peer, at, littleEndian)
               + (if x.kept then [D.Timed(D.Reply(mid, peer, Wire(x, littleEndian)), at)] else [])
  {
    hide Wire;
    assert (xs + [x])[..|xs|] == xs;
  }

  /** A request arrives: a fresh one is handed to a new server object, whose callback is run,
      and the reply kept; a duplicate is answered from the cache and goes no further. */
  method ReceiveRequest(dups: D.DupCache, srv: O.Handler, con: bool, mid: uint16, peer: string, token: bytes,
                        proxied: bool, v: S.Verdict, e: S.Edit, m: S.Mids, again: S.Mids, littleEndian: bool)
    returns (ran: bool, replay: Option<D.Message>)
    requires dups.Valid() && srv.Valid() && srv.View() == S.NEW_SERVER && dups !in srv.Repr()
    modifies dups, srv.Repr()
    ensures dups.Valid() && dups.clock == old(dups.clock) && srv.Valid()
    ensures var n := |old(dups.history)|;
            var h := old(dups.history) + [D.Timed(D.Arrival(mid, peer), dups.clock)];
            dups.history == h + Entries(srv.sent, mid, peer, dups.clock, littleEndian)
            && (ran <==> D.Taken(h, n)) && Records(dups.history, n, mid, peer, srv.sent, littleEndian)
    ensures srv.View() == if ran
                          then S.Step(srv.p, S.NEW_SERVER, S.Request(con, mid, token, proxied, v, e, again), m, dups.clock)
                          else S.NEW_SERVER
    ensures ran ==> replay == None
    ensures forall j: nat :: D.Origin(old(dups.history), j, mid, peer, dups.clock) ==>
                               !ran && replay == D.LastReply(old(dups.history), j, mid, peer)
  {
    hide S.UserFn, S.Fail, S.Opened, D.Taken, D.Origin, D.LastReply, Wire;
    var dup;
    dup, replay := dups.HandleIncoming(mid, peer);
    ran := !dup;
    ghost var n, h := |old(dups.history)|, dups.history;
    if ran {
      srv.HandleRequest(con, mid, token, proxied, v, e, m, again, dups.clock);
    }
    KeepSent(dups, srv.sent, 0, mid, peer, littleEndian);
    assert srv.sent[0..] == srv.sent;
    RepliesOfEntries(h, n, srv.sent, mid, peer, dups.clock, littleEndian);
    NoneYet(h, n, mid, peer);
  }

  lemma NoneYet(h: seq<D.Timed>, n: nat, mid: uint16, peer: string)
    requires |h| == n + 1 && h[n].e.Arrival?
    ensures Replies(h, n, mid, peer) == []
  {
    assert Replies(h[..n], n, mid, peer) == [];
  }

  method Dispatch(srv: O.Handler, e: S.Event, m: S.Mids, now: int)
    requires srv.Valid() && !srv.st.CoapRetry? && !e.Request? && !e.Unhandled?
    requires e.CoapExpiry? ==> srv.coap.present && srv.st.WaitAck?
    modifies srv.Repr()
    ensures srv.Valid() && srv.View() == S.Step(srv.p, old(srv.View()), e, m, now)
  {
    hide S.Step;
    match e
    case Wakeup(edit) => var _ := srv.WakeUp(edit, m, now);
    case ReschedExpiry(v, edit) => srv.ReschedTimerFired(v, edit, m, now);
    case CoapExpiry => srv.CoapTimerFired(m, now);
    case Control(t, mid) => srv.HandleControl(t, mid, m, now);
  }

  /** Any later event of that server, in a run of it: what is kept goes on being recorded. */
  method HandleEvent(dups: D.DupCache, srv: O.Handler, e: S.Event, m: S.Mids, ghost j: nat, peer: string,
                     littleEndian: bool)
    requires dups.Valid() && srv.Valid() && dups !in srv.Repr()
    requires R.Inv(srv.p, srv.View()) && S.Enabled(srv.View(), e, dups.clock) && !srv.st.Fresh?
    requires j <= |dups.history| && Records(dups.history, j, srv.mid, peer, srv.sent, littleEndian)
    modifies dups, srv.Repr()
    ensures dups.Valid() && dups.clock == old(dups.clock) && srv.Valid() && srv.mid == old(srv.mid)
    ensures srv.View() == S.Step(srv.p, old(srv.View()), e, m, dups.clock)
    ensures Records(dups.history, j, srv.mid, peer, srv.sent, littleEndian)
  {
    ghost var s, id, was := srv.View(), srv.mid, srv.sent;
    var from := |srv.sent|;
    X.StepSends(srv.p, s, e, m, dups.clock);
    X.SameRequest(srv.p, s, e, m, dups.clock);
    X.Timely(srv.p, s, e, dups.clock);
    hide S.Step, R.Inv, S.Enabled, Wire, X.Goes, X.Message, D.After, D.Ordered, D.Expire;
    Dispatch(srv, e, m, dups.clock);
    KeepSent(dups, srv.sent, from, srv.mid, peer, littleEndian);
    assert srv.sent == was + srv.sent[from..];
    RepliesOfEntries(old(dups.history), j, srv.sent[from..], id, peer, dups.clock, littleEndian);
    KeptWiresConcat(was, srv.sent[from..], littleEndian);
  }

  /** A repetition within the 60 seconds is answered with that reply, and changes nothing but
      the trace. */
  method ReceiveDuplicate(dups: D.DupCache, ghost p: C.Params, ghost run: seq<S.Timed>, ghost s: S.Server,
                          ghost j: nat, mid: uint16, peer: string, ghost littleEndian: bool)
    returns (dup: bool, replay: Option<D.Message>)
    requires dups.Valid() && p.retries >= 1 && run != [] && S.Run(p, run) == Some(s) && R.Answered(run[0].e)
    requires mid == run[0].e.mid && D.Origin(dups.history, j, mid, peer, dups.clock)
    requires Records(dups.history, j, mid, peer, s.sent, littleEndian)
    modifies dups
    ensures dups.Valid() && dup && s.sent != []
    ensures var x := if |s.sent| <= 2 then s.sent[0] else s.sent[|s.sent| - 1];
            replay == Some(Wire(x, littleEndian)) && FaithfulIfRight(x, littleEndian)
    ensures Records(dups.history, j, mid, peer, s.sent, littleEndian)
  {
    hide S.Run, R.Answered, Wire, KeptWires, FaithfulIfRight, D.Taken, D.LastReply;
    DuplicateReads(p, run, s, dups.history, j, peer, littleEndian);
    dup, replay := dups.HandleIncoming(mid, peer);
    assert dups.history[..|old(dups.history)|] == old(dups.history);
  }
}
