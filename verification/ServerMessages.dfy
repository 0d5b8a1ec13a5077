/** What the messages of a server contain, in terms of the request, of what the user callback
    gives, and of the response as it stood before. */
module ServerMessages {
  import opened OptionTable
  import opened OptionList
  import opened OptionCodec
  import opened Timers
  import opened ServerSpec
  import opened ServerRuns
  import opened ServerSends
  import C = ClientSpec

  // ---------------------------------------------------------------- the options

  /** Places that a value takes: one for every 270 bytes or part of that, and one at least. */
  function PlacesOf(v: bytes): nat {
    if v == [] then 1 else (|v| + 269) / 270
  }

  function Places(adds: seq<Addition>): nat {
    if adds == [] then 0 else Places(adds[..|adds| - 1]) + PlacesOf(adds[|adds| - 1].v)
  }

  /** The options given that are known and find room among fifteen places, of which some are
      taken already. */
  function Fitting(adds: seq<Addition>, taken: nat): seq<Addition> {
    if adds == [] then []
    else
      var f, a := Fitting(adds[..|adds| - 1], taken), adds[|adds| - 1];
      if 1 <= a.sym <= 18 && taken + Places(f) + PlacesOf(a.v) <= 15 then f + [a] else f
  }

  /** The options of one symbol that come of them, in order. */
  function Pieces(adds: seq<Addition>, sym: Sym): seq<Opt> {
    if adds == [] then []
    else
      var a := adds[|adds| - 1];
      Pieces(adds[..|adds| - 1], sym) + (if a.sym == sym then Fragments(sym, a.v, Slots(|a.v|)) else [])
  }

  /** A value that fits one option gives that option. */
  lemma ShortPiece(sym: Sym, v: bytes)
    requires |v| <= OPT_LEN_MAX
    ensures Pieces([Addition(sym, v)], sym) == [Opt(sym, |v|, if sym == IF_NONE_MATCH then [] else v)]
  {
    assert [Addition(sym, v)][..0] == [] && Fragments(sym, v, 0) == [];
    assert v[0..|v|] == v && Slots(|v|) == 1;
  }

  lemma PlacesAreSlots(v: bytes)
    ensures PlacesOf(v) == Slots(|v|)
  {}

  lemma AddSelects(o: OptSet, a: Addition, sym: Sym)
    ensures Select(Add(o, a).list, sym)
            == Select(o.list, sym) + (if CanAdd(o, a) && a.sym == sym then Fragments(sym, a.v, Slots(|a.v|)) else [])
    ensures |Add(o, a).list| + o.count == |o.list| + Add(o, a).count
  {
    hide InsertAll, Select, Slots;
    if CanAdd(o, a) {
      var f := Fragments(a.sym, a.v, Slots(|a.v|));
      InsertAllStable(o.list, f, sym);
      SelectAll(f, a.sym, sym);
      InsertAllLength(o.list, f);
    }
  }

  lemma LastFits(adds: seq<Addition>, taken: nat)
    requires adds != []
    ensures var f, a := Fitting(adds[..|adds| - 1], taken), adds[|adds| - 1];
            var ok := 1 <= a.sym <= 18 && taken + Places(f) + PlacesOf(a.v) <= 15;
            Fitting(adds, taken) == f + (if ok then [a] else [])
            && Places(Fitting(adds, taken)) == Places(f) + (if ok then PlacesOf(a.v) else 0)
  {
    var f, a := Fitting(adds[..|adds| - 1], taken), adds[|adds| - 1];
    assert (f + [a])[..|f|] == f;
  }

  lemma LastPiece(f: seq<Addition>, a: Addition, sym: Sym)
    ensures Pieces(f + [a], sym) == Pieces(f, sym) + (if a.sym == sym then Fragments(sym, a.v, Slots(|a.v|)) else [])
  {
    assert (f + [a])[..|f|] == f;
  }

  /** Options added are behind those of the same symbol, in order, and counted by the places
      they take. */
  lemma {:induction false} AddsAppend(o: OptSet, adds: seq<Addition>, sym: Sym)
    ensures var r := AddEach(o, adds);
            Select(r.list, sym) == Select(o.list, sym) + Pieces(Fitting(adds, o.count), sym)
            && r.count == o.count + Places(Fitting(adds, o.count)) && |r.list| + o.count == |o.list| + r.count
  {
    hide Add, Select, Fragments, Slots, Fitting, PlacesOf;
    if adds == [] {
      NothingFits(o.count);
      assert Select(o.list, sym) + [] == Select(o.list, sym);
    } else {
      var n := |adds| - 1;
      var r, a, f := AddEach(o, adds[..n]), adds[n], Fitting(adds[..n], o.count);
      AddsAppend(o, adds[..n], sym);
      AddSelects(r, a, sym);
      AddCounts(r, a);
      LastFits(adds, o.count);
      LastPiece(f, a, sym);
      PlacesAreSlots(a.v);
      assert f + [] == f;
    }
  }

  lemma NothingFits(taken: nat)
    ensures Fitting([], taken) == []
  {}

  lemma AddCounts(o: OptSet, a: Addition)
    ensures CanAdd(o, a) <==> 1 <= a.sym <= 18 && o.count + Slots(|a.v|) <= 15
    ensures Add(o, a).count == o.count + if CanAdd(o, a) then Slots(|a.v|) else 0
  {}

  /** The token, as an option. */
  function TokenOf(token: bytes, sym: Sym): seq<Opt> {
    if token != [] && sym == TOKEN then [Opt(TOKEN, |token|, token)] else []
  }

  /** Is there room?  The token takes a place; fifteen options without one may be too long. */
  predicate Room(o: OptSet, token: bytes) {
    if token == [] then Follows(0, o.list) && SizeFrom(0, o.list) <= 4050 else o.count < 15
  }

  lemma TokenAppends(o: OptSet, token: bytes, sym: Sym)
    requires WellFormed(o) && |token| <= TOKEN_MAX && Room(o, token)
    ensures var r := AddToken(o, token);
            CanAddToken(o, token) && Fits(r) && WellFormed(r)
            && Select(r.list, sym) == Select(o.list, sym) + TokenOf(token, sym)
            && r.count == o.count + (if token == [] then 0 else 1) && |r.list| + o.count == |o.list| + r.count
  {
    hide Insert, Select, Place, SizeFrom;
    if token != [] {
      TokenPlace(o, token);
      TokenFits(o, token);
      InsertStable(o.list, MakeOpt(TOKEN, token), sym);
      assert MakeOpt(TOKEN, token) == Opt(TOKEN, |token|, token);
    } else {
      assert Select(o.list, sym) + [] == Select(o.list, sym);
    }
  }

  /** An encoding succeeds exactly if there is room; it adds the token, and counts the
      fenceposts.  If it fails the options stay. */
  lemma Encodes(o: OptSet, token: bytes, sym: Sym)
    requires WellFormed(o) && |token| <= TOKEN_MAX
    ensures var (r, ok) := EncodeResp(o, token);
            WellFormed(r) && (ok <==> Room(o, token)) && (!ok ==> r.list == o.list)
            && (ok ==> Select(r.list, sym) == Select(o.list, sym) + TokenOf(token, sym)
                       && |r.list| == |o.list| + (if token == [] then 0 else 1)
                       && r.count == o.count + (if token == [] then 0 else 1) + FenceCount(0, r.list))
  {
    if Room(o, token) {
      TokenAppends(o, token, sym);
      AllFencesWritten(0, AddToken(o, token).list, ENC_MAX);
      hide AddToken, Select, Follows, Sorted;
    } else if token != [] {
      TokenPlace(o, token);
    }
    hide SizeFrom, FencesWritten, FenceCount, Select;
  }

  // --------------------------------------------------------------- the first message

  predicate ValidCode(c: nat) {
    65 <= c <= 191
  }

  /** The options of a message: those that were there, those given now that find room, and the
      token; the count takes in the fenceposts. */
  ghost predicate Written(r: OptSet, o: OptSet, adds: seq<Addition>, token: bytes) {
    WellFormed(r)
    && (forall sym: Sym ::
          Select(r.list, sym) == Select(o.list, sym) + Pieces(Fitting(adds, o.count), sym) + TokenOf(token, sym))
    && r.count == o.count + Places(Fitting(adds, o.count)) + (if token == [] then 0 else 1) + FenceCount(0, r.list)
    && |r.list| + o.count == |o.list| + r.count - FenceCount(0, r.list)
  }

  lemma EncodedWritten(o: OptSet, adds: seq<Addition>, token: bytes)
    requires WellFormed(o) && |token| <= TOKEN_MAX
    ensures var (r, ok) := EncodeResp(AddEach(o, adds), token);
            (ok <==> Room(AddEach(o, adds), token)) && (ok ==> Written(r, o, adds, token))
  {
    hide EncodeResp, Room, Select, FenceCount, Follows;
    AddsWellFormed(o, adds);
    var a := AddEach(o, adds);
    AddsAppend(o, adds, 1);
    Encodes(a, token, 1);
    forall sym: Sym | EncodeResp(a, token).1
      ensures Select(EncodeResp(a, token).0.list, sym)
              == Select(o.list, sym) + Pieces(Fitting(adds, o.count), sym) + TokenOf(token, sym)
    {
      AddsAppend(o, adds, sym);
      Encodes(a, token, sym);
    }
  }

  lemma {:induction false} AddsWellFormed(o: OptSet, adds: seq<Addition>)
    requires WellFormed(o)
    ensures WellFormed(AddEach(o, adds))
  {
    if adds != [] {
      AddsWellFormed(o, adds[..|adds| - 1]);
      AddKeeps(AddEach(o, adds[..|adds| - 1]), adds[|adds| - 1]);
    }
  }

  ghost predicate IsReply(x: Sent, con: bool, code: nat, mid: uint16, adds: seq<Addition>, token: bytes,
                          payload: bytes, now: int)
  {
    x.t == (if con then C.Ack else C.Non) && x.code == code && x.mid == mid && x.payload == payload
    && x.kept && x.at == now && Written(x.opts, NO_OPTIONS, adds, token)
  }

  lemma OpenedIs(p: C.Params, con: bool, mid: uint16, token: bytes, proxied: bool, now: int)
    ensures Opened(p, NEW_SERVER, con, mid, token, proxied, now)
            == NEW_SERVER.(con := con, mid := mid, token := token, proxied := proxied, st := ReqOk)
  {}

  /** A response attempted before any acknowledgement. */
  lemma AtOnce(s: Server, adds: seq<Addition>, m: Mids, now: int)
    requires s.st.ReqOk? && !s.sep && s.sent == [] && s.resMid == 0 && |s.token| <= TOKEN_MAX
    requires s.opts == AddEach(NO_OPTIONS, adds)
    ensures var s' := SendResp(s, m, now).0;
            if ValidCode(s.code) && Room(s.opts, s.token) then
              |s'.sent| == 1
              && IsReply(s'.sent[0], s.con, s.code, if s.con then s.mid else m.random, adds, s.token, s.payload, now)
            else s'.sent == []
  {
    hide EncodeResp, SendResp, Written, Room;
    EncodedWritten(NO_OPTIONS, adds, s.token);
    RespSends(s, m, now);
  }

  /** A second attempt, after the first has failed. */
  lemma Fallback(p: C.Params, s: Server, adds: seq<Addition>, m: Mids, again: Mids, now: int)
    requires s.st.ReqOk? && !s.sep && s.sent == [] && s.resMid == 0 && |s.token| <= TOKEN_MAX
    requires s.opts == AddEach(NO_OPTIONS, adds) && !(ValidCode(s.code) && Room(s.opts, s.token))
    ensures var s' := Fail(p, SendResp(s, m, now).0, INTERNAL_SERVER_ERROR, again, now);
            if Room(s.opts, s.token) then
              |s'.sent| == 1
              && IsReply(s'.sent[0], s.con, 160, if s.con then s.mid else again.random, adds, s.token, s.payload, now)
            else s'.sent == []
  {
    var s1 := SendResp(s, m, now).0;
    if Room(s.opts, s.token) {
      assert s1 == s.(sibling := true);
      hide SendResp, IsReply, Room, SetState;
      AtOnce(s1.(code := 160), adds, again, now);
      SetStateSends(p, SendResp(s1.(code := 160), again, now).0, InternalErr, now);
    } else {
      TwiceNoRoom(p, s, adds, m, again, now);
    }
  }

  lemma TwiceNoRoom(p: C.Params, s: Server, adds: seq<Addition>, m: Mids, again: Mids, now: int)
    requires s.st.ReqOk? && !s.sep && s.sent == [] && |s.token| <= TOKEN_MAX
    requires s.opts == AddEach(NO_OPTIONS, adds) && !Room(s.opts, s.token)
    ensures Fail(p, SendResp(s, m, now).0, INTERNAL_SERVER_ERROR, again, now).sent == []
  {
    hide EncodeResp, SendResp, Room, SetState, HasRoom, AddEach, Acks;
    AddEachKeeps(NO_OPTIONS, adds);
    Encodes(s.opts, s.token, 1);
    RoomDecides(s.opts, s.token);
    SendRespKeeps(s, m, now);
    var s1 := SendResp(s, m, now).0;
    SendRespKeeps(s1.(code := INTERNAL_SERVER_ERROR), again, now);
    SetStateSends(p, SendResp(s1.(code := INTERNAL_SERVER_ERROR), again, now).0, InternalErr, now);
  }

  /** The message that answers the request itself.  Nobody there: 4.04 with the token.  Asked for
      time: an empty ACK, if one is due.  Otherwise the user's code, or else 5.00, with the
      options and the payload the user has given and the token, provided there is room. */
  lemma FirstReply(p: C.Params, e: Event, m: Mids, now: int)
    requires p.retries >= 1 && (e.Request? || e.Unhandled?) && |e.token| <= TOKEN_MAX
    ensures var sent := ServerSpec.Step(p, NEW_SERVER, e, m, now).sent;
            var mid := if e.con then e.mid else m.random;
            if e.Unhandled? then |sent| == 1 && IsReply(sent[0], e.con, 132, mid, [], e.token, [], now)
            else if e.v.Wait? then sent == if e.con then [Sent(C.Ack, 0, e.mid, OptSet([], 0), [], true, now)] else []
            else if !Room(AddEach(NO_OPTIONS, e.edit.adds), e.token) then sent == []
            else if e.v.Ready? && e.edit.code.Some? && ValidCode(e.edit.code.value) then
              |sent| == 1
              && IsReply(sent[0], e.con, e.edit.code.value, mid, e.edit.adds, e.token, e.edit.payload, now)
            else
              |sent| == 1
              && IsReply(sent[0], e.con, 160, if e.con then e.mid else e.again.random, e.edit.adds, e.token,
                         e.edit.payload, now)
  {
    hide SendResp, Fail, SetState, Opened, IsReply, Room, AddEach;
    OpenedIs(p, e.con, e.mid, e.token, e.Request? && e.proxied, now);
    var s0 := Opened(p, NEW_SERVER, e.con, e.mid, e.token, e.Request? && e.proxied, now);
    if e.Unhandled? {
      var s1 := s0.(code := NOT_FOUND);
      NoAdds(e.token);
      AtOnce(s1, [], m, now);
      SetStateSends(p, SendResp(s1, m, now).0, RespDone, now);
    } else if e.v.Wait? {
      AskedForTime(p, Edited(s0, e.edit), e.v.seconds, now);
    } else {
      var s1 := Edited(s0, e.edit);
      AnswersAtOnce(p, s1, e.v, e.edit.adds, m, e.again, now);
      SameUser(p, s0, e.v, e.edit, m, now);
    }
  }

  lemma SameUser(p: C.Params, s: Server, v: Verdict, e: Edit, m: Mids, now: int)
    requires !v.Wait?
    ensures UserFn(p, s, v, e, m, now)
            == if v.Ready? then MakeReady(p, Edited(s, e), m, now) else (Edited(s, e), false)
  {}

  lemma NoAdds(token: bytes)
    requires |token| <= TOKEN_MAX
    ensures AddEach(NO_OPTIONS, []) == NO_OPTIONS && Room(NO_OPTIONS, token)
  {}

  lemma AskedForTime(p: C.Params, s: Server, seconds: nat, now: int)
    requires s.st.ReqOk? && s.sent == [] && !s.resched.present
    ensures var (s', ok) := Postpone(p, s, seconds, now);
            ok && s'.sent == (if s.con then [Sent(C.Ack, 0, s.mid, OptSet([], 0), [], true, now)] else [])
            && s'.code == s.code && s'.opts == s.opts && s'.payload == s.payload && s'.token == s.token
  {}

  /** Verdicts other than asking for time. */
  lemma AnswersAtOnce(p: C.Params, s: Server, v: Verdict, adds: seq<Addition>, m: Mids, again: Mids, now: int)
    requires s.st.ReqOk? && !s.sep && s.sent == [] && s.resMid == 0 && |s.token| <= TOKEN_MAX && !v.Wait?
    requires s.opts == AddEach(NO_OPTIONS, adds)
    ensures var (s1, ok) := if v.Ready? then MakeReady(p, s, m, now) else (s, false);
            var sent := if ok then s1.sent else Fail(p, s1, INTERNAL_SERVER_ERROR, again, now).sent;
            if !Room(s.opts, s.token) then sent == []
            else if v.Ready? && ValidCode(s.code) then
              |sent| == 1
              && IsReply(sent[0], s.con, s.code, if s.con then s.mid else m.random, adds, s.token, s.payload, now)
            else
              |sent| == 1
              && IsReply(sent[0], s.con, 160, if s.con then s.mid else again.random, adds, s.token, s.payload, now)
  {
    hide SendResp, SetState, IsReply, Room, AddEach, EncodeResp, Acks, WellFormed;
    NoOptionsFit(s.token);
    AddEachKeeps(NO_OPTIONS, adds);
    Encodes(s.opts, s.token, 1);
    if v.Ready? {
      SendRespKeeps(s, m, now);
      if ValidCode(s.code) && Room(s.opts, s.token) {
        AtOnce(s, adds, m, now);
        SetStateSends(p, SendResp(s, m, now).0, RespDone, now);
      } else {
        Fallback(p, s, adds, m, again, now);
      }
    } else {
      AtOnce(s.(code := 160), adds, again, now);
      SetStateSends(p, SendResp(s.(code := 160), again, now).0, InternalErr, now);
      if !Room(s.opts, s.token) {
        SendRespKeeps(s.(code := 160), again, now);
      }
    }
  }

  // --------------------------------------------------------------- later messages

  /** What the user gives at an event. */
  function Given(e: Event): Edit {
    match e
    case Request(_, _, _, _, _, edit, _) => edit
    case ReschedExpiry(_, edit) => edit
    case Wakeup(edit) => edit
    case _ => Edit(None, [], [])
  }

  /** Code and payload of the response after that. */
  function CodeAfter(code: nat, edit: Edit): nat {
    if edit.code.Some? && ValidCode(edit.code.value) then edit.code.value else code
  }

  function PayloadAfter(payload: bytes, edit: Edit): bytes {
    if edit.payload != [] then edit.payload else payload
  }

  /** The code a message of this event has, if there is to be one: the user is ready, a copy is
      due, or an empty message is out of place. */
  function CodeOf(s: Server, e: Event): Option<nat> {
    match e
    case Wakeup(edit) => if s.st.AckSent? then Some(CodeAfter(s.code, edit)) else None
    case ReschedExpiry(v, edit) => if s.st.AckSent? && v.Ready? then Some(CodeAfter(s.code, edit)) else None
    case CoapExpiry => if s.coap.left > 0 then Some(s.code) else None
    case Control(t, _) =>
      if t.Rst? then None
      else if t.Ack? then (if s.st.AckSent? then Some(128) else None)
      else Some(160)
    case _ => None
  }

  /** Every later event sends a message exactly if one is due, its code is a response code, and
      there is room: with the response as it stood and what the user gives now, and the token
      once more. */
  lemma LaterMessage(p: C.Params, s: Server, e: Event, m: Mids, now: int)
    requires Inv(p, s) && Enabled(s, e, now) && !s.st.Fresh? && WellFormed(s.opts) && |s.token| <= TOKEN_MAX
    ensures var sent, edit, n := ServerSpec.Step(p, s, e, m, now).sent, Given(e), |s.sent|;
            var code := CodeOf(s, e);
            if code.Some? && ValidCode(code.value) && Room(AddEach(s.opts, edit.adds), s.token) then
              |sent| == n + 1 && sent[..n] == s.sent
              && sent[n].t == (if s.con then C.Con else C.Non) && sent[n].code == code.value
              && sent[n].mid == (if s.resMid == 0 then m.random else m.leftover) && sent[n].at == now
              && sent[n].payload == PayloadAfter(s.payload, edit)
              && Written(sent[n].opts, s.opts, edit.adds, s.token)
            else sent == s.sent
  {
    hide ServerSpec.Step, Inv, Enabled, EncodeResp, Written, Room, AddEach;
    NothingAdded(s.opts);
    var adds := Given(e).adds;
    EncodedWritten(s.opts, adds, s.token);
    StepSends(p, s, e, m, now);
    var x := Message(s, e, m, now);
    assert (s.sent + [x])[..|s.sent|] == s.sent;
    Timely(p, s, e, now);
    AttemptIs(s, e);
  }

  lemma NothingAdded(o: OptSet)
    ensures AddEach(o, []) == o
  {}

  lemma AttemptIs(s: Server, e: Event)
    requires !e.Request? && !e.Unhandled?
    ensures var a, code, edit := Attempting(s, e), CodeOf(s, e), Given(e);
            (Attempts(s, e) <==> code.Some?)
            && (code.Some? ==> a.code == code.value && a.opts == AddEach(s.opts, edit.adds)
                               && a.payload == PayloadAfter(s.payload, edit) && a.token == s.token)
  {
    NothingAdded(s.opts);
    hide AddEach;
  }

  // ------------------------------------------------- the response between events

  lemma SendRespContent(s: Server, m: Mids, now: int)
    ensures var s' := SendResp(s, m, now).0;
            s'.code == s.code && s'.payload == s.payload && s'.token == s.token
            && s'.opts == if IsResponseCode(s.code) then EncodeResp(s.opts, s.token).0 else s.opts
  {
    hide EncodeResp;
  }

  predicate SameContent(s: Server, s': Server) {
    s'.code == s.code && s'.payload == s.payload && s'.token == s.token && s'.opts == s.opts
  }

  lemma SetStateContent(p: C.Params, s: Server, next: State, now: int)
    ensures SameContent(s, SetState(p, s, next, now))
  {
    hide OnTransition, Removed, Legal, IsFinal;
    TransitionContent(p, s, next, now);
  }

  lemma TransitionContent(p: C.Params, s: Server, next: State, now: int)
    ensures SameContent(s, OnTransition(p, s, next, now))
  {
    hide Started, Rearmed;
  }

  lemma ReadyContent(p: C.Params, s: Server, m: Mids, now: int)
    requires s.st.AckSent? || s.st.WaitAck?
    ensures var s' := MakeReady(p, s, m, now).0;
            s'.code == s.code && s'.payload == s.payload && s'.token == s.token
            && s'.opts == if s.st.AckSent? && IsResponseCode(s.code) then EncodeResp(s.opts, s.token).0 else s.opts
  {
    hide SendResp, SetState, EncodeResp;
    SendRespContent(s, m, now);
    var s1 := SendResp(s, m, now).0;
    SetStateContent(p, s1.(copies := [now]), WaitAck, now);
    SetStateContent(p, s1, RespDone, now);
  }

  /** What a later event leaves of the response while the server lives: the user's code, options
      and payload, and the token added if it was encoded. */
  lemma LaterContent(p: C.Params, s: Server, e: Event, m: Mids, now: int)
    requires Inv(p, s) && Enabled(s, e, now) && !s.st.Fresh?
    ensures var s', edit, code := ServerSpec.Step(p, s, e, m, now), Given(e), CodeOf(s, e);
            s'.life.Live? ==>
              s'.code == CodeAfter(s.code, edit) && s'.payload == PayloadAfter(s.payload, edit)
              && s'.token == s.token
              && s'.opts == if code.Some? && ValidCode(code.value) then EncodeResp(AddEach(s.opts, edit.adds), s.token).0
                            else AddEach(s.opts, edit.adds)
  {
    InvLater(p, s);
    NothingAdded(s.opts);
    hide Inv, SendResp, SetState, EncodeResp, AddEach, BackOff, ServerSpec.Step, Enabled;
    match e
    case Wakeup(_) => UserContent(p, s, e, m, now);
    case ReschedExpiry(_, _) => UserContent(p, s, e, m, now);
    case CoapExpiry => CopyContent(p, s, m, now);
    case Control(_, _) => ControlEnds(p, s, e, m, now);
    case _ => Timely(p, s, e, now);
  }

  lemma UserContent(p: C.Params, s: Server, e: Event, m: Mids, now: int)
    requires Later(s) && (e.Wakeup? || e.ReschedExpiry?)
    ensures var s', edit, code := ServerSpec.Step(p, s, e, m, now), Given(e), CodeOf(s, e);
            s'.life.Live? ==>
              s'.code == CodeAfter(s.code, edit) && s'.payload == PayloadAfter(s.payload, edit)
              && s'.token == s.token
              && s'.opts == if code.Some? && ValidCode(code.value) then EncodeResp(AddEach(s.opts, edit.adds), s.token).0
                            else AddEach(s.opts, edit.adds)
  {
    hide MakeReady, SetState, EncodeResp, AddEach;
    match e
    case Wakeup(edit) => ReadyContent(p, Edited(s, edit), m, now);
    case ReschedExpiry(v, edit) =>
      var s0 := s.(resched := Fired(s.resched));
      ReadyContent(p, Edited(s0, edit), m, now);
      FinalEnds(p, UserFn(p, s0, v, edit, m, now).0, InternalErr, now);
  }

  lemma ControlEnds(p: C.Params, s: Server, e: Event, m: Mids, now: int)
    requires e.Control?
    ensures !ServerSpec.Step(p, s, e, m, now).life.Live?
  {
    hide SendResp, SetState;
    FinalEnds(p, s, ClientRst, now);
    FinalEnds(p, s, RespDone, now);
    FinalEnds(p, SendResp(s.(code := BAD_REQUEST), m, now).0, InternalErr, now);
    FinalEnds(p, SendResp(s.(code := INTERNAL_SERVER_ERROR), m, now).0, InternalErr, now);
  }

  lemma CopyContent(p: C.Params, s: Server, m: Mids, now: int)
    requires Later(s)
    ensures var s' := ServerSpec.Step(p, s, CoapExpiry, m, now);
            s'.life.Live? ==>
              s'.code == s.code && s'.payload == s.payload && s'.token == s.token
              && s'.opts == if s.coap.left > 0 && IsResponseCode(s.code) then EncodeResp(s.opts, s.token).0 else s.opts
  {
    hide SendResp, SetState, EncodeResp;
    var s0 := s.(coap := Fired(s.coap));
    FinalEnds(p, s0, RespAckTimeout, now);
    var s1 := SetState(p, s0, CoapRetry, now);
    SetStateContent(p, s0, CoapRetry, now);
    SendRespContent(s1, m, now);
    var s2 := SendResp(s1, m, now).0;
    SetStateContent(p, s2.(copies := s2.copies + [now]), WaitAck, now);
    FinalEnds(p, s2, InternalErr, now);
  }

  // ------------------------------------------------------------------ whole runs

  function CodeGiven(run: seq<Timed>): nat {
    if run == [] then 0 else CodeAfter(CodeGiven(run[..|run| - 1]), Given(run[|run| - 1].e))
  }

  function PayloadGiven(run: seq<Timed>): bytes {
    if run == [] then [] else PayloadAfter(PayloadGiven(run[..|run| - 1]), Given(run[|run| - 1].e))
  }

  /** The response is the user's: in every run, while the server lives, its code and payload are
      the last ones given, and its token that of the request. */
  predicate Content(run: seq<Timed>, s: Server)
    requires run != [] && (run[0].e.Request? || run[0].e.Unhandled?)
  {
    s.life.Live? ==>
      s.code == CodeGiven(run) && s.payload == PayloadGiven(run) && s.token == run[0].e.token
      && |s.token| <= TOKEN_MAX && WellFormed(s.opts)
  }

  /** Every message is empty or has a response code, and options that can be encoded. */
  predicate ProperMessages(sent: seq<Sent>) {
    forall x :: x in sent ==> (x.code == 0 || ValidCode(x.code)) && WellFormed(x.opts)
  }

  lemma ProperGrows(sent: seq<Sent>, sent': seq<Sent>)
    requires ProperMessages(sent) && |sent'| == |sent| + 1 && sent'[..|sent|] == sent
    requires var x := sent'[|sent|]; (x.code == 0 || ValidCode(x.code)) && WellFormed(x.opts)
    ensures ProperMessages(sent')
  {
    hide WellFormed;
    forall x | x in sent' ensures (x.code == 0 || ValidCode(x.code)) && WellFormed(x.opts) {
      var k :| 0 <= k < |sent'| && sent'[k] == x;
      if k < |sent| {
        assert sent'[..|sent|][k] == x;
      }
    }
  }

  lemma ReplyProper(x: Sent, con: bool, code: nat, mid: uint16, adds: seq<Addition>, token: bytes, payload: bytes, now: int)
    requires IsReply(x, con, code, mid, adds, token, payload, now)
    ensures x.code == code && WellFormed(x.opts)
  {
    hide WellFormed, Select;
  }

  lemma FirstProper(p: C.Params, e: Event, m: Mids, now: int)
    requires p.retries >= 1 && (e.Request? || e.Unhandled?) && |e.token| <= TOKEN_MAX
    ensures ProperMessages(ServerSpec.Step(p, NEW_SERVER, e, m, now).sent)
  {
    FirstReply(p, e, m, now);
    NoOptionsFit(e.token);
    hide ServerSpec.Step, Room, AddEach, IsReply, WellFormed, ProperMessages;
    var sent := ServerSpec.Step(p, NEW_SERVER, e, m, now).sent;
    var mid := if e.con then e.mid else m.random;
    if sent == [] {
      NoneProper();
    } else {
      if e.Unhandled? {
        ReplyProper(sent[0], e.con, 132, mid, [], e.token, [], now);
      } else if e.v.Wait? {
        assert sent[0].opts == NO_OPTIONS && sent[0].code == 0;
      } else if e.v.Ready? && e.edit.code.Some? && ValidCode(e.edit.code.value) {
        ReplyProper(sent[0], e.con, e.edit.code.value, mid, e.edit.adds, e.token, e.edit.payload, now);
      } else {
        ReplyProper(sent[0], e.con, 160, if e.con then e.mid else e.again.random, e.edit.adds, e.token,
                    e.edit.payload, now);
      }
      OneProper(sent);
    }
  }

  lemma NoneProper()
    ensures ProperMessages([])
  {}

  lemma OneProper(sent: seq<Sent>)
    requires |sent| == 1 && (sent[0].code == 0 || ValidCode(sent[0].code)) && WellFormed(sent[0].opts)
    ensures ProperMessages(sent)
  {
    hide WellFormed;
    assert sent == [sent[0]];
  }

  /** What the request leaves of the response, if the user has asked for time. */
  lemma FirstContent(p: C.Params, e: Event, m: Mids, now: int)
    requires p.retries >= 1 && (e.Request? || e.Unhandled?) && |e.token| <= TOKEN_MAX
    ensures var s := ServerSpec.Step(p, NEW_SERVER, e, m, now);
            s.life.Live? ==>
              s.code == CodeAfter(0, Given(e)) && s.payload == PayloadAfter([], Given(e))
              && s.token == e.token && s.opts == AddEach(NO_OPTIONS, Given(e).adds) && WellFormed(s.opts)
  {
    if e.Request? && e.v.Wait? {
      NoOptionsFit(e.token);
      AddsWellFormed(NO_OPTIONS, e.edit.adds);
      OpenedIs(p, e.con, e.mid, e.token, e.proxied, now);
      hide Opened, Postpone, AddEach, WellFormed;
      AskedForTime(p, Edited(Opened(p, NEW_SERVER, e.con, e.mid, e.token, e.proxied, now), e.edit), e.v.seconds, now);
    } else {
      FirstSends(p, e, m, now);
      hide ServerSpec.Step, AddEach, WellFormed;
    }
  }

  lemma WrittenWell(r: OptSet, o: OptSet, adds: seq<Addition>, token: bytes)
    requires Written(r, o, adds, token)
    ensures WellFormed(r)
  {
    hide WellFormed, Select;
  }

  lemma LaterProper(p: C.Params, s: Server, e: Event, m: Mids, now: int)
    requires Inv(p, s) && Enabled(s, e, now) && !s.st.Fresh? && WellFormed(s.opts) && |s.token| <= TOKEN_MAX
    requires ProperMessages(s.sent)
    ensures ProperMessages(ServerSpec.Step(p, s, e, m, now).sent)
  {
    LaterMessage(p, s, e, m, now);
    hide ServerSpec.Step, Inv, Enabled, Room, AddEach, WellFormed, Written, ProperMessages, CodeOf;
    var sent := ServerSpec.Step(p, s, e, m, now).sent;
    if sent != s.sent {
      WrittenWell(sent[|s.sent|].opts, s.opts, Given(e).adds, s.token);
      ProperGrows(s.sent, sent);
    }
  }

  lemma LaterWell(p: C.Params, s: Server, e: Event, m: Mids, now: int)
    requires Inv(p, s) && Enabled(s, e, now) && !s.st.Fresh? && WellFormed(s.opts) && |s.token| <= TOKEN_MAX
    ensures var s' := ServerSpec.Step(p, s, e, m, now);
            s'.life.Live? ==> WellFormed(s'.opts)
  {
    LaterContent(p, s, e, m, now);
    AddsWellFormed(s.opts, Given(e).adds);
    Encodes(AddEach(s.opts, Given(e).adds), s.token, 1);
    hide ServerSpec.Step, Inv, Enabled, Room, AddEach, WellFormed, EncodeResp, CodeOf;
  }

  lemma {:induction false} RunContent(p: C.Params, run: seq<Timed>, s: Server)
    requires p.retries >= 1 && run != [] && Run(p, run) == Some(s)
    ensures (run[0].e.Request? || run[0].e.Unhandled?) && |run[0].e.token| <= TOKEN_MAX
    ensures Content(run, s) && ProperMessages(s.sent)
    decreases |run|
  {
    hide ServerSpec.Step, Inv, ProperMessages, WellFormed, AddEach, EncodeResp, CodeOf;
    var prefix, x := run[..|run| - 1], run[|run| - 1];
    var b := Run(p, prefix).value;
    RunInv(p, prefix, b);
    if prefix == [] {
      FirstEvent(p, b, x.e, x.m, x.at);
      FirstContent(p, x.e, x.m, x.at);
      FirstProper(p, x.e, x.m, x.at);
      assert CodeGiven([]) == 0 && PayloadGiven([]) == [];
    } else {
      assert prefix[0] == run[0];
      RunContent(p, prefix, b);
      LaterProper(p, b, x.e, x.m, x.at);
      LaterWell(p, b, x.e, x.m, x.at);
      LaterContent(p, b, x.e, x.m, x.at);
    }
  }

  /** What answered the request stays the first message. */
  lemma {:induction false} FirstStays(p: C.Params, run: seq<Timed>, s: Server)
    requires p.retries >= 1 && run != [] && Run(p, run) == Some(s)
    ensures ServerSpec.Step(p, NEW_SERVER, run[0].e, run[0].m, run[0].at).sent <= s.sent
    decreases |run|
  {
    hide ServerSpec.Step, Inv, Acks, Goes, Message;
    var prefix, x := run[..|run| - 1], run[|run| - 1];
    var b := Run(p, prefix).value;
    if prefix != [] {
      RunInv(p, prefix, b);
      assert prefix[0] == run[0];
      FirstStays(p, prefix, b);
      StepSends(p, b, x.e, x.m, x.at);
    }
  }

  // ------------------------------------------------------------ where the server goes

  predicate SendsNow(s: Server, e: Event) {
    CodeOf(s, e).Some? && ValidCode(CodeOf(s, e).value) && Room(AddEach(s.opts, Given(e).adds), s.token)
  }

  function StateAfter(s: Server, e: Event): State {
    match e
    case Wakeup(_) => if SendsNow(s, e) then (if s.con then WaitAck else RespDone) else s.st
    case ReschedExpiry(_, _) => if SendsNow(s, e) then (if s.con then WaitAck else RespDone) else InternalErr
    case CoapExpiry => if s.coap.left == 0 then RespAckTimeout else if SendsNow(s, e) then WaitAck else InternalErr
    case Control(t, _) =>
      if t.Rst? then ClientRst else if t.Ack? && s.st.WaitAck? then RespDone else InternalErr
    case _ => s.st
  }

  /** The request leads to waiting for the user, whose callback is called again after the time
      asked for unless the resource is proxied, or to the end: a good one if the user's own
      response has gone out, or nobody was asked. */
  lemma FirstState(p: C.Params, e: Event, m: Mids, now: int)
    requires p.retries >= 1 && (e.Request? || e.Unhandled?) && |e.token| <= TOKEN_MAX
    ensures var s := ServerSpec.Step(p, NEW_SERVER, e, m, now);
            s.st == (if e.Unhandled? then RespDone
                     else if e.v.Wait? then AckSent
                     else if e.v.Ready? && e.edit.code.Some? && ValidCode(e.edit.code.value)
                             && Room(AddEach(NO_OPTIONS, e.edit.adds), e.token) then RespDone
                     else InternalErr)
            && (e.Request? && e.v.Wait? ==>
                  (s.resched.armed <==> !e.proxied) && (!e.proxied ==> s.resched.deadline == now + e.v.seconds))
  {
    OpenedIs(p, e.con, e.mid, e.token, e.Request? && e.proxied, now);
    var s0 := Opened(p, NEW_SERVER, e.con, e.mid, e.token, e.Request? && e.proxied, now);
    hide Opened, SendResp, SetState, AddEach, EncodeResp, Acks;
    if e.Unhandled? {
      EndsIn(p, s0.(code := NOT_FOUND), m, RespDone, now);
    } else if e.v.Wait? {
      Waiting(p, Edited(s0, e.edit), e.v.seconds, now);
    } else {
      SameUser(p, s0, e.v, e.edit, m, now);
      DoneOrNot(p, Edited(s0, e.edit), e.v, e.edit.adds, m, now);
      var (s2, ok) := UserFn(p, s0, e.v, e.edit, m, now);
      if !ok {
        EndsIn(p, s2.(code := INTERNAL_SERVER_ERROR), e.again, InternalErr, now);
      }
    }
  }

  lemma EndsIn(p: C.Params, s: Server, m: Mids, next: State, now: int)
    requires s.st.ReqOk? && (next.RespDone? || next.InternalErr?)
    ensures SetState(p, SendResp(s, m, now).0, next, now).st == next
  {
    hide EncodeResp, SendResp, SetState, Acks, Sendable;
    SendRespKeeps(s, m, now);
    MovesTo(p, SendResp(s, m, now).0, next, now);
  }

  lemma DoneOrNot(p: C.Params, s: Server, v: Verdict, adds: seq<Addition>, m: Mids, now: int)
    requires s.st.ReqOk? && |s.token| <= TOKEN_MAX && !v.Wait? && s.opts == AddEach(NO_OPTIONS, adds)
    ensures var (s', ok) := if v.Ready? then MakeReady(p, s, m, now) else (s, false);
            (ok <==> v.Ready? && ValidCode(s.code) && Room(s.opts, s.token))
            && s'.st == if ok then RespDone else ReqOk
  {
    hide EncodeResp, SendResp, SetState, Acks, Room, AddEach, WellFormed;
    NoOptionsFit(s.token);
    AddsWellFormed(NO_OPTIONS, adds);
    Encodes(s.opts, s.token, 1);
    SendRespKeeps(s, m, now);
    MovesTo(p, SendResp(s, m, now).0, RespDone, now);
  }

  lemma Waiting(p: C.Params, s: Server, seconds: nat, now: int)
    requires s.st.ReqOk? && !s.resched.present && !s.resched.armed
    ensures var (s', ok) := Postpone(p, s, seconds, now);
            ok && s'.st.AckSent? && (s'.resched.armed <==> !s.proxied)
            && (!s.proxied ==> s'.resched.deadline == now + seconds)
  {}

  lemma LaterState(p: C.Params, s: Server, e: Event, m: Mids, now: int)
    requires Inv(p, s) && Enabled(s, e, now) && !s.st.Fresh? && WellFormed(s.opts) && |s.token| <= TOKEN_MAX
    ensures ServerSpec.Step(p, s, e, m, now).st == StateAfter(s, e)
  {
    InvLater(p, s);
    Timely(p, s, e, now);
    var edit := Given(e);
    AddsWellFormed(s.opts, edit.adds);
    Encodes(AddEach(s.opts, edit.adds), s.token, 1);
    NothingAdded(s.opts);
    hide Inv, Enabled, ServerSpec.Step, SetState, SendResp, EncodeResp, AddEach, WellFormed, Room, Acks, SendsNow, Select;
    match e
    case Wakeup(_) => UserState(p, s, e, m, now);
    case ReschedExpiry(_, _) => UserState(p, s, e, m, now);
    case CoapExpiry => CopyState(p, s, m, now);
    case Control(_, _) => ControlState(p, s, e, m, now);
  }

  lemma ReadyState(p: C.Params, s: Server, m: Mids, now: int)
    requires Later(s)
    ensures var (s', ok) := MakeReady(p, s, m, now);
            (ok <==> s.st.AckSent? && Sendable(s))
            && s'.st == if ok then (if s.con then WaitAck else RespDone) else s.st
  {
    hide EncodeResp, SendResp, SetState, Acks, Sendable;
    SendRespKeeps(s, m, now);
    var s1 := SendResp(s, m, now).0;
    MovesTo(p, s1.(copies := [now]), WaitAck, now);
    MovesTo(p, s1, RespDone, now);
  }

  lemma UserState(p: C.Params, s: Server, e: Event, m: Mids, now: int)
    requires Later(s) && (e.Wakeup? || e.ReschedExpiry?)
    requires EncodeResp(AddEach(s.opts, Given(e).adds), s.token).1 <==> Room(AddEach(s.opts, Given(e).adds), s.token)
    ensures ServerSpec.Step(p, s, e, m, now).st == StateAfter(s, e)
  {
    hide MakeReady, SetState, EncodeResp, AddEach, Room;
    match e
    case Wakeup(edit) => ReadyState(p, Edited(s, edit), m, now);
    case ReschedExpiry(v, edit) =>
      var s0 := s.(resched := Fired(s.resched));
      ReadyState(p, Edited(s0, edit), m, now);
      MovesTo(p, UserFn(p, s0, v, edit, m, now).0, InternalErr, now);
  }

  lemma CopyState(p: C.Params, s: Server, m: Mids, now: int)
    requires s.st.WaitAck? && AddEach(s.opts, []) == s.opts
    requires EncodeResp(s.opts, s.token).1 <==> Room(s.opts, s.token)
    ensures ServerSpec.Step(p, s, CoapExpiry, m, now).st == StateAfter(s, CoapExpiry)
  {
    hide SendResp, SetState, EncodeResp, AddEach, Room, Acks;
    var s0 := s.(coap := Fired(s.coap));
    if s.coap.left == 0 {
      MovesTo(p, s0, RespAckTimeout, now);
    } else {
      Retries(p, s0, now);
      var s1 := s0.(st := CoapRetry);
      SendRespKeeps(s1, m, now);
      var s2 := SendResp(s1, m, now).0;
      MovesTo(p, s2.(copies := s2.copies + [now]), WaitAck, now);
      MovesTo(p, s2, InternalErr, now);
    }
  }

  lemma ControlState(p: C.Params, s: Server, e: Event, m: Mids, now: int)
    requires Later(s) && e.Control?
    ensures ServerSpec.Step(p, s, e, m, now).st == StateAfter(s, e)
  {
    hide SendResp, SetState;
    MovesTo(p, s, ClientRst, now);
    MovesTo(p, s, RespDone, now);
    MovesTo(p, SendResp(s.(code := BAD_REQUEST), m, now).0, InternalErr, now);
    MovesTo(p, SendResp(s.(code := INTERNAL_SERVER_ERROR), m, now).0, InternalErr, now);
  }
}
