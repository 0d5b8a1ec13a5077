/** What every run of the server keeps: exactly one acknowledgement, the retransmission
    schedule of separate responses, and legal transitions only. */
module ServerRuns {
  import opened OptionTable
  import opened OptionList
  import opened OptionCodec
  import opened Timers
  import opened ServerSpec
  import C = ClientSpec
  import R = ClientRuns

  /** The IDs of the ACKs among the messages sent, in order. */
  function Acks(sent: seq<Sent>): seq<uint16> {
    if sent == [] then []
    else
      var x := sent[|sent| - 1];
      Acks(sent[..|sent| - 1]) + (if x.t.Ack? then [x.mid] else [])
  }

  /** Timers, state and the flags that decide how a response is sent. */
  predicate Discipline(p: C.Params, s: Server) {
    (s.proxied ==> R.Off(s.resched))
    && (s.st.Fresh? ==> s == NEW_SERVER)
    && (s.st.AckSent? ==> R.Off(s.coap) && !s.sep && s.ctrl == s.con && !s.sibling && s.copies == [])
    && (s.st.WaitAck? ==> s.con && s.ctrl && s.sep && R.On(s.coap) && BackOff(p, s))
  }

  /** Where the retransmission timer stands in the schedule of copies. */
  predicate BackOff(p: C.Params, s: Server) {
    var n := |s.copies|;
    n >= 1 && s.coap.left + n == p.retries + 1
    && s.coap.tout == Interval(p.tout, n - 1)
    && s.coap.deadline == s.copies[0] + Span(p.tout, n)
  }

  predicate Inv(p: C.Params, s: Server) {
    p.retries >= 1 && !s.life.Aborted? && R.OnSchedule(p, s.copies)
    && (s.life.Live? ==> (s.st.Fresh? || s.st.AckSent? || s.st.WaitAck?) && Discipline(p, s))
    && (s.life.Freed? ==> IsFinal(s.st) && R.Off(s.coap))
    && (s.proxied ==> R.Off(s.resched))
  }

  // ------------------------------------------------------------ what steps keep

  /** Sending changes only what is sent, the options, and two marks on the response. */
  predicate SameBut(s: Server, s': Server) {
    s' == s.(opts := s'.opts, resMid := s'.resMid, sibling := s'.sibling, sent := s'.sent)
  }

  lemma AcksGrow(sent: seq<Sent>, x: Sent)
    ensures Acks(sent + [x]) == Acks(sent) + (if x.t.Ack? then [x.mid] else [])
  {
    assert (sent + [x])[..|sent|] == sent;
  }

  lemma TransmitKeeps(s: Server, t: C.MsgType, mid: uint16, now: int)
    ensures var (s', ok) := Transmit(s, t, mid, now);
            ok == EncodeResp(s.opts, s.token).1 && SameBut(s, s')
            && s'.opts == EncodeResp(s.opts, s.token).0 && s'.sibling == s.sibling && (!ok ==> s'.sent == s.sent)
            && Acks(s'.sent) == Acks(s.sent) + (if ok && t.Ack? then [mid] else [])
  {
    hide EncodeResp;
    var o := EncodeResp(s.opts, s.token).0;
    AcksGrow(s.sent, Sent(t, s.code, mid, o, s.payload, s.sibling, now));
  }

  /** Whether a response with these options goes out, given a response code. */
  predicate Sendable(s: Server) {
    IsResponseCode(s.code) && EncodeResp(s.opts, s.token).1
  }

  lemma MarkedKeeps(s: Server, m: Mids)
    ensures var s' := Marked(s, m);
            SameBut(s, s') && s'.opts == s.opts && s'.sent == s.sent
            && (s.st.AckSent? ==> s'.sibling == s.sibling)
  {}

  /** Options are left as they were, or as a failed encoding leaves them. */
  predicate Untaken(o: OptSet, token: bytes, o': OptSet) {
    o' == o || (!EncodeResp(o, token).1 && o' == EncodeResp(o, token).0)
  }

  lemma SendRespKeeps(s: Server, m: Mids, now: int)
    ensures var (s', ok) := SendResp(s, m, now);
            ok == Sendable(s) && SameBut(s, s') && (s.st.AckSent? ==> s'.sibling == s.sibling)
            && (!ok ==> s'.sent == s.sent && Untaken(s.opts, s.token, s'.opts))
            && Acks(s'.sent) == Acks(s.sent) + (if ok && Piggybacks(s) then [s.mid] else [])
  {
    hide EncodeResp, IsResponseCode, Transmit, Marked, Piggybacks;
    MarkedKeeps(s, m);
    TransmitKeeps(Marked(s, m), RespType(s), RespMid(s, m), now);
  }

  lemma SendAckKeeps(s: Server, now: int)
    ensures Acks(SendAck(s, now).sent) == Acks(s.sent) + [s.mid]
  {
    AcksGrow(s.sent, Sent(C.Ack, 0, s.mid, OptSet([], 0), [], true, now));
  }

  predicate Orderly(p: C.Params, s: Server) {
    p.retries >= 1 && R.OnSchedule(p, s.copies) && (s.proxied ==> R.Off(s.resched))
    && (s.coap.armed ==> s.coap.present)
  }

  /** Reaching a final state is always in order, and keeps everything sent. */
  lemma Ends(p: C.Params, s: Server, next: State, now: int)
    requires IsFinal(next) && Legal(s.st, next)
    requires Orderly(p, s)
    ensures var s' := SetState(p, s, next, now);
            Inv(p, s') && s'.life.Freed? && s'.st == next && s'.sent == s.sent && s'.resched == s.resched
  {}

  lemma FailKeeps(p: C.Params, s: Server, code: nat, m: Mids, now: int)
    requires Orderly(p, s)
    ensures var s' := Fail(p, s, code, m, now);
            Inv(p, s') && s'.life.Freed? && s'.st.InternalErr? && s'.resched == s.resched
            && Acks(s'.sent) == Acks(s.sent)
                                + (if Sendable(s.(code := code)) && Piggybacks(s) then [s.mid] else [])
  {
    hide Inv, SendResp, SetState, IsFinal, Sendable;
    SendRespKeeps(s.(code := code), m, now);
    Ends(p, SendResp(s.(code := code), m, now).0, InternalErr, now);
  }

  // -------------------------------------------------------------- does it fit?

  const NO_OPTIONS := OptSet([], 0)

  predicate WellFormed(o: OptSet) {
    Follows(0, o.list) && |o.list| <= o.count
  }

  lemma {:induction false} InsertAllLength(s: seq<Opt>, os: seq<Opt>)
    ensures |InsertAll(s, os)| == |s| + |os|
  {
    hide Place;
    if os != [] {
      InsertAllLength(s, os[..|os| - 1]);
    }
  }

  lemma AddKeeps(o: OptSet, a: Addition)
    requires WellFormed(o)
    ensures WellFormed(Add(o, a)) && (o.count <= MAX_OPTIONS ==> Add(o, a).count <= MAX_OPTIONS)
  {
    hide InsertAll, Fragment, Slots, IsOpt;
    if CanAdd(o, a) {
      var f := Fragments(a.sym, a.v, Slots(|a.v|));
      InsertAllSorted(o.list, f);
      InsertAllLength(o.list, f);
    }
  }

  lemma {:induction false} AddEachKeeps(o: OptSet, adds: seq<Addition>)
    requires WellFormed(o) && o.count <= MAX_OPTIONS
    ensures WellFormed(AddEach(o, adds)) && AddEach(o, adds).count <= MAX_OPTIONS
  {
    if adds != [] {
      AddEachKeeps(o, adds[..|adds| - 1]);
      AddKeeps(AddEach(o, adds[..|adds| - 1]), adds[|adds| - 1]);
    }
  }

  lemma {:induction false} SizeAtMost(last: nat, os: seq<Opt>)
    requires Follows(last, os)
    ensures SizeFrom(last, os) <= 272 * |os| + FenceCount(last, os)
    decreases |os|
  {
    hide Fences;
    if os != [] {
      FollowsTail(last, os);
      SizeAtMost(Number(os[0].sym), os[1..]);
    }
  }

  lemma {:induction false} SizeWithSmall(last: nat, os: seq<Opt>, i: nat)
    requires Follows(last, os) && i < |os| && os[i].len <= TOKEN_MAX
    ensures SizeFrom(last, os) <= 272 * (|os| - 1) + 9 + FenceCount(last, os)
    decreases |os|
  {
    hide Fences;
    FollowsTail(last, os);
    if i == 0 {
      SizeAtMost(Number(os[0].sym), os[1..]);
    } else {
      SizeWithSmall(Number(os[0].sym), os[1..], i - 1);
    }
  }

  /** A token takes one place. */
  lemma TokenPlace(o: OptSet, token: bytes)
    requires 1 <= |token| <= TOKEN_MAX
    ensures CanAddToken(o, token) <==> o.count < MAX_OPTIONS
    ensures o.count < MAX_OPTIONS ==>
              AddToken(o, token) == OptSet(Insert(o.list, MakeOpt(TOKEN, token)), o.count + 1)
  {
    var f := Fragments(TOKEN, token, 1);
    assert token[0..|token|] == token;
    assert Fragments(TOKEN, token, 0) == [] && f == [MakeOpt(TOKEN, token)];
    assert f[..0] == [] && InsertAll(o.list, []) == o.list;
    assert InsertAll(o.list, f) == Insert(o.list, MakeOpt(TOKEN, token));
  }

  /** Fifteen options one of which is a token always fit. */
  lemma TokenFits(o: OptSet, token: bytes)
    requires WellFormed(o) && o.count < MAX_OPTIONS && 1 <= |token| <= TOKEN_MAX
    ensures Fits(AddToken(o, token))
  {
    TokenPlace(o, token);
    AddKeeps(o, Addition(TOKEN, token));
    var x := MakeOpt(TOKEN, token);
    var os := Insert(o.list, x);
    assert x.len == |token|;
    assert os[Place(o.list, x)] == x;
    AtMostOneFence(0, os);
    hide Insert, MakeOpt, AreOpts, Sorted, Add, AddToken;
    SizeWithSmall(0, os, Place(o.list, x));
  }

  /** There is room for a response with a token unless all fifteen places are taken, and
      for one without unless its options exceed the buffer. */
  predicate HasRoom(o: OptSet, token: bytes) {
    if token == [] then Fits(o) else |token| <= TOKEN_MAX && o.count < MAX_OPTIONS
  }

  /** A response that has room can be encoded; one that has none cannot, not even at the
      second attempt. */
  lemma RoomDecides(o: OptSet, token: bytes)
    requires WellFormed(o) && o.count <= MAX_OPTIONS
    ensures EncodeResp(o, token).1 == HasRoom(o, token)
    ensures !HasRoom(o, token) ==> !EncodeResp(EncodeResp(o, token).0, token).1
  {
    if token != [] && |token| <= TOKEN_MAX {
      TokenPlace(o, token);
      if HasRoom(o, token) {
        TokenFits(o, token);
      }
    }
    hide Follows, SizeFrom, FencesWritten, Insert, AddToken, CanAdd;
  }

  // ----------------------------------------------------------------- the steps

  /** A request has been taken in, and nothing done about it yet. */
  predicate JustOpened(p: C.Params, s: Server) {
    p.retries >= 1 && s.life.Live? && s.st.ReqOk? && R.Off(s.coap) && R.Off(s.resched)
    && !s.ctrl && !s.sep && s.copies == [] && s.sent == []
  }

  function MidIf(b: bool, mid: uint16): seq<uint16> {
    if b then [mid] else []
  }

  /** No response could be sent. */
  predicate Unanswered(p: C.Params, s: Server, s': Server) {
    JustOpened(p, s') && s'.con == s.con && s'.mid == s.mid && s'.token == s.token
    && Untaken(s.opts, s.token, s'.opts)
  }

  /** A response made at once: an ACK-type message for a confirmable request. */
  lemma ReadyAtOnce(p: C.Params, s: Server, m: Mids, now: int)
    requires JustOpened(p, s)
    ensures var (s', ok) := MakeReady(p, s, m, now);
            ok == Sendable(s) && Acks(s'.sent) == MidIf(ok && s.con, s.mid)
            && if ok then Inv(p, s') && s'.st.RespDone? && !s'.resched.armed
               else Unanswered(p, s, s')
  {
    hide SendResp, Sendable, SetState, Inv, Untaken;
    SendRespKeeps(s, m, now);
    var s1 := SendResp(s, m, now).0;
    if Sendable(s) {
      Ends(p, s1, RespDone, now);
    }
  }

  /** Asked to wait: an empty ACK for a confirmable request. */
  lemma WaitAtOnce(p: C.Params, s: Server, seconds: nat, now: int)
    requires JustOpened(p, s) && !s.sibling
    ensures var (s', ok) := Postpone(p, s, seconds, now);
            ok && Inv(p, s') && s'.life.Live? && s'.st.AckSent? && s'.mid == s.mid
            && s'.resched.armed == !s.proxied
            && Acks(s'.sent) == MidIf(s.con, s.mid)
  {
    SendAckKeeps(s, now);
    assert Acks(s.sent) == [];
    hide Acks;
  }

  lemma UserFnAtOnce(p: C.Params, s: Server, v: Verdict, e: Edit, m: Mids, now: int)
    requires JustOpened(p, s) && !s.sibling
    ensures var (s', ok) := UserFn(p, s, v, e, m, now);
            ok == (v.Wait? || (v.Ready? && Sendable(Edited(s, e))))
            && Acks(s'.sent) == MidIf(ok && s.con, s.mid)
            && if ok then Inv(p, s') && !s'.st.Fresh? && (s'.life.Freed? ==> !s'.resched.armed)
               else Unanswered(p, Edited(s, e), s')
  {
    hide MakeReady, Postpone, Inv, Sendable, AddEach;
    var s1 := Edited(s, e);
    assert JustOpened(p, s1);
    match v
    case Ready => ReadyAtOnce(p, s1, m, now);
    case Wait(seconds) => WaitAtOnce(p, s1, seconds, now);
    case _ =>
  }

  lemma OpenKeeps(p: C.Params, s: Server, con: bool, mid: uint16, token: bytes, proxied: bool, now: int)
    requires Inv(p, s) && s.life.Live? && s.st.Fresh?
    ensures var s1 := Opened(p, s, con, mid, token, proxied, now);
            JustOpened(p, s1) && s1.con == con && s1.mid == mid && s1.token == token
            && s1.proxied == proxied && s1.opts == NO_OPTIONS && !s1.sibling
  {}

  /** Is the request acknowledged?  Yes if the user asks for time, or if there is room for
      a response: then either the user's own or an error goes out. */
  predicate Answered(e: Event) {
    match e
    case Request(con, _, token, _, v, edit, _) =>
      con && (v.Wait? || HasRoom(AddEach(NO_OPTIONS, edit.adds), token))
    case Unhandled(con, _, _) => con
    case _ => false
  }

  lemma RequestStep(p: C.Params, s: Server, e: Event, m: Mids, now: int)
    requires Inv(p, s) && Enabled(s, e, now) && e.Request?
    ensures var s' := ServerSpec.Step(p, s, e, m, now);
            Inv(p, s') && !s'.st.Fresh? && Acks(s'.sent) == MidIf(Answered(e), e.mid)
            && (s'.life.Freed? ==> !s'.resched.armed)
  {
    hide UserFn, Inv, Fail, HasRoom, EncodeResp, AddEach, SameBut;
    var s0 := Opened(p, s, e.con, e.mid, e.token, e.proxied, now);
    OpenKeeps(p, s, e.con, e.mid, e.token, e.proxied, now);
    UserFnAtOnce(p, s0, e.v, e.edit, m, now);
    var (s1, ok) := UserFn(p, s0, e.v, e.edit, m, now);
    var o := AddEach(NO_OPTIONS, e.edit.adds);
    assert Edited(s0, e.edit).opts == o;
    AddEachKeeps(NO_OPTIONS, e.edit.adds);
    RoomDecides(o, e.token);
    if !ok {
      FailKeeps(p, s1, INTERNAL_SERVER_ERROR, e.again, now);
    }
  }

  lemma UnhandledStep(p: C.Params, s: Server, e: Event, m: Mids, now: int)
    requires Inv(p, s) && Enabled(s, e, now) && e.Unhandled?
    ensures var s' := ServerSpec.Step(p, s, e, m, now);
            Inv(p, s') && !s'.st.Fresh? && Acks(s'.sent) == MidIf(Answered(e), e.mid)
            && (s'.life.Freed? ==> !s'.resched.armed)
  {
    hide Inv, SendResp, SetState, HasRoom;
    OpenKeeps(p, s, e.con, e.mid, e.token, false, now);
    var s1 := Opened(p, s, e.con, e.mid, e.token, false, now).(code := NOT_FOUND);
    NoOptionsFit(e.token);
    RoomDecides(NO_OPTIONS, e.token);
    NotFound(p, s1, m, now);
  }

  lemma NoOptionsFit(token: bytes)
    requires |token| <= TOKEN_MAX
    ensures WellFormed(NO_OPTIONS) && HasRoom(NO_OPTIONS, token)
  {}

  lemma NotFound(p: C.Params, s: Server, m: Mids, now: int)
    requires JustOpened(p, s) && s.code == NOT_FOUND && EncodeResp(s.opts, s.token).1
    ensures var s' := SetState(p, SendResp(s, m, now).0, RespDone, now);
            Inv(p, s') && s'.st.RespDone? && !s'.resched.armed && Acks(s'.sent) == MidIf(s.con, s.mid)
  {
    hide Inv, SendResp, SetState, EncodeResp;
    SendRespKeeps(s, m, now);
    Ends(p, SendResp(s, m, now).0, RespDone, now);
  }

  /** A response after an acknowledgement, or for a request that needs none. */
  lemma ReadyLater(p: C.Params, s: Server, m: Mids, now: int)
    requires Inv(p, s) && s.life.Live? && !s.st.Fresh?
    ensures var (s', ok) := MakeReady(p, s, m, now);
            Inv(p, s') && Acks(s'.sent) == Acks(s.sent) && s'.resched == s.resched
            && !s'.st.Fresh? && ok == (s.st.AckSent? && Sendable(s)) && (!ok ==> s'.life.Live? && s'.st == s.st)
  {
    hide SendResp, Sendable, Acks, Interval, Span;
    if s.st.AckSent? {
      SendRespKeeps(s, m, now);
      var s1 := SendResp(s, m, now).0;
      R.FirstInterval(p);
      if Sendable(s) && !s.con {
        Ends(p, s1, RespDone, now);
      }
    }
  }

  /** What every later event keeps. */
  predicate Keeps(p: C.Params, s: Server, e: Event, s': Server) {
    Inv(p, s') && !s'.st.Fresh? && Acks(s'.sent) == Acks(s.sent)
    && s'.resched == if e.ReschedExpiry? then Fired(s.resched) else s.resched
  }

  lemma EditedKeeps(p: C.Params, s: Server, e: Edit)
    requires Inv(p, s) && !s.st.Fresh?
    ensures var s' := Edited(s, e);
            Inv(p, s') && s' == s.(code := s'.code, opts := s'.opts, payload := s'.payload)
  {}

  lemma WakeupStep(p: C.Params, s: Server, e: Event, m: Mids, now: int)
    requires Inv(p, s) && Enabled(s, e, now) && e.Wakeup?
    ensures Keeps(p, s, e, ServerSpec.Step(p, s, e, m, now))
  {
    EditedKeeps(p, s, e.edit);
    ReadyLater(p, Edited(s, e.edit), m, now);
    hide MakeReady, Inv, Edited;
  }

  lemma FiredKeeps(p: C.Params, s: Server)
    requires Inv(p, s) && s.life.Live? && !s.st.Fresh? && s.resched.armed
    ensures Inv(p, s.(resched := Fired(s.resched)))
  {
    hide R.OnSchedule, Interval, Span;
  }

  lemma ReschedStep(p: C.Params, s: Server, e: Event, m: Mids, now: int)
    requires Inv(p, s) && Enabled(s, e, now) && e.ReschedExpiry?
    ensures Keeps(p, s, e, ServerSpec.Step(p, s, e, m, now))
  {
    hide MakeReady, Edited, BackOff, R.OnSchedule, Acks;
    var s0 := s.(resched := Fired(s.resched));
    FiredKeeps(p, s);
    EditedKeeps(p, s0, e.edit);
    var s1 := Edited(s0, e.edit);
    if e.v.Ready? {
      ReadyLater(p, s1, m, now);
      hide Inv, SetState;
      var (s2, ok) := MakeReady(p, s1, m, now);
      if !ok {
        Stops(p, s2, InternalErr, now);
      }
    } else {
      hide Inv, SetState;
      Stops(p, s1, InternalErr, now);
    }
  }

  lemma Stops(p: C.Params, s: Server, next: State, now: int)
    requires Inv(p, s) && s.life.Live? && IsFinal(next) && Legal(s.st, next)
    ensures var s' := SetState(p, s, next, now);
            Inv(p, s') && s'.life.Freed? && IsFinal(s'.st) && s'.sent == s.sent && s'.resched == s.resched
  {
    hide BackOff;
  }

  lemma LaterOrderly(p: C.Params, s: Server)
    requires Inv(p, s) && s.life.Live? && !s.st.Fresh?
    ensures Orderly(p, s) && !Piggybacks(s)
  {
    hide R.OnSchedule, BackOff;
  }

  lemma ControlStep(p: C.Params, s: Server, e: Event, m: Mids, now: int)
    requires Inv(p, s) && Enabled(s, e, now) && e.Control?
    ensures Keeps(p, s, e, ServerSpec.Step(p, s, e, m, now))
  {
    assert s.life.Live? && !s.st.Fresh?;
    hide BackOff, R.OnSchedule, Orderly, Sendable, Inv, SetState, Fail, Acks, Enabled;
    LaterOrderly(p, s);
    match e.t
    case Rst => Stops(p, s, ClientRst, now);
    case Ack =>
      if s.st.WaitAck? {
        Stops(p, s, RespDone, now);
      } else {
        FailKeeps(p, s, BAD_REQUEST, m, now);
      }
    case _ => FailKeeps(p, s, INTERNAL_SERVER_ERROR, m, now);
  }

  lemma CoapStep(p: C.Params, s: Server, e: Event, m: Mids, now: int)
    requires Inv(p, s) && Enabled(s, e, now) && e.CoapExpiry?
    ensures Keeps(p, s, e, ServerSpec.Step(p, s, e, m, now))
  {
    var s0 := s.(coap := Fired(s.coap));
    LaterOrderly(p, s);
    if s.coap.left == 0 {
      hide SetState, BackOff, R.OnSchedule;
      Ends(p, s0, RespAckTimeout, now);
    } else {
      var s1 := s0.(st := CoapRetry);
      Retries(p, s0, now);
      Again(p, s1, m, now);
      hide SetState, Resend, BackOff, R.OnSchedule, Inv, Acks;
    }
  }

  /** A retransmission: back to waiting, or the end. */
  lemma Again(p: C.Params, s: Server, m: Mids, now: int)
    requires p.retries >= 1 && s.life.Live? && s.st.CoapRetry? && R.OnSchedule(p, s.copies)
    requires s.con && s.ctrl && s.sep && s.coap.present && s.coap.left > 0 && BackOff(p, s) && s.coap.deadline == now
    requires s.proxied ==> R.Off(s.resched)
    ensures var s' := Resend(p, s, m, now);
            Inv(p, s') && Acks(s'.sent) == Acks(s.sent) && s'.resched == s.resched && !s'.st.Fresh?
  {
    SendRespKeeps(s, m, now);
    hide SetState, SendResp, Sendable, Acks, R.OnSchedule, Interval, Span, Inv;
    var s2 := SendResp(s, m, now).0;
    if Sendable(s) {
      Resent(p, s2, now);
    } else {
      Ends(p, s2, InternalErr, now);
    }
  }

  lemma Resent(p: C.Params, s: Server, now: int)
    requires p.retries >= 1 && s.life.Live? && s.st.CoapRetry? && R.OnSchedule(p, s.copies)
    requires s.con && s.ctrl && s.sep && s.coap.present && s.coap.left > 0 && BackOff(p, s) && s.coap.deadline == now
    requires s.proxied ==> R.Off(s.resched)
    ensures var s' := SetState(p, s.(copies := s.copies + [now]), WaitAck, now);
            Inv(p, s') && s'.sent == s.sent && s'.resched == s.resched && s'.st.WaitAck?
  {
    R.NextSend(p, s.copies, now);
    hide R.OnSchedule, Interval, Span;
  }

  lemma LaterStep(p: C.Params, s: Server, e: Event, m: Mids, now: int)
    requires Inv(p, s) && Enabled(s, e, now) && !s.st.Fresh?
    ensures Keeps(p, s, e, ServerSpec.Step(p, s, e, m, now))
  {
    hide Inv, Keeps, ServerSpec.Step;
    match e
    case Wakeup(_) => WakeupStep(p, s, e, m, now);
    case ReschedExpiry(_, _) => ReschedStep(p, s, e, m, now);
    case Control(_, _) => ControlStep(p, s, e, m, now);
    case CoapExpiry => CoapStep(p, s, e, m, now);
    case _ =>
  }

  lemma FirstEvent(p: C.Params, s: Server, e: Event, m: Mids, now: int)
    requires Inv(p, s) && Enabled(s, e, now) && s.st.Fresh?
    ensures e.Request? || e.Unhandled?
    ensures var s' := ServerSpec.Step(p, s, e, m, now);
            Inv(p, s') && !s'.st.Fresh? && Acks(s'.sent) == MidIf(Answered(e), e.mid)
            && (s'.life.Freed? ==> !s'.resched.armed)
  {
    assert s == NEW_SERVER;
    if e.Request? {
      RequestStep(p, s, e, m, now);
    } else {
      assert e.Unhandled?;
      UnhandledStep(p, s, e, m, now);
    }
  }

  lemma {:induction false} RunInv(p: C.Params, run: seq<Timed>, s: Server)
    requires p.retries >= 1 && Run(p, run) == Some(s)
    ensures Inv(p, s) && (s.st.Fresh? <==> run == [])
    ensures run != [] ==> var e := run[0].e;
                          (e.Request? || e.Unhandled?) && Acks(s.sent) == MidIf(Answered(e), e.mid)
    decreases |run|
  {
    hide ServerSpec.Step, Enabled, Answered, Acks;
    if run == [] {
      NewServerInv(p);
    } else {
      var prefix, x := run[..|run| - 1], run[|run| - 1];
      var b := Run(p, prefix).value;
      RunInv(p, prefix, b);
      hide Inv;
      if prefix == [] {
        FirstEvent(p, b, x.e, x.m, x.at);
      } else {
        assert prefix[0] == run[0];
        LaterStep(p, b, x.e, x.m, x.at);
      }
    }
  }

  lemma NewServerInv(p: C.Params)
    requires p.retries >= 1
    ensures Inv(p, NEW_SERVER)
  {}

  // ------------------------------------------------------------- main results

  /** In every run, whatever the user callback returns and whatever happens afterwards, no
      transition is illegal, and a confirmable request has been acknowledged exactly once,
      by one message with its own ID, piggybacked or empty, if and only if the user asked
      for time or there was room for a response; any other request never is. */
  lemma AcknowledgedOnce(p: C.Params, run: seq<Timed>, s: Server)
    requires p.retries >= 1 && run != [] && Run(p, run) == Some(s)
    ensures !s.life.Aborted?
    ensures run[0].e.Request? || run[0].e.Unhandled?
    ensures Acks(s.sent) == MidIf(Answered(run[0].e), run[0].e.mid)
  {
    hide Run, Acks, Answered;
    RunInv(p, run, s);
  }

  /** In every run, the retransmission timer is armed exactly while an ACK is awaited, and
      the response has gone out at most once more than there are retransmissions, each time
      on the doubling schedule. */
  lemma SeparateOnSchedule(p: C.Params, run: seq<Timed>, s: Server)
    requires p.retries >= 1 && Run(p, run) == Some(s)
    ensures s.coap.armed <==> s.life.Live? && s.st.WaitAck?
    ensures |s.copies| <= p.retries + 1
    ensures forall k :: 0 <= k < |s.copies| ==> s.copies[k] == s.copies[0] + Span(p.tout, k)
    ensures s.life.Live? && s.st.WaitAck? ==> s.con && |s.copies| >= 1
                                              && s.coap.deadline == s.copies[0] + Span(p.tout, |s.copies|)
  {
    hide Run;
    RunInv(p, run, s);
  }

  lemma NotGivenUp(p: C.Params, s: Server, e: Event, m: Mids, now: int)
    requires (s.st.AckSent? || s.st.WaitAck?) && (e.Wakeup? || e.ReschedExpiry? || e.Control?)
    ensures !ServerSpec.Step(p, s, e, m, now).st.RespAckTimeout?
  {
    hide SendResp, SetState, Sendable, AddEach, Acks;
    match e
    case Wakeup(edit) => ReadyNotGivenUp(p, Edited(s, edit), m, now);
    case ReschedExpiry(v, edit) =>
      var s1 := Edited(s.(resched := Fired(s.resched)), edit);
      ReadyNotGivenUp(p, s1, m, now);
      MovesTo(p, UserFn(p, s.(resched := Fired(s.resched)), v, edit, m, now).0, InternalErr, now);
    case Control(t, _) =>
      MovesTo(p, s, ClientRst, now);
      MovesTo(p, s, RespDone, now);
      MovesTo(p, SendResp(s.(code := BAD_REQUEST), m, now).0, InternalErr, now);
      MovesTo(p, SendResp(s.(code := INTERNAL_SERVER_ERROR), m, now).0, InternalErr, now);
  }

  lemma ReadyNotGivenUp(p: C.Params, s: Server, m: Mids, now: int)
    requires s.st.AckSent? || s.st.WaitAck?
    ensures !MakeReady(p, s, m, now).0.st.RespAckTimeout?
  {
    SendRespKeeps(s, m, now);
    hide SendResp, SetState, Sendable, Acks;
    var s1 := SendResp(s, m, now).0;
    MovesTo(p, s1.(copies := [now]), WaitAck, now);
    MovesTo(p, s1, RespDone, now);
  }

  /** The response is given up only after all its retransmissions, exactly when the schedule
      ends. */
  lemma GivesUpExactly(p: C.Params, s: Server, e: Event, m: Mids, now: int)
    requires Inv(p, s) && Enabled(s, e, now) && !s.st.Fresh?
    requires ServerSpec.Step(p, s, e, m, now).st.RespAckTimeout?
    ensures e.CoapExpiry? && |s.copies| == p.retries + 1
    ensures now == s.copies[0] + Span(p.tout, p.retries + 1)
  {
    if e.CoapExpiry? {
      var s0 := s.(coap := Fired(s.coap));
      if s.coap.left > 0 {
        var s1 := s0.(st := CoapRetry);
        Retries(p, s0, now);
        SendRespKeeps(s1, m, now);
        hide SendResp, SetState, Sendable, Acks, Interval, Span, R.OnSchedule;
        var s2 := SendResp(s1, m, now).0;
        MovesTo(p, s2.(copies := s2.copies + [now]), WaitAck, now);
        MovesTo(p, s2, InternalErr, now);
      }
    } else {
      NotGivenUp(p, s, e, m, now);
    }
  }

  /** A retransmission of the response: what goes out, and whether its ACK will be matched to
      this server, which depends on what was in the unset variable. */
  lemma RetransmittedId(p: C.Params, s: Server, m: Mids, now: int)
    requires Inv(p, s) && Enabled(s, CoapExpiry, now) && s.coap.left > 0 && Sendable(s)
    ensures var s' := ServerSpec.Step(p, s, CoapExpiry, m, now);
            var mid := if s.resMid == 0 then m.random else m.leftover;
            s'.st.WaitAck?
            && s'.sent == s.sent + [Sent(C.Con, s.code, mid, EncodeResp(s.opts, s.token).0, s.payload, true, now)]
            && (Lookup(s', mid) <==> s.resMid == 0 || m.leftover == s.resMid || m.leftover == 0)
  {
    var s0 := s.(coap := Fired(s.coap));
    Retries(p, s0, now);
    hide SetState, BackOff, R.OnSchedule, EncodeResp, Transmit, Resend;
    CopyGoesOut(p, s0.(st := CoapRetry), m, now);
  }

  lemma CopyGoesOut(p: C.Params, s: Server, m: Mids, now: int)
    requires s.st.CoapRetry? && s.con && s.sep && s.ctrl && Sendable(s)
    ensures var s' := Resend(p, s, m, now);
            var mid := if s.resMid == 0 then m.random else m.leftover;
            s'.st.WaitAck? && s'.ctrl && s'.resMid == (if s.resMid == 0 then m.random else s.resMid)
            && s'.sent == s.sent + [Sent(C.Con, s.code, mid, EncodeResp(s.opts, s.token).0, s.payload, true, now)]
  {
    hide EncodeResp, OnTransition;
    var s1 := Marked(s, m);
    var s2 := SendResp(s, m, now).0;
    assert s2 == s1.(opts := s2.opts, sent := s2.sent);
    KeptInTransition(p, s2.(copies := s2.copies + [now]), WaitAck, now);
  }

  lemma KeptInTransition(p: C.Params, s: Server, next: State, now: int)
    ensures var s' := OnTransition(p, s, next, now);
            s' == s.(sep := s'.sep, coap := s'.coap)
  {
    hide Started, Rearmed;
  }

  /** It repeats the options of the copy before it only if there is no token, which is added
      again, and no fencepost, which is counted again. */
  lemma SameOptionsIff(o: OptSet, token: bytes)
    requires WellFormed(o) && EncodeResp(o, token).1
    ensures EncodeResp(o, token).0 == o <==> token == [] && FenceCount(0, o.list) == 0
  {
    if token == [] {
      AllFencesWritten(0, o.list, ENC_MAX);
    } else {
      TokenPlace(o, token);
    }
  }

  /** The call-back timer is not stopped at the end: it is left pending, on a freed server,
      exactly if it was pending and was not what ended it. */
  lemma LeftPending(p: C.Params, s: Server, e: Event, m: Mids, now: int)
    requires Inv(p, s) && Enabled(s, e, now)
    ensures var s' := ServerSpec.Step(p, s, e, m, now);
            s'.life.Freed? ==> (s'.resched.armed <==> s.resched.armed && !e.ReschedExpiry?)
  {
    if s.st.Fresh? {
      FirstEvent(p, s, e, m, now);
    } else {
      LaterStep(p, s, e, m, now);
    }
    hide ServerSpec.Step;
  }
}
