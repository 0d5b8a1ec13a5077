/** Which messages a server sends, in every run: their order, their IDs, and which of them
    are kept as the reply to the request. */
module ServerSends {
  import opened OptionTable
  import opened OptionCodec
  import opened Timers
  import opened ServerSpec
  import opened ServerRuns
  import C = ClientSpec
  import R = ClientRuns

  // ----------------------------------------------- the message of a later event

  /** Events after the request at which a response is attempted. */
  predicate Attempts(s: Server, e: Event) {
    match e
    case Wakeup(_) => s.st.AckSent?
    case ReschedExpiry(v, _) => s.st.AckSent? && v.Ready?
    case CoapExpiry => s.coap.left > 0
    case Control(t, _) => t.Con? || t.Non? || (t.Ack? && s.st.AckSent?)
    case _ => false
  }

  /** The server as it stands at the attempt. */
  function Attempting(s: Server, e: Event): Server {
    match e
    case Wakeup(edit) => Edited(s, edit)
    case ReschedExpiry(_, edit) => Edited(s.(resched := Fired(s.resched)), edit)
    case CoapExpiry => s.(coap := Fired(s.coap), st := CoapRetry)
    case Control(t, _) => s.(code := if t.Ack? then BAD_REQUEST else INTERNAL_SERVER_ERROR)
    case _ => s
  }

  /** The attempt succeeds: there is a code, and room. */
  predicate Goes(s: Server, e: Event) {
    Attempts(s, e) && Sendable(Attempting(s, e))
  }

  /** An ID is drawn, if there is none, once the code has been looked at. */
  predicate Draws(s: Server, e: Event) {
    Attempts(s, e) && IsResponseCode(Attempting(s, e).code)
  }

  /** A drawn ID of 0 counts as none. */
  function WireMid(s: Server, m: Mids): uint16 {
    if s.resMid == 0 then m.random else m.leftover
  }

  function Message(s: Server, e: Event, m: Mids, now: int): Sent {
    var a := Attempting(s, e);
    Sent(if s.con then C.Con else C.Non, a.code, WireMid(s, m), EncodeResp(a.opts, a.token).0, a.payload,
         s.sibling || !s.st.AckSent?, now)
  }

  /** Between events, after the request has been taken in. */
  predicate Later(s: Server) {
    s.st.AckSent? || (s.st.WaitAck? && s.con && s.sep)
  }

  lemma SetStateSends(p: C.Params, s: Server, next: State, now: int)
    ensures var s' := SetState(p, s, next, now);
            s'.sent == s.sent && s'.resMid == s.resMid && s'.con == s.con
  {
    hide OnTransition, Removed, Legal, IsFinal;
    TransitionSends(p, s, next, now);
  }

  lemma TransitionSends(p: C.Params, s: Server, next: State, now: int)
    ensures var s' := OnTransition(p, s, next, now);
            s'.sent == s.sent && s'.resMid == s.resMid && s'.con == s.con
  {
    hide Started, Rearmed;
  }

  lemma TransmitSends(s: Server, t: C.MsgType, mid: uint16, now: int)
    ensures var s', o := Transmit(s, t, mid, now).0, EncodeResp(s.opts, s.token);
            s'.resMid == s.resMid && s'.con == s.con
            && s'.sent == s.sent + (if o.1 then [Sent(t, s.code, mid, o.0, s.payload, s.sibling, now)] else [])
  {
    hide EncodeResp;
  }

  lemma MarkedSends(s: Server, m: Mids)
    ensures var s' := Marked(s, m);
            s'.sent == s.sent && s'.con == s.con && s'.code == s.code && s'.opts == s.opts && s'.token == s.token
            && s'.payload == s.payload && s'.sibling == (s.sibling || !s.st.AckSent?)
            && s'.resMid == if IsResponseCode(s.code) && !Piggybacks(s) && s.resMid == 0 then m.random else s.resMid
  {}

  /** What an attempt sends and records, whatever its kind. */
  lemma RespSends(s: Server, m: Mids, now: int)
    ensures var s', o := SendResp(s, m, now).0, EncodeResp(s.opts, s.token).0;
            s'.con == s.con
            && s'.sent == s.sent + (if Sendable(s) then
                                      [Sent(RespType(s), s.code, RespMid(s, m), o, s.payload,
                                            s.sibling || !s.st.AckSent?, now)]
                                    else [])
            && s'.resMid == if IsResponseCode(s.code) && !Piggybacks(s) && s.resMid == 0 then m.random else s.resMid
  {
    hide EncodeResp, Transmit, Marked, Piggybacks, IsResponseCode;
    MarkedSends(s, m);
    TransmitSends(Marked(s, m), RespType(s), RespMid(s, m), now);
  }

  /** What a step leaves of an attempt. */
  predicate LikeAttempt(s: Server, e: Event, m: Mids, now: int, s': Server) {
    var a := if Attempts(s, e) then SendResp(Attempting(s, e), m, now).0 else s;
    s'.sent == a.sent && s'.resMid == a.resMid && s'.con == a.con
  }

  lemma ReadySends(p: C.Params, s: Server, m: Mids, now: int)
    requires s.st.AckSent? || s.st.WaitAck?
    ensures var s', a := MakeReady(p, s, m, now).0, if s.st.AckSent? then SendResp(s, m, now).0 else s;
            s'.sent == a.sent && s'.resMid == a.resMid && s'.con == a.con
  {
    hide SendResp, SetState;
    var s1 := SendResp(s, m, now).0;
    SetStateSends(p, s1.(copies := [now]), WaitAck, now);
    SetStateSends(p, s1, RespDone, now);
  }

  lemma EditedSends(s: Server, edit: Edit)
    ensures var s' := Edited(s, edit);
            s'.sent == s.sent && s'.resMid == s.resMid && s'.con == s.con && s'.st == s.st && s'.token == s.token
            && s'.sibling == s.sibling && s'.sep == s.sep
  {}

  lemma UserSends(p: C.Params, s: Server, e: Event, m: Mids, now: int)
    requires (s.st.AckSent? || s.st.WaitAck?) && (e.Wakeup? || e.ReschedExpiry?)
    ensures LikeAttempt(s, e, m, now, ServerSpec.Step(p, s, e, m, now))
  {
    hide SendResp, SetState, MakeReady, Edited;
    match e
    case Wakeup(edit) =>
      EditedSends(s, edit);
      ReadySends(p, Edited(s, edit), m, now);
    case ReschedExpiry(v, edit) =>
      var s0 := s.(resched := Fired(s.resched));
      EditedSends(s0, edit);
      ReadySends(p, Edited(s0, edit), m, now);
      SetStateSends(p, UserFn(p, s0, v, edit, m, now).0, InternalErr, now);
  }

  lemma ControlSends(p: C.Params, s: Server, e: Event, m: Mids, now: int)
    requires Later(s) && e.Control?
    ensures LikeAttempt(s, e, m, now, ServerSpec.Step(p, s, e, m, now))
  {
    hide SendResp, SetState;
    SetStateSends(p, s, ClientRst, now);
    SetStateSends(p, s, RespDone, now);
    SetStateSends(p, SendResp(Attempting(s, e), m, now).0, InternalErr, now);
  }

  lemma ExpirySends(p: C.Params, s: Server, m: Mids, now: int)
    requires s.st.WaitAck?
    ensures LikeAttempt(s, CoapExpiry, m, now, ServerSpec.Step(p, s, CoapExpiry, m, now))
  {
    var s0, a := s.(coap := Fired(s.coap)), Attempting(s, CoapExpiry);
    hide SendResp, SetState, UserFn, OnControl, Opened;
    Retries(p, s0, now);
    SetStateSends(p, s0, RespAckTimeout, now);
    var s1 := SendResp(a, m, now).0;
    SetStateSends(p, s1.(copies := s1.copies + [now]), WaitAck, now);
    SetStateSends(p, s1, InternalErr, now);
  }

  lemma AttemptIsSeparate(s: Server, e: Event)
    requires Later(s) && (e.CoapExpiry? ==> s.st.WaitAck?)
    ensures var a := Attempting(s, e);
            !Piggybacks(a) && RespType(a) == (if s.con then C.Con else C.Non) && a.sent == s.sent && a.con == s.con
            && a.resMid == s.resMid && (a.sibling || !a.st.AckSent?) == (s.sibling || !s.st.AckSent?)
  {
    hide AddEach;
  }

  lemma InvLater(p: C.Params, s: Server)
    requires Inv(p, s) && s.life.Live? && !s.st.Fresh?
    ensures Later(s)
  {
    hide BackOff;
  }

  /** Every event after the request sends the message described, or none. */
  lemma StepSends(p: C.Params, s: Server, e: Event, m: Mids, now: int)
    requires Inv(p, s) && Enabled(s, e, now) && !s.st.Fresh?
    ensures var s' := ServerSpec.Step(p, s, e, m, now);
            s'.sent == s.sent + (if Goes(s, e) then [Message(s, e, m, now)] else [])
            && s'.resMid == (if Draws(s, e) && s.resMid == 0 then m.random else s.resMid) && s'.con == s.con
  {
    InvLater(p, s);
    assert e.CoapExpiry? ==> s.st.WaitAck? by { ArmedWaits(p, s); }
    hide Inv, Enabled;
    match e {
      case Wakeup(_) => UserSends(p, s, e, m, now);
      case ReschedExpiry(_, _) => UserSends(p, s, e, m, now);
      case Control(_, _) => ControlSends(p, s, e, m, now);
      case CoapExpiry => ExpirySends(p, s, m, now);
      case _ =>
    }
    hide ServerSpec.Step, SendResp, EncodeResp, Attempts, Attempting, IsResponseCode, Sendable;
    AttemptIsSeparate(s, e);
    RespSends(Attempting(s, e), m, now);
  }

  lemma ArmedWaits(p: C.Params, s: Server)
    requires Inv(p, s) && s.life.Live? && !s.st.Fresh?
    ensures s.coap.armed ==> s.st.WaitAck?
  {
    hide BackOff;
  }

  /** The request stays the same. */
  lemma SameRequest(p: C.Params, s: Server, e: Event, m: Mids, now: int)
    requires Inv(p, s) && Enabled(s, e, now) && !s.st.Fresh?
    ensures ServerSpec.Step(p, s, e, m, now).mid == s.mid
  {
    hide SendResp, BackOff, R.OnSchedule, Sendable, AddEach, Acks;
    match e
    case Wakeup(edit) => SendRespKeeps(Edited(s, edit), m, now);
    case ReschedExpiry(_, edit) => SendRespKeeps(Edited(s.(resched := Fired(s.resched)), edit), m, now);
    case CoapExpiry => SameRequestAgain(p, s, m, now);
    case Control(_, _) => SendRespKeeps(Attempting(s, e), m, now);
    case _ =>
  }

  lemma SameRequestAgain(p: C.Params, s: Server, m: Mids, now: int)
    requires Inv(p, s) && Enabled(s, CoapExpiry, now) && !s.st.Fresh?
    ensures ServerSpec.Step(p, s, CoapExpiry, m, now).mid == s.mid
  {
    hide SendResp, BackOff, R.OnSchedule, Sendable, AddEach, Acks;
    Retries(p, s.(coap := Fired(s.coap)), now);
    SendRespKeeps(Attempting(s, CoapExpiry), m, now);
  }

  /** Events find the server as its object expects it. */
  lemma Timely(p: C.Params, s: Server, e: Event, now: int)
    requires Inv(p, s) && Enabled(s, e, now) && !s.st.Fresh?
    ensures !s.st.CoapRetry? && !e.Request? && !e.Unhandled?
    ensures e.CoapExpiry? ==> s.coap.present && s.st.WaitAck?
  {
    hide BackOff;
  }

  /** A response that goes out takes the server to waiting for its ACK, or to the end. */
  lemma StepMoves(p: C.Params, s: Server, e: Event, m: Mids, now: int)
    requires Inv(p, s) && Enabled(s, e, now) && !s.st.Fresh?
    ensures var s' := ServerSpec.Step(p, s, e, m, now);
            (s'.life.Live? && s'.st.AckSent? ==> s.st.AckSent? && !Goes(s, e))
            && (s'.life.Live? && s'.st.WaitAck? ==> s.st.WaitAck? || Goes(s, e))
  {
    hide SendResp, BackOff, R.OnSchedule, Sendable, AddEach;
    match e
    case Wakeup(edit) => SendRespKeeps(Edited(s, edit), m, now);
    case ReschedExpiry(_, edit) => SendRespKeeps(Edited(s.(resched := Fired(s.resched)), edit), m, now);
    case CoapExpiry => Retries(p, s.(coap := Fired(s.coap)), now);
    case _ =>
  }

  // ------------------------------------------------- the message of the request

  /** Nothing, or one message that is kept: an ACK if one is due, with or without a code. */
  predicate OneAtMost(con: bool, sent: seq<Sent>, empty: bool) {
    |sent| <= 1
    && forall x :: x in sent ==> x.kept && x.t == (if con then C.Ack else C.Non) && (x.code == 0 <==> empty)
  }

  predicate FirstMessage(e: Event, s: Server)
    requires e.Request? || e.Unhandled?
  {
    var waits := e.Request? && e.v.Wait?;
    s.con == e.con && OneAtMost(e.con, s.sent, waits)
    && (waits ==> |s.sent| == if e.con then 1 else 0)
    && (s.life.Live? ==> s.st.AckSent? && waits)
  }

  lemma AtOnceSends(s: Server, m: Mids, now: int)
    requires s.st.ReqOk? && !s.sep && s.sent == []
    ensures var s' := SendResp(s, m, now).0;
            s'.con == s.con && OneAtMost(s.con, s'.sent, false)
  {
    RespSends(s, m, now);
    hide SendResp, EncodeResp;
  }

  lemma FailAtOnce(p: C.Params, s: Server, code: nat, m: Mids, now: int)
    requires s.st.ReqOk? && !s.sep && s.sent == []
    ensures var s' := Fail(p, s, code, m, now);
            s'.con == s.con && OneAtMost(s.con, s'.sent, false) && !s'.life.Live?
  {
    hide SendResp, OneAtMost, SetState;
    AtOnceSends(s.(code := code), m, now);
    SetStateSends(p, SendResp(s.(code := code), m, now).0, InternalErr, now);
    FinalEnds(p, SendResp(s.(code := code), m, now).0, InternalErr, now);
  }

  lemma ReadySendsAtOnce(p: C.Params, s: Server, m: Mids, now: int)
    requires s.st.ReqOk? && !s.sep && s.sent == []
    ensures var (s', ok) := MakeReady(p, s, m, now);
            ok ==> s'.con == s.con && OneAtMost(s.con, s'.sent, false) && !s'.life.Live?
  {
    hide SendResp, OneAtMost, SetState;
    AtOnceSends(s, m, now);
    SetStateSends(p, SendResp(s, m, now).0, RespDone, now);
    FinalEnds(p, SendResp(s, m, now).0, RespDone, now);
  }

  lemma WaitSendsAtOnce(p: C.Params, s: Server, seconds: nat, now: int)
    requires JustOpened(p, s)
    ensures var s' := Postpone(p, s, seconds, now).0;
            s'.con == s.con && s'.st.AckSent? && |s'.sent| == (if s.con then 1 else 0)
            && OneAtMost(s.con, s'.sent, true)
  {}

  lemma FinalEnds(p: C.Params, s: Server, next: State, now: int)
    requires IsFinal(next)
    ensures !SetState(p, s, next, now).life.Live?
  {}

  lemma RequestSends(p: C.Params, s0: Server, e: Event, m: Mids, now: int)
    requires e.Request? && JustOpened(p, s0) && !s0.sibling && s0.con == e.con
    ensures var (s2, ok) := UserFn(p, s0, e.v, e.edit, m, now);
            FirstMessage(e, if ok then s2 else Fail(p, s2, INTERNAL_SERVER_ERROR, e.again, now))
  {
    var s1 := Edited(s0, e.edit);
    UserFnAtOnce(p, s0, e.v, e.edit, m, now);
    assert JustOpened(p, s1) && s1.con == e.con;
    hide MakeReady, Postpone, Fail, Inv, Sendable, Acks, OneAtMost, Untaken, Edited;
    if e.v.Wait? {
      WaitSendsAtOnce(p, s1, e.v.seconds, now);
    } else if e.v.Ready? {
      ReadySendsAtOnce(p, s1, m, now);
    }
    var (s2, ok) := UserFn(p, s0, e.v, e.edit, m, now);
    if !ok {
      FailAtOnce(p, s2, INTERNAL_SERVER_ERROR, e.again, now);
    }
  }

  lemma FirstSends(p: C.Params, e: Event, m: Mids, now: int)
    requires p.retries >= 1 && (e.Request? || e.Unhandled?)
    ensures FirstMessage(e, ServerSpec.Step(p, NEW_SERVER, e, m, now))
  {
    NewServerInv(p);
    var proxied := e.Request? && e.proxied;
    OpenKeeps(p, NEW_SERVER, e.con, e.mid, e.token, proxied, now);
    var s0 := Opened(p, NEW_SERVER, e.con, e.mid, e.token, proxied, now);
    if e.Request? {
      hide UserFn, Fail, FirstMessage, Opened;
      RequestSends(p, s0, e, m, now);
    } else {
      hide SendResp, Opened, SetState, OneAtMost;
      var s1 := s0.(code := NOT_FOUND);
      AtOnceSends(s1, m, now);
      SetStateSends(p, SendResp(s1, m, now).0, RespDone, now);
      FinalEnds(p, SendResp(s1, m, now).0, RespDone, now);
    }
  }

  // ----------------------------------------------------------- whole runs

  /** All that a run has sent: to a confirmable request an ACK first and then separate copies
      of the response, of which only the first is not kept; to another one a response, kept
      if the user did not ask for time. */
  predicate Shape(e: Event, s: Server)
    requires e.Request? || e.Unhandled?
  {
    var n := |s.sent|;
    s.con == e.con
    && (forall k :: 0 <= k < n ==>
          if e.con then
            s.sent[k].t == (if k == 0 then C.Ack else C.Con) && (s.sent[k].kept <==> k != 1)
            && (k == 0 ==> (s.sent[k].code == 0 <==> e.Request? && e.v.Wait?))
          else k == 0 && s.sent[k].t.Non? && (s.sent[k].kept <==> !(e.Request? && e.v.Wait?)))
    && (s.life.Live? ==> e.Request? && e.v.Wait?)
    && (s.life.Live? && s.st.AckSent? ==> n == if e.con then 1 else 0)
    && (s.life.Live? && s.st.WaitAck? ==> e.con && n >= 2)
  }

  lemma FirstShape(e: Event, s: Server)
    requires (e.Request? || e.Unhandled?) && FirstMessage(e, s)
    ensures Shape(e, s)
  {
    assert forall k :: 0 <= k < |s.sent| ==> s.sent[k] in s.sent;
  }

  lemma ShapeGrows(first: Event, b: Server, s: Server, goes: bool, x: Sent)
    requires (first.Request? || first.Unhandled?) && Shape(first, b)
    requires b.life.Live? && (b.st.AckSent? || b.st.WaitAck?) && s.con == b.con
    requires s.sent == b.sent + if goes then [x] else []
    requires x.t == (if b.con then C.Con else C.Non) && (x.kept <==> !b.st.AckSent?)
    requires s.life.Live? && s.st.AckSent? ==> b.st.AckSent? && !goes
    requires s.life.Live? && s.st.WaitAck? ==> (b.st.WaitAck? || goes) && s.con
    ensures Shape(first, s)
  {
    assert forall k :: 0 <= k < |b.sent| ==> s.sent[k] == b.sent[k];
  }

  lemma LaterShape(p: C.Params, first: Event, b: Server, e: Event, m: Mids, now: int)
    requires (first.Request? || first.Unhandled?) && Shape(first, b)
    requires Inv(p, b) && Enabled(b, e, now) && !b.st.Fresh?
    ensures Shape(first, ServerSpec.Step(p, b, e, m, now))
  {
    var s := ServerSpec.Step(p, b, e, m, now);
    StepSends(p, b, e, m, now);
    StepMoves(p, b, e, m, now);
    LaterStep(p, b, e, m, now);
    Quiet(p, b, e, now);
    Waits(p, s);
    hide ServerSpec.Step, Goes, Enabled, Inv, Acks, Attempting, Shape, EncodeResp;
    ShapeGrows(first, b, s, Goes(b, e), Message(b, e, m, now));
  }

  lemma Waits(p: C.Params, s: Server)
    requires Inv(p, s)
    ensures s.life.Live? && s.st.WaitAck? ==> s.con
  {
    hide BackOff;
  }

  /** An event presupposes a live server that waits for its user, the response not being tied
      to the request yet, or for an ACK. */
  lemma Quiet(p: C.Params, s: Server, e: Event, now: int)
    requires Inv(p, s) && Enabled(s, e, now) && !s.st.Fresh?
    ensures s.life.Live? && (s.st.AckSent? || s.st.WaitAck?) && (s.st.AckSent? ==> !s.sibling)
  {
    hide BackOff;
  }

  lemma {:induction false} RunShape(p: C.Params, run: seq<Timed>, s: Server)
    requires p.retries >= 1 && run != [] && Run(p, run) == Some(s)
    ensures (run[0].e.Request? || run[0].e.Unhandled?) && Shape(run[0].e, s)
    decreases |run|
  {
    hide ServerSpec.Step, Enabled, Shape, Inv;
    var prefix, x := run[..|run| - 1], run[|run| - 1];
    var b := Run(p, prefix).value;
    RunInv(p, prefix, b);
    if prefix == [] {
      FirstEvent(p, b, x.e, x.m, x.at);
      FirstSends(p, x.e, x.m, x.at);
      FirstShape(x.e, s);
    } else {
      assert prefix[0] == run[0];
      RunShape(p, prefix, b);
      LaterShape(p, run[0].e, b, x.e, x.m, x.at);
    }
  }

  /** The reply that is kept: the last of the messages that are. */
  function LastKept(sent: seq<Sent>): Option<Sent> {
    if sent == [] then None
    else if sent[|sent| - 1].kept then Some(sent[|sent| - 1])
    else LastKept(sent[..|sent| - 1])
  }

  /** In every run, the reply kept with an acknowledged confirmable request is the piggybacked
      response or the empty ACK, until the first retransmission, and from then on the last
      copy of the response. */
  lemma KeptReply(p: C.Params, run: seq<Timed>, s: Server)
    requires p.retries >= 1 && run != [] && Run(p, run) == Some(s) && Answered(run[0].e)
    ensures s.sent != [] && s.sent[0].t.Ack? && s.sent[0].mid == run[0].e.mid
    ensures s.sent[0].code == 0 <==> run[0].e.Request? && run[0].e.v.Wait?
    ensures LastKept(s.sent) == Some(if |s.sent| <= 2 then s.sent[0] else s.sent[|s.sent| - 1])
    ensures |s.sent| > 2 ==> s.sent[|s.sent| - 1].t.Con?
  {
    hide Run;
    RunShape(p, run, s);
    RunInv(p, run, s);
    var n := |s.sent|;
    assert run[0].e.con;
    OneAck(s.sent);
    if n == 2 {
      assert s.sent[..1][0] == s.sent[0];
    }
  }

  lemma {:induction false} OneAck(sent: seq<Sent>)
    requires forall k :: 0 <= k < |sent| ==> (sent[k].t.Ack? <==> k == 0)
    ensures Acks(sent) == if sent == [] then [] else [sent[0].mid]
  {
    if |sent| > 1 {
      OneAck(sent[..|sent| - 1]);
    }
  }

  // ------------------------------------------- message IDs of separate responses

  /** The IDs of the confirmable messages sent, in order. */
  function ConIds(sent: seq<Sent>): seq<uint16> {
    if sent == [] then []
    else
      var x := sent[|sent| - 1];
      ConIds(sent[..|sent| - 1]) + (if x.t.Con? then [x.mid] else [])
  }

  /** A confirmable message goes out. */
  predicate Confirms(s: Server, e: Event) {
    s.con && Goes(s, e)
  }

  lemma StepIds(p: C.Params, s: Server, e: Event, m: Mids, now: int)
    requires Inv(p, s) && Enabled(s, e, now) && !s.st.Fresh?
    ensures var s' := ServerSpec.Step(p, s, e, m, now);
            ConIds(s'.sent) == ConIds(s.sent) + MidIf(Confirms(s, e), WireMid(s, m))
            && s'.resMid == if Draws(s, e) && s.resMid == 0 then m.random else s.resMid
  {
    StepSends(p, s, e, m, now);
    hide ServerSpec.Step, Goes, Draws, Message, WireMid, Enabled, Inv, ConIds;
    MessageParts(s, e, m, now);
    ConIdsGrow(s.sent, Message(s, e, m, now));
    assert s.sent + [] == s.sent && ConIds(s.sent) + [] == ConIds(s.sent);
  }

  lemma MessageParts(s: Server, e: Event, m: Mids, now: int)
    ensures Message(s, e, m, now).mid == WireMid(s, m) && (Message(s, e, m, now).t.Con? <==> s.con)
  {
    hide EncodeResp, Attempting;
  }

  lemma ConIdsGrow(sent: seq<Sent>, x: Sent)
    ensures ConIds(sent + [x]) == ConIds(sent) + MidIf(x.t.Con?, x.mid)
  {
    assert (sent + [x])[..|sent|] == sent;
  }

  lemma FirstIds(p: C.Params, e: Event, m: Mids, now: int)
    requires p.retries >= 1 && (e.Request? || e.Unhandled?)
    ensures ConIds(ServerSpec.Step(p, NEW_SERVER, e, m, now).sent) == []
  {
    FirstSends(p, e, m, now);
    hide ServerSpec.Step;
    var sent := ServerSpec.Step(p, NEW_SERVER, e, m, now).sent;
    if sent != [] {
      assert sent[0] in sent;
      assert ConIds(sent[..0]) == [];
    }
  }

  /** Confirmable messages in a run so far. */
  function Confirmables(p: C.Params, run: seq<Timed>): nat {
    if run == [] then 0
    else
      var n := |run| - 1;
      Confirmables(p, run[..n])
      + match Run(p, run[..n])
        case None => 0
        case Some(b) => if Confirms(b, run[n].e) then 1 else 0
  }

  /** Each time a response goes out, its ID is the one that is recorded: drawn now, while no
      confirmable message has gone out under a drawn 0, or left in the unset variable. */
  predicate Reuses(p: C.Params, run: seq<Timed>) {
    run == []
    || (var n := |run| - 1;
        Reuses(p, run[..n])
        && match Run(p, run[..n])
           case None => true
           case Some(b) =>
             var x := run[n];
             if b.resMid == 0 then Draws(b, x.e) && x.m.random != 0 ==> Confirmables(p, run[..n]) == 0
             else Confirms(b, x.e) ==> x.m.leftover == b.resMid)
  }

  predicate AllAre(ids: seq<uint16>, id: uint16) {
    forall k :: 0 <= k < |ids| ==> ids[k] == id
  }

  predicate AllSame(ids: seq<uint16>) {
    forall j, k :: 0 <= j < k < |ids| ==> ids[j] == ids[k]
  }

  lemma OneMore(ids: seq<uint16>, id: uint16, draws: bool, confirms: bool, m: Mids)
    requires (confirms ==> draws) && (id == 0 ==> AllAre(ids, 0))
    ensures var id' := if draws && id == 0 then m.random else id;
            var ids' := ids + MidIf(confirms, if id == 0 then m.random else m.leftover);
            AllAre(ids', id') <==>
              AllAre(ids, id) && if id == 0 then draws && m.random != 0 ==> ids == []
                                 else confirms ==> m.leftover == id
    ensures var id' := if draws && id == 0 then m.random else id;
            id' == 0 ==> AllAre(ids + MidIf(confirms, if id == 0 then m.random else m.leftover), 0)
  {
    var id' := if draws && id == 0 then m.random else id;
    var ids' := ids + MidIf(confirms, if id == 0 then m.random else m.leftover);
    assert forall k :: 0 <= k < |ids| ==> ids'[k] == ids[k];
    if confirms {
      assert ids'[|ids|] == if id == 0 then m.random else m.leftover;
    }
    if ids != [] {
      assert ids'[0] == ids[0];
    }
  }

  lemma {:induction false} ConfirmablesCount(p: C.Params, run: seq<Timed>, s: Server)
    requires p.retries >= 1 && Run(p, run) == Some(s)
    ensures |ConIds(s.sent)| == Confirmables(p, run)
    decreases |run|
  {
    assert ConIds(NEW_SERVER.sent) == [];
    hide ServerSpec.Step, Enabled, ConIds, Inv, Confirms;
    if run != [] {
      var n := |run| - 1;
      var b := Run(p, run[..n]).value;
      ConfirmablesCount(p, run[..n], b);
      RunInv(p, run[..n], b);
      if n == 0 {
        FirstEvent(p, b, run[n].e, run[n].m, run[n].at);
        FirstIds(p, run[n].e, run[n].m, run[n].at);
        NotBefore(b, run[n].e);
      } else {
        StepIds(p, b, run[n].e, run[n].m, run[n].at);
      }
    }
  }

  lemma NotBefore(s: Server, e: Event)
    requires e.Request? || e.Unhandled?
    ensures !Confirms(s, e) && !Draws(s, e)
  {}

  /** In every run, all copies of a separate response carry the ID that is recorded, and by
      which their ACKs are matched, exactly if each of them was sent so. */
  lemma {:induction false} SameIdIff(p: C.Params, run: seq<Timed>, s: Server)
    requires p.retries >= 1 && Run(p, run) == Some(s)
    ensures s.resMid == 0 ==> AllAre(ConIds(s.sent), 0)
    ensures AllAre(ConIds(s.sent), s.resMid) <==> Reuses(p, run)
    decreases |run|
  {
    assert ConIds(NEW_SERVER.sent) == [];
    hide ServerSpec.Step, Enabled, ConIds, Inv, Confirms, Draws, Confirmables;
    if run != [] {
      var n := |run| - 1;
      var b, x := Run(p, run[..n]).value, run[n];
      SameIdIff(p, run[..n], b);
      RunInv(p, run[..n], b);
      ConfirmablesCount(p, run[..n], b);
      if n == 0 {
        FirstEvent(p, b, x.e, x.m, x.at);
        FirstIds(p, x.e, x.m, x.at);
        NotBefore(b, x.e);
      } else {
        StepIds(p, b, x.e, x.m, x.at);
        ConfirmsDraws(b, x.e);
        OneMore(ConIds(b.sent), b.resMid, Draws(b, x.e), Confirms(b, x.e), x.m);
      }
    }
  }

  lemma ConfirmsDraws(s: Server, e: Event)
    ensures Confirms(s, e) ==> Draws(s, e)
  {
    hide EncodeResp;
  }

  /** Whatever the generator and the unset variable yield at any one event, the copies sent
      until then agree. */
  ghost predicate SameWhatever(p: C.Params, run: seq<Timed>) {
    forall n: nat, m: Mids, s: Server ::
      n < |run| && Run(p, run[..n] + [run[n].(m := m)]) == Some(s) ==> AllSame(ConIds(s.sent))
  }

  /** That is so exactly if there is at most one copy. */
  lemma SameWhateverIff(p: C.Params, run: seq<Timed>)
    requires p.retries >= 1 && Run(p, run).Some?
    ensures SameWhatever(p, run) <==> Confirmables(p, run) <= 1
  {
    hide Confirmables, ConIds, Run;
    if Confirmables(p, run) <= 1 {
      forall n: nat, m: Mids, s: Server
        | n < |run| && Run(p, run[..n] + [run[n].(m := m)]) == Some(s)
        ensures AllSame(ConIds(s.sent))
      {
        ConfirmablesCount(p, run[..n] + [run[n].(m := m)], s);
        SameCount(p, run, n, m);
        FewerBefore(p, run, n + 1);
      }
    } else {
      var n, m, s := Differing(p, run);
      assert !AllSame(ConIds(s.sent));
    }
  }

  lemma SameCount(p: C.Params, run: seq<Timed>, n: nat, m: Mids)
    requires n < |run|
    ensures Confirmables(p, run[..n] + [run[n].(m := m)]) == Confirmables(p, run[..n + 1])
  {
    var run' := run[..n] + [run[n].(m := m)];
    assert run'[..n] == run[..n] && run[..n + 1][..n] == run[..n];
  }

  lemma {:induction false} FewerBefore(p: C.Params, run: seq<Timed>, n: nat)
    requires n <= |run|
    ensures Confirmables(p, run[..n]) <= Confirmables(p, run)
    decreases |run| - n
  {
    if n < |run| {
      FewerBefore(p, run, n + 1);
      assert run[..n + 1][..n] == run[..n];
    } else {
      assert run[..n] == run;
    }
  }

  /** Where a second confirmable message goes out, other contents make it differ. */
  lemma {:induction false} Differing(p: C.Params, run: seq<Timed>) returns (n: nat, m: Mids, s: Server)
    requires p.retries >= 1 && Run(p, run).Some? && Confirmables(p, run) >= 2
    ensures n < |run| && Run(p, run[..n] + [run[n].(m := m)]) == Some(s) && !AllSame(ConIds(s.sent))
    decreases |run|
  {
    hide ServerSpec.Step, Enabled, ConIds, Inv, Confirms;
    var k := |run| - 1;
    var prefix := run[..k];
    var b := Run(p, prefix).value;
    if Confirmables(p, prefix) >= 2 {
      n, m, s := Differing(p, prefix);
      assert prefix[..n] == run[..n];
    } else {
      n := k;
      ConfirmablesCount(p, prefix, b);
      RunInv(p, prefix, b);
      var other: uint16 := if ConIds(b.sent)[0] == 0 then 1 else 0;
      m := Mids(other, other);
      var run' := prefix + [run[n].(m := m)];
      assert run'[..k] == prefix && prefix != [];
      s := ServerSpec.Step(p, b, run[n].e, m, run[n].at);
      StepIds(p, b, run[n].e, m, run[n].at);
      assert ConIds(s.sent)[0] == ConIds(b.sent)[0] && ConIds(s.sent)[1] == other;
    }
  }

  // ------------------------------------------------------------ runs that differ

  /** The request of these runs: the user asks for ten seconds. */
  const ASKED := Request(true, 7, [], false, Wait(10), Edit(None, [], []), Mids(0, 0))

  const ACKED := Server(AckSent, true, false, 7, [], 0, NO_OPTIONS, [], 0, true, false, false,
                        UNUSED, TimerView(true, true, 10, 1, 10), C.Live,
                        [Sent(C.Ack, 0, 7, NO_OPTIONS, [], true, 0)], [])

  const WOKEN := Wakeup(Edit(Some(69), [], []))

  function Awaiting(m: Mids): Server {
    ACKED.(st := WaitAck, code := 69, resMid := m.random, sep := true,
           coap := TimerView(true, true, 3, 4, 2), copies := [1],
           sent := ACKED.sent + [Sent(C.Con, 69, m.random, NO_OPTIONS, [], false, 1)])
  }

  lemma AskedStep()
    ensures Enabled(NEW_SERVER, ASKED, 0) && ServerSpec.Step(C.COAP, NEW_SERVER, ASKED, Mids(0, 0), 0) == ACKED
  {
    assert AddEach(NO_OPTIONS, []) == NO_OPTIONS;
    assert [] + [Sent(C.Ack, 0, 7, NO_OPTIONS, [], true, 0)] == [Sent(C.Ack, 0, 7, NO_OPTIONS, [], true, 0)];
  }

  lemma WokenStep(m: Mids)
    ensures Enabled(ACKED, WOKEN, 1) && ServerSpec.Step(C.COAP, ACKED, WOKEN, m, 1) == Awaiting(m)
  {
    assert AddEach(NO_OPTIONS, []) == NO_OPTIONS;
    NoOptionsEncoded();
    hide EncodeResp;
  }

  lemma NoOptionsEncoded()
    ensures EncodeResp(NO_OPTIONS, []) == (NO_OPTIONS, true)
  {}

  lemma OneMoreEvent(p: C.Params, run: seq<Timed>, b: Server, x: Timed)
    requires run != [] && Run(p, run) == Some(b) && Enabled(b, x.e, x.at) && run[|run| - 1].at <= x.at
    ensures Run(p, run + [x]) == Some(ServerSpec.Step(p, b, x.e, x.m, x.at))
  {
    hide ServerSpec.Step, Enabled;
    assert (run + [x])[..|run|] == run;
  }

  lemma RunOfTwo(m: Mids)
    ensures Run(C.COAP, [Timed(ASKED, Mids(0, 0), 0), Timed(WOKEN, m, 1)]) == Some(Awaiting(m))
  {
    var x, y := Timed(ASKED, Mids(0, 0), 0), Timed(WOKEN, m, 1);
    AskedStep();
    WokenStep(m);
    hide ServerSpec.Step, Enabled, Awaiting;
    assert [x][..0] == [] && [x] + [y] == [x, y];
    assert Run(C.COAP, [x]) == Some(ACKED);
    hide Run;
    OneMoreEvent(C.COAP, [x], ACKED, y);
  }

  lemma CopyStep(m1: Mids, m2: Mids)
    ensures Enabled(Awaiting(m1), CoapExpiry, 3) && Confirms(Awaiting(m1), CoapExpiry)
    ensures ConIds(Awaiting(m1).sent) == [m1.random]
  {
    NoOptionsEncoded();
    hide EncodeResp;
    assert Awaiting(m1).sent[..1] == ACKED.sent && ACKED.sent[..0] == [];
    assert ConIds(ACKED.sent) == [];
  }

  lemma SecondId(p: C.Params, b: Server, m: Mids, now: int)
    requires Inv(p, b) && Enabled(b, CoapExpiry, now) && !b.st.Fresh? && Confirms(b, CoapExpiry)
    requires ConIds(b.sent) == [b.resMid]
    ensures ConIds(ServerSpec.Step(p, b, CoapExpiry, m, now).sent)
            == [b.resMid, if b.resMid == 0 then m.random else m.leftover]
  {
    hide ServerSpec.Step, ConIds, Inv, Enabled, Confirms, Draws;
    StepIds(p, b, CoapExpiry, m, now);
  }

  /** Two copies: for any contents there is a run in which the second carries a new ID, if the
      first was 0, and otherwise what the unset variable held.  So they differ for a drawn 0
      followed by another number, and for any other left-over. */
  lemma TwoCopies(m1: Mids, m2: Mids) returns (run: seq<Timed>, s: Server)
    ensures Run(C.COAP, run) == Some(s) && |run| == 3 && run[1].m == m1 && run[2].m == m2
    ensures ConIds(s.sent) == [m1.random, if m1.random == 0 then m2.random else m2.leftover]
  {
    var b := Awaiting(m1);
    var prefix, x := [Timed(ASKED, Mids(0, 0), 0), Timed(WOKEN, m1, 1)], Timed(CoapExpiry, m2, 3);
    run, s := prefix + [x], ServerSpec.Step(C.COAP, b, x.e, m2, 3);
    RunOfTwo(m1);
    CopyStep(m1, m2);
    assert !b.st.Fresh? && b.resMid == m1.random;
    hide ServerSpec.Step, Run, Inv, Enabled, Confirms, ConIds, Awaiting, Acks, Answered;
    RunInv(C.COAP, prefix, b);
    OneMoreEvent(C.COAP, prefix, b, x);
    SecondId(C.COAP, b, m2, 3);
  }

  lemma AckStep(m: Mids)
    ensures var b, e := Awaiting(m), Control(C.Ack, m.random);
            var s := ServerSpec.Step(C.COAP, b, e, m, 2);
            Enabled(b, e, 2) && s.life.Freed? && s.st.RespDone? && s.resched.armed
  {}

  /** A run that ends with the call-back timer left pending: the user wakes the server up
      before the time asked for, and the ACK of the response arrives. */
  lemma WokenEarly(m: Mids) returns (run: seq<Timed>, s: Server)
    ensures Run(C.COAP, run) == Some(s) && s.life.Freed? && s.st.RespDone? && s.resched.armed
  {
    var prefix, x := [Timed(ASKED, Mids(0, 0), 0), Timed(WOKEN, m, 1)], Timed(Control(C.Ack, m.random), m, 2);
    run, s := prefix + [x], ServerSpec.Step(C.COAP, Awaiting(m), x.e, m, 2);
    RunOfTwo(m);
    AckStep(m);
    hide ServerSpec.Step, Run, Enabled, Awaiting;
    OneMoreEvent(C.COAP, prefix, Awaiting(m), x);
  }
}
