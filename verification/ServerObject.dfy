/** The server transaction object: every method is the corresponding event of ServerSpec,
    with the response options in a pool. */
module ServerObject {
  import opened OptionTable
  import opened Options
  import opened OptionCodec
  import opened OptionList
  import opened Timers
  import opened ServerSpec
  import C = ClientSpec

  class Handler {
    const p: C.Params
    const res: Pool
    const coap: Timer
    const resched: Timer
    var st: State
    var con: bool
    var proxied: bool
    var mid: uint16
    var token: bytes
    var code: nat
    var payload: bytes
    var resMid: uint16
    var ctrl: bool
    var sep: bool
    var sibling: bool
    var life: C.Life
    /** The messages sent so far. */
    var sent: seq<Sent>
    ghost var copies: seq<int>

    ghost function Repr(): set<object> {
      {this, res, res.enc, coap, resched}
    }

    ghost predicate Valid()
      reads res
    {
      coap != resched && res.Valid()
    }

    function Opts(): OptSet
      reads res
    {
      OptSet(res.bundle, res.noptions)
    }

    ghost function View(): Server
      reads this, res, coap, resched
    {
      Server(st, con, proxied, mid, token, code, Opts(), payload, resMid, ctrl, sep, sibling,
             coap.View(), resched.View(), life, sent, copies)
    }

    constructor (p: C.Params)
      ensures Valid() && fresh(Repr()) && this.p == p
      ensures View() == NEW_SERVER
    {
      this.p := p;
      res := new Pool();
      coap := new Timer();
      resched := new Timer();
      st, con, proxied, mid, token, code := Fresh, false, false, 0, [], 0;
      payload, resMid, ctrl, sep, sibling, life, sent, copies := [], 0, false, false, false, C.Live, [], [];
    }

    // -------------------------------------------------------------- transitions

    method StartCoapTimer(now: int)
      modifies coap
      ensures coap.View() == Started(old(coap.View()).(tout := p.tout), now, p.retries)
    {
      coap.tout := p.tout;
      var _ := coap.Start(now, p.retries);
    }

    /** Does nothing when the retransmissions are used up. */
    method RestartCoapTimer(now: int)
      requires coap.present
      modifies coap
      ensures coap.View() == if old(coap.retriesLeft) == 0 then old(coap.View())
                             else Rearmed(old(coap.View()).(tout := 2 * old(coap.tout),
                                                            left := old(coap.retriesLeft) - 1), now)
    {
      if coap.retriesLeft == 0 {
        return;
      }
      coap.tout := coap.tout * 2;
      coap.retriesLeft := coap.retriesLeft - 1;
      coap.Restart(now);
    }

    method TimersFor(next: State, now: int)
      requires Valid() && (st.CoapRetry? ==> coap.present)
      modifies this`sep, coap
      ensures View() == OnTransition(p, old(View()), next, now)
    {
      hide Started, Rearmed;
      if next.WaitAck? {
        if st.AckSent? {
          sep := true;
          StartCoapTimer(now);
        } else if st.CoapRetry? {
          RestartCoapTimer(now);
        }
      }
    }

    method SetState(next: State, now: int)
      requires Valid() && (st.CoapRetry? ==> coap.present)
      modifies this`st, this`sep, this`life, coap
      ensures View() == ServerSpec.SetState(p, old(View()), next, now)
    {
      hide OnTransition, Legal, IsFinal, Removed;
      if !Legal(st, next) {
        life := C.Aborted;
        return;
      }
      TimersFor(next, now);
      st := next;
      if IsFinal(st) {
        coap.Remove();
        life := C.Freed;
      }
    }

    // -------------------------------------------------------------------- sending

    /** Adds the token once more, and encodes. */
    method EncodeOptions() returns (ok: bool)
      requires Valid()
      modifies res, res.enc
      ensures Valid() && (Opts(), ok) == EncodeResp(old(Opts()), token)
    {
      hide SizeFrom, FencesWritten, EncodeFrom, FenceCount;
      if token != [] {
        if |token| > TOKEN_MAX {
          return false;
        }
        ok := res.AddRaw(TOKEN, token);
        if !ok {
          return false;
        }
      }
      ok := res.Encode();
    }

    method SendResponse(random: uint16, leftover: uint16, now: int) returns (ok: bool)
      requires Valid()
      modifies this`sibling, this`resMid, this`sent, res, res.enc
      ensures Valid() && (View(), ok) == SendResp(old(View()), Mids(random, leftover), now)
    {
      hide EncodeResp;
      if !st.AckSent? {
        sibling := true;
      }
      if !IsResponseCode(code) {
        return false;
      }
      var t, wire := C.Ack, mid;
      if !(con && !sep && !st.AckSent?) {
        t := if con then C.Con else C.Non;
        wire := leftover;
        if resMid == 0 {
          wire := random;
          resMid := random;
        }
      }
      ok := EncodeOptions();
      if ok {
        sent := sent + [Sent(t, code, wire, Opts(), payload, sibling, now)];
      }
    }

    method SendSeparateAck(now: int)
      modifies this`ctrl, this`sent
      ensures View() == SendAck(old(View()), now)
    {
      ctrl := true;
      sent := sent + [Sent(C.Ack, 0, mid, OptSet([], 0), [], true, now)];
    }

    // ------------------------------------------------------------------ the user

    method ResponseReady(random: uint16, leftover: uint16, now: int) returns (ok: bool)
      requires Valid()
      modifies Repr()
      ensures Valid()
      ensures (View(), ok) == MakeReady(p, old(View()), Mids(random, leftover), now)
    {
      hide SendResp, ServerSpec.SetState;
      if !st.AckSent? && !st.ReqOk? {
        return false;
      }
      SendRespKeepsState(View(), Mids(random, leftover), now);
      ok := SendResponse(random, leftover, now);
      if !ok {
        return false;
      }
      if con && st.AckSent? {
        copies := [now];
        SetState(WaitAck, now);
      } else {
        SetState(RespDone, now);
      }
    }

    /** What the user does to the response: sets its code, adds options and a payload. */
    method Edit(e: Edit)
      requires Valid()
      modifies this`code, this`payload, res
      ensures Valid() && View() == Edited(old(View()), e)
    {
      hide Add;
      if e.code.Some? && IsResponseCode(e.code.value) {
        code := e.code.value;
      }
      if e.payload != [] {
        payload := e.payload;
      }
      var i := 0;
      while i < |e.adds|
        invariant 0 <= i <= |e.adds| && res.Valid() && Opts() == AddEach(old(Opts()), e.adds[..i])
        modifies res
      {
        assert e.adds[..i + 1][..i] == e.adds[..i];
        AddOption(e.adds[i]);
        i := i + 1;
      }
      assert e.adds[..i] == e.adds;
    }

    method AddOption(a: Addition)
      requires res.Valid()
      modifies res
      ensures res.Valid() && Opts() == Add(old(Opts()), a)
    {
      if 1 <= a.sym <= 18 {
        var _ := res.AddRaw(a.sym, a.v);
      }
    }

    method WaitForUser(seconds: nat, now: int) returns (ok: bool)
      requires Valid()
      modifies this`ctrl, this`sent, this`st, this`sep, this`life, coap, resched
      ensures (View(), ok) == Postpone(p, old(View()), seconds, now)
    {
      if !st.ReqOk? {
        return false;
      }
      if con {
        SendSeparateAck(now);
      }
      if !proxied {
        resched.tout := seconds;
        ok := resched.Start(now, 1);
        if !ok {
          return false;
        }
      }
      SetState(AckSent, now);
      return true;
    }

    method CallUser(v: Verdict, e: ServerSpec.Edit, random: uint16, leftover: uint16, now: int) returns (ok: bool)
      requires Valid()
      modifies Repr()
      ensures Valid()
      ensures (View(), ok) == UserFn(p, old(View()), v, e, Mids(random, leftover), now)
    {
      hide MakeReady, Postpone, Edited;
      Edit(e);
      match v
      case Ready => ok := ResponseReady(random, leftover, now);
      case Wait(seconds) => ok := WaitForUser(seconds, now);
      case _ => ok := false;
    }

    /** Replies with an error code, if that can be sent, and ends. */
    method GiveUp(rc: nat, random: uint16, leftover: uint16, now: int)
      requires Valid() && !st.CoapRetry?
      modifies Repr()
      ensures Valid() && View() == Fail(p, old(View()), rc, Mids(random, leftover), now)
    {
      hide SendResp, ServerSpec.SetState;
      SendRespKeepsState(View().(code := rc), Mids(random, leftover), now);
      code := rc;
      var _ := SendResponse(random, leftover, now);
      SetState(InternalErr, now);
    }

    // ----------------------------------------------------------------- the events

    method Open(con: bool, mid: uint16, token: bytes, proxied: bool, now: int)
      requires Valid() && st.Fresh?
      modifies Repr()
      ensures Valid() && View() == Opened(p, old(View()), con, mid, token, proxied, now)
    {
      hide ServerSpec.SetState;
      this.con, this.mid, this.token, this.proxied := con, mid, token, proxied;
      SetState(ReqOk, now);
    }

    /** A fresh request, for which a callback is registered. */
    method HandleRequest(con: bool, mid: uint16, token: bytes, proxied: bool, v: Verdict, e: ServerSpec.Edit,
                         m: Mids, again: Mids, now: int)
      requires Valid() && st.Fresh?
      modifies Repr()
      ensures Valid()
      ensures View() == ServerSpec.Step(p, old(View()), Request(con, mid, token, proxied, v, e, again), m, now)
    {
      hide UserFn, Fail;
      Open(con, mid, token, proxied, now);
      UserFnKeepsOut(p, View(), v, e, m, now);
      var ok := CallUser(v, e, m.random, m.leftover, now);
      if !ok {
        GiveUp(INTERNAL_SERVER_ERROR, again.random, again.leftover, now);
      }
    }

    /** A fresh request that no callback is registered for. */
    method HandleUnknown(con: bool, mid: uint16, token: bytes, m: Mids, now: int)
      requires Valid() && st.Fresh?
      modifies Repr()
      ensures Valid() && View() == ServerSpec.Step(p, old(View()), Unhandled(con, mid, token), m, now)
    {
      hide SendResp, ServerSpec.SetState;
      Open(con, mid, token, false, now);
      OpenedState(p, old(View()), con, mid, token, false, now);
      SendRespKeepsState(View().(code := NOT_FOUND), m, now);
      code := NOT_FOUND;
      var _ := SendResponse(m.random, m.leftover, now);
      SetState(RespDone, now);
    }

    method ReschedTimerFired(v: Verdict, e: ServerSpec.Edit, m: Mids, now: int)
      requires Valid() && !st.CoapRetry?
      modifies Repr()
      ensures Valid() && View() == ServerSpec.Step(p, old(View()), ReschedExpiry(v, e), m, now)
    {
      hide UserFn, ServerSpec.SetState;
      resched.Fire();
      UserFnKeepsOut(p, View(), v, e, m, now);
      var ok := CallUser(v, e, m.random, m.leftover, now);
      if !ok {
        SetState(InternalErr, now);
      }
    }

    /** The user has the response ready ahead of time. */
    method WakeUp(e: ServerSpec.Edit, m: Mids, now: int) returns (ok: bool)
      requires Valid()
      modifies Repr()
      ensures Valid() && View() == ServerSpec.Step(p, old(View()), Wakeup(e), m, now)
    {
      hide MakeReady, Edited;
      Edit(e);
      ok := ResponseReady(m.random, m.leftover, now);
    }

    method Retransmit(m: Mids, now: int)
      requires Valid() && coap.present
      modifies Repr()
      ensures Valid() && View() == Resend(p, old(View()), m, now)
    {
      hide SendResp, ServerSpec.SetState;
      SendRespKeepsState(View(), m, now);
      var ok := SendResponse(m.random, m.leftover, now);
      if ok {
        copies := copies + [now];
        SetState(WaitAck, now);
      } else {
        SetState(InternalErr, now);
      }
    }

    method CoapTimerFired(m: Mids, now: int)
      requires Valid() && coap.present && st.WaitAck?
      modifies Repr()
      ensures Valid() && View() == ServerSpec.Step(p, old(View()), CoapExpiry, m, now)
    {
      hide Resend, ServerSpec.SetState;
      coap.Fire();
      if coap.retriesLeft == 0 {
        SetState(RespAckTimeout, now);
        return;
      }
      Retries(p, View(), now);
      SetState(CoapRetry, now);
      Retransmit(m, now);
    }

    /** An empty message that the lookup has matched to this server. */
    method HandleControl(t: C.MsgType, mid: uint16, m: Mids, now: int)
      requires Valid() && !st.CoapRetry?
      modifies Repr()
      ensures Valid() && View() == ServerSpec.Step(p, old(View()), Control(t, mid), m, now)
    {
      hide Fail, ServerSpec.SetState;
      match t
      case Rst => SetState(ClientRst, now);
      case Ack =>
        if st.WaitAck? {
          SetState(RespDone, now);
        } else {
          GiveUp(BAD_REQUEST, m.random, m.leftover, now);
        }
      case _ => GiveUp(INTERNAL_SERVER_ERROR, m.random, m.leftover, now);
    }
  }

  lemma UserFnKeepsOut(p: C.Params, s: Server, v: Verdict, e: ServerSpec.Edit, m: Mids, now: int)
    requires !s.st.CoapRetry?
    ensures !UserFn(p, s, v, e, m, now).0.st.CoapRetry?
  {
    hide SendResp, ServerSpec.SetState, AddEach;
    var s1 := Edited(s, e);
    SendRespKeepsState(s1, m, now);
    var s2 := SendResp(s1, m, now).0;
    MovesTo(p, s2.(copies := [now]), WaitAck, now);
    MovesTo(p, s2, RespDone, now);
    if v.Wait? && Postpone(p, s1, v.seconds, now).1 {
      var s3 := if s1.con then SendAck(s1, now) else s1;
      var r := Started(s3.resched.(tout := v.seconds), now, 1);
      MovesTo(p, if s3.proxied then s3 else s3.(resched := r), AckSent, now);
    }
  }

  lemma OpenedState(p: C.Params, s: Server, con: bool, mid: uint16, token: bytes, proxied: bool, now: int)
    ensures s.st.Fresh? ==> Opened(p, s, con, mid, token, proxied, now).st.ReqOk?
  {}

  lemma SendRespKeepsState(s: Server, m: Mids, now: int)
    ensures SendResp(s, m, now).0.st == s.st && SendResp(s, m, now).0.con == s.con
    ensures SendResp(s, m, now).0.coap == s.coap
  {
    hide EncodeResp;
  }
}
