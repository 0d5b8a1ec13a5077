/** The server transaction as a function of its state, one event at a time.  Sends succeed. */
module ServerSpec {
  import opened OptionTable
  import opened OptionList
  import opened OptionCodec
  import opened Timers
  import C = ClientSpec

  datatype State =
    | Fresh | InternalErr | DupReq | BadReq | ReqOk | AckSent | WaitAck | RespAckTimeout
    | RespDone | CoapRetry | ClientRst

  const BAD_REQUEST: nat := 128
  const NOT_FOUND: nat := 132
  const INTERNAL_SERVER_ERROR: nat := 160
  const TOKEN_MAX: nat := 8

  predicate IsResponseCode(c: nat) {
    65 <= c <= 191
  }

  /** The response options: the list, and the count that also takes in fenceposts already
      written. */
  datatype OptSet = OptSet(list: seq<Opt>, count: nat)

  datatype Addition = Addition(sym: int, v: bytes)

  /** A long value takes several places; a count of fifteen, or one that a fencepost has
      carried beyond, leaves none. */
  predicate CanAdd(o: OptSet, a: Addition) {
    1 <= a.sym <= 18 && o.count + Slots(|a.v|) <= MAX_OPTIONS
  }

  function Add(o: OptSet, a: Addition): OptSet {
    if CanAdd(o, a) then
      OptSet(InsertAll(o.list, Fragments(a.sym, a.v, Slots(|a.v|))), o.count + Slots(|a.v|))
    else o
  }

  function AddEach(o: OptSet, adds: seq<Addition>): OptSet {
    if adds == [] then o else Add(AddEach(o, adds[..|adds| - 1]), adds[|adds| - 1])
  }

  predicate CanAddToken(o: OptSet, token: bytes) {
    token == [] || (|token| <= TOKEN_MAX && CanAdd(o, Addition(TOKEN, token)))
  }

  /** The token of the request is added every time a response is encoded. */
  function AddToken(o: OptSet, token: bytes): OptSet {
    if token == [] || !CanAddToken(o, token) then o else Add(o, Addition(TOKEN, token))
  }

  predicate Fits(o: OptSet) {
    Follows(0, o.list) && SizeFrom(0, o.list) <= ENC_MAX
  }

  /** An encoding, successful or not, adds to the count the fenceposts it writes. */
  function Encoded(o: OptSet): OptSet {
    o.(count := o.count + if Follows(0, o.list) then FencesWritten(0, o.list, ENC_MAX) else 0)
  }

  /** A message sent; `kept` says that it is offered to the duplicate cache as the reply to
      the request. */
  datatype Sent = Sent(t: C.MsgType, code: nat, mid: uint16, opts: OptSet, payload: bytes, kept: bool, at: int)

  /** What the user callback does: its verdict, and a code, options and payload for the
      response; an empty payload is none. */
  datatype Verdict = Ready | Wait(seconds: nat) | Poll | Error

  datatype Edit = Edit(code: Option<nat>, adds: seq<Addition>, payload: bytes)

  /** The random message ID drawn for a response, and what an unset variable holds when none
      is drawn. */
  datatype Mids = Mids(random: uint16, leftover: uint16)

  datatype Server = Server(
    st: State, con: bool, proxied: bool, mid: uint16, token: bytes,
    code: nat, opts: OptSet, payload: bytes, resMid: uint16, ctrl: bool, sep: bool, sibling: bool,
    coap: TimerView, resched: TimerView, life: C.Life, sent: seq<Sent>, copies: seq<int>)

  const NEW_SERVER := Server(Fresh, false, false, 0, [], 0, OptSet([], 0), [], 0, false, false, false,
                             UNUSED, UNUSED, C.Live, [], [])

  predicate IsFinal(s: State) {
    s.InternalErr? || s.DupReq? || s.BadReq? || s.RespAckTimeout? || s.RespDone? || s.ClientRst?
  }

  predicate Legal(cur: State, next: State) {
    match next
    case InternalErr => true
    case DupReq => cur.Fresh?
    case BadReq => cur.Fresh?
    case ReqOk => cur.Fresh?
    case AckSent => cur.ReqOk? || cur.WaitAck?
    case WaitAck => cur.AckSent? || cur.CoapRetry?
    case RespAckTimeout => cur.WaitAck?
    case RespDone => cur.ReqOk? || cur.WaitAck? || cur.AckSent?
    case CoapRetry => cur.WaitAck?
    case ClientRst => true
    case Fresh => false
  }

  /** The timer work of a transition: the first separate response starts the retransmission
      timer, a retransmission doubles it. */
  function OnTransition(p: C.Params, s: Server, next: State, now: int): Server {
    if next.WaitAck? && s.st.AckSent? then
      s.(sep := true, coap := Started(s.coap.(tout := p.tout), now, p.retries))
    else if next.WaitAck? && s.st.CoapRetry? && s.coap.left > 0 then
      s.(coap := Rearmed(s.coap.(tout := 2 * s.coap.tout, left := s.coap.left - 1), now))
    else s
  }

  /** ec_server_set_state: a final state frees the server and stops only the
      retransmission timer. */
  function SetState(p: C.Params, s: Server, next: State, now: int): Server {
    if !Legal(s.st, next) then s.(life := C.Aborted)
    else
      var s1 := OnTransition(p, s, next, now).(st := next);
      if IsFinal(next) then s1.(coap := Removed(s1.coap), life := C.Freed) else s1
  }

  lemma Retries(p: C.Params, s: Server, now: int)
    requires s.st.WaitAck?
    ensures SetState(p, s, CoapRetry, now) == s.(st := CoapRetry)
  {}

  lemma MovesTo(p: C.Params, s: Server, next: State, now: int)
    ensures SetState(p, s, next, now).st == if Legal(s.st, next) then next else s.st
  {}

  function Piggybacks(s: Server): bool {
    s.con && !s.sep && !s.st.AckSent?
  }

  /** A separate response draws an ID if it has none; any response but the first separate one
      is tied to the request. */
  function Marked(s: Server, m: Mids): Server {
    s.(sibling := s.sibling || !s.st.AckSent?,
       resMid := if IsResponseCode(s.code) && !Piggybacks(s) && s.resMid == 0 then m.random else s.resMid)
  }

  function RespType(s: Server): C.MsgType {
    if Piggybacks(s) then C.Ack else if s.con then C.Con else C.Non
  }

  /** A separate response that has an ID already goes out not with that one, but with what
      happens to be in an unset variable. */
  function RespMid(s: Server, m: Mids): uint16 {
    if Piggybacks(s) then s.mid else if s.resMid == 0 then m.random else m.leftover
  }

  /** Token and encoding, whose effects stay even when it fails. */
  function EncodeResp(o: OptSet, token: bytes): (OptSet, bool) {
    if !CanAddToken(o, token) then (o, false)
    else (Encoded(AddToken(o, token)), Fits(AddToken(o, token)))
  }

  function Transmit(s: Server, t: C.MsgType, mid: uint16, now: int): (Server, bool) {
    var (o, ok) := EncodeResp(s.opts, s.token);
    if ok then (s.(opts := o, sent := s.sent + [Sent(t, s.code, mid, o, s.payload, s.sibling, now)]), true)
    else (s.(opts := o), false)
  }

  /** ec_server_send_resp: encodes and sends the response; the flag says whether it went
      out. */
  function SendResp(s: Server, m: Mids, now: int): (Server, bool) {
    if IsResponseCode(s.code) then Transmit(Marked(s, m), RespType(s), RespMid(s, m), now)
    else (Marked(s, m), false)
  }

  /** ec_server_send_separate_ack: an empty ACK. */
  function SendAck(s: Server, now: int): Server {
    s.(ctrl := true, sent := s.sent + [Sent(C.Ack, 0, s.mid, OptSet([], 0), [], true, now)])
  }

  /** ec_server_ready: the response goes out, in the manner of the state. */
  function MakeReady(p: C.Params, s: Server, m: Mids, now: int): (Server, bool) {
    if s.st.AckSent? || s.st.ReqOk? then
      var (s1, ok) := SendResp(s, m, now);
      if !ok then (s1, false)
      else if s.con && s.st.AckSent? then (SetState(p, s1.(copies := [now]), WaitAck, now), true)
      else (SetState(p, s1, RespDone, now), true)
    else (s, false)
  }

  function Edited(s: Server, e: Edit): Server {
    s.(code := if e.code.Some? && IsResponseCode(e.code.value) then e.code.value else s.code,
       opts := AddEach(s.opts, e.adds),
       payload := if e.payload != [] then e.payload else s.payload)
  }

  /** Asked to wait, the server acknowledges at once and calls the user again later. */
  function Postpone(p: C.Params, s: Server, seconds: nat, now: int): (Server, bool) {
    if !s.st.ReqOk? then (s, false)
    else
      var s1 := if s.con then SendAck(s, now) else s;
      var r := s1.resched.(tout := seconds);
      if !s1.proxied && !CanStart(r, 1) then (s1.(resched := r), false)
      else
        (SetState(p, if s1.proxied then s1 else s1.(resched := Started(r, now, 1)), AckSent, now), true)
  }

  /** ec_server_userfn: the callback is run and its verdict acted on. */
  function UserFn(p: C.Params, s: Server, v: Verdict, e: Edit, m: Mids, now: int): (Server, bool) {
    var s1 := Edited(s, e);
    match v
    case Ready => MakeReady(p, s1, m, now)
    case Wait(seconds) => Postpone(p, s1, seconds, now)
    case Poll => (s1, false)
    case Error => (s1, false)
  }

  /** The common error path: a reply with a code, if it can be sent, and the end. */
  function Fail(p: C.Params, s: Server, code: nat, m: Mids, now: int): Server {
    SetState(p, SendResp(s.(code := code), m, now).0, InternalErr, now)
  }

  datatype Event =
    | Request(con: bool, mid: uint16, token: bytes, proxied: bool, v: Verdict, edit: Edit, again: Mids)
    | Unhandled(con: bool, mid: uint16, token: bytes)
    | ReschedExpiry(v: Verdict, edit: Edit)
    | Wakeup(edit: Edit)
    | CoapExpiry
    | Control(t: C.MsgType, mid: uint16)

  /** An empty message that has been matched to this server. */
  function OnControl(p: C.Params, s: Server, t: C.MsgType, m: Mids, now: int): Server {
    match t
    case Rst => SetState(p, s, ClientRst, now)
    case Ack => if s.st.WaitAck? then SetState(p, s, RespDone, now) else Fail(p, s, BAD_REQUEST, m, now)
    case Con => Fail(p, s, INTERNAL_SERVER_ERROR, m, now)
    case Non => Fail(p, s, INTERNAL_SERVER_ERROR, m, now)
  }

  /** A retransmission, and back to waiting if it went out. */
  function Resend(p: C.Params, s: Server, m: Mids, now: int): Server {
    var (s1, ok) := SendResp(s, m, now);
    if ok then SetState(p, s1.(copies := s1.copies + [now]), WaitAck, now) else SetState(p, s1, InternalErr, now)
  }

  function OnCoapExpiry(p: C.Params, s: Server, m: Mids, now: int): Server {
    if s.coap.left == 0 then SetState(p, s, RespAckTimeout, now)
    else Resend(p, SetState(p, s, CoapRetry, now), m, now)
  }

  function Opened(p: C.Params, s: Server, con: bool, mid: uint16, token: bytes, proxied: bool, now: int): Server {
    SetState(p, s.(con := con, mid := mid, token := token, proxied := proxied), ReqOk, now)
  }

  function Step(p: C.Params, s: Server, e: Event, m: Mids, now: int): Server {
    match e
    case Request(con, mid, token, proxied, v, edit, again) =>
      var (s1, ok) := UserFn(p, Opened(p, s, con, mid, token, proxied, now), v, edit, m, now);
      if ok then s1 else Fail(p, s1, INTERNAL_SERVER_ERROR, again, now)
    case Unhandled(con, mid, token) =>
      var s1 := Opened(p, s, con, mid, token, false, now).(code := NOT_FOUND);
      SetState(p, SendResp(s1, m, now).0, RespDone, now)
    case ReschedExpiry(v, edit) =>
      var (s1, ok) := UserFn(p, s.(resched := Fired(s.resched)), v, edit, m, now);
      if ok then s1 else SetState(p, s1, InternalErr, now)
    case Wakeup(edit) => MakeReady(p, Edited(s, edit), m, now).0
    case CoapExpiry => OnCoapExpiry(p, s.(coap := Fired(s.coap)), m, now)
    case Control(t, mid) => OnControl(p, s, t, m, now)
  }

  /** ec_servers_lookup: an empty message is matched by ID to the response, or to the
      control message, whose own ID was never noted. */
  predicate Lookup(s: Server, mid: uint16) {
    (s.ctrl && mid == 0) || s.resMid == mid
  }

  /** Between events a server that is listed waits for its user or for an ACK. */
  predicate Enabled(s: Server, e: Event, now: int) {
    && s.life.Live?
    && C.NotOverdue(s.coap, now) && C.NotOverdue(s.resched, now)
    && match e
       case Request(_, _, token, _, _, _, _) => s.st.Fresh? && |token| <= TOKEN_MAX
       case Unhandled(_, _, token) => s.st.Fresh? && |token| <= TOKEN_MAX
       case ReschedExpiry(_, _) => s.resched.armed && s.resched.deadline == now
       case Wakeup(_) => !s.st.Fresh?
       case CoapExpiry => s.coap.armed && s.coap.deadline == now
       case Control(_, mid) => !s.st.Fresh? && Lookup(s, mid)
  }

  datatype Timed = Timed(e: Event, m: Mids, at: int)

  function Run(p: C.Params, run: seq<Timed>): Option<Server> {
    if run == [] then Some(NEW_SERVER)
    else
      match Run(p, run[..|run| - 1])
      case None => None
      case Some(s) =>
        var x := run[|run| - 1];
        if Enabled(s, x.e, x.at) && (|run| > 1 ==> run[|run| - 2].at <= x.at)
        then Some(Step(p, s, x.e, x.m, x.at)) else None
  }
}
