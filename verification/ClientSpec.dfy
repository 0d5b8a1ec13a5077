/** The client transaction as a function of its state, one event at a time. */
module ClientSpec {
  import opened OptionTable
  import opened Timers

  datatype State =
    | Idle | InternalErr | DnsFailed | DnsOk | SendFailed | ReqSent | ReqAckd | AppTimeout
    | CoapRetry | CoapTimeout | ReqDone | ReqRst | WaitNfy | ObsTimeout

  datatype MsgType = Con | Non | Ack | Rst

  /** Freed: the engine has disposed of the client.  Aborted: an illegal transition, or a
      timer that is not there, has ended the process. */
  datatype Life = Live | Freed | Aborted

  /** What a response says that matters here: code, and Observe counter and Max-Age if it has
      them. */
  datatype Response = Response(code: nat, observe: Option<uint16>, maxAge: Option<nat>)

  const CODE_DELETED: nat := 66
  const CODE_INTERNAL_ERROR: nat := 160
  const DEFAULT_MAX_AGE: nat := 60

  /** Base response timeout and number of retransmissions: 2 and 4 in the original. */
  datatype Params = Params(tout: nat, retries: nat)

  const COAP := Params(2, 4)
  const APP_TOUT: nat := 60

  /** What has happened in the current request cycle: times the request went out, ACK and
      RST messages sent, callbacks run, uncancelled entries into WaitNfy, and whether a
      cancellation has been acted on. */
  datatype Log = Log(sends: seq<int>, acks: nat, rsts: nat, callbacks: nat, notified: nat, acted: bool)

  const EMPTY_LOG := Log([], 0, 0, 0, 0, false)

  datatype Client = Client(
    st: State, con: bool, userOwn: bool, asked: bool,
    app: TimerView, coap: TimerView, obs: TimerView,
    on: bool, cancel: bool, lastCnt: uint16, lastTs: int,
    res: seq<Response>, lookups: nat, life: Life, log: Log)

  function NewClient(con: bool, userOwn: bool, asked: bool): Client {
    Client(Idle, con, userOwn, asked, UNUSED, UNUSED, UNUSED, false, false, 0, 0, [], 0, Live, EMPTY_LOG)
  }

  predicate IsFinal(s: State) {
    s.InternalErr? || s.DnsFailed? || s.SendFailed? || s.CoapTimeout? || s.AppTimeout?
    || s.ReqDone? || s.ReqRst? || s.ObsTimeout?
  }

  predicate Legal(cur: State, next: State) {
    match next
    case InternalErr => true
    case DnsFailed => cur.Idle?
    case DnsOk => cur.Idle? || IsFinal(cur)
    case SendFailed => cur.DnsOk? || cur.CoapRetry?
    case ReqSent => cur.DnsOk? || cur.CoapRetry?
    case ReqAckd => cur.ReqSent?
    case CoapRetry => cur.ReqSent?
    case CoapTimeout => cur.ReqSent?
    case AppTimeout => cur.ReqSent? || cur.ReqAckd? || cur.WaitNfy?
    case ReqDone => cur.ReqSent? || cur.ReqAckd? || cur.WaitNfy?
    case ReqRst => cur.ReqSent? || cur.ReqAckd? || cur.WaitNfy?
    case WaitNfy => cur.ReqSent? || cur.ReqAckd? || cur.WaitNfy?
    case ObsTimeout => cur.WaitNfy?
    case Idle => false
  }

  /** Seconds until an observation is given up: Max-Age of the first response held, implicit
      or explicit, and one second of tolerance. */
  function ObsInterval(res: seq<Response>): nat {
    1 + (if res == [] || res[0].maxAge.None? then DEFAULT_MAX_AGE else res[0].maxAge.value)
  }

  /** The timer and ACK work of a transition.  None: a timer that must start exists
      already, or one that must be restarted does not. */
  function OnTransition(p: Params, c: Client, next: State, now: int): Option<Client> {
    match next
    case ReqSent =>
      if c.st.DnsOk? then
        if !CanStart(c.app, 1) then None
        else
          Some(c.(app := Started(c.app, now, 1),
                  coap := if c.con then Started(c.coap.(tout := p.tout), now, p.retries) else c.coap))
      else if c.st.CoapRetry? && c.coap.left > 0 then
        if !c.coap.present then None
        else Some(c.(coap := Rearmed(c.coap.(tout := 2 * c.coap.tout, left := c.coap.left - 1), now)))
      else Some(c)
    case WaitNfy =>
      if c.st.WaitNfy? then
        if !c.obs.present then None else Some(c.(obs := Rearmed(c.obs, now)))
      else
        var o := c.obs.(tout := ObsInterval(c.res));
        if !CanStart(o, 1) then None
        else
          Some(c.(app := Removed(c.app), coap := if c.con then Removed(c.coap) else c.coap,
                  obs := Started(o, now, 1)))
    case ReqAckd => Some(if c.con then c.(coap := Removed(c.coap)) else c)
    case ReqDone =>
      Some(if c.st.ReqAckd? && c.con then c.(log := c.log.(acks := c.log.acks + 1)) else c)
    case _ => Some(c)
  }

  /** The user is told of final states and notifications; `cancels` says whether the
      callback cancels the observation.  A cancellation asked for earlier replaces the
      callback by an RST, sent if there is a response to mirror, and ends the cycle. */
  function Report(c: Client, cancels: bool): (Client, bool) {
    if !(IsFinal(c.st) || c.st.WaitNfy?) then (c, false)
    else if c.cancel then
      (c.(log := c.log.(acted := true, rsts := c.log.rsts + (if c.res == [] then 0 else 1))), true)
    else
      (c.(cancel := cancels,
          log := c.log.(callbacks := c.log.callbacks + 1,
                        notified := c.log.notified + (if c.st.WaitNfy? then 1 else 0))),
       IsFinal(c.st))
  }

  /** Destroys the timers and disposes of the client, or only of its responses when it
      belongs to the user. */
  function Finish(c: Client): Client {
    var c' := c.(app := Removed(c.app), coap := if c.con then Removed(c.coap) else c.coap,
                 obs := Removed(c.obs));
    if c.userOwn then c'.(res := []) else c'.(life := Freed)
  }

  /** ec_client_set_state: the new state and whether the client is done with. */
  function SetState(p: Params, c: Client, next: State, now: int, cancels: bool): (Client, bool) {
    if !Legal(c.st, next) then (c.(life := Aborted), false)
    else
      match OnTransition(p, c, next, now)
      case None => (c.(life := Aborted), false)
      case Some(c1) =>
        var (c2, last) := Report(c1.(st := next), cancels);
        if last then (Finish(c2), true) else (c2, false)
  }

  datatype Event =
    | Go(tout: nat)
    | DnsDone(resolved: bool, encoded: bool, sent: bool)
    | CoapExpiry(resent: bool)
    | AppExpiry
    | ObsExpiry
    | EmptyPdu(t: MsgType)
    | ResponsePdu(r: Response)
    | Cancel

  /** Is a notification judged stale?  16-bit counter difference, and a time limit. */
  predicate Stale(lastCnt: uint16, lastTs: int, cnt: uint16, now: int) {
    (lastCnt - cnt) % 0x1_0000 < 0x8000 && now < lastTs + 0x4000
  }

  /** ec_client_handle_observation, run with the arrived response already added at the end
      of those held: options are read from the first response held, the code from the
      latest.  None: the notification is dropped as stale. */
  function HandleObservation(c: Client, code: nat, now: int): Option<Client>
    requires c.res != []
  {
    var first := c.res[0];
    if c.on then
      if code == CODE_INTERNAL_ERROR || first.observe.None? || code == CODE_DELETED then
        Some(c.(on := false))
      else if Stale(c.lastCnt, c.lastTs, first.observe.value, now) then None
      else Some(c.(lastCnt := first.observe.value, lastTs := now))
    else Some(c.(on := c.asked && first.observe.Some?))
  }

  function OnResponse(p: Params, c: Client, r: Response, now: int, cancels: bool): Client {
    var c1 := c.(res := c.res + [r]);
    match HandleObservation(c1, r.code, now)
    case None => c1
    case Some(c2) =>
      var (c3, last) := SetState(p, c2, if c2.on then WaitNfy else ReqDone, now, cancels);
      if c3.life.Live? && !last && c3.on then c3.(res := []) else c3
  }

  function OnDnsDone(p: Params, c: Client, resolved: bool, encoded: bool, sent: bool, now: int,
                     cancels: bool): Client {
    var c0 := c.(lookups := if c.lookups > 0 then c.lookups - 1 else 0);
    if !resolved then SetState(p, c0, DnsFailed, now, cancels).0
    else
      var c1 := SetState(p, c0, DnsOk, now, cancels).0;
      if c1.life != Live then c1
      else
        var c2 := c1.(log := EMPTY_LOG);
        if !encoded || !sent then SetState(p, c2, InternalErr, now, cancels).0
        else SetState(p, c2.(log := EMPTY_LOG.(sends := [now])), ReqSent, now, cancels).0
  }

  function OnCoapExpiry(p: Params, c: Client, resent: bool, now: int, cancels: bool): Client {
    if c.coap.left == 0 then SetState(p, c, CoapTimeout, now, cancels).0
    else
      var c1 := SetState(p, c, CoapRetry, now, cancels).0;
      if c1.life != Live then c1
      else if resent then
        SetState(p, c1.(log := c1.log.(sends := c1.log.sends + [now])), ReqSent, now, cancels).0
      else SetState(p, c1, SendFailed, now, cancels).0
  }

  function Step(p: Params, c: Client, e: Event, now: int, cancels: bool): Client {
    match e
    case Go(tout) =>
      if !c.st.Idle? && !IsFinal(c.st) then SetState(p, c, InternalErr, now, cancels).0
      else c.(app := c.app.(tout := tout), lookups := c.lookups + 1)
    case DnsDone(resolved, encoded, sent) => OnDnsDone(p, c, resolved, encoded, sent, now, cancels)
    case CoapExpiry(resent) => OnCoapExpiry(p, c.(coap := Fired(c.coap)), resent, now, cancels)
    case AppExpiry => SetState(p, c.(app := Fired(c.app)), AppTimeout, now, cancels).0
    case ObsExpiry => SetState(p, c.(obs := Fired(c.obs), on := false), ObsTimeout, now, cancels).0
    case EmptyPdu(t) =>
      if t.Ack? then SetState(p, c, ReqAckd, now, cancels).0
      else if t.Rst? then SetState(p, c, ReqRst, now, cancels).0
      else c
    case ResponsePdu(r) => OnResponse(p, c, r, now, cancels)
    case Cancel => c.(cancel := true)
  }

  predicate NotOverdue(t: TimerView, now: int) {
    t.armed ==> now <= t.deadline
  }

  /** May the event occur now?  Timers fire on their deadline, no later and no sooner. */
  predicate Enabled(c: Client, e: Event, now: int) {
    && c.life.Live?
    && NotOverdue(c.app, now) && NotOverdue(c.coap, now) && NotOverdue(c.obs, now)
    && (e.DnsDone? ==> c.lookups > 0)
    && (e.AppExpiry? ==> c.app.armed && c.app.deadline == now)
    && (e.CoapExpiry? ==> c.coap.armed && c.coap.deadline == now)
    && (e.ObsExpiry? ==> c.obs.armed && c.obs.deadline == now)
  }

  datatype Timed = Timed(e: Event, cancels: bool, at: int)

  /** The client after a run of events, or None if one of them could not have occurred. */
  function Run(p: Params, c: Client, run: seq<Timed>): Option<Client> {
    if run == [] then Some(c)
    else
      match Run(p, c, run[..|run| - 1])
      case None => None
      case Some(c1) =>
        var x := run[|run| - 1];
        if Enabled(c1, x.e, x.at) && (|run| > 1 ==> run[|run| - 2].at <= x.at)
        then Some(Step(p, c1, x.e, x.at, x.cancels)) else None
  }
}
