/** What every run of the client keeps: timer discipline, back-off schedule, callback
    accounting, and exactly which events are fatal. */
module ClientRuns {
  import opened OptionTable
  import opened Timers
  import opened ClientSpec

  predicate Off(t: TimerView) {
    !t.present && !t.armed
  }

  predicate On(t: TimerView) {
    t.present && t.armed
  }

  /** Which timers run in which state, between events.  An observation whose cancellation
      has been acted on leaves a user-owned client in WaitNfy with no timer at all. */
  predicate Discipline(c: Client) {
    match c.st
    case Idle => Off(c.app) && Off(c.coap) && Off(c.obs)
    case ReqSent => On(c.app) && Off(c.obs) && (if c.con then On(c.coap) else Off(c.coap))
    case ReqAckd => On(c.app) && Off(c.coap) && Off(c.obs)
    case WaitNfy => Off(c.app) && Off(c.coap) && (if c.log.acted then Off(c.obs) else On(c.obs))
    case DnsOk => false
    case CoapRetry => false
    case _ => Off(c.app) && Off(c.coap) && Off(c.obs) && c.userOwn
  }

  /** The request goes out at the first send time plus 0, T, 3T, 7T, ... */
  predicate OnSchedule(p: Params, sends: seq<int>) {
    |sends| <= p.retries + 1
    && forall k :: 0 <= k < |sends| ==> sends[k] == sends[0] + Span(p.tout, k)
  }

  /** While the request is unanswered: where the timers stand in the schedule. */
  predicate BackOff(p: Params, c: Client) {
    var n := |c.log.sends|;
    (c.st.ReqSent? || c.st.ReqAckd? ==>
       n >= 1 && c.app.deadline == c.log.sends[0] + c.app.tout)
    && (c.st.ReqSent? && !c.con ==> n == 1)
    && (c.st.ReqSent? && c.con ==>
          c.coap.left + n == p.retries + 1
          && c.coap.tout == Interval(p.tout, n - 1)
          && c.coap.deadline == c.log.sends[0] + Span(p.tout, n))
  }

  /** One callback per uncancelled notification, and one more at the end unless a
      cancellation has been acted on. */
  predicate Accounted(c: Client) {
    c.log.callbacks == c.log.notified + (if IsFinal(c.st) && !c.log.acted then 1 else 0)
    && (c.log.acted ==> c.cancel && (c.st.WaitNfy? || IsFinal(c.st)))
  }

  predicate Inv(p: Params, c: Client) {
    p.retries >= 1 && !c.life.Aborted? && OnSchedule(p, c.log.sends) && Accounted(c)
    && (c.life.Live? ==> Discipline(c) && BackOff(p, c) && (c.log.acted ==> c.userOwn))
  }

  /** The events that end the process, in terms of what can be seen before them: a name
      failure of a recycled client, a lookup completing in mid-request, an ACK or RST that
      nobody waits for, and a response to a client that is not waiting or whose cancelled
      observation would be renewed. */
  predicate Fatal(c: Client, e: Event, now: int) {
    match e
    case DnsDone(resolved, _, _) => if resolved then !c.st.Idle? && !IsFinal(c.st) else !c.st.Idle?
    case EmptyPdu(t) =>
      (t.Ack? && !c.st.ReqSent?)
      || (t.Rst? && !c.st.ReqSent? && !c.st.ReqAckd? && !c.st.WaitNfy?)
    case ResponsePdu(r) =>
      var h := HandleObservation(c.(res := c.res + [r]), r.code, now);
      h.Some? && !c.st.ReqSent? && !c.st.ReqAckd?
      && !(c.st.WaitNfy? && !(h.value.on && c.log.acted))
    case _ => false
  }

  lemma NewClientInv(p: Params, con: bool, userOwn: bool, asked: bool)
    requires p.retries >= 1
    ensures Inv(p, NewClient(con, userOwn, asked))
  {}

  predicate Coherent(c: Client) {
    (c.app.armed ==> c.app.present) && (c.coap.armed ==> c.coap.present)
    && (c.obs.armed ==> c.obs.present) && (!c.con ==> Off(c.coap))
  }

  lemma FinalTransition(p: Params, c: Client, next: State, now: int)
    requires IsFinal(next)
    ensures var r := OnTransition(p, c, next, now);
            r.Some? && r.value == c.(log := c.log.(acks := r.value.log.acks))
  {}

  lemma ReportFinal(c: Client, cancels: bool)
    requires IsFinal(c.st)
    ensures var (c', last) := Report(c, cancels);
            last && c' == c.(cancel := c'.cancel, log := c'.log) && (c.cancel ==> c'.cancel)
            && c'.log.sends == c.log.sends && c'.log.notified == c.log.notified
            && c'.log.callbacks == c.log.callbacks + (if c.cancel then 0 else 1)
            && c'.log.acted == (c.log.acted || c.cancel)
  {}

  lemma FinishStops(c: Client)
    requires Coherent(c) && c.life.Live?
    ensures var c' := Finish(c);
            Off(c'.app) && Off(c'.coap) && Off(c'.obs) && c'.log == c.log && c'.st == c.st
            && c'.life == (if c.userOwn then Live else Freed) && c'.userOwn == c.userOwn
            && c'.cancel == c.cancel && c'.on == c.on
  {}

  /** What entering a final state leaves behind. */
  lemma EnterFinal(p: Params, c: Client, next: State, now: int, cancels: bool)
    requires Coherent(c) && c.life.Live? && IsFinal(next) && Legal(c.st, next)
    ensures var c' := SetState(p, c, next, now, cancels).0;
            c'.st == next && SetState(p, c, next, now, cancels).1
            && Off(c'.app) && Off(c'.coap) && Off(c'.obs)
            && c'.life == (if c.userOwn then Live else Freed) && c'.userOwn == c.userOwn
            && c'.log.sends == c.log.sends && c'.log.notified == c.log.notified
            && c'.log.callbacks == c.log.callbacks + (if c.cancel then 0 else 1)
            && c'.log.acted == (c.log.acted || c.cancel) && (c.cancel ==> c'.cancel)
  {
    hide OnTransition, Report, Finish, Legal;
    FinalTransition(p, c, next, now);
    var c1 := OnTransition(p, c, next, now).value.(st := next);
    ReportFinal(c1, cancels);
    FinishStops(Report(c1, cancels).0);
  }

  lemma Finished(p: Params, c: Client, c': Client)
    requires p.retries >= 1 && OnSchedule(p, c'.log.sends)
    requires IsFinal(c'.st) && Off(c'.app) && Off(c'.coap) && Off(c'.obs)
    requires c'.life == (if c.userOwn then Live else Freed) && c'.userOwn == c.userOwn
    requires c.log.callbacks == c.log.notified && (c.log.acted ==> c.cancel)
    requires c'.log.notified == c.log.notified
    requires c'.log.callbacks == c.log.callbacks + (if c.cancel then 0 else 1)
    requires c'.log.acted == (c.log.acted || c.cancel) && (c.cancel ==> c'.cancel)
    ensures Inv(p, c')
  {
    hide OnSchedule;
  }

  lemma GoStep(p: Params, c: Client, e: Event, now: int, cancels: bool)
    requires Inv(p, c) && Enabled(c, e, now) && (e.Go? || e.Cancel?)
    ensures Inv(p, Step(p, c, e, now, cancels))
  {
    hide SetState, OnSchedule;
    if e.Go? && !c.st.Idle? && !IsFinal(c.st) {
      EnterFinal(p, c, InternalErr, now, cancels);
      Finished(p, c, SetState(p, c, InternalErr, now, cancels).0);
    }
  }

  lemma EnterDnsOk(p: Params, c: Client, now: int, cancels: bool)
    requires c.life.Live? && Legal(c.st, DnsOk)
    ensures SetState(p, c, DnsOk, now, cancels) == (c.(st := DnsOk), false)
  {}

  /** The first successful send starts the application timer and, for a confirmable
      request, the retransmission timer. */
  lemma EnterReqSent(p: Params, c: Client, now: int, cancels: bool)
    requires c.life.Live? && c.st.DnsOk? && CanStart(c.app, 1) && CanStart(c.coap, p.retries)
    ensures SetState(p, c, ReqSent, now, cancels)
            == (c.(st := ReqSent, app := TimerView(true, true, now + c.app.tout, 1, c.app.tout),
                   coap := if c.con then TimerView(true, true, now + p.tout, p.retries, p.tout) else c.coap),
                false)
  {}

  lemma FirstInterval(p: Params)
    ensures Interval(p.tout, 0) == p.tout && Span(p.tout, 0) == 0 && Span(p.tout, 1) == p.tout
  {
    assert Span(p.tout, 1) == Span(p.tout, 0) + Interval(p.tout, 0);
  }

  lemma SentOnce(p: Params, c: Client, now: int)
    requires p.retries >= 1 && c.life.Live? && c.st.ReqSent?
    requires c.log == EMPTY_LOG.(sends := [now])
    requires On(c.app) && c.app.deadline == now + c.app.tout && Off(c.obs)
    requires if c.con then c.coap == TimerView(true, true, now + p.tout, p.retries, p.tout) else Off(c.coap)
    ensures Inv(p, c)
  {
    FirstInterval(p);
    hide Interval, Span;
  }

  lemma DnsStep(p: Params, c: Client, e: Event, now: int, cancels: bool)
    requires Inv(p, c) && Enabled(c, e, now) && e.DnsDone?
    ensures var c' := Step(p, c, e, now, cancels);
            if Fatal(c, e, now) then c'.life.Aborted? else Inv(p, c')
  {
    if Fatal(c, e, now) {
      hide SetState;
      IllegalAborts(p, c.(lookups := c.lookups - 1), if e.resolved then DnsOk else DnsFailed, now, cancels);
    } else if e.resolved {
      DnsWorks(p, c, e, now, cancels);
    } else {
      DnsFails(p, c, e, now, cancels);
    }
    hide OnDnsDone, Inv;
  }

  lemma DnsFails(p: Params, c: Client, e: Event, now: int, cancels: bool)
    requires Inv(p, c) && c.life.Live? && c.lookups > 0 && c.st.Idle? && e.DnsDone?
    ensures Inv(p, OnDnsDone(p, c, false, e.encoded, e.sent, now, cancels))
  {
    hide SetState, OnSchedule;
    var c0 := c.(lookups := c.lookups - 1);
    EnterFinal(p, c0, DnsFailed, now, cancels);
    Finished(p, c0, SetState(p, c0, DnsFailed, now, cancels).0);
  }

  lemma DnsWorks(p: Params, c: Client, e: Event, now: int, cancels: bool)
    requires Inv(p, c) && c.life.Live? && c.lookups > 0 && (c.st.Idle? || IsFinal(c.st)) && e.DnsDone?
    ensures Inv(p, OnDnsDone(p, c, true, e.encoded, e.sent, now, cancels))
  {
    hide SetState, OnSchedule;
    var c0 := c.(lookups := c.lookups - 1);
    EnterDnsOk(p, c0, now, cancels);
    DnsResolved(p, c0.(st := DnsOk, log := EMPTY_LOG), e, now, cancels);
    hide Inv;
  }

  lemma DnsResolved(p: Params, c2: Client, e: Event, now: int, cancels: bool)
    requires p.retries >= 1 && c2.life.Live? && c2.st.DnsOk? && c2.log == EMPTY_LOG
    requires Off(c2.app) && Off(c2.coap) && Off(c2.obs) && e.DnsDone?
    ensures Inv(p, if !e.encoded || !e.sent then SetState(p, c2, InternalErr, now, cancels).0
                   else SetState(p, c2.(log := EMPTY_LOG.(sends := [now])), ReqSent, now, cancels).0)
  {
    hide SetState, Inv;
    if !e.encoded || !e.sent {
      EnterFinal(p, c2, InternalErr, now, cancels);
      Finished(p, c2, SetState(p, c2, InternalErr, now, cancels).0);
    } else {
      var c3 := c2.(log := EMPTY_LOG.(sends := [now]));
      EnterReqSent(p, c3, now, cancels);
      SentOnce(p, SetState(p, c3, ReqSent, now, cancels).0, now);
    }
  }

  lemma IllegalAborts(p: Params, c: Client, next: State, now: int, cancels: bool)
    requires !Legal(c.st, next)
    ensures SetState(p, c, next, now, cancels) == (c.(life := Aborted), false)
  {}

  lemma EnterRetry(p: Params, c: Client, now: int, cancels: bool)
    requires c.life.Live? && c.st.ReqSent?
    ensures SetState(p, c, CoapRetry, now, cancels) == (c.(st := CoapRetry), false)
  {}

  /** A retransmission doubles the interval and uses up one retry. */
  lemma EnterResent(p: Params, c: Client, now: int, cancels: bool)
    requires c.life.Live? && c.st.CoapRetry? && c.coap.left > 0 && c.coap.present
    ensures SetState(p, c, ReqSent, now, cancels)
            == (c.(st := ReqSent, coap := TimerView(true, true, now + 2 * c.coap.tout,
                                                    c.coap.left - 1, 2 * c.coap.tout)), false)
  {}

  lemma NextSend(p: Params, sends: seq<int>, now: int)
    requires OnSchedule(p, sends) && 1 <= |sends| <= p.retries
    requires now == sends[0] + Span(p.tout, |sends|)
    ensures OnSchedule(p, sends + [now])
    ensures Span(p.tout, |sends| + 1) == Span(p.tout, |sends|) + 2 * Interval(p.tout, |sends| - 1)
    ensures Interval(p.tout, |sends|) == 2 * Interval(p.tout, |sends| - 1)
  {
    assert Interval(p.tout, |sends|) == 2 * Interval(p.tout, |sends| - 1);
    assert forall k :: 0 <= k < |sends| ==> (sends + [now])[k] == sends[k];
  }

  lemma CoapStep(p: Params, c: Client, e: Event, now: int, cancels: bool)
    requires Inv(p, c) && Enabled(c, e, now) && e.CoapExpiry?
    ensures Inv(p, Step(p, c, e, now, cancels))
  {
    hide SetState, OnSchedule, Interval, Span;
    var c0 := c.(coap := Fired(c.coap));
    assert c.st.ReqSent?;
    if c.coap.left == 0 {
      EnterFinal(p, c0, CoapTimeout, now, cancels);
      Finished(p, c0, SetState(p, c0, CoapTimeout, now, cancels).0);
    } else {
      EnterRetry(p, c0, now, cancels);
      var c1 := c0.(st := CoapRetry);
      if e.resent {
        NextSend(p, c.log.sends, now);
        EnterResent(p, c1.(log := c1.log.(sends := c1.log.sends + [now])), now, cancels);
      } else {
        EnterFinal(p, c1, SendFailed, now, cancels);
        Finished(p, c1, SetState(p, c1, SendFailed, now, cancels).0);
      }
    }
  }

  lemma ExpiryStep(p: Params, c: Client, e: Event, now: int, cancels: bool)
    requires Inv(p, c) && Enabled(c, e, now) && (e.AppExpiry? || e.ObsExpiry?)
    ensures Inv(p, Step(p, c, e, now, cancels))
  {
    hide SetState, OnSchedule;
    var c0, next := if e.AppExpiry? then c.(app := Fired(c.app)) else c.(obs := Fired(c.obs), on := false),
                    if e.AppExpiry? then AppTimeout else ObsTimeout;
    EnterFinal(p, c0, next, now, cancels);
    Finished(p, c0, SetState(p, c0, next, now, cancels).0);
  }

  lemma EnterAckd(p: Params, c: Client, now: int, cancels: bool)
    requires c.life.Live? && c.st.ReqSent?
    ensures SetState(p, c, ReqAckd, now, cancels)
            == (c.(st := ReqAckd, coap := if c.con then Removed(c.coap) else c.coap), false)
  {}

  lemma EmptyStep(p: Params, c: Client, e: Event, now: int, cancels: bool)
    requires Inv(p, c) && Enabled(c, e, now) && e.EmptyPdu?
    ensures var c' := Step(p, c, e, now, cancels);
            if Fatal(c, e, now) then c'.life.Aborted? else Inv(p, c')
  {
    hide SetState, OnSchedule;
    if e.t.Ack? {
      if c.st.ReqSent? {
        EnterAckd(p, c, now, cancels);
      } else {
        IllegalAborts(p, c, ReqAckd, now, cancels);
      }
    } else if e.t.Rst? {
      if Legal(c.st, ReqRst) {
        EnterFinal(p, c, ReqRst, now, cancels);
        Finished(p, c, SetState(p, c, ReqRst, now, cancels).0);
      } else {
        IllegalAborts(p, c, ReqRst, now, cancels);
      }
    }
  }

  /** What a notification leaves behind: the observation timer running, unless a
      cancellation asked for earlier is acted on now. */
  lemma EnterWaitNfy(p: Params, c: Client, now: int, cancels: bool)
    requires Coherent(c) && c.life.Live? && Legal(c.st, WaitNfy)
    requires if c.st.WaitNfy? then c.obs.present && Off(c.app) && Off(c.coap) else Off(c.obs)
    ensures var (c', last) := SetState(p, c, WaitNfy, now, cancels);
            c'.st.WaitNfy? && last == c.cancel && c'.on == c.on
            && Off(c'.app) && Off(c'.coap) && (if c.cancel then Off(c'.obs) else On(c'.obs))
            && c'.life == (if c.cancel && !c.userOwn then Freed else Live) && c'.userOwn == c.userOwn
            && c'.log.sends == c.log.sends
            && c'.log.notified == c.log.notified + (if c.cancel then 0 else 1)
            && c'.log.callbacks == c.log.callbacks + (if c.cancel then 0 else 1)
            && c'.log.acted == (c.log.acted || c.cancel) && (c.cancel ==> c'.cancel)
  {
    hide OnTransition, Report, Finish, Legal;
    WaitTransition(p, c, now);
    var c1 := OnTransition(p, c, WaitNfy, now).value.(st := WaitNfy);
    ReportNotified(c1, cancels);
    FinishStops(Report(c1, cancels).0);
  }

  lemma WaitTransition(p: Params, c: Client, now: int)
    requires Coherent(c)
    requires if c.st.WaitNfy? then c.obs.present && Off(c.app) && Off(c.coap) else Off(c.obs)
    ensures var r := OnTransition(p, c, WaitNfy, now);
            r.Some? && Off(r.value.app) && Off(r.value.coap) && On(r.value.obs)
            && r.value == c.(app := r.value.app, coap := r.value.coap, obs := r.value.obs)
  {}

  lemma ReportNotified(c: Client, cancels: bool)
    requires c.st.WaitNfy?
    ensures var (c', last) := Report(c, cancels);
            last == c.cancel && c' == c.(cancel := c'.cancel, log := c'.log) && (c.cancel ==> c'.cancel)
            && c'.log.sends == c.log.sends
            && c'.log.notified == c.log.notified + (if c.cancel then 0 else 1)
            && c'.log.callbacks == c.log.callbacks + (if c.cancel then 0 else 1)
            && c'.log.acted == (c.log.acted || c.cancel)
  {}

  lemma RenewalAborts(p: Params, c: Client, now: int, cancels: bool)
    requires c.st.WaitNfy? && !c.obs.present
    ensures SetState(p, c, WaitNfy, now, cancels).0.life.Aborted?
  {}

  /** Only the observation bookkeeping changes before the transition. */
  lemma Observed(c: Client, code: nat, now: int)
    requires c.res != []
    ensures var h := HandleObservation(c, code, now);
            h.Some? ==> h.value == c.(on := h.value.on, lastCnt := h.value.lastCnt, lastTs := h.value.lastTs)
  {}

  lemma ResponseStep(p: Params, c: Client, e: Event, now: int, cancels: bool)
    requires Inv(p, c) && Enabled(c, e, now) && e.ResponsePdu?
    ensures var c' := Step(p, c, e, now, cancels);
            if Fatal(c, e, now) then c'.life.Aborted? else Inv(p, c')
  {
    hide SetState, OnSchedule, HandleObservation;
    var c1 := c.(res := c.res + [e.r]);
    Observed(c1, e.r.code, now);
    var h := HandleObservation(c1, e.r.code, now);
    if h.Some? {
      var c2 := h.value;
      if c2.on {
        NotifiedStep(p, c, c2, now, cancels);
      } else if Legal(c.st, ReqDone) {
        EnterFinal(p, c2, ReqDone, now, cancels);
        Finished(p, c2, SetState(p, c2, ReqDone, now, cancels).0);
      } else {
        IllegalAborts(p, c2, ReqDone, now, cancels);
      }
    }
  }

  lemma NotifiedStep(p: Params, c: Client, c2: Client, now: int, cancels: bool)
    requires Inv(p, c) && c.life.Live? && c2.on
    requires c2 == c.(res := c2.res, on := c2.on, lastCnt := c2.lastCnt, lastTs := c2.lastTs)
    ensures var (c3, last) := SetState(p, c2, WaitNfy, now, cancels);
            if !Legal(c.st, WaitNfy) || (c.st.WaitNfy? && c.log.acted) then c3.life.Aborted?
            else
              Inv(p, c3) && Inv(p, c3.(res := [])) && (last ==> c3.log.acted)
  {
    hide SetState, OnSchedule;
    if !Legal(c.st, WaitNfy) {
      IllegalAborts(p, c2, WaitNfy, now, cancels);
    } else if c.log.acted {
      RenewalAborts(p, c2, now, cancels);
    } else {
      EnterWaitNfy(p, c2, now, cancels);
    }
  }

  /** Every event either keeps the invariant or is one of the fatal ones, and then the
      process ends.  In particular no timer expiry ever asks for an illegal transition. */
  lemma StepInv(p: Params, c: Client, e: Event, now: int, cancels: bool)
    requires Inv(p, c) && Enabled(c, e, now)
    ensures var c' := Step(p, c, e, now, cancels);
            (c'.life.Aborted? <==> Fatal(c, e, now)) && (!Fatal(c, e, now) ==> Inv(p, c'))
  {
    hide Step, Enabled, Discipline, BackOff, Accounted, OnSchedule;
    match e
    case DnsDone(_, _, _) => DnsStep(p, c, e, now, cancels);
    case CoapExpiry(_) => CoapStep(p, c, e, now, cancels);
    case EmptyPdu(_) => EmptyStep(p, c, e, now, cancels);
    case ResponsePdu(_) => ResponseStep(p, c, e, now, cancels);
    case AppExpiry => ExpiryStep(p, c, e, now, cancels);
    case ObsExpiry => ExpiryStep(p, c, e, now, cancels);
    case _ => GoStep(p, c, e, now, cancels);
  }

  // ------------------------------------------------------------------ whole runs

  lemma {:induction false} RunInv(p: Params, c: Client, run: seq<Timed>)
    requires Inv(p, c) && c.life.Live?
    ensures var r := Run(p, c, run);
            r.Some? ==> r.value.life.Aborted? || Inv(p, r.value)
  {
    hide Inv, Step, Enabled, Fatal;
    if run != [] {
      RunInv(p, c, run[..|run| - 1]);
      var r := Run(p, c, run[..|run| - 1]);
      var x := run[|run| - 1];
      if r.Some? && Enabled(r.value, x.e, x.at) {
        EnabledIsLive(r.value, x.e, x.at);
        StepInv(p, r.value, x.e, x.at, x.cancels);
      }
    }
  }

  lemma EnabledIsLive(c: Client, e: Event, now: int)
    requires Enabled(c, e, now)
    ensures c.life.Live?
  {}

  /** In every run from a new client, timers are armed in these states and no others.  So an
      application time-out can only hit a request that is unanswered or merely acknowledged,
      never an observation. */
  lemma ArmedExactly(p: Params, con: bool, userOwn: bool, asked: bool, run: seq<Timed>, c: Client)
    requires p.retries >= 1 && Run(p, NewClient(con, userOwn, asked), run) == Some(c) && c.life.Live?
    ensures c.app.armed <==> c.st.ReqSent? || c.st.ReqAckd?
    ensures c.coap.armed <==> c.st.ReqSent? && c.con
    ensures c.obs.armed <==> c.st.WaitNfy? && !c.log.acted
  {
    hide Run, OnSchedule, BackOff, Accounted;
    NewClientInv(p, con, userOwn, asked);
    RunInv(p, NewClient(con, userOwn, asked), run);
  }

  /** In every run, a request goes out at most once more than there are retransmissions,
      each time exactly on the doubling schedule. */
  lemma SendsOnSchedule(p: Params, con: bool, userOwn: bool, asked: bool, run: seq<Timed>, c: Client)
    requires p.retries >= 1 && Run(p, NewClient(con, userOwn, asked), run) == Some(c) && !c.life.Aborted?
    ensures |c.log.sends| <= p.retries + 1
    ensures forall k :: 0 <= k < |c.log.sends| ==> c.log.sends[k] == c.log.sends[0] + Span(p.tout, k)
  {
    hide Run, Accounted, BackOff, Discipline;
    NewClientInv(p, con, userOwn, asked);
    RunInv(p, NewClient(con, userOwn, asked), run);
  }

  /** In every run, the callback has run once for each uncancelled notification of the
      cycle, and once more at its end unless a cancellation has been acted on. */
  lemma CallbacksAccounted(p: Params, con: bool, userOwn: bool, asked: bool, run: seq<Timed>, c: Client)
    requires p.retries >= 1 && Run(p, NewClient(con, userOwn, asked), run) == Some(c) && !c.life.Aborted?
    ensures c.log.callbacks == c.log.notified + (if IsFinal(c.st) && !c.log.acted then 1 else 0)
  {
    hide Run, OnSchedule, BackOff, Discipline;
    NewClientInv(p, con, userOwn, asked);
    RunInv(p, NewClient(con, userOwn, asked), run);
  }

  /** The schedule with the original's constants: at most five sends, at 0, 2, 6, 14 and 30
      seconds, and 62 seconds before giving up. */
  lemma CoapSchedule(sends: seq<int>)
    requires OnSchedule(COAP, sends)
    ensures |sends| <= 5
    ensures forall k :: 0 <= k < |sends| ==> sends[k] - sends[0] == [0, 2, 6, 14, 30][k]
    ensures Span(COAP.tout, COAP.retries + 1) == 62
  {
    SpanClosed(2, 1); SpanClosed(2, 2); SpanClosed(2, 3); SpanClosed(2, 4); SpanClosed(2, 5);
    assert Pow2(1) == 2 && Pow2(2) == 4;
    assert Pow2(3) == 8 && Pow2(4) == 16;
    assert Pow2(5) == 32;
  }

  /** All sends of a cycle lie between the first one and the last retransmission time. */
  lemma SendWindow(p: Params, sends: seq<int>, s: int)
    requires OnSchedule(p, sends) && s in sends
    ensures sends[0] <= s <= sends[0] + Span(p.tout, p.retries)
  {
    var k :| 0 <= k < |sends| && sends[k] == s;
    SpanMonotone(p.tout, k, p.retries);
    SpanMonotone(p.tout, 0, k);
  }

  /** A confirmable request is given up only after every retransmission, exactly when the
      schedule ends, and only if the application time-out is not due before that. */
  lemma GivesUpExactly(p: Params, c: Client, e: Event, now: int, cancels: bool)
    requires Inv(p, c) && Enabled(c, e, now) && !c.st.CoapTimeout?
    requires var c' := Step(p, c, e, now, cancels); c'.st.CoapTimeout? && !c'.life.Aborted?
    ensures e.CoapExpiry? && c.con && |c.log.sends| == p.retries + 1
    ensures now == c.log.sends[0] + Span(p.tout, p.retries + 1)
    ensures c.app.tout >= Span(p.tout, p.retries + 1)
  {
    hide Step;
    StepSettles(p, c, e, now, cancels);
  }

  lemma TransitionKeeps(p: Params, c: Client, next: State, now: int)
    ensures var r := OnTransition(p, c, next, now);
            r.Some? ==> r.value.app.tout == c.app.tout && r.value.st == c.st && r.value.life == c.life
  {}

  /** A transition leads where it says, and leaves the application interval alone. */
  lemma Moves(p: Params, c: Client, next: State, now: int, cancels: bool)
    ensures var c' := SetState(p, c, next, now, cancels).0;
            (c'.life.Aborted? || c'.st == next) && c'.app.tout == c.app.tout
  {
    hide OnTransition, Report, Finish, Legal;
    if Legal(c.st, next) && OnTransition(p, c, next, now).Some? {
      TransitionKeeps(p, c, next, now);
      var c1 := OnTransition(p, c, next, now).value.(st := next);
      ReportKeeps(c1, cancels);
      FinishKeeps(Report(c1, cancels).0);
    }
  }

  lemma ReportKeeps(c: Client, cancels: bool)
    ensures Report(c, cancels).0.st == c.st && Report(c, cancels).0.app == c.app
  {}

  lemma FinishKeeps(c: Client)
    ensures Finish(c).st == c.st && Finish(c).app.tout == c.app.tout
  {}

  /** Only an expiry with no retries left leads to a protocol time-out, and only a new
      request changes the application interval. */
  predicate Settles(c: Client, e: Event, c': Client) {
    (c'.st.CoapTimeout? && !c'.life.Aborted? && !c.st.CoapTimeout? ==> e.CoapExpiry? && c.coap.left == 0)
    && c'.app.tout == (if e.Go? && (c.st.Idle? || IsFinal(c.st)) then e.tout else c.app.tout)
  }

  lemma DnsSettles(p: Params, c: Client, e: Event, now: int, cancels: bool)
    requires e.DnsDone? && !c.life.Aborted?
    ensures Settles(c, e, Step(p, c, e, now, cancels))
  {
    hide SetState;
    var c0 := c.(lookups := if c.lookups > 0 then c.lookups - 1 else 0);
    Moves(p, c0, DnsFailed, now, cancels);
    Moves(p, c0, DnsOk, now, cancels);
    var c2 := SetState(p, c0, DnsOk, now, cancels).0.(log := EMPTY_LOG);
    Moves(p, c2, InternalErr, now, cancels);
    Moves(p, c2.(log := EMPTY_LOG.(sends := [now])), ReqSent, now, cancels);
  }

  lemma CoapSettles(p: Params, c: Client, e: Event, now: int, cancels: bool)
    requires e.CoapExpiry? && !c.life.Aborted?
    ensures Settles(c, e, Step(p, c, e, now, cancels))
  {
    hide SetState;
    var c0 := c.(coap := Fired(c.coap));
    Moves(p, c0, CoapTimeout, now, cancels);
    Moves(p, c0, CoapRetry, now, cancels);
    var c1 := SetState(p, c0, CoapRetry, now, cancels).0;
    Moves(p, c1.(log := c1.log.(sends := c1.log.sends + [now])), ReqSent, now, cancels);
    Moves(p, c1, SendFailed, now, cancels);
  }

  lemma ResponseSettles(p: Params, c: Client, e: Event, now: int, cancels: bool)
    requires e.ResponsePdu? && !c.life.Aborted?
    ensures Settles(c, e, Step(p, c, e, now, cancels))
  {
    hide SetState, HandleObservation;
    var c1 := c.(res := c.res + [e.r]);
    Observed(c1, e.r.code, now);
    var h := HandleObservation(c1, e.r.code, now);
    if h.Some? {
      Moves(p, h.value, if h.value.on then WaitNfy else ReqDone, now, cancels);
    }
  }

  lemma StepSettles(p: Params, c: Client, e: Event, now: int, cancels: bool)
    requires !c.life.Aborted?
    ensures Settles(c, e, Step(p, c, e, now, cancels))
  {
    hide Step, Settles;
    match e
    case DnsDone(_, _, _) => DnsSettles(p, c, e, now, cancels);
    case CoapExpiry(_) => CoapSettles(p, c, e, now, cancels);
    case ResponsePdu(_) => ResponseSettles(p, c, e, now, cancels);
    case _ => OthersSettle(p, c, e, now, cancels);
  }

  lemma OthersSettle(p: Params, c: Client, e: Event, now: int, cancels: bool)
    requires !e.DnsDone? && !e.CoapExpiry? && !e.ResponsePdu? && !c.life.Aborted?
    ensures Settles(c, e, Step(p, c, e, now, cancels))
  {
    hide SetState, IsFinal;
    if e.Go? {
      Moves(p, c, InternalErr, now, cancels);
    } else if e.AppExpiry? {
      Moves(p, c.(app := Fired(c.app)), AppTimeout, now, cancels);
    } else if e.ObsExpiry? {
      Moves(p, c.(obs := Fired(c.obs), on := false), ObsTimeout, now, cancels);
    } else if e.EmptyPdu? {
      Moves(p, c, ReqAckd, now, cancels);
      Moves(p, c, ReqRst, now, cancels);
    }
  }

  /** No callback after the end of a cycle, nor once a cancellation has been acted on,
      until the next request is under way. */
  lemma QuietAfterEnd(p: Params, c: Client, e: Event, now: int, cancels: bool)
    requires Inv(p, c) && Enabled(c, e, now) && !Fatal(c, e, now)
    requires (IsFinal(c.st) || c.log.acted) && !e.DnsDone?
    ensures Step(p, c, e, now, cancels).log.callbacks == c.log.callbacks
  {
    hide OnSchedule, BackOff;
    if c.st.WaitNfy? {
      hide SetState, HandleObservation;
      match e
      case Go(_) => EnterFinal(p, c, InternalErr, now, cancels);
      case EmptyPdu(t) =>
        if t.Rst? {
          EnterFinal(p, c, ReqRst, now, cancels);
        }
      case ResponsePdu(r) =>
        var c1 := c.(res := c.res + [r]);
        Observed(c1, r.code, now);
        var h := HandleObservation(c1, r.code, now);
        if h.Some? && !h.value.on {
          EnterFinal(p, h.value, ReqDone, now, cancels);
        }
      case _ =>
    } else {
      hide SetState;
    }
  }

  /** All application time-outs a run asks for are shorter than the schedule. */
  predicate ShortTimeouts(p: Params, run: seq<Timed>) {
    forall i :: 0 <= i < |run| ==> run[i].e.Go? ==> run[i].e.tout < Span(p.tout, p.retries + 1)
  }

  /** With time-outs shorter than the schedule no run ever ends in a protocol time-out. */
  lemma {:induction false} ShortTimeoutFirst(p: Params, con: bool, userOwn: bool, asked: bool,
                                             run: seq<Timed>, c: Client)
    requires p.retries >= 1 && ShortTimeouts(p, run) && Span(p.tout, p.retries + 1) > 0
    requires Run(p, NewClient(con, userOwn, asked), run) == Some(c) && !c.life.Aborted?
    ensures !c.st.CoapTimeout? && c.app.tout < Span(p.tout, p.retries + 1)
    decreases |run|
  {
    hide Inv, Step, Enabled, Span;
    if run != [] {
      var prefix, x := run[..|run| - 1], run[|run| - 1];
      var c0 := NewClient(con, userOwn, asked);
      var b := Run(p, c0, prefix).value;
      EnabledIsLive(b, x.e, x.at);
      ShortTimeoutFirst(p, con, userOwn, asked, prefix, b);
      NewClientInv(p, con, userOwn, asked);
      RunInv(p, c0, prefix);
      StepSettles(p, b, x.e, x.at, x.cancels);
      if c.st.CoapTimeout? {
        GivesUpExactly(p, b, x.e, x.at, x.cancels);
      }
    }
  }

  /** So with the default application time-out, or less, a client of the protocol's constants
      never reports a protocol time-out: their schedule ends after 62 seconds. */
  lemma DefaultTimeoutFirst(con: bool, userOwn: bool, asked: bool, run: seq<Timed>, c: Client)
    requires forall i :: 0 <= i < |run| && run[i].e.Go? ==> run[i].e.tout <= APP_TOUT
    requires Run(COAP, NewClient(con, userOwn, asked), run) == Some(c) && !c.life.Aborted?
    ensures !c.st.CoapTimeout?
  {
    hide Run;
    CoapSchedule([]);
    ShortTimeoutFirst(COAP, con, userOwn, asked, run, c);
  }

  /** The run of a confirmable request that nobody answers, up to its k-th retransmission. */
  function Unanswered(p: Params, tout: nat, start: int, k: nat): seq<Timed> {
    if k == 0 then [Timed(Go(tout), false, start), Timed(DnsDone(true, true, true), false, start)]
    else Unanswered(p, tout, start, k - 1) + [Timed(CoapExpiry(true), false, start + Span(p.tout, k))]
  }

  lemma {:induction false} UnansweredRuns(p: Params, userOwn: bool, asked: bool, tout: nat, start: int, k: nat)
    requires p.retries >= 1 && k <= p.retries && Span(p.tout, p.retries + 1) <= tout
    ensures var run := Unanswered(p, tout, start, k);
            var r := Run(p, NewClient(true, userOwn, asked), run);
            r.Some? && Inv(p, r.value) && r.value.life.Live? && r.value.st.ReqSent? && r.value.con
            && r.value.app.tout == tout && |r.value.log.sends| == k + 1 && r.value.log.sends[0] == start
            && |run| >= 2 && run[|run| - 1].at == start + Span(p.tout, k)
  {
    hide Inv, Step, Enabled;
    var c0 := NewClient(true, userOwn, asked);
    if k == 0 {
      FirstCopy(p, userOwn, asked, tout, start);
    } else {
      UnansweredRuns(p, userOwn, asked, tout, start, k - 1);
      var prefix := Unanswered(p, tout, start, k - 1);
      assert Unanswered(p, tout, start, k)[..|prefix|] == prefix;
      SpanMonotone(p.tout, k - 1, k);
      SpanMonotone(p.tout, k, p.retries + 1);
      NextCopy(p, Run(p, c0, prefix).value, start + Span(p.tout, k));
    }
  }

  lemma FirstCopy(p: Params, userOwn: bool, asked: bool, tout: nat, start: int)
    requires p.retries >= 1
    ensures var r := Run(p, NewClient(true, userOwn, asked), Unanswered(p, tout, start, 0));
            r.Some? && Inv(p, r.value) && r.value.life.Live? && r.value.st.ReqSent? && r.value.con
            && r.value.app.tout == tout && r.value.log.sends == [start]
  {
    var c0 := NewClient(true, userOwn, asked);
    var go, dns := Timed(Go(tout), false, start), Timed(DnsDone(true, true, true), false, start);
    var c1 := c0.(app := c0.app.(tout := tout), lookups := 1);
    assert Step(p, c0, go.e, start, false) == c1 && Enabled(c0, go.e, start) && Enabled(c1, dns.e, start);
    assert Inv(p, c1);
    hide Step, Inv, Enabled, Run;
    FirstStep(p, c0, go, dns);
    FirstSend(p, c1, start);
  }

  lemma FirstSend(p: Params, c: Client, now: int)
    requires p.retries >= 1 && Inv(p, c) && c.life.Live? && c.st.Idle? && c.con && c.lookups == 1
    ensures var c' := Step(p, c, DnsDone(true, true, true), now, false);
            Inv(p, c') && c'.life.Live? && c'.st.ReqSent? && c'.con
            && c'.app.tout == c.app.tout && c'.log.sends == [now]
  {
    DnsWorks(p, c, DnsDone(true, true, true), now, false);
    EnterDnsOk(p, c.(lookups := 0), now, false);
    EnterReqSent(p, c.(lookups := 0, st := DnsOk, log := EMPTY_LOG.(sends := [now])), now, false);
    hide SetState, Inv;
  }

  lemma FirstStep(p: Params, c: Client, x: Timed, y: Timed)
    requires Enabled(c, x.e, x.at) && x.at <= y.at
    requires Enabled(Step(p, c, x.e, x.at, x.cancels), y.e, y.at)
    ensures Run(p, c, [x, y]) == Some(Step(p, Step(p, c, x.e, x.at, x.cancels), y.e, y.at, y.cancels))
  {
    hide Step, Enabled;
    assert [x, y][..1] == [x] && [x][..0] == [];
    assert Run(p, c, [x]) == Some(Step(p, c, x.e, x.at, x.cancels));
  }

  lemma NextCopy(p: Params, c: Client, now: int)
    requires Inv(p, c) && c.life.Live? && c.st.ReqSent? && c.con && 1 <= |c.log.sends| <= p.retries
    requires now == c.log.sends[0] + Span(p.tout, |c.log.sends|) <= c.log.sends[0] + c.app.tout
    ensures var e := CoapExpiry(true);
            var c' := Step(p, c, e, now, false);
            Enabled(c, e, now) && Inv(p, c') && c'.life.Live? && c'.st.ReqSent? && c'.con
            && c'.app.tout == c.app.tout && c'.log.sends == c.log.sends + [now]
  {
    hide OnSchedule;
    assert Enabled(c, CoapExpiry(true), now);
    CoapStep(p, c, CoapExpiry(true), now, false);
    var c0 := c.(coap := Fired(c.coap));
    EnterRetry(p, c0, now, false);
    EnterResent(p, c0.(st := CoapRetry, log := c.log.(sends := c.log.sends + [now])), now, false);
    hide SetState, Inv;
  }

  /** Such a request is sent at every time of the schedule and then given up, exactly at its
      end, provided the application time-out allows that long. */
  lemma UnansweredGivesUp(p: Params, userOwn: bool, asked: bool, tout: nat, start: int)
    requires p.retries >= 1 && Span(p.tout, p.retries + 1) <= tout
    ensures var run := Unanswered(p, tout, start, p.retries)
                       + [Timed(CoapExpiry(true), false, start + Span(p.tout, p.retries + 1))];
            var r := Run(p, NewClient(true, userOwn, asked), run);
            r.Some? && r.value.st.CoapTimeout? && |r.value.log.sends| == p.retries + 1
  {
    hide Step, Inv, Enabled;
    UnansweredRuns(p, userOwn, asked, tout, start, p.retries);
    var prefix := Unanswered(p, tout, start, p.retries);
    var now := start + Span(p.tout, p.retries + 1);
    var last := Timed(CoapExpiry(true), false, now);
    assert (prefix + [last])[..|prefix|] == prefix;
    SpanMonotone(p.tout, p.retries, p.retries + 1);
    LastExpiry(p, Run(p, NewClient(true, userOwn, asked), prefix).value, now);
  }

  lemma LastExpiry(p: Params, c: Client, now: int)
    requires Inv(p, c) && c.life.Live? && c.st.ReqSent? && c.con && |c.log.sends| == p.retries + 1
    requires now == c.log.sends[0] + Span(p.tout, p.retries + 1) <= c.log.sends[0] + c.app.tout
    ensures var e := CoapExpiry(true);
            var c' := Step(p, c, e, now, false);
            Enabled(c, e, now) && c'.st.CoapTimeout? && c'.log.sends == c.log.sends
            && c'.log.callbacks == c.log.callbacks + (if c.cancel then 0 else 1)
  {
    hide OnSchedule;
    assert c.coap.left == 0 && Enabled(c, CoapExpiry(true), now);
    EnterFinal(p, c.(coap := Fired(c.coap)), CoapTimeout, now, false);
    hide SetState;
  }
}
