/** What the client does at an event, in terms of the event: where it goes, whom it tells, and
    the ACK and RST messages it sends; and what that comes to over whole runs. */
module ClientLaws {
  import opened OptionTable
  import opened Timers
  import opened ClientSpec
  import opened ClientRuns

  /** The first of the responses held, the one that arrives included. */
  function First(c: Client, r: Response): Response {
    if c.res == [] then r else c.res[0]
  }

  /** Its Max-Age, 60 seconds if it says none. */
  function LifetimeOf(r: Response): nat {
    match r.maxAge
    case None => 60
    case Some(seconds) => seconds
  }

  /** A notification is dropped if the first response held has a counter up to 2^15 before the one
      recorded, less than 2^14 seconds ago; codes 2.02 and 5.00 are never dropped. */
  predicate Dropped(c: Client, r: Response, now: int) {
    c.on && r.code != 66 && r.code != 160
    && match First(c, r).observe
       case None => false
       case Some(cnt) => (c.lastCnt - cnt) % 65536 < 32768 && now < c.lastTs + 16384
  }

  /** A response opens an observation that was asked for, or continues one, if the first held has
      an Observe option; codes 2.02 and 5.00 end it. */
  predicate Observes(c: Client, r: Response) {
    First(c, r).observe.Some? && if c.on then r.code != 66 && r.code != 160 else c.asked
  }

  function StateAfter(c: Client, e: Event, now: int): State {
    match e
    case Go(_) => if c.st.Idle? || IsFinal(c.st) then c.st else InternalErr
    case DnsDone(resolved, encoded, sent) =>
      if !resolved then DnsFailed else if encoded && sent then ReqSent else InternalErr
    case CoapExpiry(resent) => if c.coap.left == 0 then CoapTimeout else if resent then ReqSent else SendFailed
    case AppExpiry => AppTimeout
    case ObsExpiry => ObsTimeout
    case EmptyPdu(t) => if t.Ack? then ReqAckd else if t.Rst? then ReqRst else c.st
    case ResponsePdu(r) => if Dropped(c, r, now) then c.st else if Observes(c, r) then WaitNfy else ReqDone
    case Cancel => c.st
  }

  /** Events the user is told of, unless a cancellation has been asked for. */
  predicate Tells(c: Client, e: Event, now: int) {
    match e
    case Go(_) => !c.st.Idle? && !IsFinal(c.st)
    case DnsDone(resolved, encoded, sent) => !resolved || !encoded || !sent
    case CoapExpiry(resent) => c.coap.left == 0 || !resent
    case AppExpiry => true
    case ObsExpiry => true
    case EmptyPdu(t) => t.Rst?
    case ResponsePdu(r) => !Dropped(c, r, now)
    case Cancel => false
  }

  /** A request goes out again: the cycle begins. */
  predicate Begins(e: Event) {
    e.DnsDone? && e.resolved
  }

  function One(b: bool): nat {
    if b then 1 else 0
  }

  /** The log at the beginning of the event: that of the cycle so far, or of a new one. */
  function LogBefore(c: Client, e: Event): Log {
    if Begins(e) then EMPTY_LOG else c.log
  }

  /** Everything but the timers. */
  predicate StepsTo(c: Client, e: Event, now: int, cancels: bool, c': Client) {
    var l, tells, held := LogBefore(c, e), Tells(c, e, now), e.ResponsePdu? || c.res != [];
    var observes := e.ResponsePdu? && !Dropped(c, e.r, now) && Observes(c, e.r);
    c'.st == StateAfter(c, e, now) && c'.con == c.con && c'.asked == c.asked && c'.userOwn == c.userOwn
    && c'.log.acks == l.acks + One(e.ResponsePdu? && tells && !observes && c.st.ReqAckd? && c.con)
    && c'.log.rsts == l.rsts + One(tells && c.cancel && held)
    && c'.log.callbacks == l.callbacks + One(tells && !c.cancel)
    && c'.log.notified == l.notified + One(observes && !c.cancel)
    && c'.log.acted == (l.acted || (tells && c.cancel))
    && c'.cancel == (c.cancel || e.Cancel? || (tells && cancels))
    && c'.on == (if e.ResponsePdu? && !Dropped(c, e.r, now) then observes else c.on && !e.ObsExpiry?)
    && c'.res == if tells && c.userOwn && (c.cancel || !observes) then []
                 else if observes && !c.cancel then []
                 else if e.ResponsePdu? then c.res + [e.r] else c.res
  }

  predicate TimersOnly(c: Client, c': Client) {
    c' == c.(app := c'.app, coap := c'.coap, obs := c'.obs)
  }

  lemma RequestFrame(p: Params, c: Client, next: State, now: int)
    requires next.ReqSent? || next.WaitNfy?
    ensures var r := OnTransition(p, c, next, now);
            r.Some? ==> TimersOnly(c, r.value)
  {
    hide Started, Rearmed, Removed, ObsInterval;
  }

  lemma TransitionFrame(p: Params, c: Client, next: State, now: int)
    ensures var r := OnTransition(p, c, next, now);
            r.Some? ==>
              TimersOnly(c.(log := c.log.(acks := c.log.acks + One(next.ReqDone? && c.st.ReqAckd? && c.con))), r.value)
  {
    hide Started, Rearmed, Removed, ObsInterval;
    if next.ReqSent? || next.WaitNfy? {
      RequestFrame(p, c, next, now);
      hide OnTransition;
    } else if next.ReqDone? && c.st.ReqAckd? && c.con {
    } else {
      assert c.log.(acks := c.log.acks + 0) == c.log;
    }
  }

  lemma Reported(c: Client, cancels: bool)
    ensures var (c', last) := Report(c, cancels);
            var told := IsFinal(c.st) || c.st.WaitNfy?;
            c' == c.(cancel := c.cancel || (told && cancels),
                     log := Log(c.log.sends, c.log.acks, c.log.rsts + One(told && c.cancel && c.res != []),
                                c.log.callbacks + One(told && !c.cancel),
                                c.log.notified + One(c.st.WaitNfy? && !c.cancel),
                                c.log.acted || (told && c.cancel)))
            && last == (IsFinal(c.st) || (told && c.cancel))
  {}

  lemma Finishing(c: Client)
    ensures var c' := Finish(c);
            c' == c.(app := c'.app, coap := c'.coap, obs := c'.obs,
                     res := if c.userOwn then [] else c.res, life := if c.userOwn then c.life else Freed)
  {
    hide Removed;
  }

  /** What nobody changes in a transition. */
  predicate SameBasis(c: Client, c': Client) {
    c'.con == c.con && c'.asked == c.asked && c'.userOwn == c.userOwn && c'.on == c.on
    && c'.lastCnt == c.lastCnt && c'.lastTs == c.lastTs
  }

  /** What a transition does, apart from the timers, unless it ends the process. */
  predicate Entered(c: Client, next: State, cancels: bool, c': Client) {
    var told := IsFinal(next) || next.WaitNfy?;
    var last := IsFinal(next) || (told && c.cancel);
    c'.st == next && SameBasis(c, c')
    && c'.log.acks == c.log.acks + One(next.ReqDone? && c.st.ReqAckd? && c.con)
    && c'.log.rsts == c.log.rsts + One(told && c.cancel && c.res != [])
    && c'.log.callbacks == c.log.callbacks + One(told && !c.cancel)
    && c'.log.notified == c.log.notified + One(next.WaitNfy? && !c.cancel)
    && c'.log.acted == (c.log.acted || (told && c.cancel))
    && c'.cancel == (c.cancel || (told && cancels))
    && c'.res == (if last && c.userOwn then [] else c.res)
    && (c'.life.Live? <==> !last || c.userOwn)
  }

  lemma Enters(p: Params, c: Client, next: State, now: int, cancels: bool)
    requires c.life.Live?
    ensures var (c', last) := SetState(p, c, next, now, cancels);
            !c'.life.Aborted? ==>
              Entered(c, next, cancels, c') && last == (IsFinal(next) || (next.WaitNfy? && c.cancel))
  {
    hide OnTransition, Report, Finish, Legal, IsFinal;
    TransitionFrame(p, c, next, now);
    if Legal(c.st, next) && OnTransition(p, c, next, now).Some? {
      var c1 := OnTransition(p, c, next, now).value.(st := next);
      Reported(c1, cancels);
      Finishing(Report(c1, cancels).0);
    }
  }

  lemma DnsIs(p: Params, c: Client, e: Event, now: int, cancels: bool)
    requires e.DnsDone? && c.life.Live?
    ensures var c' := Step(p, c, e, now, cancels); !c'.life.Aborted? ==> StepsTo(c, e, now, cancels, c')
  {
    hide StepsTo, OnDnsDone;
    LookedUp(p, c, e, now, cancels);
  }

  lemma LookedUp(p: Params, c: Client, e: Event, now: int, cancels: bool)
    requires e.DnsDone? && c.life.Live?
    ensures var c' := OnDnsDone(p, c, e.resolved, e.encoded, e.sent, now, cancels);
            !c'.life.Aborted? ==> StepsTo(c, e, now, cancels, c')
  {
    hide SetState, StepsTo, Legal;
    var c0 := c.(lookups := if c.lookups > 0 then c.lookups - 1 else 0);
    if !e.resolved {
      Unresolved(p, c, c0, e, now, cancels);
    } else if Legal(c.st, DnsOk) {
      EnterDnsOk(p, c0, now, cancels);
      Resolved(p, c, c0.(st := DnsOk, log := EMPTY_LOG), e, now, cancels);
    } else {
      IllegalAborts(p, c0, DnsOk, now, cancels);
    }
  }

  lemma Unresolved(p: Params, c: Client, c0: Client, e: Event, now: int, cancels: bool)
    requires e.DnsDone? && !e.resolved && c.life.Live? && c0 == c.(lookups := c0.lookups)
    ensures var c' := SetState(p, c0, DnsFailed, now, cancels).0;
            !c'.life.Aborted? ==> StepsTo(c, e, now, cancels, c')
  {
    hide SetState;
    Enters(p, c0, DnsFailed, now, cancels);
  }

  /** States the user is not told of. */
  lemma OnTheWay(c: Client, next: State, cancels: bool, c': Client)
    requires Entered(c, next, cancels, c') && !IsFinal(next) && !next.WaitNfy?
    ensures SameBasis(c, c') && c'.st == next && c'.cancel == c.cancel && c'.res == c.res
    ensures c'.log.acks == c.log.acks && c'.log.rsts == c.log.rsts && c'.log.callbacks == c.log.callbacks
            && c'.log.notified == c.log.notified && c'.log.acted == c.log.acted
  {}

  lemma NotFreed(c: Client, next: State, cancels: bool, c': Client)
    ensures Entered(c, next, cancels, c') && !IsFinal(next) && !next.WaitNfy? ==> c'.life.Live?
  {}

  lemma Resolved(p: Params, c: Client, c2: Client, e: Event, now: int, cancels: bool)
    requires e.DnsDone? && e.resolved && c2.life.Live? && c2.log == EMPTY_LOG && c2.st.DnsOk?
    requires SameBasis(c, c2) && c2.cancel == c.cancel && c2.res == c.res
    ensures var c' := if !e.encoded || !e.sent then SetState(p, c2, InternalErr, now, cancels).0
                      else SetState(p, c2.(log := EMPTY_LOG.(sends := [now])), ReqSent, now, cancels).0;
            !c'.life.Aborted? ==> StepsTo(c, e, now, cancels, c')
  {
    hide SetState;
    if !e.encoded || !e.sent {
      Enters(p, c2, InternalErr, now, cancels);
    } else {
      Enters(p, c2.(log := EMPTY_LOG.(sends := [now])), ReqSent, now, cancels);
    }
  }

  lemma CoapIs(p: Params, c: Client, e: Event, now: int, cancels: bool)
    requires e.CoapExpiry? && c.life.Live?
    ensures var c' := Step(p, c, e, now, cancels); !c'.life.Aborted? ==> StepsTo(c, e, now, cancels, c')
  {
    hide SetState, StepsTo, Entered;
    var c0 := c.(coap := Fired(c.coap));
    if c.coap.left == 0 {
      GivenUp(p, c, c0, e, now, cancels);
    } else {
      Enters(p, c0, CoapRetry, now, cancels);
      var c1 := SetState(p, c0, CoapRetry, now, cancels).0;
      if c1.life.Live? {
        OnTheWay(c0, CoapRetry, cancels, c1);
        Again(p, c, c1, e, now, cancels);
      }
      NotFreed(c0, CoapRetry, cancels, c1);
    }
  }

  lemma GivenUp(p: Params, c: Client, c0: Client, e: Event, now: int, cancels: bool)
    requires e.CoapExpiry? && c.coap.left == 0 && c.life.Live? && c0 == c.(coap := c0.coap)
    ensures var c' := SetState(p, c0, CoapTimeout, now, cancels).0;
            !c'.life.Aborted? ==> StepsTo(c, e, now, cancels, c')
  {
    hide SetState;
    Enters(p, c0, CoapTimeout, now, cancels);
  }

  lemma Again(p: Params, c: Client, c1: Client, e: Event, now: int, cancels: bool)
    requires e.CoapExpiry? && c1.life.Live? && c1.st.CoapRetry? && c.coap.left > 0
    requires SameBasis(c, c1) && c1.cancel == c.cancel && c1.res == c.res
    requires c1.log.acks == c.log.acks && c1.log.rsts == c.log.rsts && c1.log.callbacks == c.log.callbacks
             && c1.log.notified == c.log.notified && c1.log.acted == c.log.acted
    ensures var c' := if e.resent then SetState(p, c1.(log := c1.log.(sends := c1.log.sends + [now])), ReqSent, now, cancels).0
                      else SetState(p, c1, SendFailed, now, cancels).0;
            !c'.life.Aborted? ==> StepsTo(c, e, now, cancels, c')
  {
    hide SetState;
    if e.resent {
      Enters(p, c1.(log := c1.log.(sends := c1.log.sends + [now])), ReqSent, now, cancels);
    } else {
      Enters(p, c1, SendFailed, now, cancels);
    }
  }

  lemma JudgedSo(c: Client, r: Response, now: int)
    ensures var c1 := c.(res := c.res + [r]);
            var h := HandleObservation(c1, r.code, now);
            (h.None? <==> Dropped(c, r, now))
            && (h.Some? ==> h.value == c1.(on := Observes(c, r), lastCnt := h.value.lastCnt, lastTs := h.value.lastTs))
  {}

  lemma ResponseIs(p: Params, c: Client, e: Event, now: int, cancels: bool)
    requires e.ResponsePdu? && c.life.Live?
    ensures var c' := Step(p, c, e, now, cancels); !c'.life.Aborted? ==> StepsTo(c, e, now, cancels, c')
  {
    hide SetState, HandleObservation, Dropped, Observes;
    JudgedSo(c, e.r, now);
    var h := HandleObservation(c.(res := c.res + [e.r]), e.r.code, now);
    if h.Some? {
      Enters(p, h.value, if Observes(c, e.r) then WaitNfy else ReqDone, now, cancels);
    }
  }

  /** Every event that does not end the process does this. */
  lemma StepIs(p: Params, c: Client, e: Event, now: int, cancels: bool)
    requires c.life.Live?
    ensures var c' := Step(p, c, e, now, cancels); !c'.life.Aborted? ==> StepsTo(c, e, now, cancels, c')
  {
    hide Step, StepsTo;
    match e
    case DnsDone(_, _, _) => DnsIs(p, c, e, now, cancels);
    case CoapExpiry(_) => CoapIs(p, c, e, now, cancels);
    case ResponsePdu(_) => ResponseIs(p, c, e, now, cancels);
    case _ => OtherIs(p, c, e, now, cancels);
  }

  lemma OtherIs(p: Params, c: Client, e: Event, now: int, cancels: bool)
    requires c.life.Live? && !e.DnsDone? && !e.CoapExpiry? && !e.ResponsePdu?
    ensures var c' := Step(p, c, e, now, cancels); !c'.life.Aborted? ==> StepsTo(c, e, now, cancels, c')
  {
    hide SetState, StepsTo;
    match e
    case Go(_) => GoIs(p, c, e, now, cancels);
    case AppExpiry => TimerIs(p, c, c.(app := Fired(c.app)), e, now, cancels);
    case ObsExpiry => TimerIs(p, c, c.(obs := Fired(c.obs), on := false), e, now, cancels);
    case EmptyPdu(t) => EmptyIs(p, c, e, now, cancels);
    case Cancel => CancelIs(p, c, now, cancels);
  }

  lemma GoIs(p: Params, c: Client, e: Event, now: int, cancels: bool)
    requires c.life.Live? && e.Go?
    ensures var c' := Step(p, c, e, now, cancels); !c'.life.Aborted? ==> StepsTo(c, e, now, cancels, c')
  {
    hide SetState;
    Enters(p, c, InternalErr, now, cancels);
  }

  lemma TimerIs(p: Params, c: Client, c0: Client, e: Event, now: int, cancels: bool)
    requires c.life.Live? && (e.AppExpiry? || e.ObsExpiry?)
    requires c0 == c.(app := c0.app, obs := c0.obs, on := c.on && !e.ObsExpiry?)
    ensures var c' := SetState(p, c0, if e.AppExpiry? then AppTimeout else ObsTimeout, now, cancels).0;
            !c'.life.Aborted? ==> StepsTo(c, e, now, cancels, c')
  {
    hide SetState;
    Enters(p, c0, if e.AppExpiry? then AppTimeout else ObsTimeout, now, cancels);
  }

  lemma EmptyIs(p: Params, c: Client, e: Event, now: int, cancels: bool)
    requires c.life.Live? && e.EmptyPdu?
    ensures var c' := Step(p, c, e, now, cancels); !c'.life.Aborted? ==> StepsTo(c, e, now, cancels, c')
  {
    hide SetState;
    if e.t.Ack? {
      Enters(p, c, ReqAckd, now, cancels);
    } else {
      Enters(p, c, ReqRst, now, cancels);
    }
  }

  lemma CancelIs(p: Params, c: Client, now: int, cancels: bool)
    ensures StepsTo(c, Cancel, now, cancels, Step(p, c, Cancel, now, cancels))
  {}

  // ------------------------------------------------------------- acknowledgements

  /** In the current cycle an empty ACK has come. */
  predicate AckArrived(run: seq<Timed>) {
    run != []
    && (var e := run[|run| - 1].e;
        !Begins(e) && (e == EmptyPdu(MsgType.Ack) || AckArrived(run[..|run| - 1])))
  }

  /** In the current cycle there has been an observation. */
  predicate WasObserving(p: Params, c0: Client, run: seq<Timed>) {
    run != []
    && !Begins(run[|run| - 1].e)
    && (match Run(p, c0, run) {
          case None => false
          case Some(c) => c.st.WaitNfy?
        } || WasObserving(p, c0, run[..|run| - 1]))
  }

  /** Where ACKs stand in each state. */
  predicate Acknowledges(c: Client, acked: bool, observed: bool) {
    c.log.acks == One(c.con && c.st.ReqDone? && acked && !observed)
    && (c.st.Idle? || c.st.ReqSent? ==> !acked && !observed)
    && (c.st.ReqAckd? ==> acked && !observed) && (c.st.WaitNfy? ==> observed)
  }

  lemma StepAcknowledges(p: Params, b: Client, x: Timed, acked: bool, observed: bool)
    requires Inv(p, b) && Enabled(b, x.e, x.at) && Acknowledges(b, acked, observed)
    ensures var c := Step(p, b, x.e, x.at, x.cancels);
            !c.life.Aborted? ==>
              c.con == b.con
              && Acknowledges(c, !Begins(x.e) && (x.e == EmptyPdu(MsgType.Ack) || acked),
                              !Begins(x.e) && (c.st.WaitNfy? || observed))
  {
    EnabledIsLive(b, x.e, x.at);
    StepIs(p, b, x.e, x.at, x.cancels);
    StepInv(p, b, x.e, x.at, x.cancels);
    ArmedSo(p, b);
    if x.e.ResponsePdu? {
      JudgedSo(b, x.e.r, x.at);
    }
    hide Step, Dropped, Observes, OnSchedule, BackOff, Accounted, Discipline, HandleObservation;
  }

  lemma ArmedSo(p: Params, c: Client)
    requires Inv(p, c) && c.life.Live?
    ensures c.app.armed ==> c.st.ReqSent? || c.st.ReqAckd?
    ensures c.coap.armed ==> c.st.ReqSent?
    ensures c.obs.armed ==> c.st.WaitNfy?
  {
    hide OnSchedule, BackOff, Accounted;
  }

  /** In every run, the client has sent one ACK in the cycle if the flow is confirmable and the
      cycle has ended in a response that came after an empty ACK and opened no observation, and
      otherwise none. */
  lemma {:induction false} AcksExactly(p: Params, con: bool, userOwn: bool, asked: bool, run: seq<Timed>, c: Client)
    requires p.retries >= 1 && Run(p, NewClient(con, userOwn, asked), run) == Some(c) && !c.life.Aborted?
    ensures c.con == con
    ensures c.log.acks == One(con && c.st.ReqDone? && AckArrived(run)
                              && !WasObserving(p, NewClient(con, userOwn, asked), run))
    ensures Acknowledges(c, AckArrived(run), WasObserving(p, NewClient(con, userOwn, asked), run))
    decreases |run|
  {
    hide Inv, Step, Enabled;
    var c0 := NewClient(con, userOwn, asked);
    if run != [] {
      var prefix, x := run[..|run| - 1], run[|run| - 1];
      var b := Run(p, c0, prefix).value;
      EnabledIsLive(b, x.e, x.at);
      AcksExactly(p, con, userOwn, asked, prefix, b);
      NewClientInv(p, con, userOwn, asked);
      RunInv(p, c0, prefix);
      StepAcknowledges(p, b, x, AckArrived(prefix), WasObserving(p, c0, prefix));
    }
  }

  // ------------------------------------------------------------------------ resets

  /** A cancellation has been asked for, by itself or by the callback. */
  predicate CancelAsked(p: Params, c0: Client, run: seq<Timed>) {
    run != []
    && (var x := run[|run| - 1];
        x.e.Cancel? || CancelAsked(p, c0, run[..|run| - 1])
        || match Run(p, c0, run[..|run| - 1])
           case None => false
           case Some(b) => x.cancels && Tells(b, x.e, x.at))
  }

  /** One RST for each time the user would be told, a cancellation having been asked for, while a
      response is there to be rejected. */
  function RstsDue(p: Params, c0: Client, run: seq<Timed>): nat {
    if run == [] then 0
    else
      var prefix, x := run[..|run| - 1], run[|run| - 1];
      (if Begins(x.e) then 0 else RstsDue(p, c0, prefix))
      + match Run(p, c0, prefix)
        case None => 0
        case Some(b) =>
          One(Tells(b, x.e, x.at) && CancelAsked(p, c0, prefix) && (x.e.ResponsePdu? || b.res != []))
  }

  lemma {:induction false} RstsExactly(p: Params, con: bool, userOwn: bool, asked: bool, run: seq<Timed>, c: Client)
    requires p.retries >= 1 && Run(p, NewClient(con, userOwn, asked), run) == Some(c) && !c.life.Aborted?
    ensures c.cancel == CancelAsked(p, NewClient(con, userOwn, asked), run)
    ensures c.log.rsts == RstsDue(p, NewClient(con, userOwn, asked), run)
    ensures c.log.rsts > 0 ==> c.log.acted
    decreases |run|
  {
    hide Inv, Step, Enabled, Tells, Dropped, Observes, StateAfter;
    var c0 := NewClient(con, userOwn, asked);
    if run != [] {
      var prefix, x := run[..|run| - 1], run[|run| - 1];
      var b := Run(p, c0, prefix).value;
      EnabledIsLive(b, x.e, x.at);
      RstsExactly(p, con, userOwn, asked, prefix, b);
      StepIs(p, b, x.e, x.at, x.cancels);
    }
  }

  /** A client of the engine sends one at most, which ends it. */
  lemma OneRst(p: Params, con: bool, asked: bool, run: seq<Timed>, c: Client)
    requires p.retries >= 1 && Run(p, NewClient(con, false, asked), run) == Some(c) && !c.life.Aborted?
    ensures c.log.rsts <= 1 && (c.log.rsts == 1 ==> c.life.Freed?)
  {
    hide Run;
    var c0 := NewClient(con, false, asked);
    if run != [] {
      var prefix, x := run[..|run| - 1], run[|run| - 1];
      LastStep(p, c0, run);
      var b := Run(p, c0, prefix).value;
      hide Inv, Step, Enabled, Tells, Dropped, Observes, StateAfter;
      EnabledIsLive(b, x.e, x.at);
      RstsExactly(p, con, false, asked, prefix, b);
      RstsExactly(p, con, false, asked, run, c);
      NewClientInv(p, con, false, asked);
      RunInv(p, c0, prefix);
      RunInv(p, c0, run);
      OwnerKept(p, con, false, asked, prefix, b);
      OwnerKept(p, con, false, asked, run, c);
      ActedIsOwn(p, b);
      ActedIsOwn(p, c);
      StepIs(p, b, x.e, x.at, x.cancels);
    } else {
      NothingRun(p, c0);
    }
  }

  lemma NothingRun(p: Params, c0: Client)
    ensures Run(p, c0, []) == Some(c0)
  {}

  lemma LastStep(p: Params, c0: Client, run: seq<Timed>)
    requires run != [] && Run(p, c0, run).Some?
    ensures var prefix, x := run[..|run| - 1], run[|run| - 1];
            var r := Run(p, c0, prefix);
            r.Some? && Enabled(r.value, x.e, x.at) && Run(p, c0, run) == Some(Step(p, r.value, x.e, x.at, x.cancels))
  {
    hide Step, Enabled;
  }

  lemma ActedIsOwn(p: Params, c: Client)
    requires Inv(p, c)
    ensures c.life.Live? && c.log.acted ==> c.userOwn
  {
    hide OnSchedule, BackOff, Accounted, Discipline;
  }

  /** These do not change in a run. */
  lemma {:induction false} OwnerKept(p: Params, con: bool, userOwn: bool, asked: bool, run: seq<Timed>, c: Client)
    requires Run(p, NewClient(con, userOwn, asked), run) == Some(c) && !c.life.Aborted?
    ensures c.userOwn == userOwn && c.asked == asked && c.con == con
    decreases |run|
  {
    hide Step, Enabled, Tells, Dropped, Observes, StateAfter;
    if run != [] {
      var prefix, x := run[..|run| - 1], run[|run| - 1];
      var b := Run(p, NewClient(con, userOwn, asked), prefix).value;
      EnabledIsLive(b, x.e, x.at);
      OwnerKept(p, con, userOwn, asked, prefix, b);
      StepIs(p, b, x.e, x.at, x.cancels);
    }
  }

  /** A client of the user may send more: after a cancellation has been acted on, an error
      response is rejected again. */
  lemma AnotherRst(p: Params, c: Client, r: Response, now: int, cancels: bool)
    requires Inv(p, c) && Enabled(c, ResponsePdu(r), now) && c.st.WaitNfy? && c.on && c.log.acted
    requires r.code == 160
    ensures var c' := Step(p, c, ResponsePdu(r), now, cancels);
            c'.st.ReqDone? && c'.log.rsts == c.log.rsts + 1
  {
    EnabledIsLive(c, ResponsePdu(r), now);
    StepIs(p, c, ResponsePdu(r), now, cancels);
    StepInv(p, c, ResponsePdu(r), now, cancels);
    JudgedSo(c, r, now);
    hide Step, OnSchedule, BackOff, Discipline, HandleObservation;
  }

  // ------------------------------------------------------------------ observations

  /** Without having asked for it a client never observes. */
  lemma {:induction false} NeverUnasked(p: Params, con: bool, userOwn: bool, run: seq<Timed>, c: Client)
    requires Run(p, NewClient(con, userOwn, false), run) == Some(c) && !c.life.Aborted?
    ensures !c.asked && !c.on && !c.st.WaitNfy?
    decreases |run|
  {
    hide Step, Enabled, Tells, Dropped;
    if run != [] {
      var prefix, x := run[..|run| - 1], run[|run| - 1];
      var b := Run(p, NewClient(con, userOwn, false), prefix).value;
      EnabledIsLive(b, x.e, x.at);
      NeverUnasked(p, con, userOwn, prefix, b);
      StepIs(p, b, x.e, x.at, x.cancels);
    }
  }

  /** Codes 2.02 and 5.00 end an observation. */
  lemma CodesThatEnd(p: Params, c: Client, r: Response, now: int, cancels: bool)
    requires c.life.Live? && c.st.WaitNfy? && c.on && (r.code == 66 || r.code == 160)
    ensures var c' := Step(p, c, ResponsePdu(r), now, cancels);
            !c'.life.Aborted? ==> c'.st.ReqDone? && !c'.on
  {
    StepIs(p, c, ResponsePdu(r), now, cancels);
    hide Step;
  }

  datatype Watch = Watch(maxAge: nat, since: int)

  /** The Max-Age of the response that opened the observation, the first held that is, and the
      time of the latest notification accepted. */
  function Watched(p: Params, c0: Client, run: seq<Timed>): Watch {
    if run == [] then Watch(0, 0)
    else
      var prefix, x := run[..|run| - 1], run[|run| - 1];
      var w := Watched(p, c0, prefix);
      match Run(p, c0, prefix)
      case None => w
      case Some(b) =>
        if x.e.ResponsePdu? && !Dropped(b, x.e.r, x.at) && Observes(b, x.e.r) then
          Watch(if b.st.WaitNfy? then w.maxAge else LifetimeOf(First(b, x.e.r)), x.at)
        else w
  }

  predicate Guarded(c: Client, w: Watch) {
    c.life.Live? && c.st.WaitNfy? && !c.log.acted ==>
      c.obs.tout == 1 + w.maxAge && c.obs.deadline == w.since + 1 + w.maxAge
  }

  /** In every run, an observation is given up one second and the Max-Age of the response that
      opened it after the latest notification accepted: that is when its timer stands. */
  lemma {:induction false} GivenUpAfterMaxAge(p: Params, con: bool, userOwn: bool, asked: bool, run: seq<Timed>, c: Client)
    requires p.retries >= 1 && Run(p, NewClient(con, userOwn, asked), run) == Some(c) && !c.life.Aborted?
    ensures c.life.Live? && c.st.WaitNfy? && !c.log.acted ==>
              var w := Watched(p, NewClient(con, userOwn, asked), run);
              c.obs.tout == 1 + w.maxAge && c.obs.deadline == w.since + 1 + w.maxAge
    decreases |run|
  {
    hide Inv, Step, Enabled, Tells, Dropped, Observes;
    var c0 := NewClient(con, userOwn, asked);
    if run != [] {
      var prefix, x := run[..|run| - 1], run[|run| - 1];
      var b := Run(p, c0, prefix).value;
      EnabledIsLive(b, x.e, x.at);
      GivenUpAfterMaxAge(p, con, userOwn, asked, prefix, b);
      NewClientInv(p, con, userOwn, asked);
      RunInv(p, c0, prefix);
      StepGuards(p, b, x, Watched(p, c0, prefix));
    }
  }

  lemma ObservationTimer(p: Params, c: Client, now: int, cancels: bool)
    requires c.life.Live? && !c.cancel
    ensures var c' := SetState(p, c, WaitNfy, now, cancels).0;
            !c'.life.Aborted? ==>
              c'.obs == if c.st.WaitNfy? then Rearmed(c.obs, now)
                        else TimerView(true, true, now + ObsInterval(c.res), 1, ObsInterval(c.res))
  {
    hide Report, Finish, Legal, Rearmed;
    Reported(c.(st := WaitNfy), cancels);
    if Legal(c.st, WaitNfy) && OnTransition(p, c, WaitNfy, now).Some? {
      Reported(OnTransition(p, c, WaitNfy, now).value.(st := WaitNfy), cancels);
    }
  }

  /** The observation timer after a response. */
  lemma ResponseGuards(p: Params, b: Client, r: Response, now: int, cancels: bool)
    requires b.life.Live? && !b.cancel
    ensures var c := Step(p, b, ResponsePdu(r), now, cancels);
            !c.life.Aborted? ==>
              if Dropped(b, r, now) then c.obs == b.obs
              else Observes(b, r) ==>
                     c.obs == if b.st.WaitNfy? then Rearmed(b.obs, now)
                              else TimerView(true, true, now + 1 + LifetimeOf(First(b, r)), 1, 1 + LifetimeOf(First(b, r)))
  {
    hide SetState, HandleObservation, Dropped, Observes;
    JudgedSo(b, r, now);
    var h := HandleObservation(b.(res := b.res + [r]), r.code, now);
    if h.Some? {
      ObservationTimer(p, h.value, now, cancels);
    }
  }

  lemma OthersGuard(p: Params, b: Client, e: Event, now: int, cancels: bool)
    requires b.life.Live? && b.st.WaitNfy? && (e.Cancel? || (e.EmptyPdu? && !e.t.Ack? && !e.t.Rst?))
    ensures Step(p, b, e, now, cancels).obs == b.obs
  {}

  lemma StepGuards(p: Params, b: Client, x: Timed, w: Watch)
    requires Inv(p, b) && Enabled(b, x.e, x.at) && Guarded(b, w)
    ensures var c := Step(p, b, x.e, x.at, x.cancels);
            var accepts := x.e.ResponsePdu? && !Dropped(b, x.e.r, x.at) && Observes(b, x.e.r);
            !c.life.Aborted? ==>
              Guarded(c, if accepts then Watch(if b.st.WaitNfy? then w.maxAge else LifetimeOf(First(b, x.e.r)), x.at) else w)
  {
    EnabledIsLive(b, x.e, x.at);
    StepIs(p, b, x.e, x.at, x.cancels);
    var c := Step(p, b, x.e, x.at, x.cancels);
    if !c.life.Aborted? && c.life.Live? && c.st.WaitNfy? && !c.log.acted {
      if x.e.ResponsePdu? {
        if !b.cancel {
          ResponseGuards(p, b, x.e.r, x.at, x.cancels);
        }
      } else {
        OthersGuard(p, b, x.e, x.at, x.cancels);
      }
    }
    hide Step, Inv, Enabled, Dropped, Observes;
  }

  // ---------------------------------------------------------- the application timer

  /** The time-out of the latest request made, if it could be made. */
  function ToutGiven(p: Params, c0: Client, run: seq<Timed>): nat {
    if run == [] then 0
    else
      var prefix, x := run[..|run| - 1], run[|run| - 1];
      match Run(p, c0, prefix)
      case None => 0
      case Some(b) =>
        if x.e.Go? && (b.st.Idle? || IsFinal(b.st)) then x.e.tout else ToutGiven(p, c0, prefix)
  }

  lemma {:induction false} ToutIsGiven(p: Params, con: bool, userOwn: bool, asked: bool, run: seq<Timed>, c: Client)
    requires Run(p, NewClient(con, userOwn, asked), run) == Some(c) && !c.life.Aborted?
    ensures c.app.tout == ToutGiven(p, NewClient(con, userOwn, asked), run)
    decreases |run|
  {
    hide Step, Enabled;
    if run != [] {
      var prefix, x := run[..|run| - 1], run[|run| - 1];
      var b := Run(p, NewClient(con, userOwn, asked), prefix).value;
      EnabledIsLive(b, x.e, x.at);
      ToutIsGiven(p, con, userOwn, asked, prefix, b);
      StepSettles(p, b, x.e, x.at, x.cancels);
    }
  }

  /** In every run, an unanswered or merely acknowledged request times out just as long after its
      first copy as was asked for, and not otherwise. */
  lemma AppTimesOut(p: Params, con: bool, userOwn: bool, asked: bool, run: seq<Timed>, c: Client)
    requires p.retries >= 1 && Run(p, NewClient(con, userOwn, asked), run) == Some(c) && c.life.Live?
    requires c.st.ReqSent? || c.st.ReqAckd?
    ensures c.app.armed && |c.log.sends| >= 1
            && c.app.deadline == c.log.sends[0] + ToutGiven(p, NewClient(con, userOwn, asked), run)
  {
    hide Run, OnSchedule, Accounted;
    ToutIsGiven(p, con, userOwn, asked, run, c);
    NewClientInv(p, con, userOwn, asked);
    RunInv(p, NewClient(con, userOwn, asked), run);
  }
}
