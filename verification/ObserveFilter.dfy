/** The filter that drops reordered notifications, over whole observations.  A server puts
    the low 16 bits of its clock, in seconds, into each notification it sends. */
module ObserveFilter {
  import opened OptionTable
  import opened Timers
  import opened ClientSpec
  import opened ClientRuns

  /** A notification: when it was sent (server clock), and when it arrived (client clock). */
  datatype Arrival = Arrival(sent: int, at: int, code: nat, maxAge: Option<nat>)

  const WINDOW: int := 0x4000

  /** ec_get_observe_counter: the clock cut to 16 bits. */
  function Counter(sent: int): uint16 {
    sent % 0x1_0000
  }

  /** One-way delay below `limit`; the two clocks run `skew` seconds apart. */
  predicate Delayed(x: Arrival, skew: int, limit: int) {
    0 <= x.at - x.sent - skew < limit
  }

  predicate Arriving(xs: seq<Arrival>, skew: int, from: int) {
    (forall i :: 0 <= i < |xs| ==> Delayed(xs[i], skew, WINDOW) && from <= xs[i].at)
    && forall i, j :: 0 <= i < j < |xs| ==> xs[i].at <= xs[j].at
  }

  // --------------------------------------------------------- the rule on its own

  /** The rule judges one notification against the last accepted one: it is accepted
      exactly when it was sent in a strictly later second, whatever wraps around and
      however long the silence between them. */
  lemma JudgedBySendTime(last: Arrival, x: Arrival, skew: int)
    requires Delayed(last, skew, WINDOW) && Delayed(x, skew, WINDOW) && last.at <= x.at
    ensures Stale(Counter(last.sent), last.at, Counter(x.sent), x.at) <==> x.sent <= last.sent
  {
    var d := last.sent - x.sent;
    Truncated(last.sent, x.sent);
    if x.at < last.at + WINDOW {
      assert -0x8000 < d < 0x4000;
    }
  }

  lemma Truncated(a: int, b: int)
    ensures (Counter(a) - Counter(b)) % 0x1_0000 == (a - b) % 0x1_0000
  {
    var qa, qb := a / 0x1_0000, b / 0x1_0000;
    assert Counter(a) - Counter(b) == a - b - 0x1_0000 * (qa - qb);
  }

  /** Some delay limits are safe: every pair of notifications is judged by send time. */
  ghost predicate SafeLimit(limit: int) {
    forall last: Arrival, x: Arrival, skew: int ::
      Delayed(last, skew, limit) && Delayed(x, skew, limit) && last.at <= x.at ==>
        (Stale(Counter(last.sent), last.at, Counter(x.sent), x.at) <==> x.sent <= last.sent)
  }

  /** Exactly the delays up to 2^14 seconds, exclusive, are. */
  lemma WindowIsTight(limit: int)
    ensures SafeLimit(limit) <==> limit <= WINDOW
  {
    if limit <= WINDOW {
      forall last: Arrival, x: Arrival, skew: int
        | Delayed(last, skew, limit) && Delayed(x, skew, limit) && last.at <= x.at
        ensures Stale(Counter(last.sent), last.at, Counter(x.sent), x.at) <==> x.sent <= last.sent
      {
        JudgedBySendTime(last, x, skew);
      }
    } else {
      var last, x := Arrival(0, 0, 69, None), Arrival(0, WINDOW, 69, None);
      assert Delayed(last, 0, limit) && Delayed(x, 0, limit);
      assert !Stale(Counter(last.sent), last.at, Counter(x.sent), x.at);
    }
  }

  /** The latest second in which anything so far was sent. */
  function Latest(last: int, xs: seq<Arrival>): int {
    if xs == [] then last
    else
      var l := Latest(last, xs[..|xs| - 1]);
      if xs[|xs| - 1].sent > l then xs[|xs| - 1].sent else l
  }

  /** What should be accepted: everything sent later than all that arrived before it. */
  predicate Fresh(last: int, xs: seq<Arrival>, i: nat)
    requires i < |xs|
  {
    xs[i].sent > Latest(last, xs[..i])
  }

  function Newer(last: int, xs: seq<Arrival>): seq<Arrival> {
    if xs == [] then []
    else
      var n, x := |xs| - 1, xs[|xs| - 1];
      Newer(last, xs[..n]) + (if Fresh(last, xs, n) then [x] else [])
  }

  function LastOf(last: Arrival, ys: seq<Arrival>): Arrival {
    if ys == [] then last else ys[|ys| - 1]
  }

  /** What the rule accepts when every notification is judged by its own counter against
      the last one accepted. */
  function Accepted(last: Arrival, xs: seq<Arrival>): seq<Arrival> {
    if xs == [] then []
    else
      var ys, x := Accepted(last, xs[..|xs| - 1]), xs[|xs| - 1];
      var l := LastOf(last, ys);
      if Stale(Counter(l.sent), l.at, Counter(x.sent), x.at) then ys else ys + [x]
  }

  predicate Increasing(last: int, ys: seq<Arrival>) {
    (forall i :: 0 <= i < |ys| ==> last < ys[i].sent)
    && forall i, j :: 0 <= i < j < |ys| ==> ys[i].sent < ys[j].sent
  }

  /** Over whole observations the rule is exact: what it accepts is what was sent later than
      all that arrived before it. */
  lemma {:induction false} RuleExact(last: Arrival, xs: seq<Arrival>, skew: int)
    requires Delayed(last, skew, WINDOW) && Arriving(xs, skew, last.at)
    ensures Accepted(last, xs) == Newer(last.sent, xs)
    ensures Latest(last.sent, xs) == LastOf(last, Accepted(last, xs)).sent
    ensures LastOf(last, Accepted(last, xs)) == last || LastOf(last, Accepted(last, xs)) in xs
  {
    hide Stale, Counter, Delayed;
    if xs != [] {
      var prefix, x := xs[..|xs| - 1], xs[|xs| - 1];
      RuleExact(last, prefix, skew);
      JudgedBySendTime(LastOf(last, Accepted(last, prefix)), x, skew);
    }
  }

  /** So the accepted notifications were sent in strictly increasing seconds. */
  lemma {:induction false} AcceptedIncreasing(last: Arrival, xs: seq<Arrival>, skew: int)
    requires Delayed(last, skew, WINDOW) && Arriving(xs, skew, last.at)
    ensures Increasing(last.sent, Accepted(last, xs))
  {
    RuleExact(last, xs, skew);
    NewerIncreasing(last.sent, xs);
  }

  lemma {:induction false} NewerIncreasing(last: int, xs: seq<Arrival>)
    ensures Increasing(last, Newer(last, xs))
    ensures last <= Latest(last, xs)
    ensures forall i :: 0 <= i < |Newer(last, xs)| ==> Newer(last, xs)[i].sent <= Latest(last, xs)
  {
    if xs != [] {
      NewerIncreasing(last, xs[..|xs| - 1]);
    }
  }

  // ------------------------------------------------------- the filter as coded

  /** The notification as an event of the client, whose callback lets it go on. */
  function Deliver(x: Arrival): Timed {
    Timed(ResponsePdu(Response(x.code, Some(Counter(x.sent)), x.maxAge)), false, x.at)
  }

  function Deliveries(xs: seq<Arrival>): (run: seq<Timed>)
    ensures |run| == |xs|
  {
    if xs == [] then [] else Deliveries(xs[..|xs| - 1]) + [Deliver(xs[|xs| - 1])]
  }

  /** Codes that do not end the observation. */
  predicate Ordinary(xs: seq<Arrival>) {
    forall x :: x in xs ==> x.code != CODE_INTERNAL_ERROR && x.code != CODE_DELETED
  }

  /** An observation in progress, under a callback that has not cancelled it. */
  predicate Observing(c: Client) {
    c.life.Live? && c.st.WaitNfy? && c.on && c.obs.present && !c.cancel
  }

  /** What the client goes by: the notification whose counter and time it has recorded, and
      if it holds a response, the one that stands first. */
  datatype Memory =
    | Tracking(last: Arrival)
    | Deaf(last: Arrival, held: Arrival)

  /** The stale notification held is judged instead of the one that arrives, for 2^14 seconds
      after the last acceptance.  Then the next one is accepted, and the counter of the stale
      one recorded. */
  predicate Accepts(mem: Memory, x: Arrival) {
    match mem
    case Tracking(last) => !Stale(Counter(last.sent), last.at, Counter(x.sent), x.at)
    case Deaf(last, _) => last.at + WINDOW <= x.at
  }

  function Judged(mem: Memory, x: Arrival): Memory {
    match mem
    case Tracking(last) => if Accepts(mem, x) then Tracking(x) else Deaf(last, x)
    case Deaf(last, held) => if Accepts(mem, x) then Tracking(held.(at := x.at)) else mem
  }

  function MemoryAfter(mem: Memory, xs: seq<Arrival>): Memory {
    if xs == [] then mem else Judged(MemoryAfter(mem, xs[..|xs| - 1]), xs[|xs| - 1])
  }

  /** What gets through. */
  function Through(mem: Memory, xs: seq<Arrival>): seq<Arrival> {
    if xs == [] then []
    else
      var n := |xs| - 1;
      Through(mem, xs[..n]) + (if Accepts(MemoryAfter(mem, xs[..n]), xs[n]) then [xs[n]] else [])
  }

  predicate Recorded(c: Client, last: Arrival) {
    c.lastCnt == Counter(last.sent) && c.lastTs == last.at
  }

  predicate Remembers(c: Client, mem: Memory) {
    Observing(c) && Recorded(c, mem.last)
    && match mem
       case Tracking(_) => c.res == []
       case Deaf(last, held) =>
         c.res != [] && c.res[0].observe == Some(Counter(held.sent))
         && (Counter(last.sent) - Counter(held.sent)) % 0x1_0000 < 0x8000
  }

  /** One notification delivered to an observation, whatever it remembers. */
  lemma DeliveryStep(p: Params, c: Client, mem: Memory, x: Arrival)
    requires Remembers(c, mem) && Ordinary([x]) && Enabled(c, Deliver(x).e, x.at)
    ensures var c' := Step(p, c, Deliver(x).e, x.at, false);
            Remembers(c', Judged(mem, x))
            && c'.log.notified == c.log.notified + (if Accepts(mem, x) then 1 else 0)
            && c'.log.callbacks == c.log.callbacks + (if Accepts(mem, x) then 1 else 0)
  {
    var r := Deliver(x).e.r;
    var c1 := c.(res := c.res + [r]);
    assert x in [x];
    assert c1.res[0] == if c.res == [] then r else c.res[0];
    if Accepts(mem, x) {
      var c2 := c1.(lastCnt := c1.res[0].observe.value, lastTs := x.at);
      assert HandleObservation(c1, r.code, x.at) == Some(c2);
      assert OnTransition(p, c2, WaitNfy, x.at) == Some(c2.(obs := Rearmed(c2.obs, x.at)));
    } else {
      assert HandleObservation(c1, r.code, x.at) == None;
    }
  }

  /** The notifications of a run for which the callback has run. */
  function HeardBy(p: Params, c: Client, xs: seq<Arrival>): seq<Arrival> {
    if xs == [] then []
    else
      var n := |xs| - 1;
      var before, after := Run(p, c, Deliveries(xs[..n])), Run(p, c, Deliveries(xs));
      HeardBy(p, c, xs[..n])
      + (if before.Some? && after.Some? && after.value.log.notified > before.value.log.notified then [xs[n]] else [])
  }

  /** In every run of notifications, of any Max-Age, delay and silence: the callback runs for
      exactly those that get through. */
  lemma {:induction false} HeardExactly(p: Params, c: Client, mem: Memory, xs: seq<Arrival>, c': Client)
    requires Remembers(c, mem) && Ordinary(xs) && Run(p, c, Deliveries(xs)) == Some(c')
    ensures Remembers(c', MemoryAfter(mem, xs)) && HeardBy(p, c, xs) == Through(mem, xs)
    ensures c'.log.notified == c.log.notified + |Through(mem, xs)|
    decreases |xs|
  {
    hide Remembers, Step, Enabled, Accepts, Judged, Ordinary;
    if xs != [] {
      var n := |xs| - 1;
      assert Deliveries(xs)[..n] == Deliveries(xs[..n]);
      LastOrdinary(xs);
      HeardExactly(p, c, mem, xs[..n], Run(p, c, Deliveries(xs[..n])).value);
      DeliveryStep(p, Run(p, c, Deliveries(xs[..n])).value, MemoryAfter(mem, xs[..n]), xs[n]);
    }
  }

  lemma LastOrdinary(xs: seq<Arrival>)
    requires xs != [] && Ordinary(xs)
    ensures Ordinary(xs[..|xs| - 1]) && Ordinary([xs[|xs| - 1]])
  {
    assert xs[|xs| - 1] in xs;
  }

  // ------------------------------------------------------ whatever else happens

  /** A stale notification is held. */
  predicate HoldsStale(c: Client) {
    c.life.Live? && c.st.WaitNfy? && c.on && c.res != [] && c.res[0].observe.Some?
    && (c.lastCnt - c.res[0].observe.value) % 0x1_0000 < 0x8000
  }

  /** The cycle has come to its end. */
  predicate Over(c: Client) {
    !c.life.Live? || IsFinal(c.st)
  }

  lemma Ends(p: Params, c: Client, next: State, now: int, cancels: bool)
    requires c.st.WaitNfy? && (IsFinal(next) || !Legal(WaitNfy, next))
    ensures var c' := SetState(p, c, next, now, cancels).0;
            Over(c') && c'.log.notified == c.log.notified
  {
    hide OnTransition, Report, Finish, Legal, IsFinal;
    if Legal(c.st, next) {
      FinalTransition(p, c, next, now);
      var c1 := OnTransition(p, c, next, now).value.(st := next);
      ReportFinal(c1, cancels);
      FinishLeaves(Report(c1, cancels).0);
    }
  }

  lemma FinishLeaves(c: Client)
    ensures Finish(c).st == c.st && Finish(c).log == c.log
  {}

  lemma DeafToDns(p: Params, c: Client, e: Event, now: int, cancels: bool)
    requires HoldsStale(c) && c.lookups > 0 && e.DnsDone?
    ensures var c' := Step(p, c, e, now, cancels);
            c'.log.notified == c.log.notified && Over(c')
  {
    hide SetState;
    var c0 := c.(lookups := c.lookups - 1);
    Ends(p, c0, DnsFailed, now, cancels);
    Ends(p, c0, DnsOk, now, cancels);
    IllegalAborts(p, c0, DnsOk, now, cancels);
  }

  lemma DeafToTimer(p: Params, c: Client, e: Event, now: int, cancels: bool)
    requires HoldsStale(c) && (e.CoapExpiry? || e.AppExpiry? || e.ObsExpiry?)
    ensures var c' := Step(p, c, e, now, cancels);
            c'.log.notified == c.log.notified && Over(c')
  {
    hide SetState;
    var fired := c.(coap := Fired(c.coap));
    Ends(p, fired, CoapTimeout, now, cancels);
    IllegalAborts(p, fired, CoapRetry, now, cancels);
    Ends(p, c.(app := Fired(c.app)), AppTimeout, now, cancels);
    Ends(p, c.(obs := Fired(c.obs), on := false), ObsTimeout, now, cancels);
  }

  /** No event lets a notification through, for 2^14 seconds since the last acceptance, or puts
      off the end of the observation. */
  lemma DeafStep(p: Params, c: Client, e: Event, now: int, cancels: bool)
    requires HoldsStale(c) && Enabled(c, e, now) && now < c.lastTs + WINDOW
    ensures var c' := Step(p, c, e, now, cancels);
            c'.log.notified == c.log.notified
            && (Over(c') || (HoldsStale(c') && c'.lastTs == c.lastTs && c'.obs.deadline == c.obs.deadline))
  {
    hide SetState;
    match e
    case Go(_) => Ends(p, c, InternalErr, now, cancels);
    case DnsDone(_, _, _) => DeafToDns(p, c, e, now, cancels);
    case CoapExpiry(_) => DeafToTimer(p, c, e, now, cancels);
    case AppExpiry => DeafToTimer(p, c, e, now, cancels);
    case ObsExpiry => DeafToTimer(p, c, e, now, cancels);
    case EmptyPdu(t) =>
      Ends(p, c, ReqAckd, now, cancels);
      Ends(p, c, ReqRst, now, cancels);
    case ResponsePdu(r) => DeafToResponse(p, c, r, now, cancels);
    case Cancel =>
  }

  lemma DeafToResponse(p: Params, c: Client, r: Response, now: int, cancels: bool)
    requires HoldsStale(c) && now < c.lastTs + WINDOW
    ensures var c' := OnResponse(p, c, r, now, cancels);
            c'.log.notified == c.log.notified
            && (Over(c') || (HoldsStale(c') && c'.lastTs == c.lastTs && c'.obs.deadline == c.obs.deadline))
  {
    hide SetState;
    var c1 := c.(res := c.res + [r]);
    assert c1.res[0] == c.res[0];
    assert Stale(c.lastCnt, c.lastTs, c.res[0].observe.value, now);
    Ends(p, c1.(on := false), ReqDone, now, cancels);
  }

  /** In every run: while a stale notification is held, nothing gets through for 2^14 seconds
      since the last acceptance, unless the cycle is over before. */
  lemma {:induction false} DeafUntilLapse(p: Params, c: Client, run: seq<Timed>, c': Client)
    requires HoldsStale(c) && Run(p, c, run) == Some(c')
    requires forall k :: 0 <= k < |run| ==> run[k].at < c.lastTs + WINDOW
    requires forall k, d :: 0 <= k < |run| && Run(p, c, run[..k]) == Some(d) ==> !Over(d)
    ensures c'.log.notified == c.log.notified
    ensures Over(c') || (HoldsStale(c') && c'.lastTs == c.lastTs && c'.obs.deadline == c.obs.deadline)
    decreases |run|
  {
    hide HoldsStale, Over, Step, Enabled;
    if run != [] {
      var prefix, x := run[..|run| - 1], run[|run| - 1];
      var b := Run(p, c, prefix).value;
      forall k, d | 0 <= k < |prefix| && Run(p, c, prefix[..k]) == Some(d) ensures !Over(d) {
        assert prefix[..k] == run[..k];
      }
      DeafUntilLapse(p, c, prefix, b);
      DeafStep(p, b, x.e, x.at, x.cancels);
    }
  }

  // --------------------------------------- against what should get through

  predicate AllFresh(last: int, xs: seq<Arrival>) {
    forall i :: 0 <= i < |xs| ==> Fresh(last, xs, i)
  }

  /** The last notification before the first stale one. */
  function Before(last: Arrival, xs: seq<Arrival>): Arrival {
    if xs == [] then last
    else
      var n := |xs| - 1;
      if AllFresh(last.sent, xs) then xs[n] else Before(last, xs[..n])
  }

  /** Notification i arrives after a stale one, and less than 2^14 seconds after the last one
      before that. */
  predicate Soon(last: Arrival, xs: seq<Arrival>, i: nat)
    requires i < |xs|
  {
    !AllFresh(last.sent, xs[..i]) && xs[i].at < Before(last, xs[..i]).at + WINDOW
  }

  /** Or that long after. */
  predicate Lapses(last: Arrival, xs: seq<Arrival>, i: nat)
    requires i < |xs|
  {
    !AllFresh(last.sent, xs[..i]) && Before(last, xs[..i]).at + WINDOW <= xs[i].at
  }

  /** At most the last one arrives so long after a stale one. */
  predicate Unlapsed(last: Arrival, xs: seq<Arrival>) {
    forall i :: 0 <= i < |xs| - 1 ==> !Lapses(last, xs, i)
  }

  /** A notification newer than all before arrives too soon after a stale one. */
  predicate Misses(last: Arrival, xs: seq<Arrival>) {
    exists i :: 0 <= i < |xs| && Soon(last, xs, i) && Fresh(last.sent, xs, i)
  }

  lemma FreshInPrefix(last: int, xs: seq<Arrival>)
    requires xs != []
    ensures var n := |xs| - 1;
            (forall i :: 0 <= i < n ==> (Fresh(last, xs[..n], i) <==> Fresh(last, xs, i)))
            && (AllFresh(last, xs) <==> AllFresh(last, xs[..n]) && Fresh(last, xs, n))
  {
    hide Latest;
    var n := |xs| - 1;
    assert forall i :: 0 <= i < n ==> xs[..n][..i] == xs[..i];
  }

  lemma InPrefix(last: Arrival, xs: seq<Arrival>)
    requires xs != []
    ensures var n := |xs| - 1;
            (forall i :: 0 <= i < n ==> (Soon(last, xs[..n], i) <==> Soon(last, xs, i))
                                        && (Lapses(last, xs[..n], i) <==> Lapses(last, xs, i)))
            && (Misses(last, xs) <==> Misses(last, xs[..n]) || (Soon(last, xs, n) && Fresh(last.sent, xs, n)))
  {
    FreshInPrefix(last.sent, xs);
    hide Before, AllFresh, Fresh;
    var n := |xs| - 1;
    assert forall i :: 0 <= i < n ==> xs[..n][..i] == xs[..i];
    if Misses(last, xs[..n]) {
      var i :| 0 <= i < n && Soon(last, xs[..n], i) && Fresh(last.sent, xs[..n], i);
      assert Soon(last, xs, i) && Fresh(last.sent, xs, i);
    }
    if Misses(last, xs) {
      var i :| 0 <= i < |xs| && Soon(last, xs, i) && Fresh(last.sent, xs, i);
      if i < n {
        assert Soon(last, xs[..n], i) && Fresh(last.sent, xs[..n], i);
      }
    }
  }

  predicate NoLapse(last: Arrival, xs: seq<Arrival>) {
    forall i :: 0 <= i < |xs| ==> !Lapses(last, xs, i)
  }

  lemma NoMissYet(last: Arrival, xs: seq<Arrival>)
    requires AllFresh(last.sent, xs)
    ensures !Misses(last, xs)
  {
    forall i | 0 <= i < |xs| ensures !Soon(last, xs, i) {
      forall k | 0 <= k < i ensures Fresh(last.sent, xs[..i], k) {
        assert xs[..i][..k] == xs[..k] && Fresh(last.sent, xs, k);
      }
    }
  }

  /** Without a lapse, the client remembers the last notification before the first stale one,
      and what it misses is what comes soon after. */
  predicate Phase(last: Arrival, xs: seq<Arrival>, skew: int) {
    var mem, b := MemoryAfter(Tracking(last), xs), Before(last, xs);
    var ys, zs := Through(Tracking(last), xs), Newer(last.sent, xs);
    mem.last == b && (mem.Tracking? <==> AllFresh(last.sent, xs))
    && Delayed(b, skew, WINDOW) && (b == last || b in xs)
    && ys <= zs && (ys == zs <==> !Misses(last, xs))
    && (!Misses(last, xs) ==> Latest(last.sent, xs) == b.sent)
    && forall k :: |ys| <= k < |zs| ==> zs[k].at < b.at + WINDOW
  }

  lemma PhaseGrows(last: Arrival, xs: seq<Arrival>, skew: int)
    requires xs != [] && Phase(last, xs[..|xs| - 1], skew) && !Lapses(last, xs, |xs| - 1)
    requires Delayed(last, skew, WINDOW) && Arriving(xs, skew, last.at)
    ensures Phase(last, xs, skew)
  {
    var n := |xs| - 1;
    var prefix, x := xs[..n], xs[n];
    FreshInPrefix(last.sent, xs);
    InPrefix(last, xs);
    assert Delayed(x, skew, WINDOW) && Before(last, prefix).at <= x.at;
    hide Stale, Counter, Delayed, Arriving;
    if AllFresh(last.sent, prefix) {
      PhaseGrowsFresh(last, xs, skew);
    }
    hide Misses, Lapses;
  }

  lemma PhaseGrowsFresh(last: Arrival, xs: seq<Arrival>, skew: int)
    requires xs != [] && Phase(last, xs[..|xs| - 1], skew) && AllFresh(last.sent, xs[..|xs| - 1])
    requires Delayed(xs[|xs| - 1], skew, WINDOW) && Before(last, xs[..|xs| - 1]).at <= xs[|xs| - 1].at
    ensures Phase(last, xs, skew)
  {
    var n := |xs| - 1;
    var prefix, x := xs[..n], xs[n];
    FreshInPrefix(last.sent, xs);
    InPrefix(last, xs);
    hide Stale, Counter, Delayed, Misses, Lapses;
    NoMissYet(last, prefix);
    JudgedBySendTime(Before(last, prefix), x, skew);
  }

  lemma {:induction false} PhaseAlways(last: Arrival, xs: seq<Arrival>, skew: int)
    requires Delayed(last, skew, WINDOW) && Arriving(xs, skew, last.at) && NoLapse(last, xs)
    ensures Phase(last, xs, skew)
  {
    hide Phase, Lapses, Delayed;
    if xs == [] {
      PhaseStarts(last, skew);
    } else {
      InPrefix(last, xs);
      PhaseAlways(last, xs[..|xs| - 1], skew);
      PhaseGrows(last, xs, skew);
    }
  }

  lemma PhaseStarts(last: Arrival, skew: int)
    requires Delayed(last, skew, WINDOW)
    ensures Phase(last, [], skew)
  {}

  /** What gets through is what should, exactly if nothing newer comes soon after a stale
      one.  The first to come after a lapse gets through, as it should. */
  lemma ThroughIsNewerIff(last: Arrival, xs: seq<Arrival>, skew: int)
    requires Delayed(last, skew, WINDOW) && Arriving(xs, skew, last.at) && Unlapsed(last, xs)
    ensures Through(Tracking(last), xs) == Newer(last.sent, xs) <==> !Misses(last, xs)
  {
    if xs != [] {
      InPrefix(last, xs);
      PhaseAlways(last, xs[..|xs| - 1], skew);
      if Lapses(last, xs, |xs| - 1) {
        FirstAfterLapse(last, xs, skew);
      } else {
        PhaseGrows(last, xs, skew);
      }
    }
  }

  lemma FirstAfterLapse(last: Arrival, xs: seq<Arrival>, skew: int)
    requires xs != [] && Phase(last, xs[..|xs| - 1], skew) && Lapses(last, xs, |xs| - 1)
    requires Delayed(last, skew, WINDOW) && Arriving(xs, skew, last.at)
    ensures Through(Tracking(last), xs) == Newer(last.sent, xs) <==> !Misses(last, xs)
  {
    var n := |xs| - 1;
    var prefix, x := xs[..n], xs[n];
    var ys, zs := Through(Tracking(last), prefix), Newer(last.sent, prefix);
    InPrefix(last, xs);
    assert Delayed(x, skew, WINDOW);
    hide Misses, Stale, AllFresh, Latest, Arriving;
    assert Through(Tracking(last), xs) == ys + [x];
    if Misses(last, prefix) {
      assert |ys| < |zs| && zs[|ys|].at < x.at;
      assert Newer(last.sent, xs)[|ys|] == zs[|ys|];
    }
  }

  /** In every run of notifications that lie less than 2^14 seconds under way, of any Max-Age
      and with any silences before a stale one and one lapse after it: the client hears of
      exactly the newer ones if and only if none of them comes soon after a stale one. */
  lemma HearsAllIff(p: Params, c: Client, last: Arrival, skew: int, xs: seq<Arrival>, c': Client)
    requires Remembers(c, Tracking(last)) && Ordinary(xs) && Run(p, c, Deliveries(xs)) == Some(c')
    requires Delayed(last, skew, WINDOW) && Arriving(xs, skew, last.at) && Unlapsed(last, xs)
    ensures HeardBy(p, c, xs) == Newer(last.sent, xs) <==> !Misses(last, xs)
  {
    hide Remembers, Misses, Unlapsed, Delayed, Run, Arriving;
    HeardExactly(p, c, Tracking(last), xs, c');
    ThroughIsNewerIff(last, xs, skew);
  }

  // -------------------------------------------------------- from the opening on

  /** The response that opens an observation is accepted and not recorded: the client goes on
      remembering whatever it did. */
  lemma Opening(p: Params, c: Client, r: Response, now: int)
    requires c.life.Live? && c.st.ReqSent? && !c.on && c.asked && !c.cancel && c.res == []
    requires CanStart(c.obs, 1) && r.observe.Some?
    ensures var c' := Step(p, c, ResponsePdu(r), now, false);
            Remembers(c', Tracking(Arrival(c.lastCnt as int, c.lastTs, 0, None)))
            && c'.log.notified == c.log.notified + 1
  {
    var c0 := c.(res := [r]);
    assert c.res + [r] == [r];
    assert HandleObservation(c0, r.code, now) == Some(c0.(on := true));
    WaitEntered(p, c0.(on := true), now);
    hide SetState;
  }

  lemma WaitOpened(p: Params, c: Client, now: int)
    requires c.st.ReqSent? && CanStart(c.obs, 1)
    ensures var r := OnTransition(p, c, WaitNfy, now);
            r.Some? && r.value == c.(app := r.value.app, coap := r.value.coap, obs := r.value.obs)
            && r.value.obs.present
  {}

  lemma ReportUncancelled(c: Client)
    requires c.st.WaitNfy? && !c.cancel
    ensures Report(c, false) == (c.(log := c.log.(callbacks := c.log.callbacks + 1, notified := c.log.notified + 1)),
                                 false)
  {}

  lemma WaitEntered(p: Params, c: Client, now: int)
    requires c.st.ReqSent? && !c.cancel && CanStart(c.obs, 1)
    ensures var (c', last) := SetState(p, c, WaitNfy, now, false);
            c'.life == c.life && c'.st.WaitNfy? && c'.on == c.on && !c'.cancel && c'.obs.present && !last
            && c'.lastCnt == c.lastCnt && c'.lastTs == c.lastTs && c'.log.notified == c.log.notified + 1
  {
    hide OnTransition, Report, Finish;
    WaitOpened(p, c, now);
    ReportUncancelled(OnTransition(p, c, WaitNfy, now).value.(st := WaitNfy));
  }

  lemma {:induction false} ThroughFront(mem: Memory, xs: seq<Arrival>)
    requires xs != []
    ensures MemoryAfter(mem, xs) == MemoryAfter(Judged(mem, xs[0]), xs[1..])
    ensures Through(mem, xs) == (if Accepts(mem, xs[0]) then [xs[0]] else []) + Through(Judged(mem, xs[0]), xs[1..])
  {
    hide Accepts, Judged;
    var n := |xs| - 1;
    assert xs[..0] == [];
    if n > 0 {
      ThroughFront(mem, xs[..n]);
      assert xs[..n][1..] == xs[1..][..n - 1];
    }
  }

  /** In every run that goes on after the lapse: the first notification is heard whatever it
      is, and the rest is judged as if the stale one had been accepted at its time.  So for
      2^14 seconds, and send times less than 2^15 seconds before or 2^16 after the stale one,
      the next is heard if it was sent up to 2^15 seconds after that: perhaps no later than
      the one just heard, while a later one may be refused. */
  lemma AfterLapse(p: Params, c: Client, last: Arrival, held: Arrival, xs: seq<Arrival>, c': Client)
    requires Remembers(c, Deaf(last, held)) && Ordinary(xs) && Run(p, c, Deliveries(xs)) == Some(c')
    requires xs != [] && last.at + WINDOW <= xs[0].at
    ensures var mem := Tracking(held.(at := xs[0].at));
            HeardBy(p, c, xs) == [xs[0]] + Through(mem, xs[1..])
            && Remembers(c', MemoryAfter(mem, xs[1..]))
            && (|xs| > 1 && xs[1].at < xs[0].at + WINDOW && -0x8000 < xs[1].sent - held.sent < 0x1_0000
                ==> (Accepts(mem, xs[1]) <==> 0 < xs[1].sent - held.sent <= 0x8000))
  {
    hide Run, Remembers, HeardBy;
    HeardExactly(p, c, Deaf(last, held), xs, c');
    ThroughFront(Deaf(last, held), xs);
    if |xs| > 1 && -0x8000 < xs[1].sent - held.sent < 0x1_0000 {
      Truncated(held.sent, xs[1].sent);
    }
  }

  lemma {:induction false} NewerFront(last: int, xs: seq<Arrival>)
    requires xs != []
    ensures var l := if xs[0].sent > last then xs[0].sent else last;
            Latest(last, xs) == Latest(l, xs[1..])
            && Newer(last, xs) == (if xs[0].sent > last then [xs[0]] else []) + Newer(l, xs[1..])
  {
    var n := |xs| - 1;
    assert xs[..0] == [];
    if n > 0 {
      NewerFront(last, xs[..n]);
      assert xs[..n][1..] == xs[1..][..n - 1];
    }
  }

  /** From the opening on: after the response x0, with nothing recorded for 2^14 seconds (such
      as ever), the client hears of exactly what is newer if and only if the first
      notification is newer than the response and what follows it is heard so. */
  lemma HearsAllFromOpeningIff(p: Params, c: Client, x0: Arrival, skew: int, xs: seq<Arrival>, c': Client)
    requires c.life.Live? && c.st.ReqSent? && !c.on && c.asked && !c.cancel && c.res == [] && CanStart(c.obs, 1)
    requires c.lastTs + WINDOW <= x0.at && Delayed(x0, skew, WINDOW) && Arriving(xs, skew, x0.at) && Ordinary(xs)
    requires xs != [] ==> Unlapsed(xs[0], xs[1..])
    requires var c1 := Step(p, c, Deliver(x0).e, x0.at, false); Run(p, c1, Deliveries(xs)) == Some(c')
    ensures var c1 := Step(p, c, Deliver(x0).e, x0.at, false);
            HeardBy(p, c1, xs) == Newer(x0.sent, xs)
            <==> xs == [] || (xs[0].sent > x0.sent && !Misses(xs[0], xs[1..]))
  {
    hide Remembers, Misses, Unlapsed, Run, Step, CanStart, Newer, Through, Arriving, Delayed;
    var forgotten := Arrival(c.lastCnt as int, c.lastTs, 0, None);
    Opening(p, c, Deliver(x0).e.r, x0.at);
    HeardExactly(p, Step(p, c, Deliver(x0).e, x0.at, false), Tracking(forgotten), xs, c');
    UnrecordedIff(forgotten, x0, xs, skew);
  }

  lemma UnrecordedIff(forgotten: Arrival, x0: Arrival, xs: seq<Arrival>, skew: int)
    requires forgotten.at + WINDOW <= x0.at && Delayed(x0, skew, WINDOW) && Arriving(xs, skew, x0.at)
    requires xs != [] ==> Unlapsed(xs[0], xs[1..])
    ensures Through(Tracking(forgotten), xs) == Newer(x0.sent, xs)
            <==> xs == [] || (xs[0].sent > x0.sent && !Misses(xs[0], xs[1..]))
  {
    hide Misses, Unlapsed;
    if xs != [] {
      assert Accepts(Tracking(forgotten), xs[0]);
      assert Delayed(xs[0], skew, WINDOW) && Arriving(xs[1..], skew, xs[0].at);
      ThroughFront(Tracking(forgotten), xs);
      NewerFront(x0.sent, xs);
      ThroughIsNewerIff(xs[0], xs[1..], skew);
      NewerIncreasing(x0.sent, xs);
      hide Through, Newer, Arriving, Delayed, Accepts;
      FrontsDiffer(x0.sent, xs[0], Through(Tracking(xs[0]), xs[1..]), Newer(xs[0].sent, xs[1..]), Newer(x0.sent, xs));
    }
  }

  lemma FrontsDiffer(last: int, x: Arrival, ys: seq<Arrival>, zs: seq<Arrival>, newer: seq<Arrival>)
    requires Increasing(last, newer) && (x.sent > last ==> newer == [x] + zs)
    ensures [x] + ys == newer <==> x.sent > last && ys == zs
  {
    if [x] + ys == newer {
      assert newer[0] == x;
      assert ys == newer[1..];
    }
  }

  /** So a first notification that was sent before the response is heard all the same. */
  lemma OlderIsHeard(p: Params, c: Client, x0: Arrival, x: Arrival, c': Client)
    requires c.life.Live? && c.st.ReqSent? && !c.on && c.asked && !c.cancel && c.res == [] && CanStart(c.obs, 1)
    requires c.lastTs + WINDOW <= x0.at <= x.at && x.sent <= x0.sent && Ordinary([x])
    requires var c1 := Step(p, c, Deliver(x0).e, x0.at, false); Run(p, c1, Deliveries([x])) == Some(c')
    ensures var c1 := Step(p, c, Deliver(x0).e, x0.at, false);
            HeardBy(p, c1, [x]) == [x] && Newer(x0.sent, [x]) == []
  {
    hide Remembers, Run, Step, CanStart;
    var mem := Tracking(Arrival(c.lastCnt as int, c.lastTs, 0, None));
    Opening(p, c, Deliver(x0).e.r, x0.at);
    var c1 := Step(p, c, Deliver(x0).e, x0.at, false);
    HeardExactly(p, c1, mem, [x], c');
    assert Accepts(mem, x);
    ThroughFront(mem, [x]);
    NewerFront(x0.sent, [x]);
  }
}
