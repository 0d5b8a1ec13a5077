/** The timer object both state machines use, over a libevent timer seen as a deadline. */
module Timers {

  /** `present` says that the libevent timer exists, `armed` that it is pending: a timer
      that has fired still exists. */
  datatype TimerView = TimerView(present: bool, armed: bool, deadline: int, left: nat, tout: nat)

  const UNUSED := TimerView(false, false, 0, 0, 0)

  predicate CanStart(t: TimerView, maxRetry: nat) {
    maxRetry != 0 && !t.present
  }

  function Started(t: TimerView, now: int, maxRetry: nat): TimerView {
    if CanStart(t, maxRetry) then TimerView(true, true, now + t.tout, maxRetry, t.tout) else t
  }

  function Removed(t: TimerView): TimerView {
    if t.present then t.(present := false, armed := false, left := 0) else t
  }

  function Rearmed(t: TimerView, now: int): TimerView {
    t.(armed := true, deadline := now + t.tout)
  }

  function Fired(t: TimerView): TimerView {
    t.(armed := false)
  }

  class Timer {
    var present: bool
    var armed: bool
    var deadline: int
    var retriesLeft: nat
    var tout: nat

    function View(): TimerView
      reads this
    {
      TimerView(present, armed, deadline, retriesLeft, tout)
    }

    constructor ()
      ensures View() == UNUSED
    {
      present, armed, deadline, retriesLeft, tout := false, false, 0, 0, 0;
    }

    /** The interval must have been set by the caller. */
    method Start(now: int, maxRetry: nat) returns (ok: bool)
      modifies this
      ensures ok <==> CanStart(old(View()), maxRetry)
      ensures View() == Started(old(View()), now, maxRetry)
    {
      if maxRetry == 0 || present {
        return false;
      }
      retriesLeft := maxRetry;
      present := true;
      armed, deadline := true, now + tout;
      return true;
    }

    method Remove()
      modifies this
      ensures View() == Removed(old(View()))
    {
      if present {
        present, armed := false, false;
        retriesLeft := 0;
      }
    }

    /** Only an existing timer can be restarted: the original would follow a null pointer. */
    method Restart(now: int)
      requires present
      modifies this
      ensures View() == Rearmed(old(View()), now)
    {
      armed := false;
      armed, deadline := true, now + tout;
    }

    method Fire()
      modifies this
      ensures View() == Fired(old(View()))
    {
      armed := false;
    }
  }

  // ------------------------------------------------------- exponential back-off

  /** Interval number `k` of a timer that starts at `t` and doubles. */
  function Interval(t: nat, k: nat): nat {
    if k == 0 then t else 2 * Interval(t, k - 1)
  }

  /** Time of the k-th expiry counted from the start. */
  function Span(t: nat, k: nat): nat {
    if k == 0 then 0 else Span(t, k - 1) + Interval(t, k - 1)
  }

  function Pow2(k: nat): nat {
    if k == 0 then 1 else 2 * Pow2(k - 1)
  }

  lemma {:induction false} IntervalClosed(t: nat, k: nat)
    ensures Interval(t, k) == t * Pow2(k)
  {
    if k > 0 {
      IntervalClosed(t, k - 1);
    }
  }

  lemma {:induction false} SpanClosed(t: nat, k: nat)
    ensures Span(t, k) == t * (Pow2(k) - 1)
  {
    if k > 0 {
      SpanClosed(t, k - 1);
      IntervalClosed(t, k - 1);
    }
  }

  lemma {:induction false} SpanMonotone(t: nat, j: nat, k: nat)
    requires j <= k
    ensures Span(t, j) <= Span(t, k)
  {
    if j < k {
      SpanMonotone(t, j, k - 1);
    }
  }
}
