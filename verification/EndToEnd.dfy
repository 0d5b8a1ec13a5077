/** Client and server together, over a network that may lose, duplicate, delay and reorder:
    a confirmable request is executed at most once. */
module EndToEnd {
  import opened OptionTable
  import opened Timers
  import C = ClientSpec
  import R = ClientRuns
  import D = Dups

  /** An arrival, on the server's clock, of one of the copies sent: less than `limit`
      seconds under way. */
  predicate CopyOf(at: int, sends: seq<int>, skew: int, limit: int) {
    exists k :: 0 <= k < |sends| && sends[k] + skew <= at < sends[k] + skew + limit
  }

  /** What the server sees: any traffic at all, in which the messages with this ID from
      this peer are copies of the request. */
  predicate Carries(h: seq<D.Timed>, mid: uint16, peer: string, sends: seq<int>, skew: int, limit: int) {
    D.Ordered(h)
    && forall i :: 0 <= i < |h| && h[i].e.Arrival? && D.About(h[i], mid, peer) ==>
         CopyOf(h[i].at, sends, skew, limit)
  }

  /** The server runs the callback for the arrivals it takes as fresh, and for no others. */
  ghost predicate Executes(h: seq<D.Timed>, i: nat, mid: uint16, peer: string) {
    i < |h| && D.Taken(h, i) && D.About(h[i], mid, peer)
  }

  ghost predicate AtMostOnce(h: seq<D.Timed>, mid: uint16, peer: string) {
    forall i: nat, j: nat :: Executes(h, i, mid, peer) && Executes(h, j, mid, peer) ==> i == j
  }

  /** Arrivals that all lie within the server's memory are executed at most once. */
  lemma OnceWithinMemory(h: seq<D.Timed>, mid: uint16, peer: string, from: int)
    requires D.Ordered(h)
    requires forall i :: 0 <= i < |h| && h[i].e.Arrival? && D.About(h[i], mid, peer) ==>
                           from <= h[i].at < from + D.DUP_LIFETIME
    ensures AtMostOnce(h, mid, peer)
  {
    forall i: nat, j: nat | i < j && Executes(h, i, mid, peer) ensures !Executes(h, j, mid, peer) {
      if j < |h| && h[j].e.Arrival? && D.About(h[j], mid, peer) {
        assert h[i].e.Arrival?;
        assert h[j].at < h[i].at + D.DUP_LIFETIME;
      }
    }
  }

  /** In every run of the client and every trace of the server that carries its request, with
      all copies sent and arrived within the server's memory, the request is executed at
      most once. */
  lemma ExecutedAtMostOnce(p: C.Params, con: bool, userOwn: bool, asked: bool, run: seq<C.Timed>, c: C.Client,
                           h: seq<D.Timed>, mid: uint16, peer: string, skew: int, limit: int)
    requires p.retries >= 1 && C.Run(p, C.NewClient(con, userOwn, asked), run) == Some(c) && !c.life.Aborted?
    requires Span(p.tout, p.retries) + limit <= D.DUP_LIFETIME && Carries(h, mid, peer, c.log.sends, skew, limit)
    ensures AtMostOnce(h, mid, peer)
  {
    hide C.Run;
    R.SendsOnSchedule(p, con, userOwn, asked, run, c);
    var sends := c.log.sends;
    forall i | 0 <= i < |h| && h[i].e.Arrival? && D.About(h[i], mid, peer)
      ensures sends != [] && sends[0] + skew <= h[i].at < sends[0] + skew + D.DUP_LIFETIME
    {
      var k :| 0 <= k < |sends| && sends[k] + skew <= h[i].at < sends[k] + skew + limit;
      R.SendWindow(p, sends, sends[k]);
    }
    OnceWithinMemory(h, mid, peer, if sends == [] then 0 else sends[0] + skew);
  }

  /** And the first copy to arrive is executed, if no older message of the same ID and peer
      is remembered. */
  lemma {:induction false} FirstCopyExecuted(h: seq<D.Timed>, mid: uint16, peer: string, i: nat)
    requires i < |h| && h[i].e.Arrival? && D.About(h[i], mid, peer)
    requires forall j :: 0 <= j < i && h[j].e.Arrival? ==> !D.About(h[j], mid, peer)
    ensures Executes(h, i, mid, peer)
  {
    forall j | 0 <= j < i ensures !(D.Taken(h, j) && D.About(h[j], mid, peer)) {
      assert D.Taken(h, j) ==> h[j].e.Arrival?;
    }
  }

  /** A delay limit is safe if no run of the client, with whatever arrives of it within the
      limit, leads to a second execution. */
  ghost predicate SafeDelay(p: C.Params, limit: int) {
    forall con: bool, userOwn: bool, asked: bool, run: seq<C.Timed>, c: C.Client, h: seq<D.Timed>,
      mid: uint16, peer: string, skew: int ::
      (C.Run(p, C.NewClient(con, userOwn, asked), run) == Some(c) && !c.life.Aborted?
       && Carries(h, mid, peer, c.log.sends, skew, limit)) ==> AtMostOnce(h, mid, peer)
  }

  /** For any retransmission parameters: what the server's memory leaves after the last copy is
      exactly the delay that is safe (a limit of nothing lets nothing arrive). */
  lemma DelayIsTight(p: C.Params, limit: int)
    requires p.retries >= 1
    ensures SafeDelay(p, limit) <==> limit <= 0 || limit <= D.DUP_LIFETIME - Span(p.tout, p.retries)
  {
    if limit <= 0 {
      NothingArrives(p, limit);
    } else if limit <= D.DUP_LIFETIME - Span(p.tout, p.retries) {
      forall con: bool, userOwn: bool, asked: bool, run: seq<C.Timed>, c: C.Client, h: seq<D.Timed>,
        mid: uint16, peer: string, skew: int
        | C.Run(p, C.NewClient(con, userOwn, asked), run) == Some(c) && !c.life.Aborted?
          && Carries(h, mid, peer, c.log.sends, skew, limit)
        ensures AtMostOnce(h, mid, peer)
      {
        ExecutedAtMostOnce(p, con, userOwn, asked, run, c, h, mid, peer, skew, limit);
      }
    } else {
      var h, run, c := Late(p, limit);
    }
  }

  lemma NothingArrives(p: C.Params, limit: int)
    requires limit <= 0
    ensures SafeDelay(p, limit)
  {
    forall h: seq<D.Timed>, mid: uint16, peer: string, sends: seq<int>, skew: int
      | Carries(h, mid, peer, sends, skew, limit)
      ensures AtMostOnce(h, mid, peer)
    {
      OnceWithinMemory(h, mid, peer, 0);
    }
  }

  /** The first copy arrives at once; the last one not before the server has forgotten it. */
  lemma Late(p: C.Params, limit: int) returns (h: seq<D.Timed>, run: seq<C.Timed>, c: C.Client)
    requires p.retries >= 1 && limit > 0 && limit > D.DUP_LIFETIME - Span(p.tout, p.retries)
    ensures C.Run(p, C.NewClient(true, false, false), run) == Some(c) && !c.life.Aborted?
    ensures Carries(h, 1, "peer", c.log.sends, 0, limit) && !AtMostOnce(h, 1, "peer")
  {
    hide C.Run, Span;
    var last, tout := Span(p.tout, p.retries), Span(p.tout, p.retries + 1);
    run := R.Unanswered(p, tout, 0, p.retries);
    R.UnansweredRuns(p, false, false, tout, 0, p.retries);
    c := C.Run(p, C.NewClient(true, false, false), run).value;
    R.SendsOnSchedule(p, true, false, false, run, c);
    var at := if last < D.DUP_LIFETIME then D.DUP_LIFETIME else last;
    h := [D.Timed(D.Arrival(1, "peer"), 0), D.Timed(D.Arrival(1, "peer"), at)];
    assert c.log.sends[0] == 0 && c.log.sends[p.retries] == last;
    assert Executes(h, 0, 1, "peer");
    assert Executes(h, 1, 1, "peer");
  }

  /** Thirty seconds is what the original's constants allow. */
  lemma ThirtySeconds(limit: int)
    ensures SafeDelay(C.COAP, limit) <==> limit <= 30
  {
    hide SafeDelay;
    DelayIsTight(C.COAP, limit);
    SpanClosed(2, 4);
    assert Pow2(2) == 4;
    assert Pow2(4) == 16;
  }
}
