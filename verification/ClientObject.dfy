/** The client transaction object: every method is the corresponding event of ClientSpec. */
module ClientObject {
  import opened OptionTable
  import opened Timers
  import opened ClientSpec

  class Transaction {
    const p: Params
    const con: bool
    const userOwn: bool
    const asked: bool
    const app: Timer
    const coap: Timer
    const obs: Timer
    var st: State
    var on: bool
    var cancel: bool
    var lastCnt: uint16
    var lastTs: int
    var res: seq<Response>
    var lookups: nat
    var life: Life
    ghost var log: Log

    ghost predicate Valid() {
      app != coap && app != obs && coap != obs
    }

    ghost function View(): Client
      reads this, app, coap, obs
    {
      Client(st, con, userOwn, asked, app.View(), coap.View(), obs.View(),
             on, cancel, lastCnt, lastTs, res, lookups, life, log)
    }

    constructor (p: Params, con: bool, userOwn: bool, asked: bool)
      ensures Valid() && fresh(app) && fresh(coap) && fresh(obs) && this.p == p
      ensures View() == NewClient(con, userOwn, asked)
    {
      this.p, this.con, this.userOwn, this.asked := p, con, userOwn, asked;
      app := new Timer();
      coap := new Timer();
      obs := new Timer();
      st, on, cancel, lastCnt, lastTs, res, lookups, life := Idle, false, false, 0, 0, [], 0, Live;
      log := EMPTY_LOG;
    }

    method StartObsTimer(now: int) returns (ok: bool)
      requires Valid()
      modifies obs
      ensures ok <==> CanStart(old(obs.View()), 1)
      ensures obs.View() == Started(old(obs.View()).(tout := ObsInterval(res)), now, 1)
    {
      obs.tout := if res == [] || res[0].maxAge.None? then DEFAULT_MAX_AGE else res[0].maxAge.value;
      obs.tout := obs.tout + 1;
      ok := obs.Start(now, 1);
    }

    method RestartCoapTimer(now: int) returns (ok: bool)
      requires Valid()
      modifies coap
      ensures ok <==> !(old(coap.retriesLeft) > 0 && !old(coap.present))
      ensures !ok || old(coap.retriesLeft) == 0 ==> coap.View() == old(coap.View())
      ensures ok && old(coap.retriesLeft) > 0
              ==> coap.View() == Rearmed(old(coap.View()).(tout := 2 * old(coap.tout),
                                                           left := old(coap.retriesLeft) - 1), now)
    {
      if coap.retriesLeft == 0 {
        return true;
      }
      if !coap.present {
        return false;
      }
      coap.tout := coap.tout * 2;
      coap.retriesLeft := coap.retriesLeft - 1;
      coap.Restart(now);
      return true;
    }

    method TimersForRequest(now: int) returns (ok: bool)
      requires Valid()
      modifies app, coap
      ensures ok <==> OnTransition(p, old(View()), ReqSent, now).Some?
      ensures ok ==> View() == OnTransition(p, old(View()), ReqSent, now).value
      ensures !ok ==> View() == old(View())
    {
      ok := true;
      if st == DnsOk {
        ok := app.Start(now, 1);
        if ok && con {
          coap.tout := p.tout;
          var started := coap.Start(now, p.retries);
        }
      } else if st == CoapRetry {
        ok := RestartCoapTimer(now);
      }
    }

    method TimersForObservation(now: int) returns (ok: bool)
      requires Valid()
      modifies app, coap, obs
      ensures ok <==> OnTransition(p, old(View()), WaitNfy, now).Some?
      ensures ok ==> View() == OnTransition(p, old(View()), WaitNfy, now).value
      ensures !ok ==> View() == old(View())
    {
      ok := true;
      if st == WaitNfy {
        if !obs.present {
          return false;
        }
        obs.Restart(now);
      } else if obs.present {
        return false;
      } else {
        app.Remove();
        if con {
          coap.Remove();
        }
        ok := StartObsTimer(now);
      }
    }

    /** The timer work of a transition; false when the process would end. */
    method TimersFor(next: State, now: int) returns (ok: bool)
      requires Valid()
      modifies app, coap, obs, this`log
      ensures ok <==> OnTransition(p, old(View()), next, now).Some?
      ensures ok ==> View() == OnTransition(p, old(View()), next, now).value
      ensures !ok ==> View() == old(View())
    {
      hide Started, Rearmed, Removed, ObsInterval;
      ok := true;
      if next == ReqSent {
        ok := TimersForRequest(now);
      } else if next == WaitNfy {
        ok := TimersForObservation(now);
      } else if next == ReqAckd {
        if con {
          coap.Remove();
        }
      } else if next == ReqDone {
        if st == ReqAckd && con {
          log := log.(acks := log.acks + 1);
        }
      }
    }

    /** Runs the callback or acts on a cancellation; `final` says whether the cycle ends. */
    method ReportTo(cancels: bool) returns (final: bool)
      modifies this`cancel, this`log
      ensures (View(), final) == Report(old(View()), cancels)
    {
      final := IsFinal(st);
      if final || st == WaitNfy {
        if cancel {
          log := log.(acted := true, rsts := log.rsts + (if res == [] then 0 else 1));
          final := true;
        } else {
          cancel := cancels;
          log := log.(callbacks := log.callbacks + 1,
                      notified := log.notified + (if st.WaitNfy? then 1 else 0));
        }
      }
    }

    method Dispose()
      requires Valid()
      modifies app, coap, obs, this`res, this`life
      ensures View() == Finish(old(View()))
    {
      app.Remove();
      if con {
        coap.Remove();
      }
      obs.Remove();
      if userOwn {
        res := [];
      } else {
        life := Freed;
      }
    }

    method SetState(next: State, now: int, cancels: bool) returns (final: bool)
      requires Valid()
      modifies this, app, coap, obs
      ensures (View(), final) == ClientSpec.SetState(p, old(View()), next, now, cancels)
    {
      hide OnTransition, Report, Finish, Legal;
      if !Legal(st, next) {
        life := Aborted;
        return false;
      }
      var ok := TimersFor(next, now);
      if !ok {
        life := Aborted;
        return false;
      }
      st := next;
      final := ReportTo(cancels);
      if final {
        Dispose();
      }
    }

    method StartRequest(tout: nat, now: int, cancels: bool)
      requires Valid()
      modifies this, app, coap, obs
      ensures View() == Step(p, old(View()), Go(tout), now, cancels)
    {
      if st != Idle && !IsFinal(st) {
        var _ := SetState(InternalErr, now, cancels);
      } else {
        app.tout := tout;
        lookups := lookups + 1;
      }
    }

    method NameResolved(resolved: bool, encoded: bool, sent: bool, now: int, cancels: bool)
      requires Valid()
      modifies this, app, coap, obs
      ensures View() == Step(p, old(View()), DnsDone(resolved, encoded, sent), now, cancels)
    {
      hide ClientSpec.SetState;
      lookups := if lookups > 0 then lookups - 1 else 0;
      if !resolved {
        var _ := SetState(DnsFailed, now, cancels);
        return;
      }
      var _ := SetState(DnsOk, now, cancels);
      if life != Live {
        return;
      }
      log := EMPTY_LOG;
      if !encoded || !sent {
        var _ := SetState(InternalErr, now, cancels);
      } else {
        log := EMPTY_LOG.(sends := [now]);
        var _ := SetState(ReqSent, now, cancels);
      }
    }

    method CoapTimerFired(resent: bool, now: int, cancels: bool)
      requires Valid()
      modifies this, app, coap, obs
      ensures View() == Step(p, old(View()), CoapExpiry(resent), now, cancels)
    {
      hide ClientSpec.SetState;
      coap.Fire();
      if coap.retriesLeft == 0 {
        var _ := SetState(CoapTimeout, now, cancels);
        return;
      }
      var _ := SetState(CoapRetry, now, cancels);
      if life != Live {
        return;
      }
      if resent {
        log := log.(sends := log.sends + [now]);
        var _ := SetState(ReqSent, now, cancels);
      } else {
        var _ := SetState(SendFailed, now, cancels);
      }
    }

    method AppTimerFired(now: int, cancels: bool)
      requires Valid()
      modifies this, app, coap, obs
      ensures View() == Step(p, old(View()), AppExpiry, now, cancels)
    {
      hide ClientSpec.SetState;
      app.Fire();
      var _ := SetState(AppTimeout, now, cancels);
    }

    method ObsTimerFired(now: int, cancels: bool)
      requires Valid()
      modifies this, app, coap, obs
      ensures View() == Step(p, old(View()), ObsExpiry, now, cancels)
    {
      hide ClientSpec.SetState;
      obs.Fire();
      on := false;
      var _ := SetState(ObsTimeout, now, cancels);
    }

    method HandleEmpty(t: MsgType, now: int, cancels: bool)
      requires Valid()
      modifies this, app, coap, obs
      ensures View() == Step(p, old(View()), EmptyPdu(t), now, cancels)
    {
      hide ClientSpec.SetState;
      match t
      case Ack => var _ := SetState(ReqAckd, now, cancels);
      case Rst => var _ := SetState(ReqRst, now, cancels);
      case _ =>
    }

    method CancelObservation(now: int, cancels: bool)
      requires Valid()
      modifies this`cancel
      ensures View() == Step(p, old(View()), Event.Cancel, now, cancels)
    {
      cancel := true;
    }

    method ObserveOptions(code: nat, now: int) returns (ok: bool)
      requires Valid() && res != []
      modifies this`on, this`lastCnt, this`lastTs
      ensures ok <==> HandleObservation(old(View()), code, now).Some?
      ensures View() == if ok then HandleObservation(old(View()), code, now).value else old(View())
    {
      var first := res[0];
      if on {
        if code == CODE_INTERNAL_ERROR || first.observe == None || code == CODE_DELETED {
          on := false;
          return true;
        }
        if (lastCnt - first.observe.value) % 0x1_0000 < 0x8000 && now < lastTs + 0x4000 {
          return false;
        }
        lastCnt, lastTs := first.observe.value, now;
        return true;
      }
      on := asked && first.observe != None;
      return true;
    }

    method HandleResponse(r: Response, now: int, cancels: bool)
      requires Valid()
      modifies this, app, coap, obs
      ensures View() == Step(p, old(View()), ResponsePdu(r), now, cancels)
    {
      hide ClientSpec.SetState, ClientSpec.HandleObservation, OnDnsDone, OnCoapExpiry, IsFinal;
      res := res + [r];
      var ok := ObserveOptions(r.code, now);
      if !ok {
        return;
      }
      var final := SetState(if on then WaitNfy else ReqDone, now, cancels);
      if life == Live && !final && on {
        res := [];
      }
    }
  }
}
