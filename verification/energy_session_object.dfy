/** The portal session as the object that its callbacks update in place. */
module EnergySessionObject {
  import opened Wrappers
  import opened EnergySession

  class Session {
    var opening: bool
    var connection: bool
    var methodAck: bool
    var response: Option<nat>
    var applied: bool
    var retiring: bool
    var releasing: bool
    var pending: bool
    var cleanup: bool
    var subscribed: bool
    var listed: bool
    var awaited: Option<Request>
    var requests: seq<Request>
    var replies: seq<bool>
    var cleanups: seq<bool>
    var asked: nat

    function View(): State
      reads this
    {
      State(opening, connection, methodAck, response, applied, retiring, releasing, pending, cleanup, subscribed,
            listed, awaited, requests, replies, cleanups, asked)
    }

    /** The part of `begin` that puts a new session in the table. */
    constructor ()
      ensures View() == OPENED
    {
      opening, connection, methodAck, response, applied, retiring := true, false, false, None, false, false;
      releasing, pending, cleanup, subscribed, listed := false, true, false, false, true;
      awaited, requests, replies, cleanups, asked := None, [], [], [], 0;
    }

    predicate InUse(scope: bool)
      reads this`retiring
    {
      !retiring && scope
    }

    method ForceRelease()
      modifies this
      ensures View() == Force(old(View()))
    {
      retiring := true;
      asked := asked + 1;
    }

    /** `call`: hand one request to the bus. */
    method CallBus(r: Request)
      modifies this`awaited, this`requests
      ensures View() == Call(old(View()), r)
    {
      requests := requests + [r];
      awaited := Some(r);
    }

    method Subscribe()
      modifies this`subscribed, this`requests
      ensures View() == old(View()).(
                subscribed := true, requests := old(requests) + [SubscribeResponse, SubscribeOwnerChange])
    {
      requests := requests + [SubscribeResponse];
      requests := requests + [SubscribeOwnerChange];
      subscribed := true;
    }

    method CheckApplied(scope: bool)
      modifies this
      ensures View() == MaybeApplied(old(View()), scope)
      ensures !old(retiring) && scope && methodAck && response == Some(0) ==>
                applied && !pending && replies == old(replies) + if old(pending) then [true] else []
    {
      if !InUse(scope) {
        ForceRelease();
        return;
      }
      if methodAck && response == Some(0) {
        applied := true;
        if pending {
          pending := false;
          replies := replies + [true];
        }
      }
    }

    /** Answer the stored acquisition, if there is one, with "not active". */
    method AnswerPending()
      modifies this`pending, this`replies
      ensures View() == old(View()).(
                pending := false, replies := if old(pending) then old(replies) + [false] else old(replies))
    {
      if pending {
        pending := false;
        replies := replies + [false];
      }
    }

    /** Answer the stored release driver, if there is one. */
    method AnswerCleanup(success: bool)
      modifies this`cleanup, this`cleanups
      ensures View() == old(View()).(
                cleanup := false, cleanups := if old(cleanup) then old(cleanups) + [success] else old(cleanups))
    {
      if cleanup {
        cleanup := false;
        cleanups := cleanups + [success];
      }
    }

    /** Take the connection and its subscriptions, and leave the table. */
    method Detach()
      modifies this`applied, this`connection, this`subscribed, this`listed
      ensures View() == old(View()).(applied := false, connection := false, subscribed := false, listed := false)
    {
      applied := false;
      connection := false;
      subscribed := false;
      listed := false;
    }

    method FinishRelease(success: bool)
      modifies this
      ensures View() == Finish(old(View()), success)
    {
      releasing := false;
      if success {
        Detach();
        AnswerPending();
        AnswerCleanup(true);
      } else {
        AnswerCleanup(false);
      }
    }

    method AdvanceRelease(closed: bool)
      modifies this
      ensures View() == Advance(old(View()), closed)
    {
      if retiring && opening {
        return;
      }
      if !retiring || releasing || opening || !cleanup {
        return;
      }
      releasing := true;
      if !connection || closed {
        FinishRelease(true);
      }
    }

    method ConnectDone(ok: bool, scope: bool, handle: bool, again: bool, closed: bool)
      modifies this
      ensures View() == OnConnected(old(View()), ok, scope, handle, again, closed)
    {
      opening := false;
      if ok {
        connection := true;
      }
      if !InUse(scope) || !connection {
        ForceRelease();
        AdvanceRelease(closed);
        return;
      }
      if !handle {
        ForceRelease();
        return;
      }
      if !InUse(again) {
        ForceRelease();
        return;
      }
      CallBus(StartService);
    }

    method ServiceStarts(scope: bool, ok: bool)
      modifies this
      ensures View() == OnServiceStarted(old(View()), scope, ok)
    {
      awaited := None;
      if !InUse(scope) {
        ForceRelease();
        return;
      }
      if !ok {
        ForceRelease();
        return;
      }
      CallBus(GetNameOwner);
    }

    method AskInhibit(scope: bool)
      modifies this
      ensures View() == if Valid(old(View()), scope) then Call(old(View()), Inhibit) else Force(old(View()))
    {
      if !InUse(scope) {
        ForceRelease();
        return;
      }
      CallBus(Inhibit);
    }

    method ServerFound(scope: bool, ok: bool, again: bool)
      modifies this
      ensures View() == OnOwnerNamed(old(View()), scope, ok, again)
    {
      awaited := None;
      if !InUse(scope) {
        ForceRelease();
        return;
      }
      if !ok {
        ForceRelease();
        return;
      }
      Subscribe();
      AskInhibit(again);
    }

    method InhibitDone(ack: bool, scope: bool)
      modifies this
      ensures View() == OnInhibitReturned(old(View()), ack, scope)
    {
      awaited := None;
      if !ack {
        ForceRelease();
        return;
      }
      methodAck := true;
      CheckApplied(scope);
    }

    method ResponseArrives(matches: bool, code: Option<nat>, scope: bool)
      modifies this
      ensures View() == OnResponse(old(View()), matches, code, scope)
    {
      if !connection || !matches {
        return;
      }
      if code != Some(0) {
        ForceRelease();
        return;
      }
      response := code;
      CheckApplied(scope);
    }

    method OwnerChanges(matches: bool, changed: bool)
      modifies this
      ensures View() == OnOwnerSignal(old(View()), matches, changed)
    {
      if !connection || !matches {
        return;
      }
      if changed {
        ForceRelease();
      }
    }

    method TimerTicks(scope: bool, expired: bool, closed: bool)
      modifies this
      ensures View() == OnTick(old(View()), scope, expired, closed)
    {
      if !InUse(scope) || (connection && closed) || (!applied && expired) {
        ForceRelease();
      }
    }

    /** The part of `begin` that finds this session in the table. */
    method BeginAgain(scope: bool, closed: bool)
      modifies this
      ensures View() == OnReacquire(old(View()), scope, closed)
    {
      if applied && InUse(scope) && connection && !closed {
        replies := replies + [true];
        return;
      }
      pending := true;
      ForceRelease();
    }

    method BeginRelease(closed: bool)
      modifies this
      ensures View() == OnRelease(old(View()), closed)
    {
      retiring := true;
      cleanup := true;
      AdvanceRelease(closed);
    }

    method CloseReturns(ok: bool, closed: bool)
      modifies this
      ensures View() == Finish(old(View()), ok || closed)
    {
      FinishRelease(ok || closed);
    }

    /** The replies of the connection attempt and of the calls on the bus. */
    method DeliverReply(e: Event)
      requires e.Connected? || e.ServiceStarted? || e.OwnerNamed? || e.InhibitReturned?
      modifies this
      ensures View() == Step(old(View()), e)
    {
      match e
      case Connected(ok, scope, handle, again, closed) => ConnectDone(ok, scope, handle, again, closed);
      case ServiceStarted(scope, ok) => ServiceStarts(scope, ok);
      case OwnerNamed(scope, ok, again) => ServerFound(scope, ok, again);
      case InhibitReturned(ack, scope) => InhibitDone(ack, scope);
    }

    method DeliverSignal(e: Event)
      requires e.ResponseSignal? || e.OwnerSignal? || e.Tick?
      modifies this
      ensures View() == Step(old(View()), e)
    {
      match e
      case ResponseSignal(matches, code, scope) => ResponseArrives(matches, code, scope);
      case OwnerSignal(matches, changed) => OwnerChanges(matches, changed);
      case Tick(scope, expired, closed) => TimerTicks(scope, expired, closed);
    }

    /** Another acquisition, a release driver, and the end of the connection's close. */
    method DeliverUse(e: Event)
      requires e.Reacquire? || e.Release? || e.CloseDone?
      modifies this
      ensures View() == Step(old(View()), e)
    {
      match e
      case Reacquire(scope, closed) => BeginAgain(scope, closed);
      case Release(closed) => BeginRelease(closed);
      case CloseDone(ok, closed) => CloseReturns(ok, closed);
    }

    /** Whatever is delivered, in any order the bus can deliver it, the session stays sound. */
    method Deliver(e: Event)
      requires Inv(View()) && Possible(View(), e)
      modifies this
      ensures View() == Step(old(View()), e) && Inv(View())
    {
      StepInv(View(), e);
      if e.Connected? || e.ServiceStarted? || e.OwnerNamed? || e.InhibitReturned? {
        DeliverReply(e);
      } else if e.ResponseSignal? || e.OwnerSignal? || e.Tick? {
        DeliverSignal(e);
      } else {
        DeliverUse(e);
      }
    }
  }
}
