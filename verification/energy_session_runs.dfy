/** What holds of every run of a portal session, for any order of what the bus delivers. */
module EnergySessionRuns {
  import opened Wrappers
  import opened EnergySession

  ghost predicate StepAt(ss: seq<State>, es: seq<Event>, i: nat)
    requires |ss| == |es| + 1 && i < |es|
  {
    Possible(ss[i], es[i]) && ss[i + 1] == Step(ss[i], es[i])
  }

  /** A session from the moment it enters the table, for any order of what the bus delivers. */
  ghost predicate Run(ss: seq<State>, es: seq<Event>) {
    && |ss| == |es| + 1
    && ss[0] == OPENED
    && forall i: nat {:trigger StepAt(ss, es, i)} | i < |es| :: StepAt(ss, es, i)
  }

  lemma {:induction false} RunInv(ss: seq<State>, es: seq<Event>, i: nat)
    requires Run(ss, es) && i < |ss|
    ensures Inv(ss[i])
  {
    if i > 0 {
      RunInv(ss, es, i - 1);
      assert StepAt(ss, es, i - 1);
      StepInv(ss[i - 1], es[i - 1]);
    }
  }

  /** The answers after the first `n` are all negative. */
  ghost predicate OnlyNoFrom(replies: seq<bool>, n: nat) {
    forall k {:trigger replies[k]} | n <= k < |replies| :: !replies[k]
  }

  /** Once retiring, a session asks nothing more of the bus and tells no acquisition that it is active. */
  ghost predicate Evolves(s: State, t: State) {
    && s.requests <= t.requests && s.replies <= t.replies
    && (s.retiring ==> t.retiring && t.requests == s.requests && (t.applied ==> s.applied))
    && (s.retiring ==> OnlyNoFrom(t.replies, |s.replies|))
    && (!s.listed ==> !t.listed)
    && (s.methodAck ==> t.methodAck) && (s.response.Some? ==> t.response == s.response)
  }

  lemma EvolvesTransitive(s: State, t: State, u: State)
    requires Evolves(s, t) && Evolves(t, u)
    ensures Evolves(s, u)
  {
  }

  lemma CallsEvolve(s: State, a: bool, b: bool, c: bool, d: bool, e: bool)
    requires Inv(s)
    ensures s.opening ==> Evolves(s, OnConnected(s, a, b, c, d, e))
    ensures Evolves(s, OnServiceStarted(s, a, b)) && Evolves(s, OnOwnerNamed(s, a, b, c))
  {
  }

  lemma MaybeAppliedEvolves(s: State, scope: bool)
    ensures Evolves(s, MaybeApplied(s, scope))
  {
  }

  lemma InhibitReturnedEvolves(s: State, ack: bool, scope: bool)
    requires Inv(s)
    ensures Evolves(s, OnInhibitReturned(s, ack, scope))
  {
    MaybeAppliedEvolves(s.(awaited := None, methodAck := true), scope);
  }

  lemma ResponseEvolves(s: State, matches: bool, code: Option<nat>, scope: bool)
    requires Inv(s)
    ensures Evolves(s, OnResponse(s, matches, code, scope))
  {
    if code == Some(0) {
      MaybeAppliedEvolves(s.(response := code), scope);
    }
  }

  lemma TickEvolves(s: State, a: bool, b: bool, c: bool)
    requires Inv(s)
    ensures Evolves(s, OnTick(s, a, b, c)) && Evolves(s, OnOwnerSignal(s, a, b))
    ensures s.listed ==> Evolves(s, OnReacquire(s, a, b))
  {
  }

  lemma ReleaseEvolves(s: State, ok: bool, closed: bool)
    requires Inv(s)
    ensures s.listed ==> Evolves(s, OnRelease(s, closed))
    ensures s.releasing ==> Evolves(s, Finish(s, ok || closed))
  {
  }

  lemma StepEvolves(s: State, e: Event)
    requires Inv(s) && Possible(s, e)
    ensures Evolves(s, Step(s, e))
  {
    match e
    case Connected(ok, scope, handle, again, closed) => CallsEvolve(s, ok, scope, handle, again, closed);
    case ServiceStarted(scope, ok) => CallsEvolve(s, scope, ok, false, false, false);
    case OwnerNamed(scope, ok, again) => CallsEvolve(s, scope, ok, again, false, false);
    case InhibitReturned(ack, scope) => InhibitReturnedEvolves(s, ack, scope);
    case ResponseSignal(matches, code, scope) => ResponseEvolves(s, matches, code, scope);
    case OwnerSignal(matches, changed) => TickEvolves(s, matches, changed, false);
    case Tick(scope, expired, closed) => TickEvolves(s, scope, expired, closed);
    case Reacquire(scope, closed) => TickEvolves(s, scope, closed, false);
    case Release(closed) => ReleaseEvolves(s, false, closed);
    case CloseDone(ok, closed) => ReleaseEvolves(s, ok, closed);
  }

  lemma StepAtEvolves(ss: seq<State>, es: seq<Event>, i: nat)
    requires Run(ss, es) && i < |es|
    ensures Evolves(ss[i], ss[i + 1])
  {
    RunInv(ss, es, i);
    assert StepAt(ss, es, i);
    StepEvolves(ss[i], es[i]);
  }

  lemma {:induction false} RunEvolves(ss: seq<State>, es: seq<Event>, i: nat, j: nat)
    requires Run(ss, es) && i <= j < |ss|
    ensures Evolves(ss[i], ss[j])
  {
    if i < j {
      RunEvolves(ss, es, i, j - 1);
      StepAtEvolves(ss, es, j - 1);
      EvolvesTransitive(ss[i], ss[j - 1], ss[j]);
    }
  }

  /**
   Inhibit is asked for at most once, as the fifth request, after the service was started and
   found and both signals were subscribed to.
   */
  lemma InhibitIsAskedOnceAndLast(ss: seq<State>, es: seq<Event>, i: nat, k: nat)
    requires Run(ss, es) && i < |ss| && k < |ss[i].requests| && ss[i].requests[k] == Inhibit
    ensures k == 4 && ss[i].requests == SCRIPT
  {
    RunInv(ss, es, i);
    assert ss[i].requests[k] == SCRIPT[k];
  }

  /**
   Suspend counts as inhibited only after the acknowledgement and a zero Response, and an
   acquisition is only ever told so with both at hand.
   */
  lemma ActiveMeansProved(ss: seq<State>, es: seq<Event>, i: nat)
    requires Run(ss, es) && i < |ss| && (ss[i].applied || true in ss[i].replies)
    ensures ss[i].methodAck && ss[i].response == Some(0) && ss[i].requests == SCRIPT
  {
    RunInv(ss, es, i);
  }

  /**
   A release request that a session holds is never forgotten: the connection attempt or the
   close callback that will answer it is outstanding. While a session is in use it has its
   connection, so no callback meets a missing one.
   */
  lemma ReleaseIsNotLost(ss: seq<State>, es: seq<Event>, i: nat)
    requires Run(ss, es) && i < |ss|
    ensures ss[i].cleanup ==> ss[i].retiring && (ss[i].opening || ss[i].releasing)
    ensures !ss[i].opening && !ss[i].retiring ==> ss[i].connection
    ensures !ss[i].listed ==> !ss[i].connection && !ss[i].pending && !ss[i].cleanup && !ss[i].applied
  {
    RunInv(ss, es, i);
  }

  /**
   A callback that comes after its session has left the table can at most ask for a release
   driver: it requests nothing, answers nobody and makes nothing applied.
   */
  lemma LateCallbackOnlyAsks(ss: seq<State>, es: seq<Event>, i: nat)
    requires Run(ss, es) && i < |es| && !ss[i].listed
    ensures var s, t := ss[i], ss[i + 1];
            && t.requests == s.requests && t.replies == s.replies && t.cleanups == s.cleanups
            && !t.applied && !t.listed && !t.connection && t.retiring
  {
    RunInv(ss, es, i);
    assert StepAt(ss, es, i);
    LateStep(ss[i], es[i]);
  }

  /** What `finish_release` leaves of a session. */
  predicate Emptied(s: State) {
    && s.retiring && !s.listed && !s.connection && !s.opening && !s.applied && !s.pending && !s.cleanup && !s.releasing
  }

  lemma LateStep(s: State, e: Event)
    requires Emptied(s) && !e.Connected? && !e.Reacquire? && !e.Release? && !e.CloseDone?
    ensures var t := Step(s, e);
            Emptied(t) && t.requests == s.requests && t.replies == s.replies && t.cleanups == s.cleanups
  {
  }

  /** Retiring is final, from any state of a run to any later one. */
  lemma RetiringIsFinal(ss: seq<State>, es: seq<Event>, i: nat, j: nat)
    requires Run(ss, es) && i <= j < |ss| && ss[i].retiring
    ensures ss[j].retiring && ss[j].requests == ss[i].requests
    ensures ss[j].applied ==> ss[i].applied
    ensures forall k | |ss[i].replies| <= k < |ss[j].replies| :: !ss[j].replies[k]
  {
    RunEvolves(ss, es, i, j);
  }
}
