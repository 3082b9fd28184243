/**
 What a portal session does with each thing it is told, one observable after the other: when it gives
 up, what it asks of the bus, whom it answers and how. Every statement is about all runs.
 */
module EnergySessionAnswers {
  import opened Wrappers
  import opened EnergySession
  import opened EnergySessionRuns

  // ---------------------------------------------------------------- giving up

  /** What ends the use of a session that is not retiring. */
  predicate Faults(s: State, e: Event) {
    match e
    case Connected(ok, scope, handle, again, _) => !(ok && scope && handle && again)
    case ServiceStarted(scope, ok) => !(scope && ok)
    case OwnerNamed(scope, ok, again) => !(scope && ok && again)
    case InhibitReturned(ack, scope) => !(ack && scope)
    case ResponseSignal(matches, code, scope) => matches && !(code == Some(0) && scope)
    case OwnerSignal(matches, changed) => matches && changed
    case Tick(scope, expired, closed) => !scope || (s.connection && closed) || (expired && !s.applied)
    case Reacquire(scope, closed) => !(s.applied && scope && !closed)
    case Release(_) => true
    case CloseDone(_, _) => false
  }

  /** What makes a retiring session ask for a release driver once more. */
  predicate AsksAgain(s: State, e: Event) {
    match e
    case InhibitReturned(_, _) => true
    case ResponseSignal(matches, _, _) => s.connection && matches
    case OwnerSignal(matches, changed) => s.connection && matches && changed
    case CloseDone(_, _) => false
    case _ => true
  }

  /** What a session in use asks of the bus when it is told `e`. */
  function Asked(e: Event): seq<Request> {
    match e
    case Connected(ok, scope, handle, again, _) => if ok && scope && handle && again then [StartService] else []
    case ServiceStarted(scope, ok) => if scope && ok then [GetNameOwner] else []
    case OwnerNamed(scope, ok, again) =>
      if !scope || !ok then []
      else if again then [SubscribeResponse, SubscribeOwnerChange, Inhibit]
      else [SubscribeResponse, SubscribeOwnerChange]
    case _ => []
  }

  predicate IsReply(e: Event) {
    e.Connected? || e.ServiceStarted? || e.OwnerNamed? || e.InhibitReturned?
  }

  /** Which call is out afterwards. */
  function Awaited(s: State, e: Event): Option<Request> {
    if !IsReply(e) then s.awaited
    else if s.retiring || Faults(s, e) || Asked(e) == [] then None
    else Some(Asked(e)[|Asked(e)| - 1])
  }

  /** What the acquisition is told by the step to `t`, if anything. */
  function Told(s: State, t: State, e: Event): seq<bool> {
    if e.Reacquire? then (if s.retiring || Faults(s, e) then [] else [true])
    else if !s.pending then []
    else if s.listed && !t.listed then [false]
    else if !t.retiring && t.methodAck && t.response == Some(0) then [true]
    else []
  }

  /** What a release driver is told, if anything. */
  function Released(s: State, e: Event): seq<bool> {
    match e
    case CloseDone(ok, closed) => [ok || closed]
    case Connected(ok, _, _, _, closed) => if s.cleanup && (!ok || closed) then [true] else []
    case Release(closed) => if !s.opening && !s.releasing && (!s.connection || closed) then [true] else []
    case _ => []
  }

  // ---------------------------------------------------------------- one step, event by event

  /** Both proofs make a session in use applied, and leave no acquisition unanswered. */
  ghost predicate ProvedMeansApplied(s: State) {
    !s.retiring && s.methodAck && s.response == Some(0) ==> s.applied && !s.pending
  }

  ghost predicate Sound(s: State) {
    Inv(s) && ProvedMeansApplied(s)
  }

  ghost predicate FaultsTell(s: State, e: Event, t: State) {
    && (t.retiring <==> s.retiring || Faults(s, e))
    && t.asked == s.asked + (if !e.Release? && (if s.retiring then AsksAgain(s, e) else Faults(s, e)) then 1 else 0)
    && t.requests == s.requests + (if s.retiring then [] else Asked(e))
    && t.awaited == Awaited(s, e)
  }

  ghost predicate AnswersTell(s: State, e: Event, t: State) {
    && (t.methodAck <==> s.methodAck || (e.InhibitReturned? && e.ack))
    && (t.response == Some(0) <==>
          s.response == Some(0) || (e.ResponseSignal? && e.matches && e.code == Some(0) && s.connection))
    && t.replies == s.replies + Told(s, t, e)
    && (t.pending <==> if e.Reacquire? then s.pending || Told(s, t, e) == [] else s.pending && Told(s, t, e) == [])
  }

  ghost predicate ReleaseTells(s: State, e: Event, t: State) {
    && t.cleanups == s.cleanups + Released(s, e)
    && (t.cleanup <==> (s.cleanup || e.Release?) && Released(s, e) == [])
    && (t.listed <==> s.listed && Released(s, e) != [true])
    && (t.connection <==> (s.connection || (e.Connected? && e.ok)) && Released(s, e) != [true])
    && (t.opening <==> s.opening && !e.Connected?)
    && (t.subscribed <==> (s.subscribed || (!s.retiring && SubscribeResponse in Asked(e))) && Released(s, e) != [true])
  }

  ghost predicate Tells(s: State, e: Event, t: State) {
    FaultsTell(s, e, t) && AnswersTell(s, e, t) && ReleaseTells(s, e, t) && ProvedMeansApplied(t)
  }

  lemma ConnectedTells(s: State, ok: bool, scope: bool, handle: bool, again: bool, closed: bool)
    requires Sound(s) && s.opening
    ensures Tells(s, Connected(ok, scope, handle, again, closed), OnConnected(s, ok, scope, handle, again, closed))
  {
  }

  lemma ServiceStartedTells(s: State, scope: bool, ok: bool)
    requires Sound(s) && s.awaited == Some(StartService)
    ensures Tells(s, ServiceStarted(scope, ok), OnServiceStarted(s, scope, ok))
  {
  }

  lemma OwnerNamedTells(s: State, scope: bool, ok: bool, again: bool)
    requires Sound(s) && s.awaited == Some(GetNameOwner)
    ensures Tells(s, OwnerNamed(scope, ok, again), OnOwnerNamed(s, scope, ok, again))
  {
  }

  lemma InhibitTells(s: State, ack: bool, scope: bool)
    requires Sound(s) && s.awaited == Some(Inhibit)
    ensures Tells(s, InhibitReturned(ack, scope), OnInhibitReturned(s, ack, scope))
  {
  }

  lemma ZeroResponseTells(s: State, scope: bool)
    requires Sound(s) && SubscribeResponse in s.requests && s.connection
    ensures Tells(s, ResponseSignal(true, Some(0), scope), MaybeApplied(s.(response := Some(0)), scope))
  {
  }

  lemma ResponseTells(s: State, matches: bool, code: Option<nat>, scope: bool)
    requires Sound(s) && SubscribeResponse in s.requests
    ensures Tells(s, ResponseSignal(matches, code, scope), OnResponse(s, matches, code, scope))
  {
    if s.connection && matches && code == Some(0) {
      ZeroResponseTells(s, scope);
    }
  }

  lemma OwnerSignalTells(s: State, matches: bool, changed: bool)
    requires Sound(s) && SubscribeOwnerChange in s.requests
    ensures Tells(s, OwnerSignal(matches, changed), OnOwnerSignal(s, matches, changed))
  {
  }

  lemma TickTells(s: State, scope: bool, expired: bool, closed: bool)
    requires Sound(s)
    ensures Tells(s, Tick(scope, expired, closed), OnTick(s, scope, expired, closed))
  {
  }

  lemma ReacquireTells(s: State, scope: bool, closed: bool)
    requires Sound(s) && s.listed
    ensures Tells(s, Reacquire(scope, closed), OnReacquire(s, scope, closed))
  {
  }

  lemma ReleaseStepTells(s: State, closed: bool)
    requires Sound(s) && s.listed
    ensures Tells(s, Release(closed), OnRelease(s, closed))
  {
  }

  lemma CloseTells(s: State, ok: bool, closed: bool)
    requires Sound(s) && s.releasing
    ensures Tells(s, CloseDone(ok, closed), Finish(s, ok || closed))
  {
  }

  lemma StepTells(s: State, e: Event)
    requires Sound(s) && Possible(s, e)
    ensures Tells(s, e, Step(s, e))
  {
    match e
    case Connected(ok, scope, handle, again, closed) => ConnectedTells(s, ok, scope, handle, again, closed);
    case ServiceStarted(scope, ok) => ServiceStartedTells(s, scope, ok);
    case OwnerNamed(scope, ok, again) => OwnerNamedTells(s, scope, ok, again);
    case InhibitReturned(ack, scope) => InhibitTells(s, ack, scope);
    case ResponseSignal(matches, code, scope) => ResponseTells(s, matches, code, scope);
    case OwnerSignal(matches, changed) => OwnerSignalTells(s, matches, changed);
    case Tick(scope, expired, closed) => TickTells(s, scope, expired, closed);
    case Reacquire(scope, closed) => ReacquireTells(s, scope, closed);
    case Release(closed) => ReleaseStepTells(s, closed);
    case CloseDone(ok, closed) => CloseTells(s, ok, closed);
  }

  // ---------------------------------------------------------------- whole runs

  lemma {:induction false} RunSound(ss: seq<State>, es: seq<Event>, i: nat)
    requires Run(ss, es) && i < |ss|
    ensures Sound(ss[i])
  {
    RunInv(ss, es, i);
    if i > 0 {
      RunSound(ss, es, i - 1);
      assert StepAt(ss, es, i - 1);
      StepTells(ss[i - 1], es[i - 1]);
    }
  }

  lemma StepAtTells(ss: seq<State>, es: seq<Event>, i: nat)
    requires Run(ss, es) && i < |es|
    ensures Tells(ss[i], es[i], ss[i + 1])
  {
    RunSound(ss, es, i);
    assert StepAt(ss, es, i);
    StepTells(ss[i], es[i]);
  }

  /**
   A session in use stays in use exactly as long as nothing is wrong: an applied session whose
   scope holds and whose connection is open survives every tick, an unapplied one is released at
   the first tick past its deadline. Whatever ends its use, short of a release, asks for a release.
   */
  lemma InUseUntilFault(ss: seq<State>, es: seq<Event>, i: nat)
    requires Run(ss, es) && i < |es|
    ensures ss[i + 1].retiring <==> ss[i].retiring || Faults(ss[i], es[i])
    ensures !es[i].Release? && !ss[i].retiring ==>
              ss[i + 1].asked == ss[i].asked + if Faults(ss[i], es[i]) then 1 else 0
    ensures !es[i].Release? && ss[i].retiring ==>
              ss[i + 1].asked == ss[i].asked + if AsksAgain(ss[i], es[i]) then 1 else 0
  {
    StepAtTells(ss, es, i);
  }

  /** Every good reply is followed by the next request, which is then waited for; nothing else asks the bus. */
  lemma EveryReplyIsFollowedUp(ss: seq<State>, es: seq<Event>, i: nat)
    requires Run(ss, es) && i < |es|
    ensures ss[i + 1].requests == ss[i].requests + if ss[i].retiring then [] else Asked(es[i])
    ensures ss[i + 1].awaited == Awaited(ss[i], es[i])
  {
    StepAtTells(ss, es, i);
  }

  /** A session in use is applied exactly when it has the acknowledgement and a zero Response. */
  lemma AppliedExactly(ss: seq<State>, es: seq<Event>, i: nat)
    requires Run(ss, es) && i < |ss| && !ss[i].retiring
    ensures ss[i].applied <==> ss[i].methodAck && ss[i].response == Some(0)
    ensures ss[i].applied ==> !ss[i].pending
  {
    RunSound(ss, es, i);
  }

  /** The two proofs are recorded by the reply and by the signal that bring them, and never lost. */
  lemma ProofsAreRecorded(ss: seq<State>, es: seq<Event>, i: nat)
    requires Run(ss, es) && i < |es|
    ensures ss[i + 1].methodAck <==> ss[i].methodAck || (es[i].InhibitReturned? && es[i].ack)
    ensures ss[i + 1].response == Some(0) <==>
            || ss[i].response == Some(0)
            || (es[i].ResponseSignal? && es[i].matches && es[i].code == Some(0) && ss[i].connection)
  {
    StepAtTells(ss, es, i);
  }

  /**
   The stored acquisition is told that suspend is inhibited as soon as a session in use has both
   proofs, and that it is not by the step in which the session leaves the table; until then it stays
   stored. Another acquisition is told at once, or takes its place.
   */
  lemma AnswersAreGiven(ss: seq<State>, es: seq<Event>, i: nat)
    requires Run(ss, es) && i < |es|
    ensures var s, t, told := ss[i], ss[i + 1], Told(ss[i], ss[i + 1], es[i]);
            && t.replies == s.replies + told
            && (es[i].Reacquire? ==> (t.pending <==> s.pending || told == []))
            && (!es[i].Reacquire? ==> (t.pending <==> s.pending && told == []))
  {
    StepAtTells(ss, es, i);
  }

  /** The step that completes the proofs of a session in use tells the stored acquisition exactly "active". */
  lemma SecondProofAnswers(ss: seq<State>, es: seq<Event>, i: nat)
    requires Run(ss, es) && i < |es| && !ss[i].retiring && ss[i].pending
    requires es[i] == InhibitReturned(true, true) || es[i] == ResponseSignal(true, Some(0), true)
    requires if es[i].InhibitReturned? then ss[i].response == Some(0) else ss[i].methodAck
    ensures ss[i + 1].applied && !ss[i + 1].retiring && !ss[i + 1].pending
    ensures ss[i + 1].replies == ss[i].replies + [true]
  {
    RunSound(ss, es, i);
    RunSound(ss, es, i + 1);
    StepAtTells(ss, es, i);
  }

  /**
   A release driver is told of success exactly when the connection attempt or the connection has come
   to its end, and of failure only by a close that failed on an open connection. With a success the
   session is empty and leaves the table; otherwise it keeps its connection for another attempt.
   */
  lemma ReleaseAnswers(ss: seq<State>, es: seq<Event>, i: nat)
    requires Run(ss, es) && i < |es|
    ensures var s, t, told := ss[i], ss[i + 1], Released(ss[i], es[i]);
            && t.cleanups == s.cleanups + told
            && (t.cleanup <==> (s.cleanup || es[i].Release?) && told == [])
            && (t.listed <==> s.listed && told != [true])
            && (t.connection <==> (s.connection || (es[i].Connected? && es[i].ok)) && told != [true])
            && (t.subscribed <==>
                  (s.subscribed || (!s.retiring && SubscribeResponse in Asked(es[i]))) && told != [true])
            && (t.releasing <==> t.cleanup && !t.opening)
  {
    StepAtTells(ss, es, i);
    RunInv(ss, es, i + 1);
  }
}
