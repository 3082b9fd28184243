/**
 The portal session of native_energy.rs: one private bus connection that asks the desktop to
 inhibit suspend. Every callback runs whole on the GUI thread. D-Bus replies, signals and
 timer ticks come in any order; what a callback finds is its argument (`scope` is the
 caller's own check, `closed` whether the connection is closed by now).
 */
module EnergySession {
  import opened Wrappers

  datatype Request = StartService | GetNameOwner | SubscribeResponse | SubscribeOwnerChange | Inhibit

  /** What a whole acquisition asks of the bus, in order. */
  const SCRIPT: seq<Request> := [StartService, GetNameOwner, SubscribeResponse, SubscribeOwnerChange, Inhibit]

  /**
   `pending` and `cleanup` say whether a completion is stored; `awaited` is the call whose
   reply is outstanding. `requests`, `replies`, `cleanups` and `asked` are what the outside
   has seen: bus requests, answers to acquisitions, answers to release drivers, and how often
   a release driver was asked for.
   */
  datatype State = State(
    opening: bool, connection: bool, methodAck: bool, response: Option<nat>, applied: bool, retiring: bool,
    releasing: bool, pending: bool, cleanup: bool, subscribed: bool, listed: bool, awaited: Option<Request>,
    requests: seq<Request>, replies: seq<bool>, cleanups: seq<bool>, asked: nat)

  const OPENED := State(
    true, false, false, None, false, false, false, true, false, false, true, None, [], [], [], 0)

  datatype Event =
    | Connected(ok: bool, scope: bool, handle: bool, again: bool, closed: bool)
    | ServiceStarted(scope: bool, ok: bool)
    | OwnerNamed(scope: bool, ok: bool, again: bool)
    | InhibitReturned(ack: bool, scope: bool)
    | ResponseSignal(matches: bool, code: Option<nat>, scope: bool)
    | OwnerSignal(matches: bool, changed: bool)
    | Tick(scope: bool, expired: bool, closed: bool)
    | Reacquire(scope: bool, closed: bool)
    | Release(closed: bool)
    | CloseDone(ok: bool, closed: bool)

  // ---------------------------------------------------------------- the callbacks

  function Valid(s: State, scope: bool): bool {
    !s.retiring && scope
  }

  function Force(s: State): State {
    s.(retiring := true, asked := s.asked + 1)
  }

  function Call(s: State, r: Request): State {
    s.(awaited := Some(r), requests := s.requests + [r])
  }

  function MaybeApplied(s: State, scope: bool): State {
    if !Valid(s, scope) then Force(s)
    else if s.methodAck && s.response == Some(0) then
      s.(applied := true, pending := false, replies := if s.pending then s.replies + [true] else s.replies)
    else s
  }

  function Finish(s: State, success: bool): State {
    if !success then
      s.(releasing := false, cleanup := false, cleanups := if s.cleanup then s.cleanups + [false] else s.cleanups)
    else
      s.(applied := false, releasing := false, connection := false, subscribed := false, listed := false,
         pending := false, replies := if s.pending then s.replies + [false] else s.replies,
         cleanup := false, cleanups := if s.cleanup then s.cleanups + [true] else s.cleanups)
  }

  /** `advance_release`: an open attempt is only cancelled; its own callback comes back here. */
  function Advance(s: State, closed: bool): State {
    if !s.retiring || s.releasing || s.opening || !s.cleanup then s
    else if !s.connection || closed then Finish(s.(releasing := true), true)
    else s.(releasing := true)
  }

  function OnConnected(s: State, ok: bool, scope: bool, handle: bool, again: bool, closed: bool): State {
    var c := s.(opening := false, connection := s.connection || ok);
    if !Valid(c, scope) || !c.connection then Advance(Force(c), closed)
    else if !handle || !Valid(c, again) then Force(c)
    else Call(c, StartService)
  }

  function OnServiceStarted(s: State, scope: bool, ok: bool): State {
    var c := s.(awaited := None);
    if !Valid(c, scope) || !ok then Force(c) else Call(c, GetNameOwner)
  }

  function OnOwnerNamed(s: State, scope: bool, ok: bool, again: bool): State {
    var c := s.(awaited := None);
    if !Valid(c, scope) || !ok then Force(c)
    else
      var d := c.(subscribed := true, requests := c.requests + [SubscribeResponse, SubscribeOwnerChange]);
      if !Valid(d, again) then Force(d) else Call(d, Inhibit)
  }

  function OnInhibitReturned(s: State, ack: bool, scope: bool): State {
    var c := s.(awaited := None);
    if !ack then Force(c) else MaybeApplied(c.(methodAck := true), scope)
  }

  function OnResponse(s: State, matches: bool, code: Option<nat>, scope: bool): State {
    if !s.connection || !matches then s
    else if code != Some(0) then Force(s)
    else MaybeApplied(s.(response := code), scope)
  }

  function OnOwnerSignal(s: State, matches: bool, changed: bool): State {
    if s.connection && matches && changed then Force(s) else s
  }

  function OnTick(s: State, scope: bool, expired: bool, closed: bool): State {
    if !Valid(s, scope) || (s.connection && closed) || (!s.applied && expired) then Force(s) else s
  }

  /** Another acquisition finds this session in the table. */
  function OnReacquire(s: State, scope: bool, closed: bool): State {
    if s.applied && Valid(s, scope) && s.connection && !closed then s.(replies := s.replies + [true])
    else Force(s.(pending := true))
  }

  function OnRelease(s: State, closed: bool): State {
    Advance(s.(retiring := true, cleanup := true), closed)
  }

  function Step(s: State, e: Event): State {
    match e
    case Connected(ok, scope, handle, again, closed) => OnConnected(s, ok, scope, handle, again, closed)
    case ServiceStarted(scope, ok) => OnServiceStarted(s, scope, ok)
    case OwnerNamed(scope, ok, again) => OnOwnerNamed(s, scope, ok, again)
    case InhibitReturned(ack, scope) => OnInhibitReturned(s, ack, scope)
    case ResponseSignal(matches, code, scope) => OnResponse(s, matches, code, scope)
    case OwnerSignal(matches, changed) => OnOwnerSignal(s, matches, changed)
    case Tick(scope, expired, closed) => OnTick(s, scope, expired, closed)
    case Reacquire(scope, closed) => OnReacquire(s, scope, closed)
    case Release(closed) => OnRelease(s, closed)
    case CloseDone(ok, closed) => Finish(s, ok || closed)
  }

  /**
   What the bus can deliver: the connection attempt ends once, each call returns once, signals
   only after their subscription. Ticks and late signals may come even after the session left
   the table; new acquisitions and release drivers only find a listed one.
   */
  predicate Possible(s: State, e: Event) {
    match e
    case Connected(_, _, _, _, _) => s.opening
    case ServiceStarted(_, _) => s.awaited == Some(StartService)
    case OwnerNamed(_, _, _) => s.awaited == Some(GetNameOwner)
    case InhibitReturned(_, _) => s.awaited == Some(Inhibit)
    case ResponseSignal(_, _, _) => SubscribeResponse in s.requests
    case OwnerSignal(_, _) => SubscribeOwnerChange in s.requests
    case Tick(_, _, _) => true
    case Reacquire(_, _) => s.listed
    case Release(_) => s.listed
    case CloseDone(_, _) => s.releasing
  }

  // ---------------------------------------------------------------- invariants

  /** How far the session got, and the call whose reply it may wait for there. */
  ghost predicate Progress(s: State) {
    && s.requests <= SCRIPT && |s.requests| != 3
    && (s.opening ==> s.requests == [])
    && (s.awaited == Some(StartService) ==> |s.requests| == 1)
    && (s.awaited == Some(GetNameOwner) ==> |s.requests| == 2)
    && (s.awaited == Some(Inhibit) ==> |s.requests| == 5)
    && (s.requests == [] ==> s.awaited.None?)
  }

  ghost predicate Proof(s: State) {
    && (s.applied ==> s.methodAck && s.response == Some(0) && s.connection)
    && (true in s.replies ==> s.methodAck && s.response == Some(0))
    && (s.response.Some? ==> s.response == Some(0) && |s.requests| >= 4)
    && (s.methodAck ==> |s.requests| == 5 && s.awaited.None?)
  }

  ghost predicate Retirement(s: State) {
    && (!s.opening && !s.retiring ==> s.connection)
    && (s.opening ==> !s.connection)
    && (s.releasing ==> s.retiring && s.cleanup && !s.opening && s.connection)
    && (s.cleanup ==> s.retiring && (s.opening || s.releasing))
    && (!s.listed ==> s.retiring && !s.connection && !s.opening && !s.applied && !s.pending && !s.cleanup)
    && (s.retiring ==> s.asked > 0 || s.cleanup || s.cleanups != [])
  }

  ghost predicate Inv(s: State) {
    Progress(s) && Proof(s) && Retirement(s)
  }

  lemma MaybeAppliedInv(s: State, scope: bool)
    requires Inv(s)
    ensures Inv(MaybeApplied(s, scope))
  {
  }

  lemma ConnectedInv(s: State, ok: bool, scope: bool, handle: bool, again: bool, closed: bool)
    requires Inv(s) && s.opening
    ensures Inv(OnConnected(s, ok, scope, handle, again, closed))
  {
  }

  lemma ServiceStartedInv(s: State, scope: bool, ok: bool)
    requires Inv(s) && s.awaited == Some(StartService)
    ensures Inv(OnServiceStarted(s, scope, ok))
  {
  }

  lemma OwnerNamedInv(s: State, scope: bool, ok: bool, again: bool)
    requires Inv(s) && s.awaited == Some(GetNameOwner)
    ensures Inv(OnOwnerNamed(s, scope, ok, again))
  {
  }

  lemma InhibitReturnedInv(s: State, ack: bool, scope: bool)
    requires Inv(s) && s.awaited == Some(Inhibit)
    ensures Inv(OnInhibitReturned(s, ack, scope))
  {
    if ack {
      MaybeAppliedInv(s.(awaited := None, methodAck := true), scope);
    }
  }

  lemma SignalInv(s: State, matches: bool, code: Option<nat>, scope: bool, changed: bool)
    requires Inv(s)
    ensures SubscribeResponse in s.requests ==> Inv(OnResponse(s, matches, code, scope))
    ensures Inv(OnOwnerSignal(s, matches, changed))
  {
    if SubscribeResponse in s.requests && code == Some(0) {
      MaybeAppliedInv(s.(response := code), scope);
    }
  }

  lemma TickInv(s: State, scope: bool, expired: bool, closed: bool)
    requires Inv(s)
    ensures Inv(OnTick(s, scope, expired, closed))
    ensures s.listed ==> Inv(OnReacquire(s, scope, closed))
  {
  }

  lemma ReleaseInv(s: State, ok: bool, closed: bool)
    requires Inv(s)
    ensures s.listed ==> Inv(OnRelease(s, closed))
    ensures s.releasing ==> Inv(Finish(s, ok || closed))
  {
  }

  lemma StepInv(s: State, e: Event)
    requires Inv(s) && Possible(s, e)
    ensures Inv(Step(s, e))
  {
    match e
    case Connected(ok, scope, handle, again, closed) => ConnectedInv(s, ok, scope, handle, again, closed);
    case ServiceStarted(scope, ok) => ServiceStartedInv(s, scope, ok);
    case OwnerNamed(scope, ok, again) => OwnerNamedInv(s, scope, ok, again);
    case InhibitReturned(ack, scope) => InhibitReturnedInv(s, ack, scope);
    case ResponseSignal(matches, code, scope) => SignalInv(s, matches, code, scope, false);
    case OwnerSignal(matches, changed) => SignalInv(s, matches, None, false, changed);
    case Tick(scope, expired, closed) => TickInv(s, scope, expired, closed);
    case Reacquire(scope, closed) => TickInv(s, scope, false, closed);
    case Release(closed) => ReleaseInv(s, false, closed);
    case CloseDone(ok, closed) => ReleaseInv(s, ok, closed);
  }
}
