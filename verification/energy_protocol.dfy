/**
 Acquisitions, release drivers and the GUI thread of native_energy.rs as one state machine.
 Worker tasks interleave freely; GUI closures run one at a time, so the only GUI closure that
 is split in two is the one whose check another thread can overtake before it acts.
 */
module EnergyProtocol {
  import opened Wrappers
  import opened EnergyOwner
  import S = EnergySession

  /**
   Admitted: the task runs on a worker. Queued: its closure waits for the GUI thread. Checked:
   that closure has passed its check. Holding: a completion is stored with the session.
   Returned: the task is about to drop its `Acquisition`. Dropping: between the two stores.
   */
  datatype AcqPhase = Admitted | Queued | Checked | Holding | Returned | Dropping

  datatype Acq = Acq(generation: nat, phase: AcqPhase)

  /**
   Scheduled: its closure waits for the GUI thread. Held: the session stores its completion.
   Retired: it joins its closure and the lifetimes of a removed session. Waiting: for the
   acquisitions.
   */
  datatype DriverPhase = Scheduled | Held | Retired | Waiting

  /** The session in the table; `driver` is whose completion it stores when `state.cleanup`. */
  datatype Holder = Holder(generation: nat, state: S.State, driver: nat)

  /** `admissions` counts admitted acquisitions; `succeeded` gives that count at each driver's success. */
  datatype World = World(
    o: Owner, acqs: map<nat, Acq>, drivers: map<nat, DriverPhase>, gui: Option<nat>, session: Option<Holder>,
    admissions: nat, succeeded: map<nat, nat>)

  const START := World(NEW_OWNER, map[], map[], None, None, 0, map[])

  // ---------------------------------------------------------------- steps

  function SetPhase(w: World, a: nat, phase: AcqPhase): World
    requires a in w.acqs
  {
    w.(acqs := w.acqs[a := w.acqs[a].(phase := phase)])
  }

  /** The fence every stage of an acquisition checks. */
  predicate Current(w: World, generation: nat) {
    !w.o.closing && w.o.generation == generation
  }

  function DoAdmit(w: World): World
    requires Admit(w.o).Success?
  {
    w.(o := Admit(w.o).value, acqs := w.acqs[w.admissions := Acq(w.o.generation, Admitted)],
       admissions := w.admissions + 1)
  }

  function DoQueue(w: World, a: nat): World
    requires a in w.acqs
  {
    SetPhase(w, a, Queued)
  }

  function DoCheck(w: World, a: nat): World
    requires a in w.acqs
  {
    SetPhase(w, a, Checked).(gui := Some(a))
  }

  function DoInsert(w: World, a: nat, scope: bool, closed: bool): World
    requires a in w.acqs
  {
    SetPhase(w, a, Holding).(
      gui := None,
      session := Some(match w.session
                      case None => Holder(w.acqs[a].generation, S.OPENED, 0)
                      case Some(h) => h.(state := S.OnReacquire(h.state, scope, closed))))
  }

  function DoReturn(w: World, a: nat): World
    requires a in w.acqs
  {
    SetPhase(w, a, Returned)
  }

  function DoUnflag(w: World, a: nat): World
    requires a in w.acqs
  {
    SetPhase(w, a, Dropping).(o := Unflag(w.o))
  }

  function DoSettle(w: World, a: nat): World {
    w.(acqs := w.acqs - {a}, o := Settle(w.o))
  }

  function DoBeginRelease(w: World, permanent: bool): World {
    var p := BeginRelease(w.o, permanent);
    w.(o := p, drivers := if Answered(w.o) then w.drivers else w.drivers[p.generation := Scheduled])
  }

  function Finish(w: World, d: nat, ok: bool): World {
    w.(o := Report(w.o, d, ok), drivers := w.drivers - {d},
       succeeded := if ok then w.succeeded[d := w.admissions] else w.succeeded)
  }

  function DoDriverGui(w: World, d: nat, closed: bool): World {
    match w.session
    case None => w.(drivers := w.drivers[d := Retired])
    case Some(h) =>
      var s := S.OnRelease(h.state, closed);
      if s.listed then w.(session := Some(h.(state := s, driver := d)), drivers := w.drivers[d := Held])
      else w.(session := None, drivers := w.drivers[d := Retired])
  }

  /** A callback has turned the session's state into `s`; an answered driver moves on. */
  function AfterCallback(w: World, h: Holder, s: S.State): World {
    if !s.listed then w.(session := None, drivers := w.drivers[h.driver := Retired])
    else
      var v := w.(session := Some(h.(state := s)));
      if h.state.cleanup && !s.cleanup then Finish(v, h.driver, false) else v
  }

  datatype AcqStep = Queue | Check | Insert(scope: bool, closed: bool) | Return | ClearFlag | Leave

  datatype DriverStep = RunOnGui(closed: bool) | Fail | Join | Done

  datatype Event =
    | NewAcquisition
    | OfAcquisition(a: nat, acq: AcqStep)
    | ReleaseRequest(permanent: bool)
    | OfDriver(d: nat, driver: DriverStep)
    | OfSession(callback: S.Event)

  predicate AcqEnabled(w: World, a: nat, step: AcqStep) {
    a in w.acqs &&
    match step
    case Queue => w.acqs[a].phase.Admitted? && Current(w, w.acqs[a].generation)
    case Check => w.acqs[a].phase.Queued? && w.gui.None? && Current(w, w.acqs[a].generation)
    case Insert(_, _) => w.gui == Some(a)
    case Return => w.acqs[a].phase.Admitted? || w.acqs[a].phase.Queued? || w.acqs[a].phase.Holding?
    case ClearFlag => w.acqs[a].phase.Returned?
    case Leave => w.acqs[a].phase.Dropping?
  }

  function AcqApply(w: World, a: nat, step: AcqStep): World
    requires a in w.acqs
  {
    match step
    case Queue => DoQueue(w, a)
    case Check => DoCheck(w, a)
    case Insert(scope, closed) => DoInsert(w, a, scope, closed)
    case Return => DoReturn(w, a)
    case ClearFlag => DoUnflag(w, a)
    case Leave => DoSettle(w, a)
  }

  predicate DriverEnabled(w: World, d: nat, step: DriverStep) {
    d in w.drivers &&
    match step
    case RunOnGui(_) => w.drivers[d].Scheduled? && w.gui.None?
    case Fail => w.drivers[d].Scheduled? || w.drivers[d].Retired?
    case Join => w.drivers[d].Retired?
    case Done => w.drivers[d].Waiting? && w.o.pending == 0
  }

  function DriverApply(w: World, d: nat, step: DriverStep): World {
    match step
    case RunOnGui(closed) => DoDriverGui(w, d, closed)
    case Fail => Finish(w, d, false)
    case Join => w.(drivers := w.drivers[d := Waiting])
    case Done => Finish(w, d, true)
  }

  /**
   The callbacks of a listed session; new acquisitions and drivers reach it by their own steps.
   A later callback of a session that has left the table only asks for a release, which may
   come at any time anyway.
   */
  predicate CallbackEnabled(w: World, e: S.Event) {
    w.gui.None? && w.session.Some? && !e.Reacquire? && !e.Release? && S.Possible(w.session.value.state, e)
  }

  predicate Enabled(w: World, e: Event) {
    match e
    case NewAcquisition => Admit(w.o).Success?
    case OfAcquisition(a, step) => AcqEnabled(w, a, step)
    case ReleaseRequest(_) => true
    case OfDriver(d, step) => DriverEnabled(w, d, step)
    case OfSession(c) => CallbackEnabled(w, c)
  }

  function Apply(w: World, e: Event): World
    requires Enabled(w, e)
  {
    match e
    case NewAcquisition => DoAdmit(w)
    case OfAcquisition(a, step) => AcqApply(w, a, step)
    case ReleaseRequest(permanent) => DoBeginRelease(w, permanent)
    case OfDriver(d, step) => DriverApply(w, d, step)
    case OfSession(c) => AfterCallback(w, w.session.value, S.Step(w.session.value.state, c))
  }

  // ---------------------------------------------------------------- invariants

  /** Admitted no later than the last release request, and before it unless that one has succeeded. */
  ghost predicate Fenced(w: World, generation: nat) {
    generation < w.o.generation || (generation == w.o.generation && Settled(w.o))
  }

  ghost predicate AcqOk(w: World, a: nat)
    requires a in w.acqs
  {
    && a < w.admissions
    && Fenced(w, w.acqs[a].generation)
    && (w.acqs[a].phase.Checked? <==> w.gui == Some(a))
    && (!w.acqs[a].phase.Dropping? ==> w.o.acquiring)
  }

  ghost predicate OneLive(w: World, a: nat, b: nat)
    requires a in w.acqs && b in w.acqs
  {
    w.acqs[a].phase.Dropping? || w.acqs[b].phase.Dropping? || a == b
  }

  ghost predicate Acquisitions(w: World) {
    && w.o.pending == |w.acqs|
    && (w.gui.Some? ==> w.gui.value in w.acqs)
    && (forall a {:trigger AcqOk(w, a)} | a in w.acqs :: AcqOk(w, a))
    && (forall a, b {:trigger OneLive(w, a, b)} | a in w.acqs && b in w.acqs :: OneLive(w, a, b))
  }

  ghost predicate DriverOk(w: World, d: nat)
    requires d in w.drivers
  {
    && w.o.slot == Some(Receiver(d, None)) && d == w.o.generation
    && (w.drivers[d].Retired? || w.drivers[d].Waiting? ==> w.session.None? && w.gui.None?)
    && (w.drivers[d].Held? <==> w.session.Some? && w.session.value.state.cleanup)
    && (w.drivers[d].Held? ==> w.session.value.driver == d)
  }

  ghost predicate Drivers(w: World) {
    && (w.o.slot.Some? ==> w.o.slot.value.driver == w.o.generation)
    && (w.o.slot.Some? && w.o.slot.value.result.None? ==> w.o.generation in w.drivers)
    && (forall d {:trigger DriverOk(w, d)} | d in w.drivers :: DriverOk(w, d))
  }

  ghost predicate Table(w: World) {
    w.session.Some? ==>
      && S.Inv(w.session.value.state) && w.session.value.state.listed
      && Fenced(w, w.session.value.generation)
      && (w.session.value.state.cleanup ==> w.session.value.driver in w.drivers)
  }

  /** Nothing that could inhibit suspend is left, or on its way. */
  ghost predicate Quiet(w: World) {
    w.session.None? && w.acqs == map[] && w.gui.None?
  }

  ghost predicate SuccessOk(w: World, d: nat)
    requires d in w.succeeded
  {
    && w.succeeded[d] <= w.admissions && (w.succeeded[d] == w.admissions ==> Quiet(w))
    && d <= w.o.generation && (d == w.o.generation ==> w.o.slot == Some(Receiver(d, Some(true))))
  }

  ghost predicate Successes(w: World) {
    && (forall d {:trigger SuccessOk(w, d)} | d in w.succeeded :: SuccessOk(w, d))
    && (w.o.slot.Some? && w.o.slot.value.result == Some(true) ==>
          && w.o.slot.value.driver in w.succeeded
          && (w.o.closing ==> w.succeeded[w.o.slot.value.driver] == w.admissions))
  }

  ghost predicate Inv(w: World) {
    Acquisitions(w) && Drivers(w) && Table(w) && Successes(w)
  }

  // ---------------------------------------------------------------- every step keeps them

  /** A step that leaves the acquisitions alone and does not reopen the fence. */
  lemma AcquisitionsStay(w: World, v: World)
    requires Inv(w) && v.acqs == w.acqs && v.gui == w.gui && v.admissions == w.admissions
    requires v.o.pending == w.o.pending && v.o.acquiring == w.o.acquiring
    requires v.o.generation > w.o.generation || (v.o.generation == w.o.generation && (Settled(w.o) ==> Settled(v.o)))
    ensures Acquisitions(v)
  {
    forall a | a in v.acqs
      ensures AcqOk(v, a)
    {
      assert AcqOk(w, a);
    }
    forall a, b | a in v.acqs && b in v.acqs
      ensures OneLive(v, a, b)
    {
      assert OneLive(w, a, b);
    }
  }

  lemma DriversStay(w: World, v: World)
    requires Inv(w) && v.drivers == w.drivers && v.o.slot == w.o.slot && v.o.generation == w.o.generation
    requires w.session.None? && w.gui.None? ==> (v.session.None? && v.gui.None?) || w.o.generation !in w.drivers
    requires (v.session.Some? && v.session.value.state.cleanup) == (w.session.Some? && w.session.value.state.cleanup)
    requires v.session.Some? && w.session.Some? ==> v.session.value.driver == w.session.value.driver
    ensures Drivers(v)
  {
    forall d | d in v.drivers
      ensures DriverOk(v, d)
    {
      assert DriverOk(w, d);
    }
  }

  lemma SuccessesStay(w: World, v: World)
    requires Inv(w) && v.succeeded == w.succeeded && v.admissions == w.admissions
    requires Quiet(w) ==> Quiet(v)
    requires v.o.generation > w.o.generation || (v.o.generation == w.o.generation && v.o.slot == w.o.slot)
    requires v.o.slot.Some? && v.o.slot.value.result == Some(true) ==>
               v.o.slot == w.o.slot && (v.o.closing ==> w.o.closing)
    ensures Successes(v)
  {
    forall d | d in v.succeeded
      ensures SuccessOk(v, d)
    {
      assert SuccessOk(w, d);
    }
  }

  lemma AdmitInv(w: World)
    requires Inv(w) && Admit(w.o).Success?
    ensures Inv(DoAdmit(w))
  {
    var v := DoAdmit(w);
    assert w.admissions in w.acqs ==> AcqOk(w, w.admissions);
    forall a | a in v.acqs
      ensures AcqOk(v, a)
    {
      if a in w.acqs {
        assert AcqOk(w, a);
      }
    }
    forall a, b | a in v.acqs && b in v.acqs
      ensures OneLive(v, a, b)
    {
      if a in w.acqs {
        assert AcqOk(w, a);
      }
      if b in w.acqs {
        assert AcqOk(w, b);
      }
    }
    DriversStay(w, v);
    forall d | d in v.succeeded
      ensures SuccessOk(v, d)
    {
      assert SuccessOk(w, d);
    }
  }

  /** A step that only moves one acquisition on, with the flag and the GUI thread as that phase wants them. */
  lemma PhaseInv(w: World, a: nat, phase: AcqPhase, gui: Option<nat>, v: World)
    requires Inv(w) && a in w.acqs && !w.acqs[a].phase.Dropping?
    requires v == SetPhase(w, a, phase).(gui := gui, o := if phase.Dropping? then Unflag(w.o) else w.o)
    requires gui == (if phase.Checked? then Some(a) else if w.gui == Some(a) then None else w.gui)
    requires phase.Checked? ==> w.gui.None? && Current(w, w.acqs[a].generation)
    ensures Inv(v)
  {
    assert AcqOk(w, a);
    assert |v.acqs| == |w.acqs| by {
      assert v.acqs.Keys == w.acqs.Keys;
    }
    forall b | b in v.acqs
      ensures AcqOk(v, b)
    {
      assert AcqOk(w, b) && OneLive(w, a, b);
    }
    forall b, c | b in v.acqs && c in v.acqs
      ensures OneLive(v, b, c)
    {
      assert OneLive(w, b, c);
    }
    assert w.o.generation in w.drivers ==> DriverOk(w, w.o.generation);
    DriversStay(w, v);
    SuccessesStay(w, v);
  }

  lemma InsertInv(w: World, a: nat, scope: bool, closed: bool)
    requires Inv(w) && w.gui == Some(a)
    ensures Inv(DoInsert(w, a, scope, closed))
  {
    assert AcqOk(w, a);
    var u := SetPhase(w, a, Holding).(gui := None);
    PhaseInv(w, a, Holding, None, u);
    var v := DoInsert(w, a, scope, closed);
    if w.session.Some? {
      S.TickInv(w.session.value.state, scope, false, closed);
    }
    AcquisitionsStay(u, v);
    forall d | d in v.drivers
      ensures DriverOk(v, d)
    {
      assert DriverOk(w, d);
    }
    SuccessesStay(u, v);
  }

  lemma SettleInv(w: World, a: nat)
    requires Inv(w) && a in w.acqs && w.acqs[a].phase.Dropping?
    ensures w.o.pending > 0 && Inv(DoSettle(w, a))
  {
    var v := DoSettle(w, a);
    assert AcqOk(w, a);
    assert |v.acqs| == |w.acqs| - 1 by {
      assert v.acqs.Keys == w.acqs.Keys - {a};
    }
    forall b | b in v.acqs
      ensures AcqOk(v, b)
    {
      assert AcqOk(w, b);
    }
    forall b, c | b in v.acqs && c in v.acqs
      ensures OneLive(v, b, c)
    {
      assert OneLive(w, b, c);
    }
    DriversStay(w, v);
    SuccessesStay(w, v);
  }

  lemma BeginReleaseInv(w: World, permanent: bool)
    requires Inv(w)
    ensures Inv(DoBeginRelease(w, permanent))
  {
    var v := DoBeginRelease(w, permanent);
    if w.session.Some? && w.session.value.state.cleanup {
      assert DriverOk(w, w.session.value.driver);
    }
    AcquisitionsStay(w, v);
    forall d | d in v.drivers
      ensures DriverOk(v, d)
    {
      if d in w.drivers {
        assert DriverOk(w, d);
      }
    }
    SuccessesStay(w, v);
  }

  /** Only one driver, and with it the session, has changed. */
  lemma MovedDriverInv(w: World, v: World, d: nat)
    requires Inv(w) && d in w.drivers && w.gui.None? && d in v.drivers
    requires v == w.(drivers := w.drivers[d := v.drivers[d]], session := v.session)
    requires v.session.Some? ==> w.session.Some? && v.session.value.generation == w.session.value.generation
    requires v.session.Some? ==> S.Inv(v.session.value.state) && v.session.value.state.listed
    requires v.session.Some? && v.session.value.state.cleanup ==> v.session.value.driver == d
    requires v.drivers[d].Held? <==> v.session.Some? && v.session.value.state.cleanup
    requires v.drivers[d].Retired? || v.drivers[d].Waiting? ==> v.session.None?
    ensures Inv(v)
  {
    assert DriverOk(w, d);
    AcquisitionsStay(w, v);
    forall x | x in v.drivers
      ensures DriverOk(v, x)
    {
      assert DriverOk(w, x);
    }
    SuccessesStay(w, v);
  }

  lemma ReleaseOutcome(s: S.State, closed: bool)
    requires S.Inv(s) && s.listed
    ensures S.OnRelease(s, closed).listed <==> S.OnRelease(s, closed).cleanup
  {
  }

  lemma DriverGuiInv(w: World, d: nat, closed: bool)
    requires Inv(w) && d in w.drivers && w.drivers[d].Scheduled? && w.gui.None?
    ensures Inv(DoDriverGui(w, d, closed))
  {
    var v := DoDriverGui(w, d, closed);
    assert DriverOk(w, d);
    if w.session.Some? {
      S.ReleaseInv(w.session.value.state, false, closed);
      ReleaseOutcome(w.session.value.state, closed);
    }
    MovedDriverInv(w, v, d);
  }

  lemma FinishInv(w: World, d: nat, ok: bool)
    requires Inv(w) && d in w.drivers && !w.drivers[d].Held?
    requires ok ==> w.drivers[d].Waiting? && w.o.pending == 0
    ensures Inv(Finish(w, d, ok))
  {
    var v := Finish(w, d, ok);
    assert DriverOk(w, d);
    AcquisitionsStay(w, v);
    forall x | x in w.drivers
      ensures x == d
    {
      assert DriverOk(w, x);
    }
    assert v.drivers == map[];
    forall x | x in v.succeeded
      ensures SuccessOk(v, x)
    {
      if x in w.succeeded {
        assert SuccessOk(w, x);
      }
    }
  }

  /** What a callback can do to a driver whose completion the session stores. */
  ghost predicate Outcome(s: S.State, t: S.State) {
    (t.cleanup ==> s.cleanup) && (!t.listed ==> s.cleanup && !t.cleanup)
  }

  lemma CallsOutcome(s: S.State, a: bool, b: bool, c: bool, d: bool, e: bool)
    requires S.Inv(s) && s.listed
    ensures s.opening ==> Outcome(s, S.OnConnected(s, a, b, c, d, e))
    ensures Outcome(s, S.OnServiceStarted(s, a, b)) && Outcome(s, S.OnOwnerNamed(s, a, b, c))
    ensures Outcome(s, S.OnInhibitReturned(s, a, b))
  {
  }

  lemma SignalsOutcome(s: S.State, a: bool, b: bool, c: bool, code: Option<nat>)
    requires S.Inv(s) && s.listed
    ensures Outcome(s, S.OnResponse(s, a, code, b)) && Outcome(s, S.OnOwnerSignal(s, a, b))
    ensures Outcome(s, S.OnTick(s, a, b, c))
    ensures s.releasing ==> Outcome(s, S.Finish(s, a || b))
  {
  }

  lemma CallbackOutcome(s: S.State, e: S.Event)
    requires S.Inv(s) && s.listed && S.Possible(s, e) && !e.Reacquire? && !e.Release?
    ensures Outcome(s, S.Step(s, e))
  {
    match e
    case Connected(ok, scope, handle, again, closed) => CallsOutcome(s, ok, scope, handle, again, closed);
    case ServiceStarted(scope, ok) => CallsOutcome(s, scope, ok, false, false, false);
    case OwnerNamed(scope, ok, again) => CallsOutcome(s, scope, ok, again, false, false);
    case InhibitReturned(ack, scope) => CallsOutcome(s, ack, scope, false, false, false);
    case ResponseSignal(matches, code, scope) => SignalsOutcome(s, matches, scope, false, code);
    case OwnerSignal(matches, changed) => SignalsOutcome(s, matches, changed, false, None);
    case Tick(scope, expired, closed) => SignalsOutcome(s, scope, expired, closed, None);
    case CloseDone(ok, closed) => SignalsOutcome(s, ok, closed, false, None);
    case _ =>
  }

  lemma AfterCallbackInv(w: World, h: Holder, s: S.State)
    requires Inv(w) && w.session == Some(h) && w.gui.None? && S.Inv(s)
    requires Outcome(h.state, s)
    ensures Inv(AfterCallback(w, h, s))
  {
    var v := AfterCallback(w, h, s);
    if h.state.cleanup {
      var d := h.driver;
      assert DriverOk(w, d);
      if s.listed && !s.cleanup {
        var u := w.(session := Some(h.(state := s)), drivers := w.drivers[d := Scheduled]);
        MovedDriverInv(w, u, d);
        FinishInv(u, d, false);
        assert v.drivers == Finish(u, d, false).drivers;
      } else {
        assert w.drivers[d := Held] == w.drivers;
        MovedDriverInv(w, v, d);
      }
    } else {
      AcquisitionsStay(w, v);
      DriversStay(w, v);
      SuccessesStay(w, v);
    }
  }

  lemma AcqStepInv(w: World, a: nat, step: AcqStep)
    requires Inv(w) && AcqEnabled(w, a, step)
    ensures Inv(AcqApply(w, a, step))
  {
    assert AcqOk(w, a);
    var v := AcqApply(w, a, step);
    match step
    case Queue => PhaseInv(w, a, Queued, w.gui, v);
    case Check => PhaseInv(w, a, Checked, Some(a), v);
    case Insert(scope, closed) => InsertInv(w, a, scope, closed);
    case Return => PhaseInv(w, a, Returned, w.gui, v);
    case ClearFlag => PhaseInv(w, a, Dropping, w.gui, v);
    case Leave => SettleInv(w, a);
  }

  lemma DriverStepInv(w: World, d: nat, step: DriverStep)
    requires Inv(w) && DriverEnabled(w, d, step)
    ensures Inv(DriverApply(w, d, step))
  {
    assert DriverOk(w, d);
    match step
    case RunOnGui(closed) => DriverGuiInv(w, d, closed);
    case Fail => FinishInv(w, d, false);
    case Join => MovedDriverInv(w, w.(drivers := w.drivers[d := Waiting]), d);
    case Done => FinishInv(w, d, true);
  }

  lemma StepInv(w: World, e: Event)
    requires Inv(w) && Enabled(w, e)
    ensures Inv(Apply(w, e))
  {
    match e
    case NewAcquisition => AdmitInv(w);
    case OfAcquisition(a, step) => AcqStepInv(w, a, step);
    case ReleaseRequest(permanent) => BeginReleaseInv(w, permanent);
    case OfDriver(d, step) => DriverStepInv(w, d, step);
    case OfSession(c) =>
      S.StepInv(w.session.value.state, c);
      CallbackOutcome(w.session.value.state, c);
      AfterCallbackInv(w, w.session.value, S.Step(w.session.value.state, c));
  }

  // ---------------------------------------------------------------- whole runs

  ghost predicate StepAt(ws: seq<World>, es: seq<Event>, i: nat)
    requires |ws| == |es| + 1 && i < |es|
  {
    Enabled(ws[i], es[i]) && ws[i + 1] == Apply(ws[i], es[i])
  }

  ghost predicate Execution(ws: seq<World>, es: seq<Event>) {
    && |ws| == |es| + 1
    && ws[0] == START
    && forall i: nat {:trigger StepAt(ws, es, i)} | i < |es| :: StepAt(ws, es, i)
  }

  lemma {:induction false} Reachable(ws: seq<World>, es: seq<Event>, i: nat)
    requires Execution(ws, es) && i < |ws|
    ensures Inv(ws[i])
  {
    if i > 0 {
      Reachable(ws, es, i - 1);
      assert StepAt(ws, es, i - 1);
      StepInv(ws[i - 1], es[i - 1]);
    }
  }

  /** What one step may change of the counters; a closed and released owner keeps its last receiver. */
  ghost predicate Evolves(w: World, v: World) {
    && w.admissions <= v.admissions
    && (w.o.closing ==> v.o.closing && v.admissions == w.admissions)
    && (w.o.closing && w.o.slot.Some? && w.o.slot.value.result == Some(true) ==> v.o.slot == w.o.slot)
    && (forall d {:trigger Kept(w, v, d)} | d in w.succeeded :: Kept(w, v, d))
  }

  ghost predicate Kept(w: World, v: World, d: nat)
    requires d in w.succeeded
  {
    d in v.succeeded && v.succeeded[d] == w.succeeded[d]
  }

  lemma FinishEvolves(w: World, d: nat, ok: bool)
    requires Inv(w) && d in w.drivers
    ensures Evolves(w, Finish(w, d, ok))
  {
    assert DriverOk(w, d);
    forall x | x in w.succeeded
      ensures Kept(w, Finish(w, d, ok), x)
    {
      assert SuccessOk(w, x);
    }
  }

  lemma AcqEvolves(w: World, a: nat, step: AcqStep)
    requires AcqEnabled(w, a, step)
    ensures Evolves(w, AcqApply(w, a, step))
  {
  }

  lemma CallbackEvolves(w: World, s: S.State)
    requires Inv(w) && w.session.Some?
    ensures Evolves(w, AfterCallback(w, w.session.value, s))
  {
    var h := w.session.value;
    if h.state.cleanup && s.listed && !s.cleanup {
      FinishEvolves(w, h.driver, false);
    }
  }

  lemma StepEvolves(w: World, e: Event)
    requires Inv(w) && Enabled(w, e)
    ensures Evolves(w, Apply(w, e))
  {
    match e
    case NewAcquisition =>
    case OfAcquisition(a, step) => AcqEvolves(w, a, step);
    case ReleaseRequest(permanent) =>
    case OfDriver(d, step) =>
      if step.Fail? || step.Done? {
        FinishEvolves(w, d, step.Done?);
      }
    case OfSession(c) => CallbackEvolves(w, S.Step(w.session.value.state, c));
  }

  lemma EvolvesTransitive(u: World, v: World, w: World)
    requires Evolves(u, v) && Evolves(v, w)
    ensures Evolves(u, w)
  {
    forall d | d in u.succeeded
      ensures Kept(u, w, d)
    {
      assert Kept(u, v, d) && Kept(v, w, d);
    }
  }

  lemma StepAtEvolves(ws: seq<World>, es: seq<Event>, i: nat)
    requires Execution(ws, es) && i < |es|
    ensures Evolves(ws[i], ws[i + 1])
  {
    Reachable(ws, es, i);
    assert StepAt(ws, es, i);
    StepEvolves(ws[i], es[i]);
  }

  lemma {:induction false} RunEvolves(ws: seq<World>, es: seq<Event>, i: nat, j: nat)
    requires Execution(ws, es) && i <= j < |ws|
    ensures Evolves(ws[i], ws[j])
  {
    if i < j {
      RunEvolves(ws, es, i, j - 1);
      StepAtEvolves(ws, es, j - 1);
      EvolvesTransitive(ws[i], ws[j - 1], ws[j]);
    }
  }

  /**
   From the success of a release driver until another acquisition is admitted there is no
   session, no acquisition task and nothing on its way to the GUI thread, whatever else runs.
   */
  lemma NothingHeldAfterRelease(ws: seq<World>, es: seq<Event>, i: nat, j: nat, d: nat)
    requires Execution(ws, es) && i < j < |ws| && es[i] == OfDriver(d, Done)
    requires ws[j].admissions == ws[i].admissions
    ensures Quiet(ws[j]) && ws[j].o.pending == 0
  {
    assert StepAt(ws, es, i);
    assert ws[i + 1].succeeded == ws[i].succeeded[d := ws[i].admissions];
    RunEvolves(ws, es, i + 1, j);
    assert Kept(ws[i + 1], ws[j], d);
    Reachable(ws, es, j);
    assert SuccessOk(ws[j], d);
  }

  /**
   At most one driver is unfinished; while it runs every acquisition and the session are older
   than it, and none is admitted.
   */
  lemma OneDriverAndOlderAcquisitions(ws: seq<World>, es: seq<Event>, i: nat, d: nat)
    requires Execution(ws, es) && i < |ws| && d in ws[i].drivers
    ensures ws[i].drivers.Keys == {d} && ws[i].o.generation == d
    ensures forall a | a in ws[i].acqs :: ws[i].acqs[a].generation < d
    ensures ws[i].session.Some? ==> ws[i].session.value.generation < d
    ensures Admit(ws[i].o).Failure?
  {
    Reachable(ws, es, i);
    var w := ws[i];
    assert DriverOk(w, d);
    forall x | x in w.drivers
      ensures x == d
    {
      assert DriverOk(w, x);
    }
    forall a | a in w.acqs
      ensures w.acqs[a].generation < d
    {
      assert AcqOk(w, a);
    }
  }

  /** After a successful `close` nothing is held or admitted, and every later release is answered the same. */
  lemma ClosedForGood(ws: seq<World>, es: seq<Event>, i: nat, j: nat)
    requires Execution(ws, es) && i <= j < |ws|
    requires ws[i].o.closing && ws[i].o.slot.Some? && ws[i].o.slot.value.result == Some(true)
    ensures Quiet(ws[j]) && ws[j].o.pending == 0 && ws[j].drivers == map[]
    ensures Admit(ws[j].o) == Failure(Disconnected)
    ensures ws[j].o.slot == ws[i].o.slot && forall permanent :: BeginRelease(ws[j].o, permanent) == ws[j].o
  {
    RunEvolves(ws, es, i, j);
    Reachable(ws, es, j);
    var w := ws[j];
    assert SuccessOk(w, w.o.slot.value.driver);
    forall d | d in w.drivers
      ensures DriverOk(w, d)
    {
    }
  }

  /**
   The pending count is exact through the two stores of a dropped acquisition, and never goes
   below zero; at most one acquisition is not being dropped yet.
   */
  lemma PendingIsExact(ws: seq<World>, es: seq<Event>, i: nat)
    requires Execution(ws, es) && i < |ws|
    ensures ws[i].o.pending == |ws[i].acqs|
    ensures forall a, b | a in ws[i].acqs && b in ws[i].acqs && a != b ::
              ws[i].acqs[a].phase.Dropping? || ws[i].acqs[b].phase.Dropping?
    ensures !ws[i].o.acquiring ==> forall a | a in ws[i].acqs :: ws[i].acqs[a].phase.Dropping?
  {
    Reachable(ws, es, i);
    var w := ws[i];
    forall a | a in w.acqs
      ensures !w.o.acquiring ==> w.acqs[a].phase.Dropping?
    {
      assert AcqOk(w, a);
    }
    forall a, b | a in w.acqs && b in w.acqs && a != b
      ensures w.acqs[a].phase.Dropping? || w.acqs[b].phase.Dropping?
    {
      assert OneLive(w, a, b);
    }
  }

  /** The session the table holds is a state of the session machine, within its invariant. */
  lemma SessionsAreSound(ws: seq<World>, es: seq<Event>, i: nat)
    requires Execution(ws, es) && i < |ws| && ws[i].session.Some?
    ensures S.Inv(ws[i].session.value.state)
    ensures ws[i].session.value.state.cleanup ==> ws[i].drivers.Keys == {ws[i].session.value.driver}
  {
    Reachable(ws, es, i);
    if ws[i].session.value.state.cleanup {
      OneDriverAndOlderAcquisitions(ws, es, i, ws[i].session.value.driver);
    }
  }
}
