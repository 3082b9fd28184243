/**
 How the energy owner decides in any run: which acquisitions are admitted and stay current, what a
 release request starts or joins, and what a driver's turn on the GUI thread and each callback of
 the session make of it. The decisions are told by what the run has done before.
 */
module EnergyDecisions {
  import opened Wrappers
  import opened EnergyOwner
  import opened EnergyProtocol
  import S = EnergySession
  import A = EnergySessionAnswers

  // ---------------------------------------------------------------- admission

  /** An acquisition has not begun to be dropped. */
  predicate Busy(w: World) {
    exists a :: a in w.acqs && !w.acqs[a].phase.Dropping?
  }

  lemma AcqKeepsBusy(w: World, a: nat, step: AcqStep)
    requires Inv(w) && AcqEnabled(w, a, step) && (w.o.acquiring ==> Busy(w))
    ensures AcqApply(w, a, step).o.acquiring ==> Busy(AcqApply(w, a, step))
  {
    var v := AcqApply(w, a, step);
    if v.o.acquiring {
      var b :| b in w.acqs && !w.acqs[b].phase.Dropping?;
      assert b in v.acqs && !v.acqs[b].phase.Dropping?;
    }
  }

  lemma StepKeepsBusy(w: World, e: Event)
    requires Inv(w) && Enabled(w, e) && (w.o.acquiring ==> Busy(w))
    ensures Apply(w, e).o.acquiring ==> Busy(Apply(w, e))
  {
    var v := Apply(w, e);
    match e
    case NewAcquisition => assert w.admissions in v.acqs && !v.acqs[w.admissions].phase.Dropping?;
    case OfAcquisition(a, step) => AcqKeepsBusy(w, a, step);
    case _ => assert v.o.acquiring == w.o.acquiring && v.acqs == w.acqs;
  }

  lemma {:induction false} AcquiringMeansBusy(ws: seq<World>, es: seq<Event>, i: nat)
    requires Execution(ws, es) && i < |ws|
    ensures ws[i].o.acquiring <==> Busy(ws[i])
  {
    Reachable(ws, es, i);
    if i > 0 {
      AcquiringMeansBusy(ws, es, i - 1);
      Reachable(ws, es, i - 1);
      assert StepAt(ws, es, i - 1);
      StepKeepsBusy(ws[i - 1], es[i - 1]);
    }
    if a :| a in ws[i].acqs && !ws[i].acqs[a].phase.Dropping? {
      assert AcqOk(ws[i], a);
    }
  }

  /** The last release was asked for with no driver left to run, and succeeded; or there was none. */
  predicate Released(w: World) {
    w.drivers == map[] && (w.o.slot.Some? ==> w.o.slot.value.result != Some(false))
  }

  /**
   An acquisition is admitted exactly when the owner is not closed, no release driver runs, the last
   one did not fail, and every other acquisition is already being dropped.
   */
  lemma AdmissionDecides(ws: seq<World>, es: seq<Event>, i: nat)
    requires Execution(ws, es) && i < |ws|
    ensures Admit(ws[i].o).Success? <==> !ws[i].o.closing && Released(ws[i]) && !Busy(ws[i])
    ensures Admit(ws[i].o) == Failure(Disconnected) <==> ws[i].o.closing
    ensures i < |es| && es[i] == NewAcquisition ==>
              && ws[i].admissions !in ws[i].acqs
              && ws[i + 1].acqs == ws[i].acqs[ws[i].admissions := Acq(ws[i].o.generation, Admitted)]
              && ws[i + 1].admissions == ws[i].admissions + 1 && ws[i + 1].o.pending == ws[i].o.pending + 1
  {
    Reachable(ws, es, i);
    AcquiringMeansBusy(ws, es, i);
    RunningDriver(ws[i]);
    var w := ws[i];
    SettledMeansReleased(w);
    if i < |es| && es[i] == NewAcquisition {
      assert StepAt(ws, es, i);
      assert w.admissions in w.acqs ==> AcqOk(w, w.admissions);
    }
  }

  lemma SettledMeansReleased(w: World)
    requires Inv(w)
    ensures Settled(w.o) <==> Released(w)
  {
    RunningDriver(w);
    if w.o.slot.Some? && w.o.slot.value.result.Some? {
      assert w.o.slot.value.result.value || w.o.slot.value.result == Some(false);
    }
  }

  /** The slot waits for a result exactly while a driver is unfinished. */
  lemma RunningDriver(w: World)
    requires Inv(w)
    ensures w.drivers != map[] <==> w.o.slot.Some? && w.o.slot.value.result.None?
    ensures w.drivers != map[] ==> w.drivers.Keys == {w.o.generation}
  {
    if w.drivers != map[] {
      var d :| d in w.drivers;
      assert DriverOk(w, d);
      forall x | x in w.drivers
        ensures x == w.o.generation
      {
        assert DriverOk(w, x);
      }
    }
  }

  // ---------------------------------------------------------------- release requests

  /**
   A release request joins a running driver, and after a successful close is answered at once. Any
   other one fences everything admitted so far and starts a driver under a generation of its own.
   */
  lemma ReleaseDecides(ws: seq<World>, es: seq<Event>, i: nat, permanent: bool)
    requires Execution(ws, es) && i < |es| && es[i] == ReleaseRequest(permanent)
    ensures var w, v := ws[i], ws[i + 1];
            && v.o.closing == (w.o.closing || permanent)
            && v.acqs == w.acqs && v.session == w.session && v.admissions == w.admissions
            && if w.drivers != map[] || (w.o.closing && w.o.slot.Some? && w.o.slot.value.result == Some(true)) then
                 v.o.generation == w.o.generation && v.o.slot == w.o.slot && v.drivers == w.drivers
               else
                 && v.o.generation == w.o.generation + 1 && v.o.slot == Some(Receiver(v.o.generation, None))
                 && v.drivers == map[v.o.generation := Scheduled]
  {
    Reachable(ws, es, i);
    assert StepAt(ws, es, i);
    RunningDriver(ws[i]);
  }

  /** A driver's own result, and no other, is what its channel gives. */
  lemma ReportDecides(ws: seq<World>, es: seq<Event>, i: nat, d: nat, step: DriverStep)
    requires Execution(ws, es) && i < |es| && es[i] == OfDriver(d, step) && (step.Fail? || step.Done?)
    ensures ws[i + 1].o == ws[i].o.(slot := Some(Receiver(d, Some(step.Done?)))) && ws[i + 1].drivers == map[]
    ensures Admit(ws[i + 1].o).Success? ==> step.Done?
  {
    Reachable(ws, es, i);
    assert StepAt(ws, es, i);
    assert DriverOk(ws[i], d);
    RunningDriver(ws[i]);
    assert ws[i + 1].drivers.Keys == {};
  }

  predicate IsRelease(e: Event) {
    e.ReleaseRequest?
  }

  lemma CallbackGeneration(w: World, h: Holder, s: S.State)
    ensures AfterCallback(w, h, s).o.generation == w.o.generation && AfterCallback(w, h, s).o.closing == w.o.closing
  {
  }

  lemma DriverGeneration(w: World, d: nat, step: DriverStep)
    ensures var v := DriverApply(w, d, step); v.o.generation == w.o.generation && v.o.closing == w.o.closing
  {
  }

  lemma GenerationStep(w: World, e: Event)
    requires Enabled(w, e)
    ensures !IsRelease(e) ==>
              && Apply(w, e).o.generation == w.o.generation && Apply(w, e).o.closing == w.o.closing
    ensures Apply(w, e).o.generation >= w.o.generation && (w.o.closing ==> Apply(w, e).o.closing)
  {
    match e
    case OfDriver(d, step) => DriverGeneration(w, d, step);
    case OfSession(c) => CallbackGeneration(w, w.session.value, S.Step(w.session.value.state, c));
    case _ =>
  }

  lemma GenerationOf(w: World, e: Event, a: nat)
    requires Enabled(w, e) && a in w.acqs && a < w.admissions
    ensures a in Apply(w, e).acqs ==> Apply(w, e).acqs[a].generation == w.acqs[a].generation
    ensures a < Apply(w, e).admissions
  {
  }

  lemma GoneStaysGone(w: World, e: Event, a: nat)
    requires Enabled(w, e) && a !in w.acqs && a < w.admissions
    ensures a !in Apply(w, e).acqs && a < Apply(w, e).admissions
  {
  }

  /** The acquisition that was admitted at step `i`. */
  ghost predicate AdmittedAt(ws: seq<World>, es: seq<Event>, i: nat, a: nat)
    requires |ws| == |es| + 1 && i < |es|
  {
    es[i] == NewAcquisition && a == ws[i].admissions
  }

  ghost predicate NoReleaseIn(es: seq<Event>, i: nat, j: nat)
    requires j <= |es|
  {
    forall k {:trigger IsRelease(es[k])} | i <= k < j :: !IsRelease(es[k])
  }

  lemma FirstReleaseFences(w: World, permanent: bool, generation: nat)
    requires Current(w, generation) && Settled(w.o)
    ensures !Current(DoBeginRelease(w, permanent), generation)
  {
  }

  lemma StepSettles(w: World, e: Event)
    requires Inv(w) && Enabled(w, e) && !IsRelease(e) && Settled(w.o)
    ensures Settled(Apply(w, e).o)
  {
    RunningDriver(w);
    assert w.drivers == map[];
  }

  /**
   An acquisition is current exactly until the first release request after its admission, whatever
   else has run: from then on none of its stages can be entered.
   */
  lemma {:induction false} CurrentUntilRelease(ws: seq<World>, es: seq<Event>, i: nat, j: nat, a: nat)
    requires Execution(ws, es) && i < j < |ws| && AdmittedAt(ws, es, i, a)
    ensures NoReleaseIn(es, i, j) <==> Current(ws[j], ws[i].o.generation)
    ensures NoReleaseIn(es, i, j) ==> Settled(ws[j].o)
    ensures ws[j].o.generation >= ws[i].o.generation
    decreases j
  {
    if j == i + 1 {
      AdmissionStep(ws, es, i);
    } else {
      CurrentUntilRelease(ws, es, i, j - 1, a);
      assert NoReleaseIn(es, i, j) <==> NoReleaseIn(es, i, j - 1) && !IsRelease(es[j - 1]);
      CurrentStepAt(ws, es, j - 1, ws[i].o.generation, NoReleaseIn(es, i, j - 1));
    }
  }

  lemma AdmissionStep(ws: seq<World>, es: seq<Event>, i: nat)
    requires Execution(ws, es) && i < |es| && es[i] == NewAcquisition
    ensures Current(ws[i + 1], ws[i].o.generation) && Settled(ws[i + 1].o) && !IsRelease(es[i])
    ensures ws[i + 1].o.generation == ws[i].o.generation
  {
    assert StepAt(ws, es, i);
  }

  lemma CurrentStepAt(ws: seq<World>, es: seq<Event>, i: nat, generation: nat, unreleased: bool)
    requires Execution(ws, es) && i < |es| && ws[i].o.generation >= generation
    requires (unreleased <==> Current(ws[i], generation)) && (unreleased ==> Settled(ws[i].o))
    ensures unreleased && !IsRelease(es[i]) <==> Current(ws[i + 1], generation)
    ensures unreleased && !IsRelease(es[i]) ==> Settled(ws[i + 1].o)
    ensures ws[i + 1].o.generation >= generation
  {
    Reachable(ws, es, i);
    assert StepAt(ws, es, i);
    CurrentStep(ws[i], es[i], generation, unreleased);
  }

  lemma CurrentStep(w: World, e: Event, generation: nat, unreleased: bool)
    requires Inv(w) && Enabled(w, e) && w.o.generation >= generation
    requires (unreleased <==> Current(w, generation)) && (unreleased ==> Settled(w.o))
    ensures unreleased && !IsRelease(e) <==> Current(Apply(w, e), generation)
    ensures unreleased && !IsRelease(e) ==> Settled(Apply(w, e).o)
    ensures Apply(w, e).o.generation >= generation
  {
    GenerationStep(w, e);
    if unreleased {
      if e.ReleaseRequest? {
        FirstReleaseFences(w, e.permanent, generation);
      } else {
        StepSettles(w, e);
      }
    }
  }

  lemma {:induction false} GenerationStays(ws: seq<World>, es: seq<Event>, i: nat, j: nat, a: nat)
    requires Execution(ws, es) && i < j < |ws| && AdmittedAt(ws, es, i, a)
    ensures ws[j].admissions > a
    ensures a in ws[j].acqs ==> ws[j].acqs[a].generation == ws[i].o.generation
    decreases j
  {
    assert StepAt(ws, es, j - 1);
    if j > i + 1 {
      GenerationStays(ws, es, i, j - 1, a);
      if a in ws[j - 1].acqs {
        GenerationOf(ws[j - 1], es[j - 1], a);
      } else {
        GoneStaysGone(ws[j - 1], es[j - 1], a);
      }
    }
  }

  /**
   So an acquisition may go on to the GUI thread, and may act there, exactly while no release has
   been requested since its admission.
   */
  lemma StagesUntilRelease(ws: seq<World>, es: seq<Event>, i: nat, j: nat, a: nat)
    requires Execution(ws, es) && i < j < |ws| && AdmittedAt(ws, es, i, a) && a in ws[j].acqs
    ensures ws[j].acqs[a].phase.Admitted? ==>
              (Enabled(ws[j], OfAcquisition(a, Queue)) <==> NoReleaseIn(es, i, j))
    ensures ws[j].acqs[a].phase.Queued? && ws[j].gui.None? ==>
              (Enabled(ws[j], OfAcquisition(a, Check)) <==> NoReleaseIn(es, i, j))
  {
    CurrentUntilRelease(ws, es, i, j, a);
    GenerationStays(ws, es, i, j, a);
  }

  // ---------------------------------------------------------------- the session

  lemma SessionStays(w: World, e: Event)
    requires Inv(w) && Enabled(w, e) && (w.session.Some? ==> A.Sound(w.session.value.state))
    ensures Apply(w, e).session.Some? ==> A.Sound(Apply(w, e).session.value.state)
  {
    match e
    case OfAcquisition(a, step) =>
      if step.Insert? && w.session.Some? {
        S.TickInv(w.session.value.state, step.scope, false, step.closed);
        A.ReacquireTells(w.session.value.state, step.scope, step.closed);
      }
    case OfDriver(d, step) =>
      if step.RunOnGui? && w.session.Some? {
        S.ReleaseInv(w.session.value.state, false, step.closed);
        A.ReleaseStepTells(w.session.value.state, step.closed);
      }
    case OfSession(c) =>
      S.StepInv(w.session.value.state, c);
      A.StepTells(w.session.value.state, c);
    case _ =>
  }

  lemma {:induction false} SessionSound(ws: seq<World>, es: seq<Event>, i: nat)
    requires Execution(ws, es) && i < |ws| && ws[i].session.Some?
    ensures A.Sound(ws[i].session.value.state)
  {
    if i > 0 {
      if ws[i - 1].session.Some? {
        SessionSound(ws, es, i - 1);
      }
      Reachable(ws, es, i - 1);
      assert StepAt(ws, es, i - 1);
      SessionStays(ws[i - 1], es[i - 1]);
    }
  }

  /** An acquisition on the GUI thread makes the session, under its own generation, or asks the one it finds. */
  lemma InsertDecides(ws: seq<World>, es: seq<Event>, i: nat, a: nat, scope: bool, closed: bool)
    requires Execution(ws, es) && i < |es| && es[i] == OfAcquisition(a, Insert(scope, closed))
    ensures a in ws[i].acqs && a in ws[i + 1].acqs && ws[i + 1].acqs[a].phase.Holding? && ws[i + 1].gui.None?
    ensures ws[i].session.None? ==> ws[i + 1].session == Some(Holder(ws[i].acqs[a].generation, S.OPENED, 0))
    ensures ws[i].session.Some? ==>
              && ws[i + 1].session.Some?
              && A.Tells(ws[i].session.value.state, S.Reacquire(scope, closed), ws[i + 1].session.value.state)
  {
    Reachable(ws, es, i);
    assert StepAt(ws, es, i);
    if ws[i].session.Some? {
      SessionSound(ws, es, i);
      A.ReacquireTells(ws[i].session.value.state, scope, closed);
    }
  }

  /**
   A driver's turn on the GUI thread: without a session, or with one it can finish at once, it goes on
   to join; otherwise the session stores its completion, retires and stays in the table.
   */
  lemma DriverTurnDecides(ws: seq<World>, es: seq<Event>, i: nat, d: nat, closed: bool)
    requires Execution(ws, es) && i < |es| && es[i] == OfDriver(d, RunOnGui(closed))
    ensures d in ws[i + 1].drivers
    ensures ws[i].session.None? ==> ws[i + 1].session.None? && ws[i + 1].drivers[d] == Retired
    ensures ws[i].session.Some? ==>
              var s := ws[i].session.value.state;
              if !s.opening && !s.releasing && (!s.connection || closed) then
                ws[i + 1].session.None? && ws[i + 1].drivers[d] == Retired
              else
                && ws[i + 1].drivers[d] == Held && ws[i + 1].session.Some? && ws[i + 1].session.value.driver == d
                && ws[i + 1].session.value.state.cleanup && ws[i + 1].session.value.state.retiring
  {
    Reachable(ws, es, i);
    assert StepAt(ws, es, i);
    if ws[i].session.Some? {
      SessionSound(ws, es, i);
      A.ReleaseStepTells(ws[i].session.value.state, closed);
    }
  }

  /**
   A callback that tells the stored release driver of success takes the session out of the table and
   sends the driver on to join; one that tells of failure ends the driver, and the session stays for
   the next; any other leaves every driver where it is.
   */
  lemma CallbackDecides(ws: seq<World>, es: seq<Event>, i: nat, c: S.Event)
    requires Execution(ws, es) && i < |es| && es[i] == OfSession(c)
    ensures ws[i].session.Some?
    ensures var h, told := ws[i].session.value, A.Released(ws[i].session.value.state, c);
            if told == [true] then
              ws[i + 1].session.None? && ws[i + 1].drivers == ws[i].drivers[h.driver := Retired]
            else if told == [false] then
              && ws[i + 1].session.Some? && h.driver in ws[i].drivers && ws[i + 1].drivers == map[]
              && ws[i + 1].o == ws[i].o.(slot := Some(Receiver(h.driver, Some(false))))
            else ws[i + 1].session.Some? && ws[i + 1].drivers == ws[i].drivers && ws[i + 1].o == ws[i].o
  {
    Reachable(ws, es, i);
    assert StepAt(ws, es, i);
    SessionSound(ws, es, i);
    var w := ws[i];
    var h := w.session.value;
    A.StepTells(h.state, c);
    RunningDriver(w);
    if h.state.cleanup {
      assert DriverOk(w, h.driver);
      assert (w.drivers - {h.driver}).Keys == {};
    }
  }
}
