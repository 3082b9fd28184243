/**
 How `close_group` waits for a drop group in native_attachment_drop.rs: `join_raw`, `stop_timer`
 and the timer task that `expire` starts. Every flag is stored before its waiters are notified,
 and every waiter registers before it reads the flag; a step is one store, one notification or
 the code between two awaits.
 */
module DropWait {
  import opened Wrappers

  /** One waiting loop: registered waiters know whether a notification has come since. */
  datatype Wait = Entered | Registered(notified: bool) | Awaiting(notified: bool)

  /**
   Spawned: marked active, not registered for a wake-up yet. Listening: registered. Sleeping: it
   found no cancellation. Ended: no longer active, its waiters not notified yet.
   */
  datatype Timer = Unstarted | Spawned | Listening(woken: bool) | Sleeping(woken: bool) | Ended | Gone

  /** Cancelling: the raw capture has been joined. Cancelled: the timer's flag is stored, its wake-up not sent yet. */
  datatype Joiner = JoiningRaw(wait: Wait) | Cancelling | Cancelled | JoiningTimer(wait: Wait) | Through

  /** `rawDue` counts notifications of `finish_raw` that are still to be sent. */
  datatype World = World(raw: bool, rawDue: nat, timer: Timer, cancelled: bool, joiners: map<nat, Joiner>)

  /** A group as `capture` makes it. */
  const CAPTURED := World(true, 0, Unstarted, false, map[])

  predicate Active(t: Timer) {
    t.Spawned? || t.Listening? || t.Sleeping?
  }

  datatype JoinStep = Register | Check | Wake | StoreCancel | WakeTimer

  /** `Expire` comes while the capture still holds its raw receipt. */
  datatype Event =
    | Expire | FinishRaw | NotifyRaw
    | TimerListens | TimerChecks | TimerEnds(elapsed: bool) | NotifyDone
    | NewJoiner(id: nat)
    | Of(id: nat, step: JoinStep)

  // ---------------------------------------------------------------- steps

  function Notified(w: Wait): Wait {
    match w
    case Entered => Entered
    case Registered(_) => Registered(true)
    case Awaiting(_) => Awaiting(true)
  }

  function NotifiedRaw(j: Joiner): Joiner {
    if j.JoiningRaw? then JoiningRaw(Notified(j.wait)) else j
  }

  function NotifiedTimer(j: Joiner): Joiner {
    if j.JoiningTimer? then JoiningTimer(Notified(j.wait)) else j
  }

  function Woken(t: Timer): Timer {
    match t
    case Listening(_) => Listening(true)
    case Sleeping(_) => Sleeping(true)
    case _ => t
  }

  /** One turn of a waiting loop: what follows when it registers, looks at the flag, or wakes. */
  function Turn(wait: Wait, step: JoinStep, raised: bool): Option<Wait> {
    match step
    case Register => Some(Registered(false))
    case Check => if raised then Some(Awaiting(wait.Registered? && wait.notified)) else None
    case _ => Some(Entered)
  }

  predicate TurnEnabled(wait: Wait, step: JoinStep) {
    match step
    case Register => wait.Entered?
    case Check => wait.Registered?
    case Wake => wait.Awaiting? && wait.notified
    case _ => false
  }

  predicate JoinEnabled(j: Joiner, step: JoinStep) {
    match j
    case JoiningRaw(wait) => TurnEnabled(wait, step)
    case Cancelling => step.StoreCancel?
    case Cancelled => step.WakeTimer?
    case JoiningTimer(wait) => TurnEnabled(wait, step)
    case Through => false
  }

  function Joined(w: World, j: Joiner, step: JoinStep): Joiner {
    match j
    case JoiningRaw(wait) =>
      var next := Turn(wait, step, w.raw);
      if next.Some? then JoiningRaw(next.value) else Cancelling
    case Cancelling => Cancelled
    case Cancelled => JoiningTimer(Entered)
    case JoiningTimer(wait) =>
      var next := Turn(wait, step, Active(w.timer));
      if next.Some? then JoiningTimer(next.value) else Through
    case Through => Through
  }

  function DoJoin(w: World, id: nat, step: JoinStep): World
    requires id in w.joiners
  {
    w.(joiners := w.joiners[id := Joined(w, w.joiners[id], step)],
       cancelled := w.cancelled || step.StoreCancel?,
       timer := if step.WakeTimer? then Woken(w.timer) else w.timer)
  }

  predicate Enabled(w: World, e: Event) {
    match e
    case Expire => w.raw && w.timer.Unstarted?
    case FinishRaw => w.raw
    case NotifyRaw => w.rawDue > 0
    case TimerListens => w.timer.Spawned?
    case TimerChecks => w.timer.Listening?
    case TimerEnds(elapsed) => w.timer.Sleeping? && (elapsed || w.timer.woken)
    case NotifyDone => w.timer.Ended?
    case NewJoiner(id) => id !in w.joiners
    case Of(id, step) => id in w.joiners && JoinEnabled(w.joiners[id], step)
  }

  function Apply(w: World, e: Event): World
    requires Enabled(w, e)
  {
    match e
    case Expire => w.(timer := Spawned)
    case FinishRaw => w.(raw := false, rawDue := w.rawDue + 1)
    case NotifyRaw => w.(rawDue := w.rawDue - 1, joiners := map id | id in w.joiners :: NotifiedRaw(w.joiners[id]))
    case TimerListens => w.(timer := Listening(false))
    case TimerChecks => w.(timer := if w.cancelled then Ended else Sleeping(w.timer.woken))
    case TimerEnds(_) => w.(timer := Ended)
    case NotifyDone => w.(timer := Gone, joiners := map id | id in w.joiners :: NotifiedTimer(w.joiners[id]))
    case NewJoiner(id) => w.(joiners := w.joiners[id := JoiningRaw(Entered)])
    case Of(id, step) => DoJoin(w, id, step)
  }

  // ---------------------------------------------------------------- invariant

  /** A waiter without a notification still has a reason to wait, or a notification that is due. */
  ghost predicate JoinerOk(w: World, id: nat)
    requires id in w.joiners
  {
    var j := w.joiners[id];
    && (j == JoiningRaw(Awaiting(false)) ==> w.raw || w.rawDue > 0)
    && (!j.JoiningRaw? ==> !w.raw)
    && (j.Cancelled? || j.JoiningTimer? || j.Through? ==> w.cancelled)
    && (j == JoiningTimer(Awaiting(false)) ==> Active(w.timer) || w.timer.Ended?)
    && (j.Through? ==> !Active(w.timer))
  }

  ghost predicate WakeDue(w: World) {
    exists id :: id in w.joiners && w.joiners[id].Cancelled?
  }

  ghost predicate Inv(w: World) {
    && (forall id {:trigger JoinerOk(w, id)} | id in w.joiners :: JoinerOk(w, id))
    && (w.cancelled && w.timer == Sleeping(false) ==> WakeDue(w))
    && ((w.timer.Listening? || w.timer.Sleeping?) && w.timer.woken ==> w.cancelled)
  }

  lemma JoinInv(w: World, id: nat, step: JoinStep)
    requires Inv(w) && id in w.joiners && JoinEnabled(w.joiners[id], step)
    ensures Inv(DoJoin(w, id, step))
  {
    var v := DoJoin(w, id, step);
    forall x | x in v.joiners
      ensures JoinerOk(v, x)
    {
      assert JoinerOk(w, x) && JoinerOk(w, id);
    }
    assert JoinerOk(w, id);
    if v.cancelled && v.timer == Sleeping(false) {
      if step.StoreCancel? {
        assert v.joiners[id].Cancelled?;
      } else {
        var x :| x in w.joiners && w.joiners[x].Cancelled?;
        assert v.joiners[x].Cancelled?;
      }
    }
  }

  lemma StepInv(w: World, e: Event)
    requires Inv(w) && Enabled(w, e)
    ensures Inv(Apply(w, e))
  {
    if e.Of? {
      JoinInv(w, e.id, e.step);
    } else {
      var v := Apply(w, e);
      forall x | x in v.joiners
        ensures JoinerOk(v, x)
      {
        assert x in w.joiners ==> JoinerOk(w, x);
      }
      if v.cancelled && v.timer == Sleeping(false) {
        var x :| x in w.joiners && w.joiners[x].Cancelled?;
        assert v.joiners[x].Cancelled?;
      }
    }
  }

  // ---------------------------------------------------------------- whole runs

  ghost predicate StepAt(ws: seq<World>, es: seq<Event>, i: nat)
    requires |ws| == |es| + 1 && i < |es|
  {
    Enabled(ws[i], es[i]) && ws[i + 1] == Apply(ws[i], es[i])
  }

  ghost predicate Execution(ws: seq<World>, es: seq<Event>) {
    && |ws| == |es| + 1
    && ws[0] == CAPTURED
    && forall i: nat {:trigger StepAt(ws, es, i)} | i < |es| :: StepAt(ws, es, i)
  }

  lemma {:induction false} Reachable(ws: seq<World>, es: seq<Event>, i: nat)
    requires Execution(ws, es) && i < |ws|
    ensures Inv(ws[i])
  {
    if i > 0 {
      Reachable(ws, es, i - 1);
      assert StepAt(ws, es, i - 1);
      StepInv(ws[i - 1], es[i - 1]);
    }
  }

  /**
   No wake-up is lost. A closer that waits without a notification waits for a capture or a timer
   that has not ended, or the notification of its end is still to come and reaches it.
   */
  lemma WaitingCloserIsNotified(ws: seq<World>, es: seq<Event>, i: nat, id: nat)
    requires Execution(ws, es) && i < |ws| && id in ws[i].joiners
    ensures ws[i].joiners[id] == JoiningRaw(Awaiting(false)) ==>
              ws[i].raw || (Enabled(ws[i], NotifyRaw)
                            && Apply(ws[i], NotifyRaw).joiners[id] == JoiningRaw(Awaiting(true)))
    ensures ws[i].joiners[id] == JoiningTimer(Awaiting(false)) ==>
              Active(ws[i].timer) || (Enabled(ws[i], NotifyDone)
                                      && Apply(ws[i], NotifyDone).joiners[id] == JoiningTimer(Awaiting(true)))
  {
    Reachable(ws, es, i);
    assert JoinerOk(ws[i], id);
  }

  /**
   A cancelled timer does not sleep out its offer: while it sleeps unwoken, some closer is about
   to wake it, and then it can end at once.
   */
  lemma CancelledTimerIsWoken(ws: seq<World>, es: seq<Event>, i: nat) returns (id: nat)
    requires Execution(ws, es) && i < |ws| && ws[i].cancelled && ws[i].timer == Sleeping(false)
    ensures Enabled(ws[i], Of(id, WakeTimer))
    ensures Enabled(Apply(ws[i], Of(id, WakeTimer)), TimerEnds(false))
  {
    Reachable(ws, es, i);
    id :| id in ws[i].joiners && ws[i].joiners[id].Cancelled?;
  }

  /** A timer that nobody cancels goes to sleep, and wakes up exactly when its offer time is over. */
  lemma TimerSleepsOutItsOffer(ws: seq<World>, es: seq<Event>, i: nat)
    requires Execution(ws, es) && i < |ws| && !ws[i].cancelled
    ensures ws[i].timer.Listening? ==> Enabled(ws[i], TimerChecks) && Apply(ws[i], TimerChecks).timer == Sleeping(false)
    ensures ws[i].timer.Sleeping? ==>
              Enabled(ws[i], TimerEnds(true)) && !Active(Apply(ws[i], TimerEnds(true)).timer)
              && !Enabled(ws[i], TimerEnds(false))
  {
    Reachable(ws, es, i);
  }

  lemma StaysQuiet(w: World, e: Event)
    requires Enabled(w, e) && !w.raw && !Active(w.timer)
    ensures !Apply(w, e).raw && !Active(Apply(w, e).timer)
  {
  }

  /** A closer that is through has seen both end, and neither starts again. */
  lemma {:induction false} ThroughMeansQuiet(ws: seq<World>, es: seq<Event>, i: nat, j: nat, id: nat)
    requires Execution(ws, es) && i <= j < |ws| && id in ws[i].joiners && ws[i].joiners[id].Through?
    ensures !ws[j].raw && !Active(ws[j].timer)
  {
    if i == j {
      Reachable(ws, es, i);
      assert JoinerOk(ws[i], id);
    } else {
      ThroughMeansQuiet(ws, es, i, j - 1, id);
      assert StepAt(ws, es, j - 1);
      StaysQuiet(ws[j - 1], es[j - 1]);
    }
  }
}
