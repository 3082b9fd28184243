/**
 Retained work as one state machine: `run_owned`, `drain` and the requests of native_clipboard.rs,
 native_artifact_clipboard.rs and native_attachment_download.rs that lend captures to the GUI
 thread. Each step is a lock section or the code between two awaits of one task.
 */
module WorkProtocol {
  import opened Wrappers
  import opened WorkOwner

  /**
   Queued: waits for a blocking thread. Running: the closure runs. Asking: it has scheduled a GUI
   closure and waits for the reply. Joining: it waits for the last capture to go. Returned: the
   closure is over, its driver still holds the receipt. Notifying: the receipt is counted off,
   its notification not sent yet.
   */
  datatype Phase = Queued | Running | Asking | Joining | Returned | Notifying

  /**
   `captures` counts the GUI callbacks that own a part of the request; `replied` is whether one
   of them has answered, `refused` whether scheduling reported an error, `abandoned` whether the
   caller has gone, and `used` whether the answer became the request's result.
   */
  datatype Work = Work(
    cleanup: bool, phase: Phase, captures: nat, replied: bool, refused: bool, abandoned: bool, used: bool)

  /**
   A `drain`: Entered before it registers for the next notification; Registered and Awaiting
   know whether that has come; Done remembers how much work had been admitted.
   */
  datatype Drain = Entered | Registered(notified: bool) | Awaiting(notified: bool) | Done(admitted: nat)

  datatype World = World(s: State, works: map<nat, Work>, drains: map<nat, Drain>, admitted: nat)

  const START := World(State(false, 0), map[], map[], 0)

  datatype WorkStep =
    | Start | Refuse | Schedule(accepted: bool, refused: bool) | Capture | Forget | Reply | Abandon
    | TakeAnswer | Join(scope: bool) | Finish | Settle | Notify

  datatype DrainStep = Register | Check | Wake

  datatype Event =
    | NewWork(cleanup: bool)
    | OfWork(k: nat, work: WorkStep)
    | Close
    | NewDrain(id: nat)
    | OfDrain(id: nat, drain: DrainStep)

  predicate HoldsReceipt(w: Work) {
    !w.phase.Notifying?
  }

  function Receipts(works: map<nat, Work>): set<nat> {
    set k | k in works && HoldsReceipt(works[k])
  }

  // ---------------------------------------------------------------- steps

  /** A reply ends the wait for it, and so does the end of every capture that could send one. */
  predicate WorkEnabled(w: Work, s: State, step: WorkStep) {
    match step
    case Start => w.phase.Queued? && (w.cleanup || IsOpen(s))
    case Refuse => w.phase.Queued?
    case Schedule(_, _) => w.phase.Running?
    case Capture => w.captures > 0
    case Forget => w.captures > 0
    case Reply => w.captures > 0
    case Abandon => true
    case TakeAnswer => w.phase.Asking? && (w.replied || w.captures == 0)
    case Join(_) => w.phase.Joining? && w.captures == 0
    case Finish => w.phase.Running?
    case Settle => w.phase.Returned?
    case Notify => w.phase.Notifying?
  }

  /** What a step makes of the work itself; `Notify` removes it. The caller's scope is asked once more at the end. */
  function Moved(w: Work, step: WorkStep): Work {
    match step
    case Start => w.(phase := Running)
    case Refuse => w.(phase := Returned)
    case Schedule(accepted, refused) =>
      w.(phase := Asking, captures := if accepted then 1 else 0, refused := refused)
    case Capture => w.(captures := w.captures + 1)
    case Forget => w.(captures := if w.captures > 0 then w.captures - 1 else 0)
    case Reply => w.(replied := true)
    case Abandon => w.(abandoned := true)
    case TakeAnswer => w.(phase := Joining)
    case Join(scope) => w.(phase := Returned, used := w.replied && !w.refused && !w.abandoned && scope)
    case Finish => w.(phase := Returned)
    case Settle => w.(phase := Notifying)
    case Notify => w
  }

  /** `notify_waiters`: every registered drain is notified. */
  function Notified(d: Drain): Drain {
    match d
    case Registered(_) => Registered(true)
    case Awaiting(_) => Awaiting(true)
    case _ => d
  }

  function NotifyAll(drains: map<nat, Drain>): map<nat, Drain> {
    map id | id in drains :: Notified(drains[id])
  }

  function DoNewWork(w: World, cleanup: bool): World
    requires Admit(w.s, cleanup).Success?
  {
    w.(s := Admit(w.s, cleanup).value,
       works := w.works[w.admitted := Work(cleanup, Queued, 0, false, false, false, false)],
       admitted := w.admitted + 1)
  }

  function DoWork(w: World, k: nat, step: WorkStep): World
    requires k in w.works
  {
    if step.Notify? then w.(works := w.works - {k}, drains := NotifyAll(w.drains))
    else w.(works := w.works[k := Moved(w.works[k], step)], s := if step.Settle? then Release(w.s) else w.s)
  }

  predicate DrainEnabled(d: Drain, step: DrainStep) {
    match step
    case Register => d.Entered?
    case Check => d.Registered?
    case Wake => d.Awaiting? && d.notified
  }

  function DoDrain(w: World, id: nat, step: DrainStep): World
    requires id in w.drains && DrainEnabled(w.drains[id], step)
  {
    w.(drains := w.drains[id := match step
                                case Register => Registered(false)
                                case Check =>
                                  if w.s.active == 0 then Done(w.admitted) else Awaiting(w.drains[id].notified)
                                case Wake => Entered])
  }

  predicate Enabled(w: World, e: Event) {
    match e
    case NewWork(cleanup) => Admit(w.s, cleanup).Success?
    case OfWork(k, step) => k in w.works && WorkEnabled(w.works[k], w.s, step)
    case Close => true
    case NewDrain(id) => id !in w.drains
    case OfDrain(id, step) => id in w.drains && DrainEnabled(w.drains[id], step)
  }

  function Apply(w: World, e: Event): World
    requires Enabled(w, e)
  {
    match e
    case NewWork(cleanup) => DoNewWork(w, cleanup)
    case OfWork(k, step) => DoWork(w, k, step)
    case Close => w.(s := w.s.(closing := true))
    case NewDrain(id) => w.(s := w.s.(closing := true), drains := w.drains[id := Entered])
    case OfDrain(id, step) => DoDrain(w, id, step)
  }

  // ---------------------------------------------------------------- invariants

  /** A request keeps its closure as long as it has captures; past its reply it waits for them. */
  ghost predicate RequestOk(w: Work) {
    && (w.captures > 0 ==> w.phase.Asking? || w.phase.Joining?)
    && (w.phase.Joining? ==> w.replied || w.captures == 0)
    && (w.used ==> w.replied && !w.refused && (w.phase.Returned? || w.phase.Notifying?))
  }

  ghost predicate WorkOk(w: World, k: nat)
    requires k in w.works
  {
    k < w.admitted && RequestOk(w.works[k])
  }

  /** An unnotified waiter still has a notification coming; a finished drain left only later cleanup behind. */
  ghost predicate DrainOk(w: World, id: nat)
    requires id in w.drains
  {
    && w.s.closing
    && (w.drains[id] == Awaiting(false) ==> w.works != map[])
    && (w.drains[id].Done? ==> w.drains[id].admitted <= w.admitted && OnlyLaterCleanup(w, w.drains[id].admitted))
  }

  ghost predicate OnlyLaterCleanup(w: World, admitted: nat) {
    forall k {:trigger w.works[k]} | k in w.works && HoldsReceipt(w.works[k]) :: k >= admitted && w.works[k].cleanup
  }

  ghost predicate Inv(w: World) {
    && w.s.active == |Receipts(w.works)| && w.s.active <= MAX_NATIVE_WORK
    && (forall k {:trigger WorkOk(w, k)} | k in w.works :: WorkOk(w, k))
    && (forall id {:trigger DrainOk(w, id)} | id in w.drains :: DrainOk(w, id))
  }

  lemma NewWorkInv(w: World, cleanup: bool)
    requires Inv(w) && Admit(w.s, cleanup).Success?
    ensures Inv(DoNewWork(w, cleanup))
  {
    var v := DoNewWork(w, cleanup);
    assert w.admitted in w.works ==> WorkOk(w, w.admitted);
    assert Receipts(v.works) == Receipts(w.works) + {w.admitted};
    forall k | k in v.works
      ensures WorkOk(v, k)
    {
      if k in w.works {
        assert WorkOk(w, k);
      }
    }
    forall id | id in v.drains
      ensures DrainOk(v, id)
    {
      assert DrainOk(w, id);
      assert w.admitted in v.works;
    }
  }

  lemma SettleInv(w: World, k: nat)
    requires Inv(w) && k in w.works && w.works[k].phase.Returned?
    ensures w.s.active > 0 && Inv(DoWork(w, k, Settle))
  {
    var v := DoWork(w, k, Settle);
    assert WorkOk(w, k) && k in Receipts(w.works);
    assert Receipts(v.works) == Receipts(w.works) - {k};
    StillOk(w, v, k);
  }

  /** One work item has moved, or only given up its receipt. */
  lemma StillOk(w: World, v: World, k: nat)
    requires Inv(w) && k in w.works && k in v.works && v.works == w.works[k := v.works[k]]
    requires v.drains == w.drains && v.admitted == w.admitted && v.s.closing == w.s.closing
    requires RequestOk(v.works[k])
    requires HoldsReceipt(v.works[k]) ==> HoldsReceipt(w.works[k]) && v.works[k].cleanup == w.works[k].cleanup
    ensures forall x {:trigger WorkOk(v, x)} | x in v.works :: WorkOk(v, x)
    ensures forall id {:trigger DrainOk(v, id)} | id in v.drains :: DrainOk(v, id)
  {
    forall x | x in v.works
      ensures WorkOk(v, x)
    {
      assert WorkOk(w, x);
    }
    forall id | id in v.drains
      ensures DrainOk(v, id)
    {
      assert DrainOk(w, id);
      assert k in v.works;
    }
  }

  lemma NotifyInv(w: World, k: nat)
    requires Inv(w) && k in w.works && w.works[k].phase.Notifying?
    ensures Inv(DoWork(w, k, Notify))
  {
    var v := DoWork(w, k, Notify);
    assert Receipts(v.works) == Receipts(w.works);
    forall x | x in v.works
      ensures WorkOk(v, x)
    {
      assert WorkOk(w, x);
    }
    forall id | id in v.drains
      ensures DrainOk(v, id)
    {
      assert DrainOk(w, id);
    }
  }

  lemma WorkStepInv(w: World, k: nat, step: WorkStep)
    requires Inv(w) && k in w.works && WorkEnabled(w.works[k], w.s, step)
    ensures Inv(DoWork(w, k, step))
  {
    assert WorkOk(w, k);
    if step.Notify? {
      NotifyInv(w, k);
    } else if step.Settle? {
      SettleInv(w, k);
    } else {
      var v := DoWork(w, k, step);
      assert Receipts(v.works) == Receipts(w.works);
      StillOk(w, v, k);
    }
  }

  lemma DrainStepInv(w: World, id: nat, step: DrainStep)
    requires Inv(w) && id in w.drains && DrainEnabled(w.drains[id], step)
    ensures Inv(DoDrain(w, id, step))
  {
    var v := DoDrain(w, id, step);
    forall x | x in v.works
      ensures WorkOk(v, x)
    {
      assert WorkOk(w, x);
    }
    NoReceiptsAtZero(w);
    forall x | x in v.drains
      ensures DrainOk(v, x)
    {
      assert DrainOk(w, x);
    }
  }

  lemma NoReceiptsAtZero(w: World)
    requires Inv(w)
    ensures w.s.active == 0 <==> forall k | k in w.works :: !HoldsReceipt(w.works[k])
    ensures w.works == map[] ==> w.s.active == 0
  {
    if w.s.active == 0 {
      assert Receipts(w.works) == {};
      forall k | k in w.works
        ensures !HoldsReceipt(w.works[k])
      {
        assert k !in Receipts(w.works);
      }
    }
    if forall k | k in w.works :: !HoldsReceipt(w.works[k]) {
      assert Receipts(w.works) == {};
    }
  }

  lemma StepInv(w: World, e: Event)
    requires Inv(w) && Enabled(w, e)
    ensures Inv(Apply(w, e))
  {
    match e
    case NewWork(cleanup) => NewWorkInv(w, cleanup);
    case OfWork(k, step) => WorkStepInv(w, k, step);
    case Close => ClosedInv(w, Apply(w, e));
    case NewDrain(id) => ClosedInv(w, Apply(w, e));
    case OfDrain(id, step) => DrainStepInv(w, id, step);
  }

  lemma ClosedInv(w: World, v: World)
    requires Inv(w) && v == w.(s := w.s.(closing := true), drains := v.drains)
    requires forall id | id in v.drains :: (id in w.drains && v.drains[id] == w.drains[id]) || v.drains[id].Entered?
    ensures Inv(v)
  {
    forall x | x in v.works
      ensures WorkOk(v, x)
    {
      assert WorkOk(w, x);
    }
    forall id | id in v.drains
      ensures DrainOk(v, id)
    {
      if id in w.drains {
        assert DrainOk(w, id);
      }
    }
  }

  // ---------------------------------------------------------------- whole runs

  ghost predicate StepAt(ws: seq<World>, es: seq<Event>, i: nat)
    requires |ws| == |es| + 1 && i < |es|
  {
    Enabled(ws[i], es[i]) && ws[i + 1] == Apply(ws[i], es[i])
  }

  ghost predicate Execution(ws: seq<World>, es: seq<Event>) {
    && |ws| == |es| + 1
    && ws[0] == START
    && forall i: nat {:trigger StepAt(ws, es, i)} | i < |es| :: StepAt(ws, es, i)
  }

  lemma {:induction false} Reachable(ws: seq<World>, es: seq<Event>, i: nat)
    requires Execution(ws, es) && i < |ws|
    ensures Inv(ws[i])
  {
    if i > 0 {
      Reachable(ws, es, i - 1);
      assert StepAt(ws, es, i - 1);
      StepInv(ws[i - 1], es[i - 1]);
    }
  }

  /** The counter is the number of receipts that are out, and never above the limit. */
  lemma ActiveIsReceipts(ws: seq<World>, es: seq<Event>, i: nat)
    requires Execution(ws, es) && i < |ws|
    ensures ws[i].s.active == |Receipts(ws[i].works)| <= MAX_NATIVE_WORK
  {
    Reachable(ws, es, i);
  }

  /**
   While a GUI callback owns any part of a request, the closure of that request cannot return,
   even past an early reply, after a scheduling error or when its caller is gone. So the owner
   is active, and no drain that began or ended since the admission is over.
   */
  lemma CapturesHoldTheDrain(ws: seq<World>, es: seq<Event>, i: nat, k: nat, step: WorkStep, id: nat)
    requires Execution(ws, es) && i < |ws| && k in ws[i].works && ws[i].works[k].captures > 0
    ensures ws[i].works[k].phase.Joining? ==> ws[i].works[k].replied
    ensures WorkEnabled(ws[i].works[k], ws[i].s, step) ==>
              Moved(ws[i].works[k], step).phase.Asking? || Moved(ws[i].works[k], step).phase.Joining?
    ensures ws[i].s.active >= 1
    ensures id in ws[i].drains && ws[i].drains[id].Done? ==> ws[i].drains[id].admitted <= k && ws[i].works[k].cleanup
  {
    Reachable(ws, es, i);
    assert WorkOk(ws[i], k);
    NoReceiptsAtZero(ws[i]);
    if id in ws[i].drains {
      assert DrainOk(ws[i], id);
    }
  }

  /** An answer is used only after it came, without a scheduling error, and after every capture has gone. */
  lemma UsedAnswerIsJoined(ws: seq<World>, es: seq<Event>, i: nat, k: nat)
    requires Execution(ws, es) && i < |ws| && k in ws[i].works && ws[i].works[k].used
    ensures ws[i].works[k].replied && !ws[i].works[k].refused && ws[i].works[k].captures == 0
  {
    Reachable(ws, es, i);
    assert WorkOk(ws[i], k);
  }

  /** A drain ends only when the work admitted until then has given up its receipts; nothing but cleanup comes later. */
  lemma DrainIsNotEarly(ws: seq<World>, es: seq<Event>, i: nat, id: nat, k: nat)
    requires Execution(ws, es) && i < |ws| && id in ws[i].drains && ws[i].drains[id].Done?
    requires k in ws[i].works && (k < ws[i].drains[id].admitted || !ws[i].works[k].cleanup)
    ensures !HoldsReceipt(ws[i].works[k]) && ws[i].works[k].captures == 0
    ensures Admit(ws[i].s, false) == Failure(Disconnected)
  {
    Reachable(ws, es, i);
    assert WorkOk(ws[i], k) && DrainOk(ws[i], id);
  }

  /** No lost wake-up: a waiting drain that has not been notified will be, by work that is still there. */
  lemma WaitingDrainIsNotified(ws: seq<World>, es: seq<Event>, i: nat, id: nat)
    requires Execution(ws, es) && i < |ws| && id in ws[i].drains && ws[i].drains[id] == Awaiting(false)
    ensures ws[i].s.active > 0 || exists k :: k in ws[i].works && ws[i].works[k].phase.Notifying?
    ensures forall k | k in ws[i].works && ws[i].works[k].phase.Notifying? ::
              Enabled(ws[i], OfWork(k, Notify)) && Apply(ws[i], OfWork(k, Notify)).drains[id] == Awaiting(true)
  {
    Reachable(ws, es, i);
    var w := ws[i];
    assert DrainOk(w, id);
    if w.s.active == 0 {
      NoReceiptsAtZero(w);
      assert w.works.Keys != {};
      var k :| k in w.works;
      assert w.works[k].phase.Notifying?;
    }
  }

  // ---------------------------------------------------------------- decisions told by the run

  /** Some step before the `n`-th closed the owner. */
  predicate ClosedBefore(es: seq<Event>, n: nat)
    requires n <= |es|
  {
    exists k :: 0 <= k < n && (es[k].Close? || es[k].NewDrain?)
  }

  lemma ClosingStep(w: World, e: Event)
    requires Enabled(w, e)
    ensures Apply(w, e).s.closing == (w.s.closing || e.Close? || e.NewDrain?)
  {
  }

  lemma {:induction false} ClosingIsHistory(ws: seq<World>, es: seq<Event>, n: nat)
    requires Execution(ws, es) && n <= |es|
    ensures ws[n].s.closing <==> ClosedBefore(es, n)
  {
    if n > 0 {
      ClosingIsHistory(ws, es, n - 1);
      assert StepAt(ws, es, n - 1);
      ClosingStep(ws[n - 1], es[n - 1]);
      assert ClosedBefore(es, n) <==> ClosedBefore(es, n - 1) || es[n - 1].Close? || es[n - 1].NewDrain?;
    }
  }

  /**
   Work is admitted exactly when fewer than four receipts are out and, unless it is cleanup, nobody
   has closed the owner before; it starts running under the same condition. Admitted work is queued
   with a receipt of its own.
   */
  lemma AdmissionDecides(ws: seq<World>, es: seq<Event>, i: nat, cleanup: bool)
    requires Execution(ws, es) && i < |ws|
    ensures Admit(ws[i].s, cleanup).Success? <==> (cleanup || !ClosedBefore(es, i)) && |Receipts(ws[i].works)| < 4
    ensures Admit(ws[i].s, cleanup) == Failure(Disconnected) <==> !cleanup && ClosedBefore(es, i)
    ensures i < |es| && es[i] == NewWork(cleanup) ==>
              && ws[i].admitted !in ws[i].works
              && Receipts(ws[i + 1].works) == Receipts(ws[i].works) + {ws[i].admitted}
              && ws[i + 1].works == ws[i].works[ws[i].admitted := Work(cleanup, Queued, 0, false, false, false, false)]
    ensures forall k | k in ws[i].works && ws[i].works[k].phase.Queued? ::
              WorkEnabled(ws[i].works[k], ws[i].s, Start) <==> ws[i].works[k].cleanup || !ClosedBefore(es, i)
  {
    Reachable(ws, es, i);
    ClosingIsHistory(ws, es, i);
    if i < |es| && es[i] == NewWork(cleanup) {
      assert StepAt(ws, es, i);
      assert ws[i].admitted in ws[i].works ==> WorkOk(ws[i], ws[i].admitted);
    }
  }

  /** What a step makes of one request: who answered, who lent and gave back a part, and when it is over. */
  ghost predicate RequestChanged(w: Work, step: WorkStep, v: Work) {
    && v.cleanup == w.cleanup
    && (v.replied <==> w.replied || step.Reply?)
    && (v.abandoned <==> w.abandoned || step.Abandon?)
    && (v.refused <==> if step.Schedule? then step.refused else w.refused)
    && (v.used <==> if step.Join? then w.replied && !w.refused && !w.abandoned && step.scope else w.used)
    && v.captures == (if step.Schedule? then (if step.accepted then 1 else 0)
                      else w.captures + (if step.Capture? then 1 else if step.Forget? then -1 else 0))
    && (v.phase.Running? <==> step.Start? || (w.phase.Running? && !step.Schedule? && !step.Finish?))
    && (v.phase.Asking? <==> step.Schedule? || (w.phase.Asking? && !step.TakeAnswer?))
    && (v.phase.Joining? <==> step.TakeAnswer? || (w.phase.Joining? && !step.Join?))
    && (HoldsReceipt(v) <==> HoldsReceipt(w) && !step.Settle?)
  }

  lemma MovedChanges(w: Work, s: State, step: WorkStep)
    requires WorkEnabled(w, s, step) && !step.Notify?
    ensures RequestChanged(w, step, Moved(w, step))
  {
  }

  /**
   A request changes by its own steps alone, each as it says; its answer becomes the result exactly
   when it came, scheduling went well, the caller is still there and its scope still holds.
   */
  lemma RequestsChange(ws: seq<World>, es: seq<Event>, i: nat, k: nat)
    requires Execution(ws, es) && i < |es| && k in ws[i].works
    ensures es[i].OfWork? && es[i].k == k && es[i].work.Notify? ==> k !in ws[i + 1].works
    ensures es[i].OfWork? && es[i].k == k && !es[i].work.Notify? ==>
              && k in ws[i + 1].works && RequestChanged(ws[i].works[k], es[i].work, ws[i + 1].works[k])
              && ws[i + 1].s.active == ws[i].s.active - if es[i].work.Settle? then 1 else 0
    ensures !es[i].OfWork? || es[i].k != k ==> k in ws[i + 1].works && ws[i + 1].works[k] == ws[i].works[k]
  {
    Reachable(ws, es, i);
    assert StepAt(ws, es, i) && WorkOk(ws[i], k);
    if es[i].OfWork? && es[i].k == k && !es[i].work.Notify? {
      MovedChanges(ws[i].works[k], ws[i].s, es[i].work);
      if es[i].work.Settle? {
        SettleInv(ws[i], k);
      }
    }
  }

  /** A drain that looks is over exactly when no receipt is out, and otherwise waits; a woken one looks again. */
  lemma DrainDecides(ws: seq<World>, es: seq<Event>, i: nat, id: nat, step: DrainStep)
    requires Execution(ws, es) && i < |es| && es[i] == OfDrain(id, step)
    ensures id in ws[i].drains && id in ws[i + 1].drains && ws[i + 1].works == ws[i].works && ws[i + 1].s == ws[i].s
    ensures step.Check? && Receipts(ws[i].works) == {} ==> ws[i + 1].drains[id] == Done(ws[i].admitted)
    ensures step.Check? && Receipts(ws[i].works) != {} ==> ws[i + 1].drains[id].Awaiting?
    ensures step.Register? ==> ws[i + 1].drains[id] == Registered(false) && Enabled(ws[i + 1], OfDrain(id, Check))
    ensures step.Wake? ==> ws[i + 1].drains[id] == Entered && Enabled(ws[i + 1], OfDrain(id, Register))
  {
    Reachable(ws, es, i);
    assert StepAt(ws, es, i);
  }
}
