/** What holds of every run of the drop owner, for any interleaving of its tasks. */
module DropTheorems {
  import opened Wrappers
  import opened DropSpec
  import opened DropProtocol

  ghost predicate StepAt(ws: seq<World>, es: seq<Event>, i: nat)
    requires |ws| == |es| + 1 && i < |es|
  {
    Enabled(ws[i], es[i]) && ws[i + 1] == Apply(ws[i], es[i])
  }

  ghost predicate Execution(ws: seq<World>, es: seq<Event>) {
    && |ws| == |es| + 1
    && Init(ws[0])
    && forall i: nat {:trigger StepAt(ws, es, i)} | i < |es| :: StepAt(ws, es, i)
  }

  lemma {:induction false} Reachable(ws: seq<World>, es: seq<Event>, i: nat)
    requires Execution(ws, es) && i < |ws|
    ensures Inv(ws[i])
  {
    if i == 0 {
      InitInv(ws[0]);
    } else {
      Reachable(ws, es, i - 1);
      assert StepAt(ws, es, i - 1);
      StepInv(ws[i - 1], es[i - 1]);
    }
  }

  /**
   While a context is active, every group in the map was captured under it, at the current
   revision; while none is, every group in the map is cancelled.
   */
  lemma ActiveContextOwnsLiveGroups(ws: seq<World>, es: seq<Event>, i: nat, id: Id)
    requires Execution(ws, es) && i < |ws| && id in ws[i].o.live
    ensures id in ws[i].o.groups
    ensures ws[i].o.active.Some? ==>
              && ws[i].o.candidate == ws[i].o.active && !ws[i].o.stopped
              && ws[i].o.groups[id].context == ws[i].o.active.value
              && ws[i].o.groups[id].revision == ws[i].o.revision
    ensures ws[i].o.active.None? ==> ws[i].o.groups[id].cancelled
  {
    Reachable(ws, es, i);
    assert GroupOk(ws[i], id);
  }

  // ---------------------------------------------------------- what one step may change

  ghost predicate GroupEvolves(g: Group, h: Group) {
    && h.context == g.context && h.revision == g.revision && h.selections == g.selections
    && (g.cancelled ==> h.cancelled)
    && (g.accepted ==> h.accepted)
    && (g.retired ==> h.retired)
    && (!g.raw ==> !h.raw)
  }

  ghost predicate OwnerEvolves(o: Owner, p: Owner) {
    && o.usedContexts <= p.usedContexts
    && (o.stopped ==> p.stopped)
    && o.revision <= p.revision
    && (o.revision == p.revision ==> p.candidate == o.candidate)
    && (forall id {:trigger id in p.groups} {:trigger p.groups[id]} | id in o.groups ::
          id in p.groups && GroupEvolves(o.groups[id], p.groups[id]))
  }

  lemma UpdateEvolves(o: Owner, id: Id, h: Group)
    requires id in o.groups && GroupEvolves(o.groups[id], h)
    ensures OwnerEvolves(o, UpdateGroup(o, id, h))
  {
  }

  lemma FenceEvolves(o: Owner, intent: Option<Context>, registration: Option<Registration>, stop: bool)
    ensures OwnerEvolves(o, BeginContext(o, intent, registration).0)
    ensures OwnerEvolves(o, Invalidate(o, stop).0)
  {
  }

  lemma CaptureEvolves(o: Owner, id: Id, selections: seq<Id>, lease: string, epoch: string)
    requires Bookkeeping(o)
    ensures OwnerEvolves(o, Capture(o, id, selections, lease, epoch).0)
  {
  }

  lemma CallEvolves(w: World, c: Call)
    requires Bookkeeping(w.o) && CallEnabled(w, c)
    ensures OwnerEvolves(w.o, ApplyCall(w, c).o)
  {
    match c
    case Register(t, intent, registration) => FenceEvolves(w.o, intent, registration, false);
    case Drop(id, selections, lease, epoch) => CaptureEvolves(w.o, id, selections, lease, epoch);
    case Fence(stop) => FenceEvolves(w.o, None, None, stop);
    case RetireDocument(t) => FenceEvolves(w.o, None, None, false);
    case Shutdown(t) => FenceEvolves(w.o, None, None, true);
    case Expire(id) => UpdateEvolves(w.o, id, w.o.groups[id].(timerStarted := true, timerActive := true));
    case TimerEnds(id, expired, t) => UpdateEvolves(w.o, id, w.o.groups[id].(timerActive := false));
    case RawFinished(id) => UpdateEvolves(w.o, id, w.o.groups[id].(raw := false));
    case Accepted(id, context) => UpdateEvolves(w.o, id, w.o.groups[id].(accepted := true));
    case CloseCalled(t, id, context) =>
      if id in w.o.live { UpdateEvolves(w.o, id, w.o.groups[id].(cancelled := true)); }
    case _ =>
  }

  lemma MoveEvolves(w: World, t: TaskId, m: Move)
    requires MoveEnabled(w, t, m)
    ensures OwnerEvolves(w.o, ApplyMove(w, t, m).o)
  {
    match m
    case Cancel(id) => UpdateEvolves(w.o, id, w.o.groups[id].(cancelled := true));
    case RawJoined => UpdateEvolves(w.o, At(w, t), w.o.groups[At(w, t)].(timerCancelled := true));
    case RetireReturns(ok) => UpdateEvolves(w.o, At(w, t), w.o.groups[At(w, t)].(retired := true));
    case _ =>
  }

  lemma StepEvolves(ws: seq<World>, es: seq<Event>, i: nat)
    requires Execution(ws, es) && i < |es|
    ensures OwnerEvolves(ws[i].o, ws[i + 1].o)
  {
    Reachable(ws, es, i);
    assert StepAt(ws, es, i);
    match es[i]
    case Outside(call) => CallEvolves(ws[i], call);
    case Inside(t, move) => MoveEvolves(ws[i], t, move);
  }

  lemma {:induction false} RunEvolves(ws: seq<World>, es: seq<Event>, i: nat, j: nat)
    requires Execution(ws, es) && i <= j < |ws|
    ensures OwnerEvolves(ws[i].o, ws[j].o)
    decreases j - i
  {
    if i < j {
      RunEvolves(ws, es, i, j - 1);
      StepEvolves(ws, es, j - 1);
      EvolvesTransitive(ws[i].o, ws[j - 1].o, ws[j].o);
    }
  }

  lemma EvolvesTransitive(o: Owner, p: Owner, q: Owner)
    requires OwnerEvolves(o, p) && OwnerEvolves(p, q)
    ensures OwnerEvolves(o, q)
  {
    forall id | id in o.groups ensures id in q.groups && GroupEvolves(o.groups[id], q.groups[id]) {
      assert id in p.groups && GroupEvolves(o.groups[id], p.groups[id]);
    }
  }

  // ---------------------------------------------------------------- activation

  lemma CallNeverActivates(w: World, c: Call)
    requires CallEnabled(w, c)
    ensures ApplyCall(w, c).o.active in {None, w.o.active}
  {
  }

  /** Only a driver's last step can make a context active, and only over an empty map. */
  lemma MoveActivates(w: World, t: TaskId, m: Move)
    requires Inv(w) && MoveEnabled(w, t, m)
    requires ApplyMove(w, t, m).o.active != w.o.active
    ensures w.o.live == {} && w.o.active.None?
    ensures m.Finish? && w.tasks[t].job == Registering(w.o.revision, ApplyMove(w, t, m).o.active)
  {
    assert TaskOk(w.o, w.tasks[t]);
  }

  /**
   When a context becomes active, every group captured before has been joined, retired
   exactly once and removed, whatever the other tasks were doing.
   */
  lemma ActivationFollowsRetirement(ws: seq<World>, es: seq<Event>, i: nat, id: Id)
    requires Execution(ws, es) && i < |es|
    requires ws[i + 1].o.active.Some? && ws[i + 1].o.active != ws[i].o.active
    ensures ws[i].o.active.None? && ws[i].o.live == {} && ws[i + 1].o.live == {}
    ensures id in ws[i].o.groups ==>
              && ws[i].o.groups[id].retired && !ws[i].o.groups[id].raw && !ws[i].o.groups[id].timerActive
              && Count(ws[i], id) == 1
  {
    Reachable(ws, es, i);
    assert StepAt(ws, es, i);
    match es[i]
    case Outside(call) => CallNeverActivates(ws[i], call);
    case Inside(t, move) => MoveActivates(ws[i], t, move);
    if id in ws[i].o.groups {
      assert GroupOk(ws[i], id);
    }
  }

  // ---------------------------------------------------------------- context nonces

  predicate InUse(o: Owner, nonce: Id) {
    (o.candidate.Some? && o.candidate.value.id == nonce) || (o.active.Some? && o.active.value.id == nonce)
  }

  /** A recorded nonce that is not the candidate is refused. */
  lemma BeginNonce(o: Owner, intent: Option<Context>, registration: Option<Registration>, nonce: Id)
    requires nonce in o.usedContexts && !InUse(o, nonce)
    ensures !InUse(BeginContext(o, intent, registration).0, nonce)
  {
  }

  lemma CallNonce(w: World, c: Call, nonce: Id)
    requires CallEnabled(w, c) && nonce in w.o.usedContexts && !InUse(w.o, nonce)
    ensures !InUse(ApplyCall(w, c).o, nonce)
  {
    if c.Register? {
      BeginNonce(w.o, c.intent, c.registration, nonce);
    } else {
      assert ApplyCall(w, c).o.candidate in {None, w.o.candidate};
      assert ApplyCall(w, c).o.active in {None, w.o.active};
    }
  }

  lemma MoveNonce(w: World, t: TaskId, m: Move, nonce: Id)
    requires MoveEnabled(w, t, m) && !InUse(w.o, nonce)
    ensures !InUse(ApplyMove(w, t, m).o, nonce)
  {
  }

  lemma {:induction false} NonceStaysGone(ws: seq<World>, es: seq<Event>, j: nat, k: nat, nonce: Id)
    requires Execution(ws, es) && j <= k < |ws|
    requires nonce in ws[j].o.usedContexts && !InUse(ws[j].o, nonce)
    ensures nonce in ws[k].o.usedContexts && !InUse(ws[k].o, nonce)
    decreases k - j
  {
    if j < k {
      NonceStaysGone(ws, es, j, k - 1, nonce);
      StepEvolves(ws, es, k - 1);
      assert StepAt(ws, es, k - 1);
      match es[k - 1]
      case Outside(call) => CallNonce(ws[k - 1], call, nonce);
      case Inside(t, move) => MoveNonce(ws[k - 1], t, move, nonce);
    }
  }

  /**
   A nonce that was the candidate or active context and is so no longer never is again,
   even when a driver started for it finishes late.
   */
  lemma ReplacedNonceNeverReturns(ws: seq<World>, es: seq<Event>, i: nat, j: nat, k: nat, nonce: Id)
    requires Execution(ws, es) && i <= j <= k < |ws|
    requires InUse(ws[i].o, nonce) && !InUse(ws[j].o, nonce)
    ensures !InUse(ws[k].o, nonce)
  {
    Reachable(ws, es, i);
    RunEvolves(ws, es, i, j);
    NonceStaysGone(ws, es, j, k, nonce);
  }

  /** The revisions at which a nonce is in use form one contiguous block. */
  lemma NonceRevisionsContiguous(ws: seq<World>, es: seq<Event>, i: nat, j: nat, k: nat, nonce: Id)
    requires Execution(ws, es) && i < |ws| && j < |ws| && k < |ws|
    requires InUse(ws[i].o, nonce) && InUse(ws[k].o, nonce)
    requires ws[i].o.revision <= ws[j].o.revision <= ws[k].o.revision
    ensures InUse(ws[j].o, nonce)
  {
    SameRevision(ws, es, i, j);
    SameRevision(ws, es, j, k);
    Reachable(ws, es, i);
    Reachable(ws, es, j);
    Reachable(ws, es, k);
    if i <= j <= k && !InUse(ws[j].o, nonce) {
      ReplacedNonceNeverReturns(ws, es, i, j, k, nonce);
    }
  }

  /** A later state has a later revision or the same candidate. */
  lemma SameRevision(ws: seq<World>, es: seq<Event>, i: nat, j: nat)
    requires Execution(ws, es) && i < |ws| && j < |ws|
    requires ws[i].o.revision <= ws[j].o.revision
    ensures i <= j || ws[i].o.candidate == ws[j].o.candidate
  {
    if j < i {
      RunEvolves(ws, es, j, i);
    }
  }

  // ---------------------------------------------------------------- numbered registrations

  /** The stored registration names this document. */
  predicate StoredFor(o: Owner, epoch: string, lease: string) {
    o.registration.Some? && o.registration.value.epoch == epoch && o.registration.value.lease == lease
  }

  lemma CallRegistration(w: World, c: Call, epoch: string, lease: string)
    requires CallEnabled(w, c) && StoredFor(w.o, epoch, lease)
    ensures StoredFor(ApplyCall(w, c).o, epoch, lease) ==>
              w.o.registration.value.number <= ApplyCall(w, c).o.registration.value.number
  {
  }

  lemma MoveRegistration(w: World, t: TaskId, m: Move)
    requires MoveEnabled(w, t, m)
    ensures ApplyMove(w, t, m).o.registration == w.o.registration
  {
  }

  lemma {:induction false} StoredNumberGrows(
      ws: seq<World>, es: seq<Event>, i: nat, j: nat, epoch: string, lease: string)
    requires Execution(ws, es) && i <= j < |ws|
    requires forall k | i <= k <= j :: StoredFor(ws[k].o, epoch, lease)
    ensures StoredFor(ws[i].o, epoch, lease) && StoredFor(ws[j].o, epoch, lease)
    ensures ws[i].o.registration.value.number <= ws[j].o.registration.value.number
    decreases j - i
  {
    if i < j {
      StoredNumberGrows(ws, es, i, j - 1, epoch, lease);
      assert StoredFor(ws[j].o, epoch, lease) && StoredFor(ws[j - 1].o, epoch, lease);
      assert StepAt(ws, es, j - 1);
      match es[j - 1]
      case Outside(call) => CallRegistration(ws[j - 1], call, epoch, lease);
      case Inside(t, move) => MoveRegistration(ws[j - 1], t, move);
    }
  }

  /** Step `i` is a numbered registration that `begin_context` accepts. */
  ghost predicate RegistersAt(ws: seq<World>, es: seq<Event>, i: nat, r: Registration)
    requires |ws| == |es| + 1 && i < |es|
  {
    && es[i].Outside? && es[i].call.Register? && es[i].call.registration == Some(r)
    && BeginContext(ws[i].o, es[i].call.intent, Some(r)).1.Success?
  }

  /**
   While the stored epoch and lease stay the same, accepted numbered registrations have
   strictly increasing numbers.
   */
  lemma RegistrationsIncrease(ws: seq<World>, es: seq<Event>, i: nat, j: nat, r: Registration, s: Registration)
    requires Execution(ws, es) && i < j < |es|
    requires RegistersAt(ws, es, i, r) && RegistersAt(ws, es, j, s)
    requires r.epoch == s.epoch && r.lease == s.lease
    requires forall k | i < k <= j :: StoredFor(ws[k].o, r.epoch, r.lease)
    ensures r.number < s.number
  {
    assert StepAt(ws, es, i);
    assert ws[i + 1].o.registration == Some(r);
    StoredNumberGrows(ws, es, i + 1, j, r.epoch, r.lease);
  }

  /** Only the last document is remembered: a number comes back after another document registered. */
  lemma NumberReusedAfterAnotherDocument(o: Owner, r: Registration, other: Registration)
    requires o.configured && !o.stopped && o.revision + 3 <= MAX_REVISION
    requires o.registration.None? && (other.epoch != r.epoch || other.lease != r.lease)
    ensures var (o1, r1) := BeginContext(o, None, Some(r));
            var (o2, r2) := BeginContext(o1, None, Some(other));
            var (o3, r3) := BeginContext(o2, None, Some(r));
            r1.Success? && r2.Success? && r3.Success?
    ensures var (o1, _) := BeginContext(o, None, Some(r)); BeginContext(o1, None, Some(r)).1 == Failure(Refused)
  {
  }

  // ---------------------------------------------------------------- retirement

  /**
   The retire callback is in flight only for a cancelled group whose raw capture has
   finished, whose timer is not running and that was never retired before.
   */
  lemma RetireStartsQuiet(ws: seq<World>, es: seq<Event>, i: nat, id: Id)
    requires Execution(ws, es) && i < |ws| && id in ws[i].holds && ws[i].holds[id].stage == Retiring
    ensures id in ws[i].o.groups
    ensures var g := ws[i].o.groups[id]; g.cancelled && !g.raw && !g.timerActive && !g.retired
    ensures id in ws[i].o.live && Count(ws[i], id) == 0
  {
    Reachable(ws, es, i);
    assert GroupOk(ws[i], id);
  }

  /** Step `i` is the success of the retire callback of `id`. */
  ghost predicate RetiresAt(ws: seq<World>, es: seq<Event>, i: nat, id: Id)
    requires |ws| == |es| + 1 && i < |es|
  {
    && es[i].Inside? && es[i].move == RetireReturns(true)
    && InClose(ws[i], es[i].t) && At(ws[i], es[i].t) == id
  }

  ghost function RetireSteps(ws: seq<World>, es: seq<Event>, n: nat, id: Id): nat
    requires |ws| == |es| + 1 && n <= |es|
  {
    if n == 0 then 0
    else RetireSteps(ws, es, n - 1, id) + (if RetiresAt(ws, es, n - 1, id) then 1 else 0)
  }

  lemma CallCount(w: World, c: Call, id: Id)
    requires CallEnabled(w, c)
    ensures Count(ApplyCall(w, c), id) == Count(w, id)
  {
  }

  lemma MoveCount(w: World, t: TaskId, m: Move, id: Id)
    requires MoveEnabled(w, t, m)
    ensures Count(ApplyMove(w, t, m), id) ==
            Count(w, id) + (if m == RetireReturns(true) && At(w, t) == id then 1 else 0)
  {
  }

  lemma {:induction false} CountIsRetireSteps(ws: seq<World>, es: seq<Event>, n: nat, id: Id)
    requires Execution(ws, es) && n <= |es|
    ensures Count(ws[n], id) == RetireSteps(ws, es, n, id)
  {
    if n > 0 {
      CountIsRetireSteps(ws, es, n - 1, id);
      assert StepAt(ws, es, n - 1);
      match es[n - 1]
      case Outside(call) => CallCount(ws[n - 1], call, id);
      case Inside(t, move) => MoveCount(ws[n - 1], t, move, id);
    }
  }

  /**
   A captured group is either in the map or was retired; its retire callback succeeds at
   most once in any run, and exactly once before it leaves the map.
   */
  lemma RetiredExactlyOnce(ws: seq<World>, es: seq<Event>, n: nat, id: Id)
    requires Execution(ws, es) && n <= |es| && id in ws[n].o.groups
    ensures RetireSteps(ws, es, n, id) <= 1
    ensures RetireSteps(ws, es, n, id) == 1 <==> ws[n].o.groups[id].retired
    ensures id !in ws[n].o.live ==> RetireSteps(ws, es, n, id) == 1
  {
    Reachable(ws, es, n);
    CountIsRetireSteps(ws, es, n, id);
    assert GroupOk(ws[n], id);
  }

  /**
   A failed retirement leaves the cancelled group in the map, unlocked, for another attempt. Only the
   task that retires a document goes on with its other groups.
   */
  lemma FailedRetirementKeepsGroup(ws: seq<World>, es: seq<Event>, i: nat, t: TaskId)
    requires Execution(ws, es) && i < |es| && es[i] == Inside(t, RetireReturns(false))
    ensures InClose(ws[i], t) && var id := At(ws[i], t);
            && id in ws[i + 1].o.live && id in ws[i + 1].o.groups && id !in ws[i + 1].holds
            && ws[i + 1].o.groups[id].cancelled && !ws[i + 1].o.groups[id].retired
    ensures t in ws[i + 1].tasks && var job, todo := ws[i].tasks[t].job, ws[i].tasks[t].todo;
            ws[i + 1].tasks[t] ==
            if job == RetiringDocument then Running(job, todo - {At(ws[i], t)}, None) else Finished(job, false)
  {
    Reachable(ws, es, i);
    assert StepAt(ws, es, i);
    assert GroupOk(ws[i], At(ws[i], t));
  }

  /**
   What `check_selection` lets through: a selection that was dropped is either owned by an
   accepted live group of the active context, or every group it was dropped in was retired.
   */
  lemma SelectionCheckIsSound(ws: seq<World>, es: seq<Event>, n: nat, s: Id, lease: string, found: Option<Id>,
                              offerExpired: bool, guard: bool, id: Id)
    requires Execution(ws, es) && n <= |es|
    requires if found.Some? then found.value in Owning(ws[n].o, s) else Owning(ws[n].o, s) == {}
    requires CheckSelection(ws[n].o, s, lease, found, offerExpired, guard)
    ensures found.Some? ==>
              && ws[n].o.groups[found.value].accepted && !ws[n].o.groups[found.value].cancelled
              && ws[n].o.active == Some(ws[n].o.groups[found.value].context)
              && ws[n].o.active.value.lease == lease
    ensures found.None? && id in ws[n].o.groups && s in ws[n].o.groups[id].selections ==>
              ws[n].o.groups[id].retired && RetireSteps(ws, es, n, id) == 1
  {
    if found.None? && id in ws[n].o.groups && s in ws[n].o.groups[id].selections {
      assert id !in Owning(ws[n].o, s);
      RetiredExactlyOnce(ws, es, n, id);
    }
  }

  // ---------------------------------------------------------------- shutdown and capture

  lemma CallKeepsTasks(w: World, c: Call, t: TaskId)
    requires CallEnabled(w, c) && t in w.tasks
    ensures t in ApplyCall(w, c).tasks && ApplyCall(w, c).tasks[t] == w.tasks[t]
  {
  }

  lemma MoveKeepsFinished(w: World, u: TaskId, m: Move, t: TaskId)
    requires MoveEnabled(w, u, m) && t in w.tasks && w.tasks[t].Finished?
    ensures t in ApplyMove(w, u, m).tasks && ApplyMove(w, u, m).tasks[t] == w.tasks[t]
  {
  }

  lemma {:induction false} FinishedStays(ws: seq<World>, es: seq<Event>, i: nat, j: nat, t: TaskId)
    requires Execution(ws, es) && i <= j < |ws| && t in ws[i].tasks && ws[i].tasks[t].Finished?
    ensures t in ws[j].tasks && ws[j].tasks[t] == ws[i].tasks[t]
    decreases j - i
  {
    if i < j {
      FinishedStays(ws, es, i, j - 1, t);
      assert StepAt(ws, es, j - 1);
      match es[j - 1]
      case Outside(call) => CallKeepsTasks(ws[j - 1], call, t);
      case Inside(u, move) => MoveKeepsFinished(ws[j - 1], u, move, t);
    }
  }

  /** After a successful shutdown the map is empty for ever: no context is active and nothing is captured. */
  lemma ShutdownIsFinal(ws: seq<World>, es: seq<Event>, i: nat, j: nat, t: TaskId, id: Id)
    requires Execution(ws, es) && i <= j < |ws| && t in ws[i].tasks && ws[i].tasks[t] == Finished(ShuttingDown, true)
    ensures ws[j].o.live == {} && ws[j].o.stopped && ws[j].o.active.None?
    ensures id in ws[j].o.groups ==> RetireSteps(ws, es, j, id) == 1
  {
    FinishedStays(ws, es, i, j, t);
    Reachable(ws, es, j);
    assert TaskOk(ws[j].o, ws[j].tasks[t]);
    if id in ws[j].o.groups {
      RetiredExactlyOnce(ws, es, j, id);
    }
  }

  /** Step `i` captures drop `id`. */
  ghost predicate CapturesAt(ws: seq<World>, es: seq<Event>, i: nat, id: Id)
    requires |ws| == |es| + 1 && i < |es|
  {
    && es[i].Outside? && es[i].call.Drop? && es[i].call.id == id
    && Capture(ws[i].o, id, es[i].call.selections, es[i].call.lease, es[i].call.epoch).1.Success?
  }

  /** No drop id is captured twice, and what the owner remembers of a drop never changes. */
  lemma CapturedOnce(ws: seq<World>, es: seq<Event>, i: nat, j: nat, id: Id)
    requires Execution(ws, es) && i < j < |es| && CapturesAt(ws, es, i, id)
    ensures !CapturesAt(ws, es, j, id)
    ensures id in ws[j].o.usedDrops && Some(ws[j].o.usedDrops[id]) == ws[i].o.active
  {
    assert StepAt(ws, es, i);
    assert id in ws[i + 1].o.groups && Some(ws[i + 1].o.groups[id].context) == ws[i].o.active;
    RunEvolves(ws, es, i + 1, j);
    assert id in ws[j].o.groups && GroupEvolves(ws[i + 1].o.groups[id], ws[j].o.groups[id]);
    Reachable(ws, es, j);
    assert GroupOk(ws[j], id);
  }

  /** The bounds and the drop book hold in every state. */
  lemma DropBook(ws: seq<World>, es: seq<Event>, i: nat, id: Id)
    requires Execution(ws, es) && i < |ws|
    ensures |ws[i].o.live| <= 16 && |ws[i].o.usedDrops| <= 4096 && |ws[i].o.usedContexts| <= 4096
    ensures id in ws[i].o.live ==>
              && id in ws[i].o.usedDrops && id in ws[i].o.groups
              && ws[i].o.usedDrops[id] == ws[i].o.groups[id].context
  {
    Reachable(ws, es, i);
    if id in ws[i].o.live {
      assert GroupOk(ws[i], id);
    }
  }
}
