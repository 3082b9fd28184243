/**
 Viewer entries under any interleaving of open drivers, native window events, document
 requests, fences, retirements and `close`.
 */
module ViewerProtocol {
  import opened Wrappers
  import opened ViewerOwner

  /** The driver of `open`: Building may create the window, Built has it but has not stored it yet. */
  datatype Opener = NotOpened | Building | Built | Stored | Over

  /** The holder of the retirement lock; Looked remembers what the round has read. */
  datatype Retirement = Idle | Looked(destroyed: bool, raw: nat) | Removing

  /**
   `native` is whether the child window was created, `guard` whether the report of its
   destruction still runs; `serves` counts documents handed out and `reported` is the reason
   given to the engine.
   */
  datatype Viewer = Viewer(
    e: Entry, opener: Opener, native: bool, guard: bool, retirement: Retirement, serves: nat, reported: Option<Reason>)

  const NEW_VIEWER := Viewer(NEW_ENTRY, NotOpened, false, false, Idle, 0, None)

  /**
   Entries stay known after they have left the table, as tasks may hold them; `remaining` is
   what `close` still retires. A stop closes the table; the fences that follow it one by one are
   steps of the entries, since other tasks may reach an entry between them.
   */
  datatype World = World(t: Table, viewers: map<Id, Viewer>, remaining: Option<set<Id>>)

  const START := World(Table(false, false, {}, {}), map[], None)

  datatype Step =
    | FenceOff(reason: Reason)
    | Open | Build | Store | EndOpen
    | Serve(request: bool, scope: bool) | Loaded
    | Destroyed | EndReport
    | Look | Decide | Remove

  datatype Event =
    | Bind
    | Register(id: Id)
    | Bury(id: Id)
    | Of(id: Id, step: Step)
    | Stop
    | BeginClose
    | CloseNext(id: Id)

  // ---------------------------------------------------------------- steps

  predicate StepEnabled(w: World, v: Viewer, step: Step) {
    match step
    case FenceOff(_) => true
    case Open => !w.t.closing && !v.e.attempted && !v.e.closing
    case Build => v.opener.Building?
    case Store => v.opener.Built?
    case EndOpen => v.opener.Building? || v.opener.Stored?
    case Serve(request, scope) => MayServe(v.e, request, scope)
    case Loaded => true
    case Destroyed => v.native && v.e.closing && !v.e.destroyed
    case EndReport => v.guard
    case Look => v.e.closing && v.retirement.Idle?
    case Decide => v.retirement.Looked?
    case Remove => v.retirement.Removing?
  }

  function Moved(v: Viewer, step: Step): Viewer {
    match step
    case FenceOff(reason) => v.(e := Fence(v.e, reason))
    case Open => v.(e := Attempt(v.e), opener := Building)
    case Build => v.(native := true, opener := Built)
    case Store => v.(e := WithWindow(v.e), opener := Stored)
    case EndOpen => v.(e := DropRaw(v.e), opener := Over)
    case Serve(_, _) => v.(e := v.e.(served := true), serves := v.serves + 1)
    case Loaded => v.(e := Load(v.e))
    case Destroyed => v.(e := Destroy(v.e), guard := true, reported := Some(v.e.reason))
    case EndReport => v.(e := DropRaw(v.e), guard := false)
    case Look => v.(retirement := Looked(v.e.destroyed, v.e.raw))
    case Decide =>
      if v.retirement.Looked? && v.retirement.raw == 0 && (v.retirement.destroyed || !v.e.window)
      then v.(e := Retire(v.e), retirement := Removing)
      else v.(retirement := Idle)
    case Remove => v.(retirement := Idle)
  }

  function DoStep(w: World, id: Id, step: Step): World
    requires id in w.viewers
  {
    w.(viewers := w.viewers[id := Moved(w.viewers[id], step)],
       t := if step.Remove? then w.t.(entries := w.t.entries - {id}) else w.t)
  }

  predicate Enabled(w: World, e: Event) {
    match e
    case Bind => true
    case Register(id) => Registration(w.t, id).Success?
    case Bury(id) => Tombstone(w.t, id).Success?
    case Of(id, step) => id in w.viewers && StepEnabled(w, w.viewers[id], step)
    case Stop => true
    case BeginClose => w.t.closing
    case CloseNext(id) => w.remaining.Some? && id in w.remaining.value && id !in w.t.entries
  }

  function Apply(w: World, e: Event): World
    requires Enabled(w, e)
  {
    match e
    case Bind => w.(t := w.t.(bound := true))
    case Register(id) => w.(t := Registration(w.t, id).value, viewers := w.viewers[id := NEW_VIEWER])
    case Bury(id) => w.(t := Tombstone(w.t, id).value)
    case Of(id, step) => DoStep(w, id, step)
    case Stop => w.(t := w.t.(closing := true))
    case BeginClose => w.(remaining := Some(w.t.entries))
    case CloseNext(id) => w.(remaining := Some(w.remaining.value - {id}))
  }

  // ---------------------------------------------------------------- invariants

  predicate Opening(v: Viewer) {
    v.opener.Building? || v.opener.Built? || v.opener.Stored?
  }

  /** Nothing of the viewer is left, and nothing can come back. */
  ghost predicate Gone(v: Viewer) {
    v.e.closing && !Opening(v) && !v.guard && (v.native ==> v.e.destroyed)
  }

  ghost predicate ViewerOk(v: Viewer) {
    && v.e.raw == (if Opening(v) then 1 else 0) + (if v.guard then 1 else 0)
    && (v.opener.NotOpened? <==> !v.e.attempted)
    && (v.native ==> v.opener.Built? || v.opener.Stored? || v.opener.Over?)
    && (v.opener.Built? || v.opener.Stored? ==> v.native)
    && (v.native && !v.opener.Built? ==> v.e.window || v.e.retired)
    && (v.e.window ==> v.native && !v.e.retired)
    && (v.guard ==> v.e.destroyed) && (v.e.destroyed ==> v.native && v.e.closing)
    && v.serves == (if v.e.served then 1 else 0)
    && (v.e.served ==> v.e.attempted) && (v.e.loaded ==> v.e.served)
    && (v.e.html <==> !v.e.retired)
    && (v.reported.Some? <==> v.e.destroyed) && (v.reported.Some? ==> v.reported.value == v.e.reason)
    && (v.e.retired ==> Gone(v))
    && (v.retirement.Removing? ==> v.e.retired)
    && (v.retirement.Looked? ==> v.e.closing && (v.retirement.raw == 0 ==>
          && !Opening(v)
          && (v.retirement.destroyed ==> v.e.destroyed && !v.guard)))
  }

  ghost predicate Tables(w: World) {
    && w.t.entries <= w.viewers.Keys && w.viewers.Keys <= w.t.ids
    && |w.t.entries| <= ACTIVE && |w.t.ids| <= EPOCH_IDS
    && (w.remaining.Some? ==> w.t.closing && w.t.entries <= w.remaining.value)
  }

  ghost predicate Known(w: World, id: Id)
    requires id in w.viewers
  {
    ViewerOk(w.viewers[id]) && (id !in w.t.entries ==> w.viewers[id].e.retired)
  }

  ghost predicate Inv(w: World) {
    Tables(w) && forall id {:trigger Known(w, id)} | id in w.viewers :: Known(w, id)
  }

  lemma MovedOk(w: World, v: Viewer, step: Step)
    requires ViewerOk(v) && StepEnabled(w, v, step)
    ensures ViewerOk(Moved(v, step)) && (v.e.retired ==> Moved(v, step).e.retired)
    ensures step.Remove? ==> v.e.retired
  {
  }

  lemma SetGrows(s: set<Id>, id: Id)
    ensures |s + {id}| <= |s| + 1
  {
  }

  lemma SetShrinks(s: set<Id>, id: Id)
    ensures |s - {id}| <= |s|
  {
    if id in s {
      assert s == (s - {id}) + {id};
    } else {
      assert s - {id} == s;
    }
  }

  lemma OfInv(w: World, id: Id, step: Step)
    requires Inv(w) && id in w.viewers && StepEnabled(w, w.viewers[id], step)
    ensures Inv(DoStep(w, id, step))
  {
    var v := DoStep(w, id, step);
    assert Known(w, id);
    MovedOk(w, w.viewers[id], step);
    SetShrinks(w.t.entries, id);
    forall x | x in v.viewers
      ensures Known(v, x)
    {
      assert Known(w, x);
    }
  }

  lemma RegisterInv(w: World, id: Id)
    requires Inv(w) && Registration(w.t, id).Success?
    ensures Inv(Apply(w, Register(id)))
  {
    var v := Apply(w, Register(id));
    SetGrows(w.t.entries, id);
    SetGrows(w.t.ids, id);
    forall x | x in v.viewers
      ensures Known(v, x)
    {
      if x in w.viewers {
        assert Known(w, x);
      }
    }
  }

  lemma StepInv(w: World, e: Event)
    requires Inv(w) && Enabled(w, e)
    ensures Inv(Apply(w, e))
  {
    match e
    case Register(id) => RegisterInv(w, id);
    case Of(id, step) => OfInv(w, id, step);
    case Bury(id) =>
      SetGrows(w.t.ids, id);
      ViewersStay(w, Apply(w, e));
    case _ => ViewersStay(w, Apply(w, e));
  }

  lemma ViewersStay(w: World, v: World)
    requires Inv(w) && v.viewers == w.viewers && v.t.entries == w.t.entries
    ensures forall id {:trigger Known(v, id)} | id in v.viewers :: Known(v, id)
  {
    forall id | id in v.viewers
      ensures Known(v, id)
    {
      assert Known(w, id);
    }
  }

  // ---------------------------------------------------------------- whole runs

  ghost predicate StepAt(ws: seq<World>, es: seq<Event>, i: nat)
    requires |ws| == |es| + 1 && i < |es|
  {
    Enabled(ws[i], es[i]) && ws[i + 1] == Apply(ws[i], es[i])
  }

  ghost predicate Execution(ws: seq<World>, es: seq<Event>) {
    && |ws| == |es| + 1
    && ws[0] == START
    && forall i: nat {:trigger StepAt(ws, es, i)} | i < |es| :: StepAt(ws, es, i)
  }

  lemma {:induction false} Reachable(ws: seq<World>, es: seq<Event>, i: nat)
    requires Execution(ws, es) && i < |ws|
    ensures Inv(ws[i])
  {
    if i > 0 {
      Reachable(ws, es, i - 1);
      assert StepAt(ws, es, i - 1);
      StepInv(ws[i - 1], es[i - 1]);
    }
  }

  /** Flags and counters only go one way, and the first fence fixes the reason. */
  ghost predicate ViewerEvolves(u: Viewer, v: Viewer) {
    && (u.e.closing ==> v.e.closing && v.e.reason == u.e.reason)
    && (u.e.retired ==> v.e.retired) && (u.e.served ==> v.e.served) && u.serves <= v.serves
    && (u.e.retired ==> v.e.raw == 0 && v.serves == u.serves)
    && (u.reported.Some? ==> v.reported == u.reported)
  }

  ghost predicate Evolves(w: World, v: World) {
    && (w.t.closing ==> v.t.closing && v.t.entries <= w.t.entries)
    && w.t.ids <= v.t.ids
    && (forall id {:trigger Stays(w, v, id)} | id in w.viewers :: Stays(w, v, id))
    && (forall id {:trigger id in v.viewers} | id in w.t.ids && id !in w.viewers :: id !in v.viewers)
  }

  ghost predicate Stays(w: World, v: World, id: Id)
    requires id in w.viewers
  {
    id in v.viewers && ViewerEvolves(w.viewers[id], v.viewers[id]) && (id !in w.t.entries ==> id !in v.t.entries)
  }

  lemma MovedEvolves(w: World, v: Viewer, step: Step)
    requires ViewerOk(v) && StepEnabled(w, v, step)
    ensures ViewerEvolves(v, Moved(v, step))
  {
    MovedOk(w, v, step);
  }

  lemma StepEvolves(w: World, e: Event)
    requires Inv(w) && Enabled(w, e)
    ensures Evolves(w, Apply(w, e))
  {
    var v := Apply(w, e);
    forall id | id in w.viewers
      ensures Stays(w, v, id)
    {
      assert Known(w, id);
      if e.Of? && e.id == id {
        MovedEvolves(w, w.viewers[id], e.step);
      }
    }
  }

  lemma EvolvesTransitive(u: World, v: World, w: World)
    requires Evolves(u, v) && Evolves(v, w)
    ensures Evolves(u, w)
  {
    forall id | id in u.viewers
      ensures Stays(u, w, id)
    {
      assert Stays(u, v, id) && Stays(v, w, id);
    }
  }

  lemma StepAtEvolves(ws: seq<World>, es: seq<Event>, i: nat)
    requires Execution(ws, es) && i < |es|
    ensures Evolves(ws[i], ws[i + 1])
  {
    Reachable(ws, es, i);
    assert StepAt(ws, es, i);
    StepEvolves(ws[i], es[i]);
  }

  lemma {:induction false} RunEvolves(ws: seq<World>, es: seq<Event>, i: nat, j: nat)
    requires Execution(ws, es) && i <= j < |ws|
    ensures Evolves(ws[i], ws[j])
  {
    if i == j {
      Reachable(ws, es, i);
      forall id | id in ws[i].viewers
        ensures Stays(ws[i], ws[i], id)
      {
        assert Known(ws[i], id);
      }
    } else {
      RunEvolves(ws, es, i, j - 1);
      StepAtEvolves(ws, es, j - 1);
      EvolvesTransitive(ws[i], ws[j - 1], ws[j]);
    }
  }

  /** An id is registered at most once, and never after a retirement that came first. */
  lemma RegisteredOnce(ws: seq<World>, es: seq<Event>, i: nat, j: nat, id: Id)
    requires Execution(ws, es) && i < j < |es| && (es[i] == Register(id) || es[i] == Bury(id))
    ensures es[j] != Register(id)
  {
    assert StepAt(ws, es, i) && StepAt(ws, es, j);
    Reachable(ws, es, i);
    assert id in ws[i + 1].t.ids;
    RunEvolves(ws, es, i + 1, j);
  }

  /** A retirement that came first keeps the id from ever having a viewer. */
  lemma TombstoneIsFinal(ws: seq<World>, es: seq<Event>, i: nat, j: nat, id: Id)
    requires Execution(ws, es) && i < j < |ws| && i < |es| && es[i] == Bury(id) && id !in ws[i].viewers
    ensures id !in ws[j].viewers && id !in ws[j].t.entries
  {
    Reachable(ws, es, i);
    assert StepAt(ws, es, i);
    RunEvolves(ws, es, i + 1, j);
    Reachable(ws, es, j);
  }

  /** The document goes out at most once, only after an open attempt, and never after retirement. */
  lemma ServedAtMostOnce(ws: seq<World>, es: seq<Event>, i: nat, id: Id)
    requires Execution(ws, es) && i < |ws| && id in ws[i].viewers
    ensures ws[i].viewers[id].serves <= 1
    ensures ws[i].viewers[id].serves == 1 ==> ws[i].viewers[id].e.attempted
    ensures ws[i].viewers[id].e.loaded ==> ws[i].viewers[id].serves == 1
    ensures ws[i].viewers[id].e.retired || ws[i].viewers[id].serves == 1 ==>
              forall request, scope :: !MayServe(ws[i].viewers[id].e, request, scope)
  {
    Reachable(ws, es, i);
    assert Known(ws[i], id);
  }

  /** The reason of the first fence is the reason from then on, and the one that is reported, once. */
  lemma FirstFenceFixesTheReason(ws: seq<World>, es: seq<Event>, i: nat, j: nat, id: Id)
    requires Execution(ws, es) && i <= j < |ws| && id in ws[i].viewers && ws[i].viewers[id].e.closing
    ensures id in ws[j].viewers && ws[j].viewers[id].e.reason == ws[i].viewers[id].e.reason
    ensures ws[j].viewers[id].reported.Some? ==> ws[j].viewers[id].reported.value == ws[i].viewers[id].e.reason
    ensures ws[i].viewers[id].reported.Some? ==> ws[j].viewers[id].reported == ws[i].viewers[id].reported
  {
    RunEvolves(ws, es, i, j);
    assert Stays(ws[i], ws[j], id);
    Reachable(ws, es, j);
    assert Known(ws[j], id);
  }

  /** The raw count is the number of tasks that hold the entry. */
  lemma RawIsOutstandingGuards(ws: seq<World>, es: seq<Event>, i: nat, id: Id)
    requires Execution(ws, es) && i < |ws| && id in ws[i].viewers
    ensures var v := ws[i].viewers[id]; v.e.raw == (if Opening(v) then 1 else 0) + (if v.guard then 1 else 0)
  {
    Reachable(ws, es, i);
    assert Known(ws[i], id);
  }

  /**
   An entry leaves the table only with no task holding it and no live window; from then on the
   count stays zero, no window can come, and the entry does not return.
   */
  lemma RemovedMeansGone(ws: seq<World>, es: seq<Event>, i: nat, j: nat, id: Id)
    requires Execution(ws, es) && i <= j < |ws| && id in ws[i].viewers && id !in ws[i].t.entries
    ensures id in ws[j].viewers && id !in ws[j].t.entries && Gone(ws[j].viewers[id]) && ws[j].viewers[id].e.raw == 0
    ensures ws[j].viewers[id].serves == ws[i].viewers[id].serves
  {
    Reachable(ws, es, i);
    assert Known(ws[i], id);
    RunEvolves(ws, es, i, j);
    assert Stays(ws[i], ws[j], id);
    Reachable(ws, es, j);
    assert Known(ws[j], id);
  }

  /** Once `close` has retired all it found, the table is empty and stays so. */
  lemma ClosedIsEmpty(ws: seq<World>, es: seq<Event>, i: nat, j: nat)
    requires Execution(ws, es) && i <= j < |ws| && ws[i].remaining == Some({})
    ensures ws[j].t.entries == {}
    ensures forall id | id in ws[j].viewers :: Gone(ws[j].viewers[id]) && ws[j].viewers[id].e.raw == 0
  {
    Reachable(ws, es, i);
    RunEvolves(ws, es, i, j);
    Reachable(ws, es, j);
    forall id | id in ws[j].viewers
      ensures Gone(ws[j].viewers[id]) && ws[j].viewers[id].e.raw == 0
    {
      assert Known(ws[j], id);
    }
  }
}
