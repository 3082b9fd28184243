/**
 How the viewer owner decides in any run: which ids get a viewer, which request gets the document,
 when an entry may retire, and which steps change what of an entry.
 */
module ViewerDecisions {
  import opened Wrappers
  import opened ViewerOwner
  import opened ViewerProtocol

  // ---------------------------------------------------------------- the table

  /** The id has been registered or retired before the `n`-th step. */
  predicate UsedBefore(es: seq<Event>, n: nat, id: Id)
    requires n <= |es|
  {
    Register(id) in es[..n] || Bury(id) in es[..n]
  }

  lemma TableStep(w: World, e: Event, id: Id)
    requires Enabled(w, e) && w.t.entries <= w.t.ids
    ensures var v := Apply(w, e);
            && v.t.bound == (w.t.bound || e.Bind?) && v.t.closing == (w.t.closing || e.Stop?)
            && (id in v.t.ids <==> id in w.t.ids || e == Register(id) || e == Bury(id))
            && (id in v.t.entries <==> (id in w.t.entries && e != Of(id, Remove)) || e == Register(id))
            && (id in v.viewers <==> id in w.viewers || e == Register(id))
  {
  }

  /** The table's flags and its used ids are what the steps so far have made them. */
  lemma {:induction false} TableIsHistory(ws: seq<World>, es: seq<Event>, n: nat, id: Id)
    requires Execution(ws, es) && n <= |es|
    ensures ws[n].t.bound <==> Bind in es[..n]
    ensures ws[n].t.closing <==> Stop in es[..n]
    ensures id in ws[n].t.ids <==> UsedBefore(es, n, id)
    ensures id in ws[n].viewers <==> Register(id) in es[..n]
  {
    if n > 0 {
      TableIsHistory(ws, es, n - 1, id);
      Reachable(ws, es, n - 1);
      assert StepAt(ws, es, n - 1);
      assert es[..n] == es[..n - 1] + [es[n - 1]];
      TableStep(ws[n - 1], es[n - 1], id);
    }
  }

  /**
   An id gets a viewer exactly when the owner is bound and not stopped, the id was neither registered
   nor retired before, and fewer than 16 viewers and 4096 ids are there. Each refusal has its error.
   */
  lemma RegistrationDecides(ws: seq<World>, es: seq<Event>, i: nat, id: Id)
    requires Execution(ws, es) && i < |ws|
    ensures var r := Registration(ws[i].t, id);
            var open := Bind in es[..i] && Stop !in es[..i];
            var full := |ws[i].t.entries| >= 16 || |ws[i].t.ids| >= 4096;
            && (r.Success? <==> open && !UsedBefore(es, i, id) && !full)
            && (r == Failure(Disconnected) <==> !open)
            && (r == Failure(StaleEpoch) <==> open && UsedBefore(es, i, id))
            && (r == Failure(Backpressure) <==> open && !UsedBefore(es, i, id) && full)
    ensures i < |es| && es[i] == Register(id) ==>
              && ws[i + 1].t.entries == ws[i].t.entries + {id} && ws[i + 1].t.ids == ws[i].t.ids + {id}
              && id !in ws[i].viewers && ws[i + 1].viewers == ws[i].viewers[id := NEW_VIEWER]
  {
    TableIsHistory(ws, es, i, id);
    Reachable(ws, es, i);
    if i < |es| && es[i] == Register(id) {
      assert StepAt(ws, es, i);
    }
  }

  /** A retirement finds the id's entry, or leaves the id used; it is refused only when no id may be added. */
  lemma BurialDecides(ws: seq<World>, es: seq<Event>, i: nat, id: Id)
    requires Execution(ws, es) && i < |ws|
    ensures Tombstone(ws[i].t, id).Success? <==> UsedBefore(es, i, id) || |ws[i].t.ids| < 4096
    ensures Tombstone(ws[i].t, id).Success? ==>
              Tombstone(ws[i].t, id).value == ws[i].t.(ids := ws[i].t.ids + {id})
    ensures Tombstone(ws[i].t, id).Failure? ==> Tombstone(ws[i].t, id).error == Backpressure
  {
    TableIsHistory(ws, es, i, id);
    Reachable(ws, es, i);
    if id in ws[i].t.entries {
      assert ws[i].t.ids + {id} == ws[i].t.ids;
    }
  }

  // ---------------------------------------------------------------- one entry

  /** The retirement round found no holder and no live window. */
  predicate Retires(v: Viewer, step: Step) {
    && step.Decide? && v.retirement.Looked? && v.retirement.raw == 0
    && (v.retirement.destroyed || !v.e.window)
  }

  ghost predicate EntryChanged(v: Viewer, step: Step, u: Viewer) {
    && (u.e.closing <==> v.e.closing || step.FenceOff?)
    && u.e.reason == (if step.FenceOff? && !v.e.closing then step.reason else v.e.reason)
    && (u.e.attempted <==> v.e.attempted || step.Open?)
    && (u.e.served <==> v.e.served || step.Serve?)
    && (u.e.loaded <==> v.e.loaded || (step.Loaded? && v.e.served))
    && (u.e.window <==> (v.e.window || step.Store?) && !Retires(v, step))
    && (u.e.destroyed <==> v.e.destroyed || step.Destroyed?)
    && (u.e.retired <==> v.e.retired || Retires(v, step))
    && (u.e.html <==> v.e.html && !Retires(v, step))
    && u.e.raw == v.e.raw + (if step.Open? || step.Destroyed? then 1 else 0)
                  - (if step.EndOpen? || step.EndReport? then 1 else 0)
  }

  ghost predicate ViewerChanged(v: Viewer, step: Step, u: Viewer) {
    && (u.native <==> v.native || step.Build?)
    && (u.guard <==> (v.guard || step.Destroyed?) && !step.EndReport?)
    && u.serves == v.serves + (if step.Serve? then 1 else 0)
    && u.reported == (if step.Destroyed? then Some(v.e.reason) else v.reported)
    && u.opener == (match step
                    case Open => Building
                    case Build => Built
                    case Store => Stored
                    case EndOpen => Over
                    case _ => v.opener)
    && u.retirement == (if step.Look? then Looked(v.e.destroyed, v.e.raw)
                        else if Retires(v, step) then Removing
                        else if step.Decide? || step.Remove? then Idle
                        else v.retirement)
  }

  lemma MovedChanges(w: World, v: Viewer, step: Step)
    requires ViewerOk(v) && StepEnabled(w, v, step)
    ensures EntryChanged(v, step, Moved(v, step)) && ViewerChanged(v, step, Moved(v, step))
  {
  }

  /** An entry changes by its own steps alone, and each step changes what is named here and nothing else. */
  lemma EntriesChange(ws: seq<World>, es: seq<Event>, i: nat, id: Id)
    requires Execution(ws, es) && i < |es| && id in ws[i].viewers
    ensures id in ws[i + 1].viewers
    ensures es[i].Of? && es[i].id == id ==>
              && EntryChanged(ws[i].viewers[id], es[i].step, ws[i + 1].viewers[id])
              && ViewerChanged(ws[i].viewers[id], es[i].step, ws[i + 1].viewers[id])
    ensures !es[i].Of? || es[i].id != id ==> ws[i + 1].viewers[id] == ws[i].viewers[id]
  {
    Reachable(ws, es, i);
    assert StepAt(ws, es, i) && Known(ws[i], id);
    if es[i].Of? && es[i].id == id {
      MovedChanges(ws[i], ws[i].viewers[id], es[i].step);
    }
  }

  /**
   A request is answered exactly when it is for the document and in scope, the entry was opened and
   is not fenced, and no document has gone out before. So the first one after the open attempt is.
   */
  lemma FirstRequestIsServed(ws: seq<World>, es: seq<Event>, i: nat, id: Id, request: bool, scope: bool)
    requires Execution(ws, es) && i < |ws| && id in ws[i].viewers
    ensures var v := ws[i].viewers[id];
            MayServe(v.e, request, scope) <==>
            request && scope && !v.opener.NotOpened? && !v.e.closing && v.serves == 0
  {
    Reachable(ws, es, i);
    assert Known(ws[i], id);
  }

  /** The three steps that retire an entry. */
  function Buried(w: World, id: Id): World
    requires id in w.viewers
  {
    DoStep(DoStep(DoStep(w, id, Look), id, Decide), id, Remove)
  }

  /**
   A fenced entry with no open attempt under way, no report running and no live window can always be
   retired: nothing is in the way of the three steps, and after them it is out of the table.
   */
  lemma RetirementCompletes(ws: seq<World>, es: seq<Event>, i: nat, id: Id)
    requires Execution(ws, es) && i < |ws| && id in ws[i].viewers
    requires Gone(ws[i].viewers[id]) && ws[i].viewers[id].retirement.Idle?
    ensures var w := ws[i]; var looked, decided := DoStep(w, id, Look), DoStep(DoStep(w, id, Look), id, Decide);
            && Enabled(w, Of(id, Look)) && Enabled(looked, Of(id, Decide)) && Enabled(decided, Of(id, Remove))
            && Buried(w, id).t.entries == w.t.entries - {id} && Buried(w, id).viewers[id].e.retired
  {
    Reachable(ws, es, i);
    assert Known(ws[i], id);
  }

  /** A close that begins with a stopped table has exactly the entries to retire that are there. */
  lemma CloseBegins(ws: seq<World>, es: seq<Event>, i: nat)
    requires Execution(ws, es) && i < |es| && (es[i].BeginClose? || es[i].CloseNext?)
    ensures es[i].BeginClose? ==> Stop in es[..i] && ws[i + 1] == ws[i].(remaining := Some(ws[i].t.entries))
    ensures es[i].CloseNext? ==>
              && ws[i].remaining.Some? && es[i].id in ws[i].remaining.value && es[i].id !in ws[i].t.entries
              && ws[i + 1] == ws[i].(remaining := Some(ws[i].remaining.value - {es[i].id}))
  {
    assert StepAt(ws, es, i);
    TableIsHistory(ws, es, i, "");
  }
}
