/**
 How notification requests and the close driver fare in any run: which request may notify, which ids
 are recorded and forgotten, and what each step of a close leads to.
 */
module NotificationDecisions {
  import opened Wrappers
  import opened NotificationOwner
  import opened NotificationProtocol
  import W = WorkOwner

  /**
   The reply that names the server lets a request notify exactly when it has an alert and the session,
   if there is one, is of the same server and not being closed, and recorded notices and calls that
   are out are fewer than 64. The session is made by the first such reply.
   */
  lemma NotifyDecides(ws: seq<World>, es: seq<Event>, i: nat, r: nat, same: bool, alert: bool)
    requires Execution(ws, es) && i < |es| && es[i] == ServerNamed(r, same, alert)
    ensures r in ws[i + 1].requests && Notices(ws[i + 1]) == Notices(ws[i])
    ensures var usable := ws[i].session.Some? ==> same && !ws[i].session.value.closing;
            && (ws[i + 1].session.Some? <==> ws[i].session.Some? || usable)
            && (ws[i + 1].requests[r].Notifying? <==>
                  alert && usable && |Notices(ws[i])| + |Calls(ws[i].requests)| < 64)
            && (!ws[i + 1].requests[r].Notifying? ==> ws[i + 1].requests[r].Over?)
            && Calls(ws[i + 1].requests) ==
               Calls(ws[i].requests) + if ws[i + 1].requests[r].Notifying? then {r} else {}
  {
    Reachable(ws, es, i);
    assert StepAt(ws, es, i);
    NamedCalls(ws[i].requests, r, ws[i + 1].requests[r]);
  }

  lemma NamedCalls(requests: map<nat, Phase>, r: nat, phase: Phase)
    requires r in requests && requests[r].Asking?
    ensures Calls(requests[r := phase]) == Calls(requests) + if phase.Notifying? then {r} else {}
  {
  }

  /**
   The reply of a call records exactly a nonzero id, for its request and in place of an earlier holder
   of that id, and in any case ends the call.
   */
  lemma ReplyDecides(ws: seq<World>, es: seq<Event>, i: nat, r: nat, given: Option<nat>)
    requires Execution(ws, es) && i < |es| && es[i] == NotifyReturned(r, given)
    ensures r !in ws[i].accepted && r in Calls(ws[i].requests)
    ensures Calls(ws[i + 1].requests) == Calls(ws[i].requests) - {r}
    ensures given == None || given == Some(0) ==>
              Notices(ws[i + 1]) == Notices(ws[i]) && ws[i + 1].accepted == ws[i].accepted
    ensures given.Some? && given.value != 0 ==>
              && Notices(ws[i + 1]) == Notices(ws[i])[given.value := r]
              && ws[i + 1].accepted == ws[i].accepted[r := given.value]
              && (r in ws[i + 1].settled <==> r in ws[i].settled)
  {
    Reachable(ws, es, i);
    assert StepAt(ws, es, i);
    if given.Some? && given.value in Notices(ws[i]) {
      assert NoticeOk(ws[i], given.value);
    }
  }

  /** The step lets the session forget `id`: the server closed it, or acknowledged its close. */
  predicate Forgets(e: Event, id: nat) {
    e == ServerClosed(id) || e == CloseReturned(id, true)
  }

  lemma ForgottenNotice(w: World, forgotten: nat, id: nat)
    requires w.session.Some?
    ensures id in Notices(DoForget(w, forgotten)) <==> id in Notices(w) && id != forgotten
    ensures id in Notices(DoForget(w, forgotten)) ==> Notices(DoForget(w, forgotten))[id] == Notices(w)[id]
  {
  }

  lemma OtherSteps(w: World, e: Event)
    requires Enabled(w, e)
    requires !e.NotifyReturned? && !e.ServerClosed? && !e.CloseReturned? && !e.CloseOnGui?
    ensures Notices(Apply(w, e)) == Notices(w)
  {
  }

  /**
   Besides new ids, notices change only by being forgotten: by the server's word for that id, or with
   a whole session that has none left.
   */
  lemma NoticesChange(ws: seq<World>, es: seq<Event>, i: nat, id: nat)
    requires Execution(ws, es) && i < |es| && !es[i].NotifyReturned?
    ensures id in Notices(ws[i + 1]) <==> id in Notices(ws[i]) && !Forgets(es[i], id)
    ensures id in Notices(ws[i + 1]) ==> Notices(ws[i + 1])[id] == Notices(ws[i])[id]
  {
    if es[i].CloseOnGui? {
      FencedNotices(ws, es, i);
    } else if es[i].CloseReturned? {
      ReturnStep(ws, es, i, id);
    } else {
      ForgetStep(ws, es, i, id);
    }
  }

  lemma ReturnStep(ws: seq<World>, es: seq<Event>, i: nat, id: nat)
    requires Execution(ws, es) && i < |es| && es[i].CloseReturned?
    ensures id in Notices(ws[i + 1]) <==> id in Notices(ws[i]) && !Forgets(es[i], id)
    ensures id in Notices(ws[i + 1]) ==> Notices(ws[i + 1])[id] == Notices(ws[i])[id]
  {
    Reachable(ws, es, i);
    assert StepAt(ws, es, i);
    ReturnedNotices(ws[i], es[i].id, es[i].acknowledged, id);
  }

  lemma ForgetStep(ws: seq<World>, es: seq<Event>, i: nat, id: nat)
    requires Execution(ws, es) && i < |es|
    requires !es[i].NotifyReturned? && !es[i].CloseReturned? && !es[i].CloseOnGui?
    ensures id in Notices(ws[i + 1]) <==> id in Notices(ws[i]) && !Forgets(es[i], id)
    ensures id in Notices(ws[i + 1]) ==> Notices(ws[i + 1])[id] == Notices(ws[i])[id]
  {
    assert StepAt(ws, es, i);
    if es[i].ServerClosed? {
      ForgottenNotice(ws[i], es[i].id, id);
    } else {
      OtherSteps(ws[i], es[i]);
    }
  }

  lemma FencedNotices(ws: seq<World>, es: seq<Event>, i: nat)
    requires Execution(ws, es) && i < |es| && es[i] == CloseOnGui
    ensures Notices(ws[i + 1]) == Notices(ws[i])
  {
    assert StepAt(ws, es, i);
    EmptyCleanupReportsAtOnce(ws, es, i);
  }

  lemma ReturnedNotices(w: World, x: nat, acknowledged: bool, id: nat)
    requires Inv(w) && w.session.Some? && w.closer.Cleaning? && x in w.closer.waiting
    ensures var v := DoCloseReturned(w, x, acknowledged);
            && (id in Notices(v) <==> id in Notices(w) && !(acknowledged && id == x))
            && (id in Notices(v) ==> Notices(v)[id] == Notices(w)[id])
  {
    CountReplyOk(w, x, acknowledged);
    EmptiedTable(CountReply(w, x, acknowledged));
    ForgottenNotice(w, x, id);
  }

  lemma EmptiedTable(w: World)
    requires w.closer.Cleaning? && CleaningOk(w)
    ensures Notices(Finish(w)) == Notices(w)
  {
    BatchTellsTheTruth(w.closer);
    if Answer(w.closer.batch) == Some(true) {
      assert w.session.value.notices.Keys == {};
      assert w.session.value.notices == map[];
    }
  }

  /** The step takes the notice `id` from the request it was recorded for. */
  predicate Takes(e: Event, id: nat) {
    id != 0 && (Forgets(e, id) || (e.NotifyReturned? && e.given == Some(id)))
  }

  lemma DisplacedHolder(w: World, id: nat, x: nat)
    requires Conserved(w) && w.session.Some?
    ensures x in Displaced(w.session.value, id) <==> x in w.accepted && w.accepted[x] == id && Recorded(w, x)
  {
    if id in w.session.value.notices {
      assert NoticeOk(w, id);
    }
  }

  /** Zero is never recorded. */
  ghost predicate NoZero(w: World) {
    0 !in Notices(w)
  }

  lemma {:induction false} ZeroIsNoId(ws: seq<World>, es: seq<Event>, i: nat)
    requires Execution(ws, es) && i < |ws|
    ensures NoZero(ws[i])
  {
    if i > 0 {
      ZeroIsNoId(ws, es, i - 1);
      if es[i - 1].NotifyReturned? {
        ReplyDecides(ws, es, i - 1, es[i - 1].r, es[i - 1].given);
      } else {
        NoticesChange(ws, es, i - 1, 0);
      }
    }
  }

  lemma SettlesNothing(w: World, e: Event)
    requires Enabled(w, e) && !e.NotifyReturned? && !e.ServerClosed? && !e.CloseReturned?
    ensures Apply(w, e).settled == w.settled && (forall id :: !Takes(e, id))
  {
  }

  lemma SettledByReply(w: World, r: nat, given: Option<nat>, x: nat)
    requires Conserved(w) && w.session.Some?
    ensures x in DoNotifyReturned(w, r, given).settled <==>
            || x in w.settled
            || (x in w.accepted && Recorded(w, x) && w.accepted[x] != 0 && given == Some(w.accepted[x]))
  {
    if given.Some? {
      DisplacedHolder(w, given.value, x);
    }
  }

  lemma SettledByReturn(w: World, id: nat, acknowledged: bool)
    requires w.session.Some? && w.closer.Cleaning?
    ensures DoCloseReturned(w, id, acknowledged).settled ==
            w.settled + if acknowledged then Displaced(w.session.value, id) else {}
  {
  }

  ghost predicate Settles(w: World, e: Event, x: nat) {
    x in w.accepted && Recorded(w, x) && Takes(e, w.accepted[x])
  }

  lemma ReplySettles(ws: seq<World>, es: seq<Event>, i: nat, x: nat)
    requires Execution(ws, es) && i < |es| && es[i].NotifyReturned?
    ensures x in ws[i + 1].settled <==> x in ws[i].settled || Settles(ws[i], es[i], x)
  {
    Reachable(ws, es, i);
    assert StepAt(ws, es, i);
    SettledByReply(ws[i], es[i].r, es[i].given, x);
  }

  lemma ServerSettles(ws: seq<World>, es: seq<Event>, i: nat, x: nat)
    requires Execution(ws, es) && i < |es| && es[i].ServerClosed?
    ensures x in ws[i + 1].settled <==> x in ws[i].settled || Settles(ws[i], es[i], x)
  {
    Reachable(ws, es, i);
    assert StepAt(ws, es, i);
    ZeroIsNoId(ws, es, i);
    DisplacedHolder(ws[i], es[i].id, x);
  }

  lemma AnswerSettles(w: World, id: nat, acknowledged: bool, x: nat)
    requires Conserved(w) && w.session.Some? && w.closer.Cleaning? && NoZero(w)
    ensures x in DoCloseReturned(w, id, acknowledged).settled <==>
            x in w.settled || Settles(w, CloseReturned(id, acknowledged), x)
  {
    DisplacedHolder(w, id, x);
    SettledByReturn(w, id, acknowledged);
  }

  lemma CloseSettles(ws: seq<World>, es: seq<Event>, i: nat, x: nat)
    requires Execution(ws, es) && i < |es| && es[i].CloseReturned?
    ensures x in ws[i + 1].settled <==> x in ws[i].settled || Settles(ws[i], es[i], x)
  {
    Reachable(ws, es, i);
    assert StepAt(ws, es, i);
    ZeroIsNoId(ws, es, i);
    AnswerSettles(ws[i], es[i].id, es[i].acknowledged, x);
  }

  /**
   A request is settled exactly by the step that takes its notice away while that is recorded for it:
   the server closes or acknowledges the id, or gives it to a later request.
   */
  lemma SettlementDecides(ws: seq<World>, es: seq<Event>, i: nat, x: nat)
    requires Execution(ws, es) && i < |es|
    ensures x in ws[i + 1].settled <==>
            || x in ws[i].settled
            || (x in ws[i].accepted && Recorded(ws[i], x) && Takes(es[i], ws[i].accepted[x]))
  {
    if es[i].NotifyReturned? {
      ReplySettles(ws, es, i, x);
    } else if es[i].ServerClosed? {
      ServerSettles(ws, es, i, x);
    } else if es[i].CloseReturned? {
      CloseSettles(ws, es, i, x);
    } else {
      assert StepAt(ws, es, i);
      SettlesNothing(ws[i], es[i]);
    }
  }

  /** A request is admitted exactly while the shared owner is open and fewer than four receipts are out. */
  lemma AdmissionDecides(ws: seq<World>, es: seq<Event>, i: nat)
    requires Execution(ws, es) && i < |ws|
    ensures Enabled(ws[i], Admit) <==> !ws[i].work.closing && |ws[i].requests| + ws[i].others < 4
    ensures i < |es| && es[i] == Admit ==>
              && ws[i].admitted !in ws[i].requests
              && ws[i + 1].requests == ws[i].requests[ws[i].admitted := Asking]
  {
    Reachable(ws, es, i);
    if i < |es| && es[i] == Admit {
      assert StepAt(ws, es, i);
    }
  }

  /** The work owner is closed by the close driver or by another component, and never opened again. */
  lemma {:induction false} ClosingIsHistory(ws: seq<World>, es: seq<Event>, n: nat)
    requires Execution(ws, es) && n <= |es|
    ensures ws[n].work.closing <==> OthersClose in es[..n] || DrainStarts in es[..n]
  {
    if n > 0 {
      ClosingIsHistory(ws, es, n - 1);
      ClosingStep(ws, es, n - 1);
      assert es[..n] == es[..n - 1] + [es[n - 1]];
    }
  }

  lemma ClosingStep(ws: seq<World>, es: seq<Event>, i: nat)
    requires Execution(ws, es) && i < |es|
    ensures ws[i + 1].work.closing == (ws[i].work.closing || es[i] == OthersClose || es[i] == DrainStarts)
  {
    Reachable(ws, es, i);
    assert StepAt(ws, es, i);
    if es[i].CloseReturned? {
      CountReplyOk(ws[i], es[i].id, es[i].acknowledged);
    }
  }

  /**
   A close attempt goes on from step to step: the driver drains, schedules its closure once no receipt
   is out, and the closure fences the session that is there. After a failure it may begin again.
   */
  lemma CloseGoesOn(ws: seq<World>, es: seq<Event>, i: nat)
    requires Execution(ws, es) && i < |ws|
    ensures Enabled(ws[i], StartClose) <==> ws[i].closer == Open || ws[i].closer == Closed(false)
    ensures ws[i].closer == Draining ==>
              (Enabled(ws[i], Drained) <==> ws[i].requests == map[] && ws[i].others == 0)
    ensures i < |es| && es[i] == StartClose ==> ws[i + 1].closer == Asked
    ensures i < |es| && es[i] == DrainStarts ==> ws[i].closer == Asked && ws[i + 1].closer == Draining
    ensures i < |es| && es[i] == Drained ==> ws[i].closer == Draining && ws[i + 1].closer == Scheduled
    ensures i < |es| && es[i] == ScheduleFails ==> ws[i].closer == Scheduled && ws[i + 1].closer == Closed(false)
    ensures i < |es| && es[i] == CloseOnGui && ws[i + 1].session.Some? ==> ws[i + 1].session.value.closing
  {
    Reachable(ws, es, i);
    assert |ws[i].requests| == 0 <==> ws[i].requests == map[];
    if i < |es| {
      assert StepAt(ws, es, i);
      Reachable(ws, es, i + 1);
    }
  }

  /**
   A reply to a close call moves its id from those waited for to the acknowledged or the refused ones.
   The last one ends the cleanup, with success exactly if it and all before it were acknowledged.
   */
  lemma RepliesDecide(ws: seq<World>, es: seq<Event>, i: nat, id: nat, acknowledged: bool)
    requires Execution(ws, es) && i < |es| && es[i] == CloseReturned(id, acknowledged)
    ensures ws[i].closer.Cleaning?
    ensures var c, d := ws[i].closer, ws[i + 1].closer;
            if c.waiting == {id} then d == Closed(acknowledged && c.refused == {})
            else
              && d.Cleaning? && d.snapshot == c.snapshot && d.waiting == c.waiting - {id}
              && d.retired == c.retired + (if acknowledged then {id} else {})
              && d.refused == c.refused + (if acknowledged then {} else {id})
  {
    Reachable(ws, es, i);
    assert StepAt(ws, es, i);
    ReplyOutcome(ws[i], id, acknowledged);
  }

  lemma FinishDecides(w: World)
    requires w.closer.Cleaning? && BatchOk(w.closer)
    ensures Finish(w).closer == if w.closer.waiting == {} then Closed(w.closer.refused == {}) else w.closer
  {
  }

  lemma ReplyOutcome(w: World, id: nat, acknowledged: bool)
    requires w.session.Some? && w.closer.Cleaning? && BatchOk(w.closer) && id in w.closer.waiting
    ensures var c, d := w.closer, DoCloseReturned(w, id, acknowledged).closer;
            if c.waiting == {id} then d == Closed(acknowledged && c.refused == {})
            else
              && d.Cleaning? && d.snapshot == c.snapshot && d.waiting == c.waiting - {id}
              && d.retired == c.retired + (if acknowledged then {id} else {})
              && d.refused == c.refused + (if acknowledged then {} else {id})
  {
    var c := Counted(w.closer, id, acknowledged);
    CountedOk(w.closer, id, acknowledged);
    FinishDecides(CountReply(w, id, acknowledged));
    CountedSets(w.closer, id, acknowledged);
    assert DoCloseReturned(w, id, acknowledged).closer == if c.waiting == {} then Closed(c.refused == {}) else c;
  }

  lemma CountedSets(c: Closer, id: nat, acknowledged: bool)
    requires c.Cleaning? && id in c.waiting
    ensures var d := Counted(c, id, acknowledged);
            && d.snapshot == c.snapshot && d.waiting == c.waiting - {id} && (d.waiting == {} <==> c.waiting == {id})
            && d.retired == c.retired + (if acknowledged then {id} else {})
            && d.refused == c.refused + (if acknowledged then {} else {id})
            && (d.refused == {} <==> acknowledged && c.refused == {})
  {
    assert id in c.refused + {id};
  }
}
