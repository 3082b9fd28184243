/**
 Notification requests and the close driver of native_notifications.rs under any interleaving.
 A request holds a receipt of the work owner that all native components share, from its
 admission until its last callback is gone; the close driver waits for that owner's drain.
 */
module NotificationProtocol {
  import opened Wrappers
  import opened NotificationOwner
  import W = WorkOwner

  /**
   Asking: the connection or the server name is being asked for. Notifying: a Notify call is
   out. Over: callbacks end.
   */
  datatype Phase = Asking | Notifying | Over

  /**
   Asked: the driver runs. Draining: it has closed the work owner. Scheduled: its closure waits
   for the GUI thread. Cleaning: `batch` decides when and what to report, `waiting` holds the
   ids whose call is out; the other sets are history. Closed: what the driver reported.
   */
  datatype Closer =
    | Open | Asked | Draining | Scheduled
    | Cleaning(batch: Batch, waiting: set<nat>, snapshot: set<nat>, refused: set<nat>, retired: set<nat>)
    | Closed(ok: bool)

  /**
   `others` counts the receipts that other components hold. `accepted` gives the id each request
   was given; `settled` are the accepted requests whose notice the server closed, acknowledged
   or gave to a later request.
   */
  datatype World = World(
    session: Option<Session>, requests: map<nat, Phase>, admitted: nat, work: W.State, others: nat, closer: Closer,
    accepted: map<nat, nat>, settled: set<nat>)

  const START := World(None, map[], 0, W.State(false, 0), 0, Open, map[], {})

  datatype Event =
    | Admit
    | ServerNamed(r: nat, same: bool, alert: bool)
    | NotifyReturned(r: nat, given: Option<nat>)
    | GiveUp(r: nat)
    | Leave(r: nat)
    | ServerClosed(id: nat)
    | OthersAdmit(cleanup: bool)
    | OthersLeave
    | OthersClose
    | StartClose
    | DrainStarts
    | Drained
    | ScheduleFails
    | CloseOnGui
    | CloseReturned(id: nat, acknowledged: bool)

  // ---------------------------------------------------------------- steps

  function SetPhase(w: World, r: nat, phase: Phase): World {
    w.(requests := w.requests[r := phase])
  }

  function DoAdmit(w: World): World
    requires W.Admit(w.work, false).Success?
  {
    SetPhase(w, w.admitted, Asking).(admitted := w.admitted + 1, work := W.Admit(w.work, false).value)
  }

  function DoLeave(w: World, r: nat): World {
    w.(requests := w.requests - {r}, work := W.Release(w.work))
  }

  /** The reply to GetNameOwner: find or make the session, then notify if there is something to say. */
  function DoServerNamed(w: World, r: nat, same: bool, alert: bool): World {
    if w.session.Some? && (!same || w.session.value.closing) then SetPhase(w, r, Over)
    else
      var s := if w.session.Some? then w.session.value else NEW_SESSION;
      if alert && MayNotify(s) then SetPhase(w, r, Notifying).(session := Some(Reserve(s)))
      else SetPhase(w, r, Over).(session := Some(s))
  }

  /** The requests whose notice a recorded id displaces. */
  function Displaced(s: Session, id: nat): set<nat> {
    if id in s.notices then {s.notices[id]} else {}
  }

  function DoNotifyReturned(w: World, r: nat, id: Option<nat>): World
    requires w.session.Some?
  {
    var s := w.session.value;
    var v := SetPhase(w, r, Over).(session := Some(Record(s, id, r)));
    if id.Some? && id.value != 0 then
      v.(accepted := w.accepted[r := id.value], settled := w.settled + Displaced(s, id.value))
    else v
  }

  function DoForget(w: World, id: nat): World
    requires w.session.Some?
  {
    w.(session := Some(Forget(w.session.value, id)), settled := w.settled + Displaced(w.session.value, id))
  }

  /** `finish_cleanup`: the batch decides; the session goes only with a good report. */
  function Finish(w: World): World
    requires w.closer.Cleaning?
  {
    match Answer(w.closer.batch)
    case None => w
    case Some(ok) => w.(session := if ok then None else w.session, closer := Closed(ok))
  }

  function DoCloseOnGui(w: World): World {
    if w.session.None? then w.(closer := Closed(true))
    else
      var ids := w.session.value.notices.Keys;
      Finish(w.(session := Some(w.session.value.(closing := true)),
                closer := Cleaning(Batch(|ids|, false), ids, ids, {}, {})))
  }

  /** One close call of a cleanup has returned: the count, and the history of the answers. */
  function Counted(c: Closer, id: nat, acknowledged: bool): Closer
    requires c.Cleaning?
  {
    c.(batch := Count(c.batch, acknowledged), waiting := c.waiting - {id},
       refused := if acknowledged then c.refused else c.refused + {id},
       retired := if acknowledged then c.retired + {id} else c.retired)
  }

  function CountReply(w: World, id: nat, acknowledged: bool): World
    requires w.session.Some? && w.closer.Cleaning?
  {
    (if acknowledged then DoForget(w, id) else w).(closer := Counted(w.closer, id, acknowledged))
  }

  function DoCloseReturned(w: World, id: nat, acknowledged: bool): World
    requires w.session.Some? && w.closer.Cleaning?
  {
    Finish(CountReply(w, id, acknowledged))
  }

  predicate Enabled(w: World, e: Event) {
    match e
    case Admit => W.Admit(w.work, false).Success?
    case ServerNamed(r, _, _) => r in w.requests && w.requests[r].Asking?
    case NotifyReturned(r, _) => r in w.requests && w.requests[r].Notifying? && w.session.Some?
    case GiveUp(r) => r in w.requests && w.requests[r].Asking?
    case Leave(r) => r in w.requests && w.requests[r].Over?
    case ServerClosed(_) => w.session.Some?
    case OthersAdmit(cleanup) => W.Admit(w.work, cleanup).Success?
    case OthersLeave => w.others > 0
    case OthersClose => true
    case StartClose => w.closer.Open? || w.closer == Closed(false)
    case DrainStarts => w.closer.Asked?
    case Drained => w.closer.Draining? && w.work.active == 0
    case ScheduleFails => w.closer.Scheduled?
    case CloseOnGui => w.closer.Scheduled?
    case CloseReturned(id, _) => w.session.Some? && w.closer.Cleaning? && id in w.closer.waiting
  }

  function Apply(w: World, e: Event): World
    requires Enabled(w, e)
  {
    match e
    case Admit => DoAdmit(w)
    case ServerNamed(r, same, alert) => DoServerNamed(w, r, same, alert)
    case NotifyReturned(r, id) => DoNotifyReturned(w, r, id)
    case GiveUp(r) => SetPhase(w, r, Over)
    case Leave(r) => DoLeave(w, r)
    case ServerClosed(id) => DoForget(w, id)
    case OthersAdmit(cleanup) => w.(work := W.Admit(w.work, cleanup).value, others := w.others + 1)
    case OthersLeave => w.(work := W.Release(w.work), others := w.others - 1)
    case OthersClose => w.(work := w.work.(closing := true))
    case StartClose => w.(closer := Asked)
    case DrainStarts => w.(closer := Draining, work := w.work.(closing := true))
    case Drained => w.(closer := Scheduled)
    case ScheduleFails => w.(closer := Closed(false))
    case CloseOnGui => DoCloseOnGui(w)
    case CloseReturned(id, acknowledged) => DoCloseReturned(w, id, acknowledged)
  }

  // ---------------------------------------------------------------- invariants

  /** The shared counter covers every request. */
  ghost predicate Receipts(w: World) {
    w.work.active == |w.requests| + w.others && w.work.active <= W.MAX_NATIVE_WORK
  }

  function Calls(requests: map<nat, Phase>): set<nat> {
    set r | r in requests && requests[r].Notifying?
  }

  ghost predicate Counts(w: World) {
    match w.session
    case None => Calls(w.requests) == {}
    case Some(s) => s.pending == |Calls(w.requests)| && |s.notices| + s.pending <= MAX_NOTIFICATIONS
  }

  ghost predicate Numbered(w: World) {
    && (forall r | r in w.requests :: r < w.admitted)
    && (forall r | r in w.accepted :: r < w.admitted && (r in w.requests ==> w.requests[r].Over?))
  }

  /** The request's id is still recorded for it. */
  ghost predicate Recorded(w: World, r: nat)
    requires r in w.accepted
  {
    w.session.Some? && w.accepted[r] in w.session.value.notices && w.session.value.notices[w.accepted[r]] == r
  }

  ghost predicate Kept(w: World, r: nat)
    requires r in w.accepted
  {
    r in w.settled || Recorded(w, r)
  }

  ghost predicate NoticeOk(w: World, id: nat)
    requires w.session.Some? && id in w.session.value.notices
  {
    var r := w.session.value.notices[id];
    r in w.accepted && w.accepted[r] == id
  }

  ghost predicate Conserved(w: World) {
    && (forall r {:trigger Kept(w, r)} | r in w.accepted :: Kept(w, r))
    && (w.session.Some? ==>
          forall id {:trigger NoticeOk(w, id)} | id in w.session.value.notices :: NoticeOk(w, id))
  }

  /**
   Counter and flag of the batch against what really happened: every id of the snapshot is
   waited for, refused or acknowledged, and only one of these.
   */
  ghost predicate BatchOk(c: Closer)
    requires c.Cleaning?
  {
    && c.batch.remaining == |c.waiting| && (c.batch.failed <==> c.refused != {})
    && c.snapshot == c.waiting + c.refused + c.retired
    && c.waiting !! c.refused && c.waiting !! c.retired && c.refused !! c.retired
  }

  /** No request is left and none can be admitted. */
  ghost predicate Fenced(w: World) {
    w.work.closing && w.requests == map[]
  }

  ghost predicate CleaningOk(w: World)
    requires w.closer.Cleaning?
  {
    && w.session.Some? && w.session.value.closing && BatchOk(w.closer)
    && w.session.value.notices.Keys <= w.closer.waiting + w.closer.refused
  }

  ghost predicate Closing(w: World) {
    && (w.closer.Draining? ==> w.work.closing)
    && (w.closer.Scheduled? || w.closer.Cleaning? || w.closer.Closed? ==> Fenced(w))
    && (w.closer.Cleaning? ==> w.closer.waiting != {} && CleaningOk(w))
    && (w.closer == Closed(true) ==> w.session.None?)
  }

  /** What does not depend on how far the close driver is. */
  ghost predicate Books(w: World) {
    Receipts(w) && Counts(w) && Numbered(w) && Conserved(w)
  }

  ghost predicate Inv(w: World) {
    Books(w) && Closing(w)
  }

  // ---------------------------------------------------------------- requests

  function Notices(w: World): map<nat, nat> {
    if w.session.Some? then w.session.value.notices else map[]
  }

  /** A session that appears empty, is dropped empty, or only changes its flags loses no accepted id. */
  lemma SameNotices(w: World, v: World)
    requires Conserved(w) && v.accepted == w.accepted && v.settled == w.settled
    requires Notices(v) == Notices(w)
    ensures Conserved(v)
  {
    forall r | r in v.accepted
      ensures Kept(v, r)
    {
      assert Kept(w, r);
    }
    if v.session.Some? {
      forall id | id in v.session.value.notices
        ensures NoticeOk(v, id)
      {
        assert NoticeOk(w, id);
      }
    }
  }

  lemma OneMoreRequest(requests: map<nat, Phase>, r: nat)
    requires r !in requests
    ensures |requests[r := Asking]| == |requests| + 1 && Calls(requests[r := Asking]) == Calls(requests)
  {
    assert requests[r := Asking].Keys == requests.Keys + {r};
  }

  lemma OneLessRequest(requests: map<nat, Phase>, r: nat)
    requires r in requests && !requests[r].Notifying?
    ensures |requests - {r}| == |requests| - 1 && Calls(requests - {r}) == Calls(requests)
  {
    assert (requests - {r}).Keys == requests.Keys - {r};
  }

  lemma PhaseChanges(requests: map<nat, Phase>, r: nat, phase: Phase)
    requires r in requests
    ensures |requests[r := phase]| == |requests|
    ensures Calls(requests[r := phase]) == if phase.Notifying? then Calls(requests) + {r} else Calls(requests) - {r}
  {
    assert requests[r := phase].Keys == requests.Keys;
  }

  lemma AdmitInv(w: World)
    requires Inv(w) && W.Admit(w.work, false).Success?
    ensures Inv(DoAdmit(w))
  {
    OneMoreRequest(w.requests, w.admitted);
    SameNotices(w, DoAdmit(w));
  }

  lemma LeaveInv(w: World, r: nat)
    requires Inv(w) && r in w.requests && w.requests[r].Over?
    ensures Inv(DoLeave(w, r))
  {
    OneLessRequest(w.requests, r);
    SameNotices(w, DoLeave(w, r));
  }

  lemma CallStarts(requests: map<nat, Phase>, r: nat, phase: Phase)
    requires r in requests && !requests[r].Notifying?
    ensures |requests[r := phase]| == |requests|
    ensures |Calls(requests[r := phase])| == |Calls(requests)| + if phase.Notifying? then 1 else 0
    ensures !phase.Notifying? ==> Calls(requests[r := phase]) == Calls(requests)
  {
    PhaseChanges(requests, r, phase);
    assert r !in Calls(requests);
  }

  /** The session was found or made, and reserved for if the request now notifies. */
  lemma NamedCounts(w: World, v: World, r: nat)
    requires Counts(w) && r in v.requests && Notices(v) == Notices(w)
    requires |Calls(v.requests)| == |Calls(w.requests)| + if v.requests[r].Notifying? then 1 else 0
    requires v.session.Some?
    requires var s := if w.session.Some? then w.session.value else NEW_SESSION;
             if v.requests[r].Notifying? then MayNotify(s) && v.session.value == Reserve(s) else v.session.value == s
    ensures Counts(v)
  {
  }

  lemma ServerNamedInv(w: World, r: nat, same: bool, alert: bool)
    requires Inv(w) && r in w.requests && w.requests[r].Asking?
    ensures Inv(DoServerNamed(w, r, same, alert))
  {
    var v := DoServerNamed(w, r, same, alert);
    CallStarts(w.requests, r, v.requests[r]);
    SameNotices(w, v);
    NamedCounts(w, v, r);
  }

  lemma RecordGrows(notices: map<nat, nat>, id: nat, r: nat)
    ensures |notices[id := r]| <= |notices| + 1
  {
    assert notices[id := r].Keys == notices.Keys + {id};
  }

  lemma NotifyReturnedConserved(w: World, r: nat, id: Option<nat>)
    requires Conserved(w) && r in w.requests && w.session.Some? && r !in w.accepted
    ensures Conserved(DoNotifyReturned(w, r, id))
  {
    var v := DoNotifyReturned(w, r, id);
    forall x | x in v.accepted
      ensures Kept(v, x)
    {
      if x in w.accepted {
        assert Kept(w, x);
      }
    }
    forall y | y in v.session.value.notices
      ensures NoticeOk(v, y)
    {
      if y in w.session.value.notices {
        assert NoticeOk(w, y);
      }
    }
  }

  lemma NotifyReturnedInv(w: World, r: nat, id: Option<nat>)
    requires Inv(w) && r in w.requests && w.requests[r].Notifying? && w.session.Some?
    ensures w.session.value.pending > 0 && Inv(DoNotifyReturned(w, r, id))
  {
    assert r in Calls(w.requests);
    PhaseChanges(w.requests, r, Over);
    if id.Some? {
      RecordGrows(w.session.value.notices, id.value, r);
    }
    NotifyReturnedConserved(w, r, id);
  }

  lemma GiveUpInv(w: World, r: nat)
    requires Inv(w) && r in w.requests && w.requests[r].Asking?
    ensures Inv(SetPhase(w, r, Over))
  {
    PhaseChanges(w.requests, r, Over);
    assert r !in Calls(w.requests);
    SameNotices(w, SetPhase(w, r, Over));
  }

  lemma ForgetShrinks(notices: map<nat, nat>, id: nat)
    ensures |notices - {id}| <= |notices|
  {
    assert (notices - {id}).Keys == notices.Keys - {id};
  }

  lemma ForgetInv(w: World, id: nat)
    requires Inv(w) && w.session.Some?
    ensures Inv(DoForget(w, id))
  {
    var v := DoForget(w, id);
    ForgetShrinks(w.session.value.notices, id);
    forall x | x in v.accepted
      ensures Kept(v, x)
    {
      assert Kept(w, x);
    }
    forall y | y in v.session.value.notices
      ensures NoticeOk(v, y)
    {
      assert NoticeOk(w, y);
    }
  }

  // ---------------------------------------------------------------- the close driver

  /** The drain has ended, so no request holds a receipt; the owner is closed, so none comes. */
  lemma DrainedMeansFenced(w: World)
    requires Receipts(w) && w.work.closing && w.work.active == 0
    ensures Fenced(w) && W.Admit(w.work, false).Failure?
  {
    assert |w.requests| == 0;
  }

  lemma DrainedInv(w: World)
    requires Inv(w) && w.closer.Draining? && w.work.active == 0
    ensures Inv(w.(closer := Scheduled))
  {
    DrainedMeansFenced(w);
    SameNotices(w, w.(closer := Scheduled));
  }

  lemma MoveBetween(from: set<nat>, to: set<nat>, rest: set<nat>, id: nat)
    requires id in from && from !! to && from !! rest && to !! rest
    ensures |from - {id}| == |from| - 1 && from + to + rest == (from - {id}) + (to + {id}) + rest
    ensures from + rest + to == (from - {id}) + rest + (to + {id})
    ensures from - {id} !! to + {id} && from - {id} !! rest && to + {id} !! rest
  {
  }

  lemma CountedOk(c: Closer, id: nat, acknowledged: bool)
    requires c.Cleaning? && BatchOk(c) && id in c.waiting
    ensures c.batch.remaining > 0 && BatchOk(Counted(c, id, acknowledged))
  {
    if acknowledged {
      MoveBetween(c.waiting, c.retired, c.refused, id);
    } else {
      MoveBetween(c.waiting, c.refused, c.retired, id);
    }
  }

  /** The counter and the flag say when the last answer is in, and whether all were good. */
  lemma BatchTellsTheTruth(c: Closer)
    requires c.Cleaning? && BatchOk(c)
    ensures Answer(c.batch).None? <==> c.waiting != {}
    ensures Answer(c.batch).Some? ==> Answer(c.batch).value == (c.retired == c.snapshot)
  {
    if c.waiting == {} && c.retired == c.snapshot {
      assert c.refused == {};
    }
  }

  lemma FinishInv(w: World)
    requires Books(w) && Fenced(w) && w.closer.Cleaning? && CleaningOk(w)
    ensures Inv(Finish(w))
  {
    BatchTellsTheTruth(w.closer);
    if Answer(w.closer.batch) == Some(true) {
      assert w.session.value.notices.Keys == {};
      assert w.session.value.notices == map[];
    }
    SameNotices(w, Finish(w));
  }

  lemma CountReplyOk(w: World, id: nat, acknowledged: bool)
    requires w.closer.Cleaning? && CleaningOk(w) && id in w.closer.waiting
    ensures CleaningOk(CountReply(w, id, acknowledged))
  {
    CountedOk(w.closer, id, acknowledged);
  }

  lemma CloserOnly(w: World, c: Closer)
    requires Books(w)
    ensures Books(w.(closer := c))
  {
    SameNotices(w, w.(closer := c));
  }

  lemma CountReplyBooks(w: World, id: nat, acknowledged: bool)
    requires Inv(w) && w.session.Some? && w.closer.Cleaning?
    ensures Books(CountReply(w, id, acknowledged))
  {
    var c := Counted(w.closer, id, acknowledged);
    if acknowledged {
      ForgetInv(w, id);
      CloserOnly(DoForget(w, id), c);
    } else {
      CloserOnly(w, c);
    }
  }

  lemma CloseReturnedInv(w: World, id: nat, acknowledged: bool)
    requires Inv(w) && w.session.Some? && w.closer.Cleaning? && id in w.closer.waiting
    ensures Inv(DoCloseReturned(w, id, acknowledged))
  {
    CountReplyBooks(w, id, acknowledged);
    CountReplyOk(w, id, acknowledged);
    FinishInv(CountReply(w, id, acknowledged));
  }

  lemma CloseOnGuiInv(w: World)
    requires Inv(w) && w.closer.Scheduled?
    ensures Inv(DoCloseOnGui(w))
  {
    if w.session.None? {
      SameNotices(w, DoCloseOnGui(w));
    } else {
      var ids := w.session.value.notices.Keys;
      var v := w.(session := Some(w.session.value.(closing := true)),
                  closer := Cleaning(Batch(|ids|, false), ids, ids, {}, {}));
      SameNotices(w, v);
      FinishInv(v);
    }
  }

  lemma StepInv(w: World, e: Event)
    requires Inv(w) && Enabled(w, e)
    ensures Inv(Apply(w, e))
  {
    match e
    case Admit => AdmitInv(w);
    case ServerNamed(r, same, alert) => ServerNamedInv(w, r, same, alert);
    case NotifyReturned(r, id) => NotifyReturnedInv(w, r, id);
    case GiveUp(r) => GiveUpInv(w, r);
    case Leave(r) => LeaveInv(w, r);
    case ServerClosed(id) => ForgetInv(w, id);
    case Drained => DrainedInv(w);
    case CloseReturned(id, acknowledged) => CloseReturnedInv(w, id, acknowledged);
    case CloseOnGui => CloseOnGuiInv(w);
    case _ => SameNotices(w, Apply(w, e));
  }

  // ---------------------------------------------------------------- whole runs

  ghost predicate StepAt(ws: seq<World>, es: seq<Event>, i: nat)
    requires |ws| == |es| + 1 && i < |es|
  {
    Enabled(ws[i], es[i]) && ws[i + 1] == Apply(ws[i], es[i])
  }

  ghost predicate Execution(ws: seq<World>, es: seq<Event>) {
    && |ws| == |es| + 1
    && ws[0] == START
    && forall i: nat {:trigger StepAt(ws, es, i)} | i < |es| :: StepAt(ws, es, i)
  }

  lemma StartInv()
    ensures Inv(START)
  {
    assert Calls(START.requests) == {};
  }

  lemma {:induction false} Reachable(ws: seq<World>, es: seq<Event>, i: nat)
    requires Execution(ws, es) && i < |ws|
    ensures Inv(ws[i])
  {
    if i == 0 {
      StartInv();
    } else {
      Reachable(ws, es, i - 1);
      assert StepAt(ws, es, i - 1);
      StepInv(ws[i - 1], es[i - 1]);
    }
  }

  /** Recorded notices and calls that are out together stay within the limit, and the count of calls is exact. */
  lemma NoticesAreBounded(ws: seq<World>, es: seq<Event>, i: nat)
    requires Execution(ws, es) && i < |ws| && ws[i].session.Some?
    ensures var s := ws[i].session.value;
            |s.notices| + s.pending <= MAX_NOTIFICATIONS && s.pending == |Calls(ws[i].requests)|
  {
    Reachable(ws, es, i);
  }

  /** The work owner's counter covers every request, whatever the other components hold. */
  lemma RequestsHoldReceipts(ws: seq<World>, es: seq<Event>, i: nat)
    requires Execution(ws, es) && i < |ws|
    ensures ws[i].work.active == |ws[i].requests| + ws[i].others
    ensures ws[i].work.active == 0 ==> ws[i].requests == map[]
  {
    Reachable(ws, es, i);
    assert |ws[i].requests| == 0 ==> ws[i].requests == map[];
  }

  /**
   No accepted id is lost: it is recorded for the request that got it until the server closes
   or acknowledges it or gives it out again, even when the caller is gone.
   */
  lemma AcceptedIdsAreKept(ws: seq<World>, es: seq<Event>, i: nat, r: nat)
    requires Execution(ws, es) && i < |ws| && r in ws[i].accepted
    ensures r in ws[i].settled || Recorded(ws[i], r)
  {
    Reachable(ws, es, i);
    assert Kept(ws[i], r);
  }

  lemma StaysFenced(w: World, e: Event)
    requires Fenced(w) && Enabled(w, e)
    ensures Fenced(Apply(w, e)) && Apply(w, e).accepted == w.accepted
  {
    assert !e.NotifyReturned? && !e.Admit?;
  }

  lemma {:induction false} FencedForGood(ws: seq<World>, es: seq<Event>, i: nat, j: nat)
    requires Execution(ws, es) && i <= j < |ws| && Fenced(ws[i])
    ensures Fenced(ws[j]) && ws[j].accepted == ws[i].accepted
  {
    if i < j {
      FencedForGood(ws, es, i, j - 1);
      assert StepAt(ws, es, j - 1);
      StaysFenced(ws[j - 1], es[j - 1]);
    }
  }

  /**
   When the drain of the close driver has ended there is no request, and from then on, through
   every later attempt to close as well, none is admitted, no call is out and no id arrives.
   Cleanup work of other components may still come and go.
   */
  lemma NoIdAfterTheSnapshot(ws: seq<World>, es: seq<Event>, i: nat, j: nat)
    requires Execution(ws, es) && i < j < |ws| && es[i] == Drained
    ensures ws[j].requests == map[] && W.Admit(ws[j].work, false).Failure?
    ensures ws[j].accepted == ws[i].accepted && (ws[j].session.Some? ==> ws[j].session.value.pending == 0)
  {
    Reachable(ws, es, i);
    assert StepAt(ws, es, i);
    DrainedMeansFenced(ws[i]);
    FencedForGood(ws, es, i + 1, j);
    Reachable(ws, es, j);
    assert Calls(ws[j].requests) == {};
  }

  /** While a cleanup runs, its counter is the number of calls that are out, its flag whether one was refused. */
  lemma CleanupBookkeeping(ws: seq<World>, es: seq<Event>, i: nat)
    requires Execution(ws, es) && i < |ws| && ws[i].closer.Cleaning?
    ensures var c := ws[i].closer;
            && 0 < c.batch.remaining == |c.waiting| && (c.batch.failed <==> c.refused != {})
            && c.snapshot == c.waiting + c.refused + c.retired
            && ws[i].session.Some? && ws[i].session.value.notices.Keys <= c.waiting + c.refused
  {
    Reachable(ws, es, i);
  }

  /** What a cleanup that has just reported leaves behind. */
  ghost predicate Reported(w: World) {
    && (w.closer == Closed(true) ==> w.session.None? && forall r | r in w.accepted :: r in w.settled)
    && (w.closer == Closed(false) ==> w.session.Some? && w.session.value.closing)
  }

  lemma FinishReports(w: World)
    requires w.closer.Cleaning? && CleaningOk(w)
    ensures var v, c := Finish(w), w.closer;
            && (v.closer.Closed? <==> c.waiting == {})
            && (v.closer.Closed? ==> v.closer == Closed(c.retired == c.snapshot))
            && (v.closer == Closed(false) ==> v.session.Some? && v.session.value.closing)
  {
    BatchTellsTheTruth(w.closer);
  }

  lemma LastReturned(w: World, id: nat, acknowledged: bool)
    requires w.closer.Cleaning? && CleaningOk(w) && id in w.closer.waiting
    ensures var v, c := DoCloseReturned(w, id, acknowledged), Counted(w.closer, id, acknowledged);
            && (v.closer.Closed? <==> w.closer.waiting == {id})
            && (v.closer.Closed? ==> v.closer == Closed(c.retired == c.snapshot))
            && (v.closer == Closed(false) ==> v.session.Some? && v.session.value.closing)
  {
    CountReplyOk(w, id, acknowledged);
    FinishReports(CountReply(w, id, acknowledged));
    OnlyOne(w.closer.waiting, id);
  }

  lemma OnlyOne(s: set<nat>, id: nat)
    requires id in s
    ensures s - {id} == {} <==> s == {id}
  {
  }

  lemma NothingLeftIsSettled(w: World)
    requires Inv(w) && w.session.None?
    ensures forall r | r in w.accepted :: r in w.settled
  {
    forall r | r in w.accepted
      ensures r in w.settled
    {
      assert Kept(w, r);
    }
  }

  /**
   A cleanup reports with its last answer, neither earlier nor later, and reports success exactly
   when every id of its snapshot was acknowledged. After success every id ever accepted is
   settled and the session is gone; otherwise the session stays, fenced, for another attempt.
   */
  lemma CleanupIsExact(ws: seq<World>, es: seq<Event>, i: nat)
    requires Execution(ws, es) && i < |es| && es[i].CloseReturned?
    ensures ws[i].closer.Cleaning? && es[i].id in ws[i].closer.waiting && Reported(ws[i + 1])
    ensures var c := Counted(ws[i].closer, es[i].id, es[i].acknowledged);
            && (ws[i + 1].closer.Closed? <==> ws[i].closer.waiting == {es[i].id})
            && (ws[i + 1].closer.Closed? ==> ws[i + 1].closer == Closed(c.retired == c.snapshot))
  {
    Reachable(ws, es, i);
    Reachable(ws, es, i + 1);
    assert StepAt(ws, es, i);
    LastReturned(ws[i], es[i].id, es[i].acknowledged);
    if ws[i + 1].closer == Closed(true) {
      NothingLeftIsSettled(ws[i + 1]);
    }
  }

  /** Without a session or without notices the cleanup reports success at once, and only then. */
  lemma EmptyCleanupReportsAtOnce(ws: seq<World>, es: seq<Event>, i: nat)
    requires Execution(ws, es) && i < |es| && es[i] == CloseOnGui
    ensures ws[i + 1].closer == Closed(true) <==> Notices(ws[i]) == map[]
    ensures Notices(ws[i]) != map[] ==>
              ws[i + 1].closer.Cleaning? && ws[i + 1].closer.snapshot == Notices(ws[i]).Keys
    ensures Reported(ws[i + 1])
  {
    Reachable(ws, es, i);
    Reachable(ws, es, i + 1);
    assert StepAt(ws, es, i);
    assert |Notices(ws[i]).Keys| == 0 <==> Notices(ws[i]) == map[];
    if ws[i + 1].closer == Closed(true) {
      NothingLeftIsSettled(ws[i + 1]);
    }
  }
}
