/** The notification session and its cleanup batch, as native_notifications.rs updates them on the GUI thread. */
module NotificationOwner {
  import opened Wrappers

  const MAX_NOTIFICATIONS: nat := 64

  /** `notices` maps each recorded id to the request that was given it. */
  datatype Session = Session(notices: map<nat, nat>, pending: nat, closing: bool)

  const NEW_SESSION := Session(map[], 0, false)

  predicate Capacity(delivered: nat, pending: nat) {
    delivered + pending < MAX_NOTIFICATIONS
  }

  predicate MayNotify(s: Session) {
    !s.closing && Capacity(|s.notices|, s.pending)
  }

  function Reserve(s: Session): Session {
    s.(pending := s.pending + 1)
  }

  /** The reply of Notify; zero is not an id. */
  function Record(s: Session, id: Option<nat>, request: nat): Session {
    s.(pending := if s.pending > 0 then s.pending - 1 else 0,
       notices := if id.Some? && id.value != 0 then s.notices[id.value := request] else s.notices)
  }

  function Forget(s: Session, id: nat): Session {
    s.(notices := s.notices - {id})
  }

  /** What `CleanupBatch` counts: close calls that are still out, and whether one of them failed. */
  datatype Batch = Batch(remaining: nat, failed: bool)

  function Count(b: Batch, success: bool): Batch {
    Batch(if b.remaining > 0 then b.remaining - 1 else 0, b.failed || !success)
  }

  /** `finish_cleanup`: nothing while a call is out, then whether none failed. */
  function Answer(b: Batch): Option<bool> {
    if b.remaining != 0 then None else Some(!b.failed)
  }

  class SessionObject {
    var notices: map<nat, nat>
    var pending: nat
    var closing: bool

    function View(): Session
      reads this
    {
      Session(notices, pending, closing)
    }

    constructor ()
      ensures View() == NEW_SESSION
    {
      notices, pending, closing := map[], 0, false;
    }

    /** The admission in `notify`. */
    method TryReserve() returns (ok: bool)
      modifies this`pending
      ensures ok <==> MayNotify(old(View()))
      ensures View() == if ok then Reserve(old(View())) else old(View())
    {
      if closing || !Capacity(|notices|, pending) {
        return false;
      }
      pending := pending + 1;
      return true;
    }

    /** The reply callback of Notify; it records the id whether or not its caller is still there. */
    method NotifyReturned(id: Option<nat>, request: nat, callerCurrent: bool) returns (answer: Option<bool>)
      requires pending > 0
      modifies this`pending, this`notices
      ensures View() == Record(old(View()), id, request)
      ensures answer == if callerCurrent then Some(id.Some? && id.value != 0) else None
    {
      pending := pending - 1;
      if id.Some? && id.value != 0 {
        notices := notices[id.value := request];
      }
      if !callerCurrent {
        return None;
      }
      return Some(id.Some? && id.value != 0);
    }

    method NotificationClosed(id: nat)
      modifies this`notices
      ensures View() == Forget(old(View()), id)
    {
      notices := notices - {id};
    }

    /** `retire_closed_notice`. */
    method RetireClosedNotice(id: nat, acknowledged: bool) returns (success: bool)
      modifies this`notices
      ensures success == acknowledged
      ensures View() == if acknowledged then Forget(old(View()), id) else old(View())
    {
      if acknowledged {
        notices := notices - {id};
      }
      return acknowledged;
    }

    /** The start of `close`: fence the session and take its ids. */
    method TakeSnapshot() returns (ids: set<nat>)
      modifies this`closing
      ensures ids == old(notices).Keys && View() == old(View()).(closing := true)
    {
      closing := true;
      ids := notices.Keys;
    }
  }

  /** The owner's entry in the GUI thread's session table, and what its close driver was told. */
  class SessionTable {
    var session: SessionObject?
    var report: Option<bool>

    constructor ()
      ensures session == null && report == None
    {
      session, report := null, None;
    }
  }

  /** The close calls of one cleanup. */
  class CleanupBatch {
    var remaining: nat
    var failed: bool

    function View(): Batch
      reads this
    {
      Batch(remaining, failed)
    }

    constructor (remaining: nat)
      ensures View() == Batch(remaining, false)
    {
      this.remaining, failed := remaining, false;
    }

    /** `finish_cleanup`: the session leaves the table only when nothing failed. */
    method Finish(table: SessionTable)
      modifies table
      ensures table.report == if Answer(View()).Some? then Answer(View()) else old(table.report)
      ensures table.session == if Answer(View()) == Some(true) then null else old(table.session)
    {
      if remaining != 0 {
        return;
      }
      if !failed {
        table.session := null;
      }
      table.report := Some(!failed);
    }

    /** The reply callback of one CloseNotification. */
    method Returned(table: SessionTable, session: SessionObject, id: nat, acknowledged: bool)
      requires remaining > 0
      modifies this, table, session`notices
      ensures View() == Count(old(View()), acknowledged)
      ensures session.View() == if acknowledged then Forget(old(session.View()), id) else old(session.View())
      ensures table.report == if Answer(View()).Some? then Answer(View()) else old(table.report)
      ensures table.session == if Answer(View()) == Some(true) then null else old(table.session)
    {
      var success := session.RetireClosedNotice(id, acknowledged);
      remaining := remaining - 1;
      failed := failed || !success;
      Finish(table);
    }
  }

  /** `close` on the GUI thread: the batch of the calls it has sent; an empty one has answered already. */
  method CloseOnGui(table: SessionTable) returns (batch: CleanupBatch?, ids: set<nat>)
    modifies table, if table.session == null then {} else {table.session}
    ensures old(table.session) == null ==> batch == null && table.report == Some(true) && table.session == null
    ensures old(table.session) != null ==>
              && batch != null && fresh(batch)
              && old(table.session).View() == old(table.session.View()).(closing := true)
              && ids == old(table.session.notices).Keys && batch.View() == Batch(|ids|, false)
              && table.report == (if ids == {} then Some(true) else old(table.report))
              && table.session == if ids == {} then null else old(table.session)
  {
    if table.session == null {
      table.report := Some(true);
      return null, {};
    }
    ids := table.session.TakeSnapshot();
    batch := new CleanupBatch(|ids|);
    batch.Finish(table);
  }
}
