/**
 The artifact viewers of native_artifact_viewer.rs: what each lock section does to an entry
 and to the owner's table, as functions and as the objects that are updated in place.
 */
module ViewerOwner {
  import opened Wrappers

  type Id(!new, ==) = string

  const ACTIVE: nat := 16

  const EPOCH_IDS: nat := 4096

  datatype Reason = ByClose | ByFailure | ByDeadline | ByParent

  /** `window` says whether the child window is stored, `html` whether the document is still held. */
  datatype Entry = Entry(
    closing: bool, retired: bool, attempted: bool, loaded: bool, served: bool, window: bool, destroyed: bool,
    raw: nat, reason: Reason, html: bool)

  const NEW_ENTRY := Entry(false, false, false, false, false, false, false, 0, ByClose, true)

  datatype Table = Table(bound: bool, closing: bool, entries: set<Id>, ids: set<Id>)

  datatype ViewerError = Disconnected | StaleEpoch | Backpressure

  function Fence(e: Entry, reason: Reason): Entry {
    e.(closing := true, reason := if e.closing then e.reason else reason)
  }

  /** `current`, with the caller's scope and the deadline as one answer. */
  predicate Current(e: Entry, scope: bool) {
    scope && !e.closing && !e.retired
  }

  function Attempt(e: Entry): Entry {
    e.(attempted := true, raw := e.raw + 1)
  }

  /** `request` is whether label, method and address are those of the entry's own document. */
  predicate MayServe(e: Entry, request: bool, scope: bool) {
    request && Current(e, scope) && e.attempted && !e.served && !e.closing && e.html
  }

  function WithWindow(e: Entry): Entry {
    e.(window := true)
  }

  /** A finished page counts as loaded only once the document was served. */
  function Load(e: Entry): Entry {
    e.(loaded := e.loaded || e.served)
  }

  /** `destroyed`, once the entry is fenced. */
  function Destroy(e: Entry): Entry {
    e.(destroyed := true, raw := e.raw + 1)
  }

  function DropRaw(e: Entry): Entry {
    e.(raw := if e.raw > 0 then e.raw - 1 else 0)
  }

  function Retire(e: Entry): Entry {
    e.(retired := true, html := false, window := false)
  }

  function Registration(t: Table, id: Id): Result<Table, ViewerError> {
    if t.closing || !t.bound then Failure(Disconnected)
    else if id in t.ids then Failure(StaleEpoch)
    else if |t.entries| >= ACTIVE || |t.ids| >= EPOCH_IDS then Failure(Backpressure)
    else Success(t.(entries := t.entries + {id}, ids := t.ids + {id}))
  }

  /** `retire` of an id without an entry leaves a tombstone. */
  function Tombstone(t: Table, id: Id): Result<Table, ViewerError> {
    if id in t.entries then Success(t)
    else if id !in t.ids && |t.ids| >= EPOCH_IDS then Failure(Backpressure)
    else Success(t.(ids := t.ids + {id}))
  }

  class EntryObject {
    const id: Id
    var closing: bool
    var retired: bool
    var attempted: bool
    var loaded: bool
    var served: bool
    var window: bool
    var destroyed: bool
    var raw: nat
    var reason: Reason
    var html: bool

    function View(): Entry
      reads this
    {
      Entry(closing, retired, attempted, loaded, served, window, destroyed, raw, reason, html)
    }

    constructor (id: Id)
      ensures this.id == id && View() == NEW_ENTRY
    {
      this.id := id;
      closing, retired, attempted, loaded, served, window, destroyed := false, false, false, false, false, false, false;
      raw, reason, html := 0, ByClose, true;
    }

    method FenceWith(why: Reason)
      modifies this`closing, this`reason
      ensures View() == Fence(old(View()), why)
    {
      if !closing {
        reason := why;
      }
      closing := true;
    }

    /** The entry's part of `open`; the caller holds the table and has found it open. */
    method BeginOpen() returns (ok: bool)
      modifies this`attempted, this`raw
      ensures ok <==> !old(attempted) && !old(closing)
      ensures View() == if ok then Attempt(old(View())) else old(View())
    {
      if attempted || closing {
        return false;
      }
      attempted := true;
      raw := raw + 1;
      return true;
    }

    method StoreWindow()
      modifies this`window
      ensures View() == WithWindow(old(View()))
    {
      window := true;
    }

    method PageLoaded()
      modifies this`loaded
      ensures View() == Load(old(View()))
    {
      if served {
        loaded := true;
      }
    }

    /** `protocol`: the document goes out at most once. */
    method Serve(request: bool, scope: bool) returns (ok: bool)
      modifies this`served
      ensures ok <==> MayServe(old(View()), request, scope)
      ensures View() == old(View()).(served := old(served) || ok)
    {
      if !request {
        return false;
      }
      if !scope || closing || retired {
        return false;
      }
      if !attempted || served || closing {
        return false;
      }
      if !html {
        return false;
      }
      served := true;
      return true;
    }

    /** The native Destroyed event; the reason that will be reported, unless it was already handled. */
    method WindowDestroyed() returns (report: Option<Reason>)
      modifies this
      ensures report == if old(destroyed) then None else Some(Fence(old(View()), ByClose).reason)
      ensures View() == if old(destroyed) then Fence(old(View()), ByClose) else Destroy(Fence(old(View()), ByClose))
    {
      FenceWith(ByClose);
      if destroyed {
        return None;
      }
      destroyed := true;
      raw := raw + 1;
      return Some(reason);
    }

    method ReleaseRaw()
      requires raw > 0
      modifies this`raw
      ensures View() == DropRaw(old(View()))
    {
      raw := raw - 1;
    }

    /** The decision at the end of `retire`'s loop, on what it read at the start of the round. */
    method TryRetire(seenDestroyed: bool, seenRaw: nat) returns (done: bool)
      modifies this`retired, this`html, this`window
      ensures done <==> seenRaw == 0 && (seenDestroyed || !old(window))
      ensures View() == if done then Retire(old(View())) else old(View())
    {
      if seenRaw == 0 && (seenDestroyed || !window) {
        retired := true;
        html := false;
        window := false;
        return true;
      }
      return false;
    }
  }

  class ViewerTable {
    var bound: bool
    var closing: bool
    var entries: map<Id, EntryObject>
    var ids: set<Id>

    function View(): Table
      reads this
    {
      Table(bound, closing, entries.Keys, ids)
    }

    constructor ()
      ensures View() == Table(false, false, {}, {})
    {
      bound, closing, entries, ids := false, false, map[], {};
    }

    method Register(id: Id) returns (result: Result<EntryObject, ViewerError>)
      modifies this`entries, this`ids
      ensures result.Success? <==> Registration(old(View()), id).Success?
      ensures result.Failure? ==> result.error == Registration(old(View()), id).error && View() == old(View())
      ensures result.Success? ==>
                && View() == Registration(old(View()), id).value
                && fresh(result.value) && result.value.id == id && result.value.View() == NEW_ENTRY
                && entries == old(entries)[id := result.value]
    {
      if closing || !bound {
        return Failure(Disconnected);
      }
      if id in ids {
        return Failure(StaleEpoch);
      }
      if |entries.Keys| >= ACTIVE || |ids| >= EPOCH_IDS {
        return Failure(Backpressure);
      }
      ids := ids + {id};
      var entry := new EntryObject(id);
      entries := entries[id := entry];
      return Success(entry);
    }

    /** The lock section at the start of `retire`. */
    method FindOrBury(id: Id) returns (result: Result<Option<EntryObject>, ViewerError>)
      modifies this`ids
      ensures result.Success? <==> Tombstone(old(View()), id).Success?
      ensures result.Failure? ==> result.error == Tombstone(old(View()), id).error && View() == old(View())
      ensures result.Success? ==>
                && View() == Tombstone(old(View()), id).value
                && result.value == if id in entries then Some(entries[id]) else None
    {
      if id in entries {
        return Success(Some(entries[id]));
      }
      if id !in ids && |ids| >= EPOCH_IDS {
        return Failure(Backpressure);
      }
      ids := ids + {id};
      return Success(None);
    }

    method Remove(id: Id)
      modifies this`entries
      ensures View() == old(View()).(entries := old(View()).entries - {id})
    {
      entries := entries - {id};
    }

    /** Close the table and fence every entry in it, under the table's lock. */
    method Stop()
      modifies this`closing, entries.Values`closing, entries.Values`reason
      ensures View() == old(View()).(closing := true) && entries == old(entries)
      ensures forall e | e in entries.Values :: e.View() == Fence(old(e.View()), ByParent)
    {
      closing := true;
      var rest := entries.Values;
      while rest != {}
        invariant closing && rest <= entries.Values
        invariant forall e | e in rest :: e.View() == old(e.View())
        invariant forall e | e in entries.Values && e !in rest :: e.View() == Fence(old(e.View()), ByParent)
      {
        var e :| e in rest;
        e.FenceWith(ByParent);
        rest := rest - {e};
      }
    }
  }
}
