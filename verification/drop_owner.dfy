/**
 The drop owner and its groups as objects that are updated in place. Every method is one
 lock section, or one piece of code between two awaits, of native_attachment_drop.rs; it
 changes the owner's abstract value exactly as DropSpec says.
 */
module DropOwners {
  import opened Wrappers
  import Spec = DropSpec
  import opened DropSpec

  class Group {
    const id: Id
    const context: Context
    const selections: seq<Id>
    const revision: nat
    var cancelled: bool
    var accepted: bool
    var retired: bool
    var raw: bool
    var timerStarted: bool
    var timerActive: bool
    var timerCancelled: bool

    ghost function View(): Spec.Group
      reads this
    {
      Spec.Group(context, selections, revision, cancelled, accepted, retired, raw,
                 timerStarted, timerActive, timerCancelled)
    }

    constructor (id: Id, context: Context, selections: seq<Id>, revision: nat)
      ensures View() == Spec.Group(context, selections, revision, false, false, false, true, false, false, false)
      ensures this.id == id
    {
      this.id, this.context, this.selections, this.revision := id, context, selections, revision;
      cancelled, accepted, retired, raw := false, false, false, true;
      timerStarted, timerActive, timerCancelled := false, false, false;
    }
  }

  ghost function Views(groups: map<Id, Group>): map<Id, Spec.Group>
    reads groups.Values
  {
    map id | id in groups :: groups[id].View()
  }

  /** Changing one group changes one entry of the view. */
  lemma OneGroup(groups: map<Id, Group>, g: Group, before: map<Id, Spec.Group>)
    requires g.id in groups && groups[g.id] == g && before.Keys == groups.Keys
    requires forall id | id in groups && id != g.id :: groups[id].View() == before[id]
    ensures Views(groups) == before[g.id := g.View()]
  {
  }

  /** Cancelling the live groups changes exactly their entries. */
  lemma LiveGroups(groups: map<Id, Group>, live: set<Id>, before: map<Id, Spec.Group>)
    requires before.Keys == groups.Keys
    requires forall id | id in groups ::
               groups[id].View() == if id in live then before[id].(cancelled := true) else before[id]
    ensures Views(groups) == map id | id in before :: if id in live then before[id].(cancelled := true) else before[id]
  {
  }

  /** The flag loop of `begin_context` and `invalidate`. */
  method CancelAll(groups: set<Group>)
    modifies groups`cancelled
    ensures forall g | g in groups :: g.View() == old(g.View()).(cancelled := true)
  {
    var rest := groups;
    while rest != {}
      invariant rest <= groups
      invariant forall g | g in groups && g !in rest :: g.cancelled
    {
      var g :| g in rest;
      g.cancelled := true;
      rest := rest - {g};
    }
  }

  class DropOwner {
    var configured: bool
    var stopped: bool
    var revision: nat
    var active: Option<Context>
    var candidate: Option<Context>
    var registration: Option<Registration>
    var usedContexts: set<Id>
    var usedDrops: map<Id, Context>
    var groups: map<Id, Group>
    ghost var captured: map<Id, Group>

    ghost predicate Valid()
      reads this`groups, this`captured
    {
      && (forall id | id in groups :: id in captured && captured[id] == groups[id])
      && (forall id | id in captured :: captured[id].id == id)
    }

    ghost function View(): Owner
      reads this, captured.Values
    {
      Owner(configured, stopped, revision, active, candidate, registration, usedContexts, usedDrops, groups.Keys,
            Views(captured))
    }

    /** `g` is a group this owner once captured. */
    ghost predicate Knows(g: Group)
      reads this`captured
    {
      g.id in captured && captured[g.id] == g
    }

    lemma Sole(g: Group)
      requires Valid()
      ensures forall id | id in captured && id != g.id :: captured[id] != g
    {
    }

    constructor ()
      ensures Valid() && View() == INITIAL
    {
      configured, stopped, revision := false, false, 0;
      active, candidate, registration := None, None, None;
      usedContexts, usedDrops, groups, captured := {}, map[], map[], map[];
    }

    method Configure() returns (result: Result<(), Error>)
      requires Valid()
      modifies this`configured
      ensures View() == old(View()).(configured := true)
      ensures result.Success? <==> !old(configured)
    {
      if configured { return Failure(Refused); }
      configured := true;
      result := Success(());
    }

    /** Moves on to the next revision and cancels every group of the map. */
    method Supersede(context: Option<Context>) returns (fenced: set<Group>)
      requires Valid() && revision < MAX_REVISION
      modifies this`revision, this`active, this`candidate, groups.Values`cancelled
      ensures fenced == groups.Values
      ensures View() == CancelLive(old(View()).(revision := old(revision) + 1, active := None, candidate := context))
    {
      revision := revision + 1;
      active := None;
      candidate := context;
      fenced := groups.Values;
      CancelAll(fenced);
      forall id | id in captured
        ensures captured[id].View() ==
                if id in groups then old(captured[id].View()).(cancelled := true) else old(captured[id].View())
      {
        assert captured[id] in fenced <==> id in groups;
      }
      LiveGroups(captured, groups.Keys, old(Views(captured)));
    }

    /** The nonce check of `begin_context`; an admitted nonce is recorded, and then the registration. */
    method Admit(context: Option<Context>, incoming: Option<Registration>) returns (result: Result<(), Error>)
      requires Valid()
      modifies this`usedContexts, this`registration
      ensures match AdmitContext(old(View()), context)
              case Failure(e) => result == Failure(e) && View() == old(View())
              case Success(used) =>
                && result.Success?
                && View() == old(View()).(usedContexts := used,
                                          registration := if incoming.Some? then incoming else old(registration))
    {
      if context.Some? {
        var id := context.value.id;
        if !IsUuid(id) { return Failure(InvalidArguments); }
        if id in usedContexts && candidate != context && active != context { return Failure(Refused); }
        if id !in usedContexts && |usedContexts| >= MAX_IDS { return Failure(Backpressure); }
        usedContexts := usedContexts + {id};
      }
      if incoming.Some? {
        registration := incoming;
      }
      result := Success(());
    }

    /** Fences the groups of the map and returns them for cleanup. */
    method BeginContext(context: Option<Context>, incoming: Option<Registration>)
      returns (result: Result<nat, Error>, fenced: set<Group>)
      requires Valid()
      modifies this`usedContexts, this`registration
      modifies this`revision, this`active, this`candidate, groups.Values`cancelled
      ensures View() == Spec.BeginContext(old(View()), context, incoming).0
      ensures result == Spec.BeginContext(old(View()), context, incoming).1
      ensures fenced == if result.Success? then groups.Values else {}
    {
      if stopped || !configured { return Failure(Disconnected), {}; }
      if Stale(registration, incoming) { return Failure(Refused), {}; }
      var admitted := Admit(context, incoming);
      if admitted.Failure? { return Failure(admitted.error), {}; }
      result, fenced := NextRevision(context);
    }

    method NextRevision(context: Option<Context>) returns (result: Result<nat, Error>, fenced: set<Group>)
      requires Valid()
      modifies this`revision, this`active, this`candidate, groups.Values`cancelled
      ensures View() == Spec.NextRevision(old(View()), context).0
      ensures result == Spec.NextRevision(old(View()), context).1
      ensures fenced == if result.Success? then groups.Values else {}
    {
      if revision >= MAX_REVISION { return Failure(Refused), {}; }
      fenced := Supersede(context);
      result := Success(revision);
    }

    /** The end of a registration driver; `guard` is the document check just before it. */
    method Activate(claimed: nat, context: Option<Context>, guard: bool) returns (ok: bool)
      requires Valid()
      modifies this`active
      ensures !guard ==> !ok && View() == old(View())
      ensures guard ==> View() == Spec.Activate(old(View()), claimed, context).0
                        && ok == Spec.Activate(old(View()), claimed, context).1.Success?
    {
      if !guard { return false; }
      if stopped || revision != claimed || candidate != context { return false; }
      active := context;
      ok := true;
    }

    method AddGroup(id: Id, context: Context, selections: seq<Id>) returns (group: Group)
      requires Valid() && id !in captured
      modifies this`usedDrops, this`groups, this`captured
      ensures Valid() && fresh(group) && Knows(group) && groups == old(groups)[id := group]
      ensures group.View() == Spec.Group(context, selections, revision, false, false, false, true, false, false, false)
      ensures View() == var o := old(View());
                o.(usedDrops := o.usedDrops[id := context], live := o.live + {id},
                   groups := o.groups[id := NewGroup(o, context, selections)])
    {
      group := new Group(id, context, selections, revision);
      usedDrops := usedDrops[id := context];
      groups := groups[id := group];
      captured := captured[id := group];
      assert Views(captured) == old(Views(captured))[id := group.View()];
      assert groups.Keys == old(groups).Keys + {id};
    }

    /** The arguments are judged before the document guard, the guard before the owner's state. */
    method Capture(id: Id, selections: seq<Id>, lease: string, epoch: string, guard: Result<(), Error>)
      returns (result: Result<Group, Error>)
      requires Valid() && usedDrops.Keys == captured.Keys
      modifies this`usedDrops, this`groups, this`captured
      ensures Valid()
      ensures !IsUuid(id) || !ValidSelections(selections) ==> result == Failure(InvalidArguments)
      ensures IsUuid(id) && ValidSelections(selections) && guard.Failure? ==> result == Failure(guard.error)
      ensures guard.Failure? ==> View() == old(View())
      ensures guard.Success? ==> View() == Spec.Capture(old(View()), id, selections, lease, epoch).0
      ensures guard.Success? ==>
                (result.Success? <==> Spec.Capture(old(View()), id, selections, lease, epoch).1.Success?)
      ensures guard.Success? && result.Failure? ==>
                result.error == Spec.Capture(old(View()), id, selections, lease, epoch).1.error
      ensures result.Success? ==> fresh(result.value) && Knows(result.value) && groups[id] == result.value
      ensures result.Success? ==>
                var g := result.value;
                && g.id == id && g.selections == selections && Some(g.context) == active && g.revision == revision
                && g.raw && !g.cancelled && !g.accepted && !g.retired && !g.timerStarted
    {
      if !IsUuid(id) || !ValidSelections(selections) { return Failure(InvalidArguments); }
      if guard.Failure? { return Failure(guard.error); }
      if stopped { return Failure(Disconnected); }
      if active.None? || active.value.lease != lease || active.value.epoch != epoch { return Failure(Refused); }
      if |groups| >= MAX_GROUPS || |usedDrops| >= MAX_IDS { return Failure(Backpressure); }
      if id in usedDrops { return Failure(Refused); }
      var group := AddGroup(id, active.value, selections);
      result := Success(group);
    }

    method Check(g: Group, read: bool, offerExpired: bool, guard: bool) returns (ok: bool)
      requires Valid() && Knows(g)
      ensures ok == Spec.Check(View(), g.id, read, offerExpired, guard)
    {
      if g.cancelled || g.retired || (read && !g.accepted) || (!g.accepted && offerExpired) { return false; }
      if !guard { return false; }
      if stopped || revision != g.revision || active != Some(g.context) { return false; }
      ok := true;
    }

    /** `check_selection`: the first owning group met decides. */
    method CheckSelection(s: Id, lease: string, offerExpired: bool, guard: bool)
      returns (ok: bool, found: Option<Id>)
      requires Valid()
      ensures if found.Some? then found.value in Owning(View(), s) else Owning(View(), s) == {}
      ensures ok == Spec.CheckSelection(View(), s, lease, found, offerExpired, guard)
    {
      found := None;
      var rest := groups.Keys;
      while rest != {} && found.None?
        invariant rest <= groups.Keys
        invariant found.None? ==> forall id | id in groups && id !in rest :: s !in groups[id].selections
        invariant found.Some? ==> found.value in groups && s in groups[found.value].selections
        decreases rest
      {
        var id :| id in rest;
        rest := rest - {id};
        if s in groups[id].selections {
          found := Some(id);
        }
      }
      if found.None? {
        assert Owning(View(), s) == {};
        return true, found;
      }
      var g := groups[found.value];
      assert g.View() == View().groups[found.value];
      if g.context.lease != lease { return false, found; }
      ok := Check(g, true, offerExpired, guard);
    }

    /** `accept`; the offer time and the document guard are oracles. */
    method Accept(id: Id, context: Context, offerExpired: bool, guard: bool) returns (ok: bool)
      requires Valid()
      modifies groups.Values`accepted
      ensures ok <==> id in groups && groups[id].context == context
                      && Spec.Check(old(View()), id, false, offerExpired, guard)
      ensures ok ==> View() == Spec.Accept(old(View()), id, context).0
                     && Spec.Accept(old(View()), id, context).1.Success?
      ensures ok ==> groups[id].accepted && !groups[id].cancelled
      ensures !ok ==> View() == old(View())
    {
      if id !in groups { return false; }
      var g := groups[id];
      if g.context != context { return false; }
      var current := Check(g, false, offerExpired, guard);
      if !current { return false; }
      if stopped || revision != g.revision || active != Some(context) || g.cancelled { return false; }
      g.accepted := true;
      Sole(g);
      OneGroup(captured, g, old(Views(captured)));
      ok := true;
    }

    /** The synchronous part of `close`. */
    method Close(id: Id, context: Context) returns (ok: bool, found: Option<Group>)
      requires Valid()
      modifies groups.Values`cancelled
      ensures View() == Spec.Close(old(View()), id, context).0
      ensures ok == Spec.Close(old(View()), id, context).1.Success?
      ensures found.Some? <==> Spec.Close(old(View()), id, context).1 == Success(true)
      ensures found.Some? ==> id in groups && found.value == groups[id]
    {
      found := None;
      if id !in usedDrops || usedDrops[id] != context { return false, None; }
      if id in groups {
        found := Some(groups[id]);
        found.value.cancelled := true;
        Sole(found.value);
        OneGroup(captured, found.value, old(Views(captured)));
      }
      ok := true;
    }

    method Invalidate(stop: bool) returns (ok: bool, fenced: set<Group>)
      requires Valid()
      modifies this`stopped, this`revision, this`active, this`candidate, groups.Values`cancelled
      ensures View() == Spec.Invalidate(old(View()), stop).0
      ensures ok == Spec.Invalidate(old(View()), stop).1.Success?
      ensures fenced == if ok then groups.Values else {}
    {
      if revision >= MAX_REVISION { return false, {}; }
      fenced := Supersede(None);
      stopped := stopped || stop;
      ok := true;
    }

    /** `expire`: starts the offer timer of a group once. */
    method Expire(g: Group)
      requires Valid() && Knows(g)
      modifies g`timerStarted, g`timerActive
      ensures View() == StartTimer(old(View()), g.id)
    {
      if g.timerStarted { return; }
      g.timerStarted := true;
      g.timerActive := true;
      Sole(g);
      OneGroup(captured, g, old(Views(captured)));
    }

    /** The timer task ends; it goes on to close the group when the offer expired unaccepted. */
    method TimerEnds(g: Group, expired: bool) returns (close: bool)
      requires Valid() && Knows(g)
      modifies g`timerActive
      ensures View() == UpdateGroup(old(View()), g.id, old(g.View()).(timerActive := false))
      ensures close == (expired && !old(g.accepted))
    {
      g.timerActive := false;
      Sole(g);
      OneGroup(captured, g, old(Views(captured)));
      close := expired && !g.accepted;
    }

    method FinishRaw(g: Group)
      requires Valid() && Knows(g)
      modifies g`raw
      ensures View() == UpdateGroup(old(View()), g.id, old(g.View()).(raw := false))
    {
      g.raw := false;
      Sole(g);
      OneGroup(captured, g, old(Views(captured)));
    }

    /** `close_group` before it waits for the cleanup mutex. */
    method CancelGroup(g: Group)
      requires Valid() && Knows(g)
      modifies g`cancelled
      ensures View() == UpdateGroup(old(View()), g.id, old(g.View()).(cancelled := true))
    {
      g.cancelled := true;
      Sole(g);
      OneGroup(captured, g, old(Views(captured)));
    }

    /** The start of `stop_timer`, after the raw capture has been joined. */
    method CancelTimer(g: Group)
      requires Valid() && Knows(g)
      modifies g`timerCancelled
      ensures View() == UpdateGroup(old(View()), g.id, old(g.View()).(timerCancelled := true))
    {
      g.timerCancelled := true;
      Sole(g);
      OneGroup(captured, g, old(Views(captured)));
    }

    /** `close_group` after the retire callback succeeded. */
    method MarkRetired(g: Group)
      requires Valid() && Knows(g)
      modifies g`retired
      ensures View() == UpdateGroup(old(View()), g.id, old(g.View()).(retired := true))
    {
      g.retired := true;
      Sole(g);
      OneGroup(captured, g, old(Views(captured)));
    }

    method Remove(g: Group)
      requires Valid() && Knows(g)
      modifies this`groups
      ensures Valid() && View() == old(View()).(live := old(View()).live - {g.id})
    {
      groups := groups - {g.id};
    }
  }
}
