/**
 What each lock section of the drop owner (native_attachment_drop.rs) does, as functions
 on a value that describes the owner and every group it ever captured. A group object
 outlives its entry in the owner's map, because cleanup tasks keep holding it.
 */
module DropSpec {
  import opened Wrappers

  type Id = string

  const MAX_IDS: nat := 4096
  const MAX_GROUPS: nat := 16
  const MAX_REVISION: nat := 0xFFFF_FFFF_FFFF_FFFF

  datatype Context = Context(id: Id, lease: string, epoch: string)

  datatype Registration = Registration(epoch: string, lease: string, number: nat)

  datatype Error = Disconnected | Refused | InvalidArguments | Backpressure

  /** The flags of one captured drop group. */
  datatype Group = Group(
    context: Context,
    selections: seq<Id>,
    revision: nat,
    cancelled: bool,
    accepted: bool,
    retired: bool,
    raw: bool,
    timerStarted: bool,
    timerActive: bool,
    timerCancelled: bool)

  /** `groups` holds every group ever captured; `live` is the key set of the owner's map. */
  datatype Owner = Owner(
    configured: bool,
    stopped: bool,
    revision: nat,
    active: Option<Context>,
    candidate: Option<Context>,
    registration: Option<Registration>,
    usedContexts: set<Id>,
    usedDrops: map<Id, Context>,
    live: set<Id>,
    groups: map<Id, Group>)

  const INITIAL: Owner := Owner(false, false, 0, None, None, None, {}, map[], {}, map[])

  /** A lower-case version 4 UUID. */
  predicate IsUuid(s: string) {
    && |s| == 36
    && (forall i | 0 <= i < 36 ::
          if i in {8, 13, 18, 23} then s[i] == '-' else '0' <= s[i] <= '9' || 'a' <= s[i] <= 'f')
    && s[14] == '4'
    && s[19] in {'8', '9', 'a', 'b'}
  }

  predicate ValidSelections(selections: seq<Id>) {
    && 0 < |selections| <= 16
    && (forall s | s in selections :: IsUuid(s))
    && (forall i, j | 0 <= i < j < |selections| :: selections[i] != selections[j])
  }

  /** A numbered registration is stale when the stored one is not older for the same document. */
  predicate Stale(stored: Option<Registration>, incoming: Option<Registration>) {
    && incoming.Some? && stored.Some?
    && stored.value.epoch == incoming.value.epoch
    && stored.value.lease == incoming.value.lease
    && stored.value.number >= incoming.value.number
  }

  function UpdateGroup(o: Owner, id: Id, g: Group): Owner {
    o.(groups := o.groups[id := g])
  }

  function CancelLive(o: Owner): Owner {
    o.(groups := map id | id in o.groups ::
         if id in o.live then o.groups[id].(cancelled := true) else o.groups[id])
  }

  /** Whether `begin_context` admits the nonce, and the used nonces after it does. */
  function AdmitContext(o: Owner, context: Option<Context>): Result<set<Id>, Error> {
    if context.None? then Success(o.usedContexts)
    else if !IsUuid(context.value.id) then Failure(InvalidArguments)
    else if context.value.id in o.usedContexts && o.candidate != context && o.active != context then Failure(Refused)
    else if context.value.id !in o.usedContexts && |o.usedContexts| >= MAX_IDS then Failure(Backpressure)
    else Success(o.usedContexts + {context.value.id})
  }

  /** The fence of `begin_context`: the next revision, unless there is none left. */
  function NextRevision(o: Owner, context: Option<Context>): (Owner, Result<nat, Error>) {
    if o.revision >= MAX_REVISION then (o, Failure(Refused))
    else
      (CancelLive(o.(revision := o.revision + 1, active := None, candidate := context)), Success(o.revision + 1))
  }

  /** `begin_context`: a refused overflow has already recorded the nonce and the number. */
  function BeginContext(o: Owner, context: Option<Context>, registration: Option<Registration>)
    : (Owner, Result<nat, Error>)
  {
    if o.stopped || !o.configured then (o, Failure(Disconnected))
    else if Stale(o.registration, registration) then (o, Failure(Refused))
    else match AdmitContext(o, context)
      case Failure(e) => (o, Failure(e))
      case Success(used) =>
        var noted := o.(usedContexts := used,
                        registration := if registration.Some? then registration else o.registration);
        NextRevision(noted, context)
  }

  /** The last lock section of a registration driver. */
  function Activate(o: Owner, revision: nat, context: Option<Context>): (Owner, Result<(), Error>) {
    if o.stopped || o.revision != revision || o.candidate != context then (o, Failure(Refused))
    else (o.(active := context), Success(()))
  }

  function NewGroup(o: Owner, context: Context, selections: seq<Id>): Group {
    Group(context, selections, o.revision, false, false, false, true, false, false, false)
  }

  /** The lock section of `capture`, reached only when the document guard held. */
  function Capture(o: Owner, id: Id, selections: seq<Id>, lease: string, epoch: string)
    : (Owner, Result<(), Error>)
  {
    if !IsUuid(id) || !ValidSelections(selections) then (o, Failure(InvalidArguments))
    else if o.stopped then (o, Failure(Disconnected))
    else if o.active.None? || o.active.value.lease != lease || o.active.value.epoch != epoch then (o, Failure(Refused))
    else if |o.live| >= MAX_GROUPS || |o.usedDrops| >= MAX_IDS then (o, Failure(Backpressure))
    else if id in o.usedDrops then (o, Failure(Refused))
    else
      (o.(usedDrops := o.usedDrops[id := o.active.value],
          live := o.live + {id},
          groups := o.groups[id := NewGroup(o, o.active.value, selections)]), Success(()))
  }

  /** `expire`: only the first call starts the offer timer. */
  function StartTimer(o: Owner, id: Id): Owner
    requires id in o.groups
  {
    if o.groups[id].timerStarted then o
    else UpdateGroup(o, id, o.groups[id].(timerStarted := true, timerActive := true))
  }

  /** `check`, with the elapsed offer time and the document guard as oracles. */
  predicate Check(o: Owner, id: Id, read: bool, offerExpired: bool, guard: bool)
    requires id in o.groups
  {
    var g := o.groups[id];
    && !g.cancelled && !g.retired
    && (read ==> g.accepted)
    && (!g.accepted ==> !offerExpired)
    && guard
    && !o.stopped && o.revision == g.revision && o.active == Some(g.context)
  }

  /** The live groups that were captured with selection `s`. */
  function Owning(o: Owner, s: Id): set<Id> {
    set id | id in o.live && id in o.groups && s in o.groups[id].selections
  }

  /** `check_selection`; `found` is the owning group the map scan happened to meet. */
  predicate CheckSelection(o: Owner, s: Id, lease: string, found: Option<Id>, offerExpired: bool, guard: bool)
    requires if found.Some? then found.value in Owning(o, s) else Owning(o, s) == {}
  {
    found.Some? ==>
      o.groups[found.value].context.lease == lease && Check(o, found.value, true, offerExpired, guard)
  }

  /** The last lock section of `accept`. */
  function Accept(o: Owner, id: Id, context: Context): (Owner, Result<(), Error>)
    requires id in o.groups
  {
    var g := o.groups[id];
    if o.stopped || o.revision != g.revision || o.active != Some(context) || g.cancelled then (o, Failure(Refused))
    else (UpdateGroup(o, id, g.(accepted := true)), Success(()))
  }

  /** The synchronous part of `close`: whether a cleanup task must be started. */
  function Close(o: Owner, id: Id, context: Context): (Owner, Result<bool, Error>)
    requires o.live <= o.groups.Keys
  {
    if id !in o.usedDrops || o.usedDrops[id] != context then (o, Failure(Refused))
    else if id in o.live then (UpdateGroup(o, id, o.groups[id].(cancelled := true)), Success(true))
    else (o, Success(false))
  }

  function Invalidate(o: Owner, stop: bool): (Owner, Result<(), Error>) {
    if o.revision >= MAX_REVISION then (o, Failure(Refused))
    else
      (CancelLive(o.(revision := o.revision + 1, active := None, candidate := None, stopped := o.stopped || stop)),
       Success(()))
  }
}
