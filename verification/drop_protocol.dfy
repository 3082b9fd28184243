/**
 The drop owner under concurrency. Registration drivers, `close_group` callers, offer
 timers and raw captures are interleaved freely; each step is one lock section or one
 piece of code between two awaits.
 */
module DropProtocol {
  import opened Wrappers
  import opened DropSpec

  type TaskId = nat

  /** How far the task that holds a group's cleanup mutex has got in `close_group`. */
  datatype Stage = Joining | Stopping | Retiring | Removing

  datatype Hold = Hold(holder: TaskId, stage: Stage)

  datatype Job =
    | Registering(revision: nat, context: Option<Context>)
    | ShuttingDown
    | RetiringDocument
    | Closing

  /**
   `todo` holds the groups a task has yet to close, in the arbitrary order of the owner's
   map; `at` is the one whose `close_group` call it is in.
   */
  datatype Task =
    | Running(job: Job, todo: set<Id>, at: Option<Id>)
    | Finished(job: Job, ok: bool)

  /** `retirements` counts how often a group's retire callback has succeeded. */
  datatype World = World(
    o: Owner,
    tasks: map<TaskId, Task>,
    holds: map<Id, Hold>,
    retirements: map<Id, nat>)

  /** What the user interface, the native callbacks, the timers and the raw captures do. */
  datatype Call =
    | Configure
    | Register(t: TaskId, intent: Option<Context>, registration: Option<Registration>)
    | Drop(id: Id, selections: seq<Id>, lease: string, epoch: string)
    | Accepted(id: Id, context: Context)
    | CloseCalled(t: TaskId, id: Id, context: Context)
    | CloseGroup(t: TaskId, id: Id)
    | Fence(stop: bool)
    | RetireDocument(t: TaskId)
    | Shutdown(t: TaskId)
    | Expire(id: Id)
    | TimerEnds(id: Id, expired: bool, t: TaskId)
    | RawFinished(id: Id)

  /** What a cleanup task does next. */
  datatype Move =
    | Cancel(id: Id)
    | Lock
    | RawJoined
    | TimerStopped
    | RetireReturns(ok: bool)
    | Remove
    | Finish(guard: bool)

  datatype Event = Outside(call: Call) | Inside(t: TaskId, move: Move)

  ghost predicate Init(w: World) {
    w.o == INITIAL && w.tasks == map[] && w.holds == map[] && w.retirements == map[]
  }

  predicate IsRunning(w: World, t: TaskId) {
    t in w.tasks && w.tasks[t].Running?
  }

  /** Task `t` is inside `close_group`. */
  predicate InClose(w: World, t: TaskId) {
    IsRunning(w, t) && w.tasks[t].at.Some? && w.tasks[t].at.value in w.o.groups
  }

  function At(w: World, t: TaskId): Id
    requires InClose(w, t)
  {
    w.tasks[t].at.value
  }

  predicate Holds(w: World, t: TaskId, stage: Stage) {
    InClose(w, t) && At(w, t) in w.holds && w.holds[At(w, t)] == Hold(t, stage)
  }

  predicate Between(w: World, t: TaskId) {
    IsRunning(w, t) && w.tasks[t].at.None?
  }

  predicate CallEnabled(w: World, c: Call) {
    match c
    case Configure => !w.o.configured
    case Register(t, _, _) => t !in w.tasks
    case Drop(_, _, _, _) => true
    case Accepted(id, context) => id in w.o.groups && w.o.groups[id].context == context
    case CloseCalled(t, _, _) => t !in w.tasks && w.o.live <= w.o.groups.Keys
    case CloseGroup(t, id) => t !in w.tasks && id in w.o.groups
    case Fence(_) => true
    case RetireDocument(t) => t !in w.tasks
    case Shutdown(t) => t !in w.tasks
    // The capture code installs the timer while it still holds its raw receipt.
    case Expire(id) => id in w.o.groups && w.o.groups[id].raw
    case TimerEnds(id, _, t) => id in w.o.groups && w.o.groups[id].timerActive && t !in w.tasks
    case RawFinished(id) => id in w.o.groups
  }

  predicate MoveEnabled(w: World, t: TaskId, m: Move) {
    match m
    case Cancel(id) => Between(w, t) && id in w.tasks[t].todo && id in w.o.groups
    case Lock => InClose(w, t) && At(w, t) !in w.holds
    case RawJoined => Holds(w, t, Joining) && !w.o.groups[At(w, t)].raw
    case TimerStopped => Holds(w, t, Stopping) && !w.o.groups[At(w, t)].timerActive
    case RetireReturns(_) => Holds(w, t, Retiring)
    case Remove => Holds(w, t, Removing)
    case Finish(_) => Between(w, t) && w.tasks[t].todo == {}
  }

  predicate Enabled(w: World, e: Event) {
    match e
    case Outside(call) => CallEnabled(w, call)
    case Inside(t, move) => MoveEnabled(w, t, move)
  }

  function SetTask(w: World, t: TaskId, task: Task): World {
    w.(tasks := w.tasks[t := task])
  }

  function SetGroup(w: World, id: Id, g: Group): World {
    w.(o := UpdateGroup(w.o, id, g))
  }

  function SetHold(w: World, id: Id, t: TaskId, stage: Stage): World {
    w.(holds := w.holds[id := Hold(t, stage)])
  }

  function Unlock(w: World, id: Id): World {
    w.(holds := w.holds - {id})
  }

  /** `id` is dealt with: go on with another group. */
  function Advance(w: World, t: TaskId, id: Id): World
    requires IsRunning(w, t)
  {
    SetTask(w, t, w.tasks[t].(todo := w.tasks[t].todo - {id}, at := None))
  }

  /** Closing `id` failed: only `retire_document` goes on to another group. */
  function Fail(w: World, t: TaskId, id: Id): World
    requires IsRunning(w, t)
  {
    if w.tasks[t].job.RetiringDocument? then Advance(w, t, id) else SetTask(w, t, Finished(w.tasks[t].job, false))
  }

  function Count(w: World, id: Id): nat {
    if id in w.retirements then w.retirements[id] else 0
  }

  function DoRegister(w: World, t: TaskId, intent: Option<Context>, registration: Option<Registration>): World {
    var (o, result) := BeginContext(w.o, intent, registration);
    SetTask(w.(o := o), t,
            match result
            case Failure(_) => Finished(Closing, false)
            case Success(revision) => Running(Registering(revision, intent), o.live, None))
  }

  function DoCloseCalled(w: World, t: TaskId, id: Id, context: Context): World
    requires w.o.live <= w.o.groups.Keys
  {
    var (o, result) := Close(w.o, id, context);
    SetTask(w.(o := o), t,
            match result
            case Failure(_) => Finished(Closing, false)
            case Success(found) => Running(Closing, if found then {id} else {}, None))
  }

  function DoInvalidate(w: World, t: TaskId, stop: bool, job: Job): World {
    var (o, result) := Invalidate(w.o, stop);
    SetTask(w.(o := o), t, if result.Failure? then Finished(job, false) else Running(job, o.live, None))
  }

  function DoTimerEnds(w: World, id: Id, expired: bool, t: TaskId): World
    requires id in w.o.groups
  {
    var stopped := SetGroup(w, id, w.o.groups[id].(timerActive := false));
    if expired && !w.o.groups[id].accepted then SetTask(stopped, t, Running(Closing, {id}, None)) else stopped
  }

  function DoCancel(w: World, t: TaskId, id: Id): World
    requires IsRunning(w, t) && id in w.o.groups
  {
    SetTask(SetGroup(w, id, w.o.groups[id].(cancelled := true)), t, w.tasks[t].(at := Some(id)))
  }

  function DoLock(w: World, t: TaskId): World
    requires InClose(w, t)
  {
    var id := At(w, t);
    if w.o.groups[id].retired then Advance(w, t, id) else SetHold(w, id, t, Joining)
  }

  function DoRawJoined(w: World, t: TaskId): World
    requires InClose(w, t)
  {
    var id := At(w, t);
    SetHold(SetGroup(w, id, w.o.groups[id].(timerCancelled := true)), id, t, Stopping)
  }

  function DoTimerStopped(w: World, t: TaskId): World
    requires InClose(w, t)
  {
    var id := At(w, t);
    if w.o.configured then SetHold(w, id, t, Retiring) else Fail(Unlock(w, id), t, id)
  }

  function DoRetireReturns(w: World, t: TaskId, ok: bool): World
    requires InClose(w, t)
  {
    var id := At(w, t);
    if ok then
      SetHold(SetGroup(w.(retirements := w.retirements[id := Count(w, id) + 1]), id, w.o.groups[id].(retired := true)),
              id, t, Removing)
    else Fail(Unlock(w, id), t, id)
  }

  function DoRemove(w: World, t: TaskId): World
    requires InClose(w, t)
  {
    var id := At(w, t);
    Advance(Unlock(w.(o := w.o.(live := w.o.live - {id})), id), t, id)
  }

  function DoFinish(w: World, t: TaskId, guard: bool): World
    requires IsRunning(w, t)
  {
    match w.tasks[t].job
    case Registering(revision, context) =>
      if !guard then SetTask(w, t, Finished(w.tasks[t].job, false))
      else
        var (o, result) := Activate(w.o, revision, context);
        SetTask(w.(o := o), t, Finished(w.tasks[t].job, result.Success?))
    case job => SetTask(w, t, Finished(job, true))
  }

  function ApplyCall(w: World, c: Call): World
    requires CallEnabled(w, c)
  {
    match c
    case Configure => w.(o := w.o.(configured := true))
    case Register(t, intent, registration) => DoRegister(w, t, intent, registration)
    case Drop(id, selections, lease, epoch) => w.(o := Capture(w.o, id, selections, lease, epoch).0)
    case Accepted(id, context) => w.(o := Accept(w.o, id, context).0)
    case CloseCalled(t, id, context) => DoCloseCalled(w, t, id, context)
    case CloseGroup(t, id) => SetTask(w, t, Running(Closing, {id}, None))
    case Fence(stop) => w.(o := Invalidate(w.o, stop).0)
    case RetireDocument(t) => DoInvalidate(w, t, false, RetiringDocument)
    case Shutdown(t) => DoInvalidate(w, t, true, ShuttingDown)
    case Expire(id) => w.(o := StartTimer(w.o, id))
    case TimerEnds(id, expired, t) => DoTimerEnds(w, id, expired, t)
    case RawFinished(id) => SetGroup(w, id, w.o.groups[id].(raw := false))
  }

  function ApplyMove(w: World, t: TaskId, m: Move): World
    requires MoveEnabled(w, t, m)
  {
    match m
    case Cancel(id) => DoCancel(w, t, id)
    case Lock => DoLock(w, t)
    case RawJoined => DoRawJoined(w, t)
    case TimerStopped => DoTimerStopped(w, t)
    case RetireReturns(ok) => DoRetireReturns(w, t, ok)
    case Remove => DoRemove(w, t)
    case Finish(guard) => DoFinish(w, t, guard)
  }

  function Apply(w: World, e: Event): World
    requires Enabled(w, e)
  {
    match e
    case Outside(call) => ApplyCall(w, call)
    case Inside(t, move) => ApplyMove(w, t, move)
  }

  // ---------------------------------------------------------------- invariant

  /** At most one context is in force, and a fresh owner state has its nonce on record. */
  ghost predicate OneContext(o: Owner) {
    && (o.active.Some? ==> o.candidate == o.active && !o.stopped)
    && (o.candidate.Some? ==> o.candidate.value.id in o.usedContexts)
  }

  ghost predicate Bookkeeping(o: Owner) {
    && o.live <= o.groups.Keys
    && o.usedDrops.Keys == o.groups.Keys
    && |o.live| <= MAX_GROUPS && |o.usedDrops| <= MAX_IDS && |o.usedContexts| <= MAX_IDS
    && o.revision <= MAX_REVISION
  }

  /** A live group belongs to the active context and revision; without one it is cancelled. */
  ghost predicate InForce(o: Owner, g: Group) {
    if o.active.Some? then g.context == o.active.value && g.revision == o.revision else g.cancelled
  }

  /** A group is quiet before it is retired, retired once, and retired before it leaves the map. */
  ghost predicate GroupOk(w: World, id: Id)
    requires id in w.o.groups
  {
    var g := w.o.groups[id];
    && id in w.o.usedDrops && w.o.usedDrops[id] == g.context
    && (id in w.o.live ==> InForce(w.o, g))
    && (id !in w.o.live ==> g.retired)
    && Count(w, id) == (if g.retired then 1 else 0)
    && (g.retired ==> g.cancelled && !g.raw && !g.timerActive)
    && (g.retired && id in w.o.live ==> id in w.holds && w.holds[id].stage == Removing)
    && (id in w.holds ==>
          && g.cancelled
          && (g.retired <==> w.holds[id].stage == Removing)
          && (w.holds[id].stage != Joining ==> !g.raw && g.timerCancelled)
          && (w.holds[id].stage == Retiring ==> !g.timerActive))
  }

  /** A task that must empty the map still lists every group that is in it. */
  ghost predicate Covers(o: Owner, task: Task) {
    match task
    case Running(job, todo, _) =>
      && (job.Registering? ==>
            job.revision <= o.revision && (job.revision == o.revision ==> o.active.None? && o.live <= todo))
      && (job.ShuttingDown? ==> o.stopped && o.live <= todo)
    case Finished(job, ok) => job.ShuttingDown? && ok ==> o.stopped && o.live == {}
  }

  ghost predicate TaskOk(o: Owner, task: Task) {
    && Covers(o, task)
    && (task.Running? ==> task.todo <= o.groups.Keys)
    && (task.Running? && task.at.Some? ==>
          task.at.value in task.todo && o.groups[task.at.value].cancelled)
  }

  ghost predicate IsDriver(w: World, t: TaskId) {
    IsRunning(w, t) && w.tasks[t].job.Registering?
  }

  ghost predicate GroupsOk(w: World) {
    forall id {:trigger GroupOk(w, id)} | id in w.o.groups :: GroupOk(w, id)
  }

  ghost predicate TasksOk(w: World) {
    forall t {:trigger TaskOk(w.o, w.tasks[t])} | t in w.tasks :: TaskOk(w.o, w.tasks[t])
  }

  /** No two unfinished drivers were started at the same revision. */
  ghost predicate Distinct(w: World) {
    forall s, t {:trigger IsDriver(w, s), IsDriver(w, t)} |
      IsDriver(w, s) && IsDriver(w, t) && s != t :: w.tasks[s].job.revision != w.tasks[t].job.revision
  }

  ghost predicate Inv(w: World) {
    && OneContext(w.o)
    && Bookkeeping(w.o)
    && w.holds.Keys <= w.o.groups.Keys
    && w.retirements.Keys <= w.o.groups.Keys
    && GroupsOk(w)
    && TasksOk(w)
    && Distinct(w)
  }

  lemma InitInv(w: World)
    requires Init(w)
    ensures Inv(w)
  {
  }
  // ------------------------------------------- steps that touch one group and one task

  ghost predicate Touches(w: World, v: World, t: TaskId, id: Id) {
    && id in w.o.groups && id in v.o.groups
    && v.o == w.o.(groups := w.o.groups[id := v.o.groups[id]], live := v.o.live)
    && v.o.live <= w.o.live <= v.o.live + {id}
    && (v.tasks == w.tasks || (t in v.tasks && v.tasks == w.tasks[t := v.tasks[t]]))
    && v.holds - {id} == w.holds - {id}
    && v.retirements - {id} == w.retirements - {id}
  }

  lemma GroupsFrame(w: World, v: World, t: TaskId, id: Id)
    requires GroupsOk(w) && Touches(w, v, t, id) && GroupOk(v, id)
    ensures GroupsOk(v)
  {
    forall x | x in v.o.groups ensures GroupOk(v, x) {
      if x != id {
        assert GroupOk(w, x);
        assert x in v.holds <==> x in v.holds - {id};
        assert x in w.holds <==> x in w.holds - {id};
        assert x in v.retirements <==> x in v.retirements - {id};
        assert x in w.retirements <==> x in w.retirements - {id};
      }
    }
  }

  lemma TasksFrame(w: World, v: World, t: TaskId, id: Id)
    requires TasksOk(w) && Touches(w, v, t, id)
    requires w.o.groups[id].cancelled ==> v.o.groups[id].cancelled
    requires t in v.tasks ==> TaskOk(v.o, v.tasks[t])
    ensures TasksOk(v)
  {
    forall s | s in v.tasks ensures TaskOk(v.o, v.tasks[s]) {
      if s != t {
        assert s in w.tasks && TaskOk(w.o, w.tasks[s]);
      }
    }
  }

  lemma DriversFrame(w: World, v: World, t: TaskId)
    requires Distinct(w)
    requires v.tasks == w.tasks || (t in v.tasks && v.tasks == w.tasks[t := v.tasks[t]])
    requires IsDriver(v, t) ==> IsDriver(w, t) && w.tasks[t].job == v.tasks[t].job
    ensures Distinct(v)
  {
    forall a, b | IsDriver(v, a) && IsDriver(v, b) && a != b
      ensures v.tasks[a].job.revision != v.tasks[b].job.revision
    {
      assert IsDriver(w, a) && IsDriver(w, b);
    }
  }

  lemma LocalStep(w: World, v: World, t: TaskId, id: Id)
    requires Inv(w) && Touches(w, v, t, id) && GroupOk(v, id)
    requires w.o.groups[id].cancelled ==> v.o.groups[id].cancelled
    requires t in v.tasks ==> TaskOk(v.o, v.tasks[t])
    requires IsDriver(v, t) ==> IsDriver(w, t) && w.tasks[t].job == v.tasks[t].job
    ensures Inv(v)
  {
    GroupsFrame(w, v, t, id);
    TasksFrame(w, v, t, id);
    DriversFrame(w, v, t);
    CardinalityFrame(w.o.live, v.o.live);
    forall x | x in v.holds ensures x in v.o.groups {
      assert x == id || x in v.holds - {id};
    }
    forall x | x in v.retirements ensures x in v.o.groups {
      assert x == id || x in v.retirements - {id};
    }
  }

  lemma CardinalityFrame(a: set<Id>, b: set<Id>)
    requires b <= a
    ensures |b| <= |a|
  {
    assert a == b + (a - b);
  }

  lemma FlagInv(w: World, id: Id, h: Group)
    requires Inv(w) && id in w.o.groups && GroupOk(SetGroup(w, id, h), id)
    requires w.o.groups[id].cancelled ==> h.cancelled
    ensures Inv(SetGroup(w, id, h))
  {
    var v := SetGroup(w, id, h);
    GroupsFrame(w, v, 0, id);
    forall s | s in v.tasks ensures TaskOk(v.o, v.tasks[s]) {
      assert TaskOk(w.o, w.tasks[s]);
    }
    DriversFrame(w, v, 0);
  }

  /** A task that is not a driver is added. */
  lemma SpawnInv(w: World, t: TaskId, task: Task)
    requires Inv(w) && t !in w.tasks && TaskOk(w.o, task)
    requires task.Running? ==> !task.job.Registering?
    ensures Inv(SetTask(w, t, task))
  {
    var v := SetTask(w, t, task);
    forall x | x in v.o.groups ensures GroupOk(v, x) {
      assert GroupOk(w, x);
    }
    forall s | s in v.tasks ensures TaskOk(v.o, v.tasks[s]) {
      assert s != t ==> TaskOk(w.o, w.tasks[s]);
    }
    DriversFrame(w, v, t);
  }

  lemma CancelInv(w: World, t: TaskId, id: Id)
    requires Inv(w) && Between(w, t) && id in w.tasks[t].todo && id in w.o.groups
    ensures Inv(DoCancel(w, t, id))
  {
    assert GroupOk(w, id) && TaskOk(w.o, w.tasks[t]);
    LocalStep(w, DoCancel(w, t, id), t, id);
  }

  lemma LockInv(w: World, t: TaskId)
    requires Inv(w) && InClose(w, t) && At(w, t) !in w.holds
    ensures Inv(DoLock(w, t))
  {
    var id := At(w, t);
    assert GroupOk(w, id) && TaskOk(w.o, w.tasks[t]);
    LocalStep(w, DoLock(w, t), t, id);
  }

  lemma RawJoinedInv(w: World, t: TaskId)
    requires Inv(w) && Holds(w, t, Joining) && !w.o.groups[At(w, t)].raw
    ensures Inv(DoRawJoined(w, t))
  {
    var id := At(w, t);
    assert GroupOk(w, id) && TaskOk(w.o, w.tasks[t]);
    LocalStep(w, DoRawJoined(w, t), t, id);
  }

  lemma FailInv(w: World, t: TaskId, id: Id)
    requires Inv(w) && InClose(w, t) && At(w, t) == id
    requires id in w.holds && w.holds[id].stage != Removing
    ensures Inv(Fail(Unlock(w, id), t, id))
  {
    assert GroupOk(w, id) && TaskOk(w.o, w.tasks[t]);
    LocalStep(w, Fail(Unlock(w, id), t, id), t, id);
  }

  lemma TimerStoppedInv(w: World, t: TaskId)
    requires Inv(w) && Holds(w, t, Stopping) && !w.o.groups[At(w, t)].timerActive
    ensures Inv(DoTimerStopped(w, t))
  {
    var id := At(w, t);
    if w.o.configured {
      assert GroupOk(w, id) && TaskOk(w.o, w.tasks[t]);
      LocalStep(w, DoTimerStopped(w, t), t, id);
    } else {
      FailInv(w, t, id);
    }
  }

  lemma RetireReturnsInv(w: World, t: TaskId, ok: bool)
    requires Inv(w) && Holds(w, t, Retiring)
    ensures Inv(DoRetireReturns(w, t, ok))
  {
    var id := At(w, t);
    if ok {
      assert GroupOk(w, id) && TaskOk(w.o, w.tasks[t]);
      LocalStep(w, DoRetireReturns(w, t, ok), t, id);
    } else {
      FailInv(w, t, id);
    }
  }

  lemma RemoveInv(w: World, t: TaskId)
    requires Inv(w) && Holds(w, t, Removing)
    ensures Inv(DoRemove(w, t))
  {
    var id := At(w, t);
    assert GroupOk(w, id) && TaskOk(w.o, w.tasks[t]);
    LocalStep(w, DoRemove(w, t), t, id);
  }

  lemma TimerEndsInv(w: World, id: Id, expired: bool, t: TaskId)
    requires Inv(w) && id in w.o.groups && t !in w.tasks
    ensures Inv(DoTimerEnds(w, id, expired, t))
  {
    assert GroupOk(w, id);
    var h := w.o.groups[id].(timerActive := false);
    FlagInv(w, id, h);
    if expired && !w.o.groups[id].accepted {
      SpawnInv(SetGroup(w, id, h), t, Running(Closing, {id}, None));
    }
  }

  // ------------------------------------------------ steps that change the owner as a whole

  /** The new revision fences every driver that is still running. */
  lemma FenceInv(w: World, o: Owner, candidate: Option<Context>)
    requires Inv(w) && w.o.revision < MAX_REVISION
    requires o.revision == w.o.revision + 1 && o.active.None? && o.candidate == candidate
    requires o.live == w.o.live && o.usedDrops == w.o.usedDrops && o.groups == CancelLive(w.o).groups
    requires w.o.stopped ==> o.stopped
    requires candidate.Some? ==> candidate.value.id in o.usedContexts
    requires |o.usedContexts| <= MAX_IDS
    ensures Inv(w.(o := o))
  {
    var v := w.(o := o);
    forall x | x in v.o.groups ensures GroupOk(v, x) {
      assert GroupOk(w, x);
    }
    forall s | s in v.tasks ensures TaskOk(v.o, v.tasks[s]) {
      assert TaskOk(w.o, w.tasks[s]);
    }
    DriversFrame(w, v, 0);
  }

  lemma NoteInv(w: World, used: set<Id>, registration: Option<Registration>)
    requires Inv(w) && w.o.usedContexts <= used && |used| <= MAX_IDS
    ensures Inv(w.(o := w.o.(usedContexts := used, registration := registration)))
  {
    var v := w.(o := w.o.(usedContexts := used, registration := registration));
    forall x | x in v.o.groups ensures GroupOk(v, x) {
      assert GroupOk(w, x);
    }
    forall s | s in v.tasks ensures TaskOk(v.o, v.tasks[s]) {
      assert TaskOk(w.o, w.tasks[s]);
    }
    DriversFrame(w, v, 0);
  }

  lemma AdmitBound(o: Owner, context: Option<Context>)
    requires Bookkeeping(o) && AdmitContext(o, context).Success?
    ensures o.usedContexts <= AdmitContext(o, context).value
    ensures |AdmitContext(o, context).value| <= MAX_IDS
    ensures context.Some? ==> context.value.id in AdmitContext(o, context).value
  {
    if context.Some? && context.value.id in o.usedContexts {
      assert o.usedContexts + {context.value.id} == o.usedContexts;
    }
  }

  /** A new driver is the only one at the revision it has just claimed. */
  lemma DriverInv(w: World, t: TaskId, context: Option<Context>)
    requires Inv(w) && t !in w.tasks && w.o.active.None?
    requires forall s | IsDriver(w, s) :: w.tasks[s].job.revision < w.o.revision
    ensures Inv(SetTask(w, t, Running(Registering(w.o.revision, context), w.o.live, None)))
  {
    var v := SetTask(w, t, Running(Registering(w.o.revision, context), w.o.live, None));
    forall x | x in v.o.groups ensures GroupOk(v, x) {
      assert GroupOk(w, x);
    }
    forall s | s in v.tasks ensures TaskOk(v.o, v.tasks[s]) {
      assert s != t ==> TaskOk(w.o, w.tasks[s]);
    }
    forall a, b | IsDriver(v, a) && IsDriver(v, b) && a != b
      ensures v.tasks[a].job.revision != v.tasks[b].job.revision
    {
      assert (a == t || IsDriver(w, a)) && (b == t || IsDriver(w, b));
    }
  }

  /** The accepted registration: it fences the owner and starts the only driver of the new revision. */
  lemma FencedRegisterInv(w: World, t: TaskId, o: Owner, intent: Option<Context>)
    requires Inv(w) && t !in w.tasks && Inv(w.(o := o)) && o.active.None? && o.revision > w.o.revision
    ensures Inv(SetTask(w.(o := o), t, Running(Registering(o.revision, intent), o.live, None)))
  {
    forall s | IsDriver(w.(o := o), s) ensures w.tasks[s].job.revision < o.revision {
      assert TaskOk(w.o, w.tasks[s]);
    }
    DriverInv(w.(o := o), t, intent);
  }

  lemma RegisterInv(w: World, t: TaskId, intent: Option<Context>, registration: Option<Registration>)
    requires Inv(w) && t !in w.tasks
    ensures Inv(DoRegister(w, t, intent, registration))
  {
    var (o, result) := BeginContext(w.o, intent, registration);
    if o == w.o {
      SpawnInv(w, t, Finished(Closing, false));
    } else {
      AdmitBound(w.o, intent);
      if result.Failure? {
        NoteInv(w, o.usedContexts, o.registration);
        SpawnInv(w.(o := o), t, Finished(Closing, false));
      } else {
        FenceInv(w, o, intent);
        FencedRegisterInv(w, t, o, intent);
      }
    }
  }

  lemma InvalidateInv(w: World, stop: bool)
    requires Inv(w)
    ensures Inv(w.(o := Invalidate(w.o, stop).0))
  {
    if w.o.revision < MAX_REVISION {
      FenceInv(w, Invalidate(w.o, stop).0, None);
    }
  }

  lemma DoInvalidateInv(w: World, t: TaskId, stop: bool, job: Job)
    requires Inv(w) && t !in w.tasks
    requires job == if stop then ShuttingDown else RetiringDocument
    ensures Inv(DoInvalidate(w, t, stop, job))
  {
    InvalidateInv(w, stop);
    var (o, result) := Invalidate(w.o, stop);
    SpawnInv(w.(o := o), t, if result.Failure? then Finished(job, false) else Running(job, o.live, None));
  }

  ghost function InsertGroup(o: Owner, id: Id, g: Group): Owner {
    o.(usedDrops := o.usedDrops[id := g.context], live := o.live + {id}, groups := o.groups[id := g])
  }

  ghost function Insert(w: World, id: Id, g: Group): World {
    w.(o := InsertGroup(w.o, id, g))
  }

  lemma InsertBooks(o: Owner, id: Id, g: Group)
    requires Bookkeeping(o) && id !in o.usedDrops && |o.live| < MAX_GROUPS && |o.usedDrops| < MAX_IDS
    ensures Bookkeeping(InsertGroup(o, id, g))
  {
    assert o.usedDrops[id := g.context].Keys == o.usedDrops.Keys + {id};
    assert o.groups[id := g].Keys == o.groups.Keys + {id};
  }

  lemma InsertGroups(w: World, id: Id, g: Group)
    requires Inv(w) && w.o.active == Some(g.context) && g.revision == w.o.revision
    requires id !in w.o.usedDrops && !g.retired
    ensures GroupsOk(Insert(w, id, g))
  {
    var v := Insert(w, id, g);
    forall x | x in v.o.groups ensures GroupOk(v, x) {
      assert x != id ==> GroupOk(w, x);
    }
  }

  lemma InsertTasks(w: World, id: Id, g: Group)
    requires OneContext(w.o) && TasksOk(w) && w.o.active.Some? && id !in w.o.groups
    ensures TasksOk(Insert(w, id, g))
  {
    var v := Insert(w, id, g);
    forall s | s in v.tasks ensures TaskOk(v.o, v.tasks[s]) {
      assert TaskOk(w.o, w.tasks[s]);
    }
  }

  lemma InsertInv(w: World, id: Id, g: Group)
    requires Inv(w) && w.o.active == Some(g.context) && g.revision == w.o.revision
    requires id !in w.o.usedDrops && !g.retired
    requires |w.o.live| < MAX_GROUPS && |w.o.usedDrops| < MAX_IDS
    ensures Inv(Insert(w, id, g))
  {
    InsertGroups(w, id, g);
    InsertTasks(w, id, g);
    InsertBooks(w.o, id, g);
    DriversFrame(w, Insert(w, id, g), 0);
  }

  lemma DropInv(w: World, id: Id, selections: seq<Id>, lease: string, epoch: string)
    requires Inv(w)
    ensures Inv(w.(o := Capture(w.o, id, selections, lease, epoch).0))
  {
    if Capture(w.o, id, selections, lease, epoch).1.Success? {
      InsertInv(w, id, NewGroup(w.o, w.o.active.value, selections));
    }
  }

  lemma AcceptedInv(w: World, id: Id, context: Context)
    requires Inv(w) && id in w.o.groups
    ensures Inv(w.(o := Accept(w.o, id, context).0))
  {
    assert GroupOk(w, id);
    if Accept(w.o, id, context).1.Success? {
      FlagInv(w, id, w.o.groups[id].(accepted := true));
    }
  }

  lemma CloseCalledInv(w: World, t: TaskId, id: Id, context: Context)
    requires Inv(w) && t !in w.tasks
    ensures Inv(DoCloseCalled(w, t, id, context))
  {
    var (o, result) := Close(w.o, id, context);
    if o != w.o {
      assert GroupOk(w, id);
      FlagInv(w, id, w.o.groups[id].(cancelled := true));
    }
    SpawnInv(w.(o := o), t,
             match result
             case Failure(_) => Finished(Closing, false)
             case Success(found) => Running(Closing, if found then {id} else {}, None));
  }

  /** A driver activates its context only when nobody has captured or fenced since, so the map is empty. */
  lemma FinishInv(w: World, t: TaskId, guard: bool)
    requires Inv(w) && Between(w, t) && w.tasks[t].todo == {}
    ensures Inv(DoFinish(w, t, guard))
    ensures DoFinish(w, t, guard).o != w.o ==> w.o.live == {}
  {
    var v := DoFinish(w, t, guard);
    assert TaskOk(w.o, w.tasks[t]);
    forall x | x in v.o.groups ensures GroupOk(v, x) {
      assert GroupOk(w, x);
    }
    forall s | s in v.tasks ensures TaskOk(v.o, v.tasks[s]) {
      if s != t {
        assert TaskOk(w.o, w.tasks[s]);
        assert IsDriver(w, s) && IsDriver(w, t) ==> w.tasks[s].job.revision != w.tasks[t].job.revision;
      }
    }
    DriversFrame(w, v, t);
  }

  lemma ConfigureInv(w: World)
    requires Inv(w)
    ensures Inv(w.(o := w.o.(configured := true)))
  {
    var v := w.(o := w.o.(configured := true));
    forall x | x in v.o.groups ensures GroupOk(v, x) {
      assert GroupOk(w, x);
    }
    forall s | s in v.tasks ensures TaskOk(v.o, v.tasks[s]) {
      assert TaskOk(w.o, w.tasks[s]);
    }
    DriversFrame(w, v, 0);
  }

  lemma ExpireInv(w: World, id: Id)
    requires Inv(w) && id in w.o.groups && w.o.groups[id].raw
    ensures Inv(w.(o := StartTimer(w.o, id)))
  {
    assert GroupOk(w, id);
    if !w.o.groups[id].timerStarted {
      FlagInv(w, id, w.o.groups[id].(timerStarted := true, timerActive := true));
    }
  }

  lemma CallInv(w: World, c: Call)
    requires Inv(w) && CallEnabled(w, c)
    ensures Inv(ApplyCall(w, c))
  {
    match c
    case Configure => ConfigureInv(w);
    case Register(t, intent, registration) => RegisterInv(w, t, intent, registration);
    case Drop(id, selections, lease, epoch) => DropInv(w, id, selections, lease, epoch);
    case Accepted(id, context) => AcceptedInv(w, id, context);
    case CloseCalled(t, id, context) => CloseCalledInv(w, t, id, context);
    case CloseGroup(t, id) => SpawnInv(w, t, Running(Closing, {id}, None));
    case Fence(stop) => InvalidateInv(w, stop);
    case RetireDocument(t) => DoInvalidateInv(w, t, false, RetiringDocument);
    case Shutdown(t) => DoInvalidateInv(w, t, true, ShuttingDown);
    case Expire(id) => ExpireInv(w, id);
    case TimerEnds(id, expired, t) => TimerEndsInv(w, id, expired, t);
    case RawFinished(id) =>
      assert GroupOk(w, id);
      FlagInv(w, id, w.o.groups[id].(raw := false));
  }

  lemma MoveInv(w: World, t: TaskId, m: Move)
    requires Inv(w) && MoveEnabled(w, t, m)
    ensures Inv(ApplyMove(w, t, m))
  {
    match m
    case Cancel(id) => CancelInv(w, t, id);
    case Lock => LockInv(w, t);
    case RawJoined => RawJoinedInv(w, t);
    case TimerStopped => TimerStoppedInv(w, t);
    case RetireReturns(ok) => RetireReturnsInv(w, t, ok);
    case Remove => RemoveInv(w, t);
    case Finish(guard) => FinishInv(w, t, guard);
  }

  lemma StepInv(w: World, e: Event)
    requires Inv(w) && Enabled(w, e)
    ensures Inv(Apply(w, e))
  {
    match e
    case Outside(call) => CallInv(w, call);
    case Inside(t, move) => MoveInv(w, t, move);
  }
}
