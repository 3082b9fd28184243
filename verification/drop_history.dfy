/**
 What the drop owner answers, and what its groups are, told by the run itself: which calls succeed
 and with which error, and each flag of a group from the steps that can change it.
 */
module DropHistory {
  import opened Wrappers
  import opened DropSpec
  import opened DropProtocol
  import opened DropTheorems

  // ---------------------------------------------------------------- arguments

  predicate Hex(s: string) {
    forall c | c in s :: c in "0123456789abcdef"
  }

  /** The five groups of a 36 character text, with the version digit 4 fixed. */
  function Grouped(s: string): string
    requires |s| == 36
  {
    s[..8] + "-" + s[9..13] + "-4" + s[15..18] + "-" + s[19..23] + "-" + s[24..]
  }

  predicate HexGroups(s: string)
    requires |s| == 36
  {
    Hex(s[..8]) && Hex(s[9..13]) && Hex(s[15..18]) && Hex(s[19..23]) && Hex(s[24..])
  }

  lemma GroupsAreHex(s: string)
    requires |s| == 36
    ensures HexGroups(s) <==>
            forall i | 0 <= i < 36 && i !in {8, 13, 14, 18, 23} :: '0' <= s[i] <= '9' || 'a' <= s[i] <= 'f'
  {
    if HexGroups(s) {
      forall i | 0 <= i < 36 && i !in {8, 13, 14, 18, 23}
        ensures '0' <= s[i] <= '9' || 'a' <= s[i] <= 'f'
      {
        HexDigit(s[i]);
        assert i < 8 ==> s[i] in s[..8];
        assert 8 < i < 13 ==> s[i] in s[9..13];
        assert 14 < i < 18 ==> s[i] in s[15..18];
        assert 18 < i < 23 ==> s[i] in s[19..23];
        assert 23 < i ==> s[i] in s[24..];
      }
    } else {
      var c :| (c in s[..8] || c in s[9..13] || c in s[15..18] || c in s[19..23] || c in s[24..])
               && c !in "0123456789abcdef";
      HexDigit(c);
    }
  }

  lemma GroupedIsSame(s: string)
    requires |s| == 36
    ensures s == Grouped(s) <==> s[8] == '-' && s[13] == '-' && s[14] == '4' && s[18] == '-' && s[23] == '-'
  {
    var t := Grouped(s);
    assert |t| == 36 && t[8] == '-' && t[13] == '-' && t[14] == '4' && t[18] == '-' && t[23] == '-';
    assert forall i | 0 <= i < 36 && i !in {8, 13, 14, 18, 23} :: t[i] == s[i];
  }

  /** 8-4-4-4-12 lower-case hexadecimal digits, version 4, variant 10 (section 4 of RFC 9562). */
  lemma UuidShape(s: string)
    ensures IsUuid(s) <==> |s| == 36 && s == Grouped(s) && HexGroups(s) && s[19] in "89ab"
  {
    if |s| == 36 {
      GroupsAreHex(s);
      GroupedIsSame(s);
    }
  }

  lemma HexDigit(c: char)
    ensures c in "0123456789abcdef" <==> '0' <= c <= '9' || 'a' <= c <= 'f'
  {
    var digits := "0123456789abcdef";
    if '0' <= c <= '9' {
      assert digits[c as int - '0' as int] == c;
    } else if 'a' <= c <= 'f' {
      assert digits[c as int - 'a' as int + 10] == c;
    }
  }

  function Elements(s: seq<Id>): set<Id> {
    set x | x in s
  }

  lemma {:induction false} DistinctCount(s: seq<Id>)
    ensures |Elements(s)| <= |s|
    ensures |Elements(s)| == |s| <==> forall i, j | 0 <= i < j < |s| :: s[i] != s[j]
  {
    if s != [] {
      var n := |s| - 1;
      DistinctCount(s[..n]);
      assert s == s[..n] + [s[n]];
      assert Elements(s) == Elements(s[..n]) + {s[n]};
      if s[n] in s[..n] {
        var i :| 0 <= i < n && s[i] == s[n];
        assert Elements(s) == Elements(s[..n]);
      }
    }
  }

  /** One to sixteen ids, none of them twice. */
  lemma SelectionsShape(selections: seq<Id>)
    ensures ValidSelections(selections) <==>
            && 1 <= |selections| <= 16 && |Elements(selections)| == |selections|
            && forall s | s in selections :: IsUuid(s)
  {
    DistinctCount(selections);
  }

  // ---------------------------------------------------------------- capture

  /** Which error a drop gets; a refused one changes nothing. */
  lemma CaptureErrors(o: Owner, id: Id, selections: seq<Id>, lease: string, epoch: string)
    ensures var (p, r) := Capture(o, id, selections, lease, epoch);
            var malformed := !IsUuid(id) || !ValidSelections(selections);
            var elsewhere := o.active.None? || o.active.value.lease != lease || o.active.value.epoch != epoch;
            var full := |o.live| >= 16 || |o.usedDrops| >= 4096;
            && (r == Failure(InvalidArguments) <==> malformed)
            && (r == Failure(Disconnected) <==> !malformed && o.stopped)
            && (r == Failure(Backpressure) <==> !malformed && !o.stopped && !elsewhere && full)
            && (r == Failure(Refused) <==>
                  !malformed && !o.stopped && (elsewhere || (!full && id in o.usedDrops)))
            && (r.Failure? ==> p == o)
  {
  }

  lemma CallBook(w: World, c: Call, id: Id)
    requires CallEnabled(w, c)
    ensures id in ApplyCall(w, c).o.usedDrops <==>
            || id in w.o.usedDrops
            || (c.Drop? && c.id == id && Capture(w.o, id, c.selections, c.lease, c.epoch).1.Success?)
  {
  }

  lemma MoveBook(w: World, t: TaskId, m: Move)
    requires MoveEnabled(w, t, m)
    ensures ApplyMove(w, t, m).o.usedDrops == w.o.usedDrops
  {
  }

  /** Some step before the `n`-th captured the drop. */
  ghost predicate CapturedBefore(ws: seq<World>, es: seq<Event>, n: nat, id: Id)
    requires |ws| == |es| + 1 && n <= |es|
  {
    n > 0 && (CapturedBefore(ws, es, n - 1, id) || CapturesAt(ws, es, n - 1, id))
  }

  /** A drop id is in the book exactly when an earlier step captured it. */
  lemma {:induction false} BookIsHistory(ws: seq<World>, es: seq<Event>, n: nat, id: Id)
    requires Execution(ws, es) && n <= |es|
    ensures id in ws[n].o.usedDrops <==> CapturedBefore(ws, es, n, id)
  {
    if n > 0 {
      BookIsHistory(ws, es, n - 1, id);
      BookStep(ws, es, n - 1, id);
    }
  }

  lemma BookStep(ws: seq<World>, es: seq<Event>, i: nat, id: Id)
    requires Execution(ws, es) && i < |es|
    ensures id in ws[i + 1].o.usedDrops <==> id in ws[i].o.usedDrops || CapturesAt(ws, es, i, id)
  {
    assert StepAt(ws, es, i);
    match es[i]
    case Outside(call) => CallBook(ws[i], call, id);
    case Inside(t, move) => MoveBook(ws[i], t, move);
  }

  /**
   A drop is captured exactly when its ids are well formed, the active context is the one of the
   drop's document, there is room, and no earlier step captured the id. The new group holds the
   dropped selections under that context and revision; its raw capture runs, and nothing else yet.
   */
  lemma CaptureDecides(
      ws: seq<World>, es: seq<Event>, i: nat, id: Id, selections: seq<Id>, lease: string, epoch: string)
    requires Execution(ws, es) && i < |es| && es[i] == Outside(Drop(id, selections, lease, epoch))
    ensures var o, p := ws[i].o, ws[i + 1].o;
            && (CapturesAt(ws, es, i, id) <==>
                  && IsUuid(id) && ValidSelections(selections)
                  && o.active.Some? && o.active.value.lease == lease && o.active.value.epoch == epoch
                  && |o.live| < 16 && |o.usedDrops| < 4096
                  && !CapturedBefore(ws, es, i, id))
            && (!CapturesAt(ws, es, i, id) ==> ws[i + 1] == ws[i])
            && (CapturesAt(ws, es, i, id) ==>
                  && id in p.groups && p.live == o.live + {id} && p.usedDrops == o.usedDrops[id := o.active.value]
                  && var g := p.groups[id];
                  && g.selections == selections && Some(g.context) == o.active && g.revision == o.revision
                  && g.raw && !g.cancelled && !g.accepted && !g.retired
                  && !g.timerStarted && !g.timerActive && !g.timerCancelled)
            && (CapturesAt(ws, es, i, id) ==>
                  && p.groups - {id} == o.groups
                  && p == o.(groups := p.groups, live := p.live, usedDrops := p.usedDrops))
  {
    assert StepAt(ws, es, i);
    Reachable(ws, es, i);
    BookIsHistory(ws, es, i, id);
  }

  // ---------------------------------------------------------------- fences

  predicate SameDocument(r: Registration, s: Registration) {
    r.epoch == s.epoch && r.lease == s.lease
  }

  /** The registrations that `begin_context` admits: a nonce is new, or still the candidate's. */
  predicate Admits(o: Owner, intent: Option<Context>, registration: Option<Registration>) {
    && o.configured && !o.stopped && o.revision < 0xFFFF_FFFF_FFFF_FFFF
    && (registration.Some? && o.registration.Some? && SameDocument(o.registration.value, registration.value) ==>
          registration.value.number > o.registration.value.number)
    && (intent.Some? ==> IsUuid(intent.value.id))
    && (intent.Some? && intent.value.id in o.usedContexts ==> intent == o.candidate)
    && (intent.Some? && intent.value.id !in o.usedContexts ==> |o.usedContexts| < 4096)
  }

  /** The step moves the owner on to its next revision. */
  predicate Fences(w: World, e: Event) {
    e.Outside? &&
    match e.call
    case Register(_, intent, registration) => Admits(w.o, intent, registration)
    case Fence(_) => w.o.revision < 0xFFFF_FFFF_FFFF_FFFF
    case RetireDocument(_) => w.o.revision < 0xFFFF_FFFF_FFFF_FFFF
    case Shutdown(_) => w.o.revision < 0xFFFF_FFFF_FFFF_FFFF
    case _ => false
  }

  /** What every fence does, from whatever call it comes. */
  ghost predicate Fenced(o: Owner, p: Owner) {
    && p.revision == o.revision + 1 && p.active.None?
    && p.live == o.live && p.usedDrops == o.usedDrops && p.configured == o.configured
    && p.groups.Keys == o.groups.Keys
    && forall id | id in o.groups ::
         p.groups[id] == if id in o.live then o.groups[id].(cancelled := true) else o.groups[id]
  }

  /** Which error a registration gets. */
  lemma RegistrationErrors(o: Owner, intent: Option<Context>, registration: Option<Registration>)
    requires OneContext(o)
    ensures var r := BeginContext(o, intent, registration).1;
            var gone := o.stopped || !o.configured;
            var stale := && registration.Some? && o.registration.Some?
                         && SameDocument(o.registration.value, registration.value)
                         && registration.value.number <= o.registration.value.number;
            var malformed := intent.Some? && !IsUuid(intent.value.id);
            var used := intent.Some? && intent.value.id in o.usedContexts;
            && (r == Failure(Disconnected) <==> gone)
            && (r == Failure(InvalidArguments) <==> !gone && !stale && malformed)
            && (r == Failure(Backpressure) <==>
                  !gone && !stale && !malformed && intent.Some? && !used && |o.usedContexts| >= 4096)
            && (r.Failure? <==> !Admits(o, intent, registration))
  {
  }

  lemma AdmissionOutcome(o: Owner, intent: Option<Context>, registration: Option<Registration>)
    requires OneContext(o)
    ensures var (p, r) := BeginContext(o, intent, registration);
            if Admits(o, intent, registration) then
              && r == Success(o.revision + 1) && p.candidate == intent && p.stopped == o.stopped
              && p.registration == (if registration.Some? then registration else o.registration)
              && p.usedContexts == if intent.Some? then o.usedContexts + {intent.value.id} else o.usedContexts
            else
              && r.Failure?
              && p == o.(usedContexts := p.usedContexts, registration := p.registration)
              && (o.revision < 0xFFFF_FFFF_FFFF_FFFF ==> p == o)
  {
    RegistrationErrors(o, intent, registration);
  }

  lemma AdmissionFences(o: Owner, intent: Option<Context>, registration: Option<Registration>)
    requires BeginContext(o, intent, registration).1.Success?
    ensures Fenced(o, BeginContext(o, intent, registration).0)
  {
  }

  /**
   A registration starts a driver exactly when it is admitted. It then fences every group of the
   map, remembers nonce and number, and its driver has those groups to close and the next revision
   to claim. A refused one changes nothing, short of the notes made before the revisions ran out.
   */
  lemma RegistrationDecides(
      ws: seq<World>, es: seq<Event>, i: nat, t: TaskId, intent: Option<Context>, registration: Option<Registration>)
    requires Execution(ws, es) && i < |es| && es[i] == Outside(Register(t, intent, registration))
    ensures t in ws[i + 1].tasks && ws[i + 1].tasks == ws[i].tasks[t := ws[i + 1].tasks[t]]
    ensures var o, p, task := ws[i].o, ws[i + 1].o, ws[i + 1].tasks[t];
            if Admits(o, intent, registration) then
              && task == Running(Registering(o.revision + 1, intent), o.live, None)
              && Fenced(o, p) && p.candidate == intent && p.stopped == o.stopped
              && p.registration == (if registration.Some? then registration else o.registration)
              && p.usedContexts == if intent.Some? then o.usedContexts + {intent.value.id} else o.usedContexts
            else
              && task.Finished? && !task.ok
              && p == o.(usedContexts := p.usedContexts, registration := p.registration)
              && (o.revision < 0xFFFF_FFFF_FFFF_FFFF ==> p == o)
  {
    RegisterStep(ws, es, i, t, intent, registration);
    Reachable(ws, es, i);
    AdmissionOutcome(ws[i].o, intent, registration);
    if Admits(ws[i].o, intent, registration) {
      AdmissionFences(ws[i].o, intent, registration);
    }
  }

  lemma RegisterStep(
      ws: seq<World>, es: seq<Event>, i: nat, t: TaskId, intent: Option<Context>, registration: Option<Registration>)
    requires Execution(ws, es) && i < |es| && es[i] == Outside(Register(t, intent, registration))
    ensures var (p, r) := BeginContext(ws[i].o, intent, registration);
            && ws[i + 1].o == p && t in ws[i + 1].tasks && ws[i + 1].tasks == ws[i].tasks[t := ws[i + 1].tasks[t]]
            && ws[i + 1].tasks[t] == match r
                                     case Failure(_) => Finished(Closing, false)
                                     case Success(n) => Running(Registering(n, intent), p.live, None)
  {
    assert StepAt(ws, es, i);
  }

  /** The three fences without a context: they need nothing but a revision, and only shutdown may stop the owner. */
  lemma FenceDecides(ws: seq<World>, es: seq<Event>, i: nat, stop: bool, t: TaskId)
    requires Execution(ws, es) && i < |es|
    requires es[i] == Outside(Fence(stop)) || (stop && es[i] == Outside(Shutdown(t)))
             || (!stop && es[i] == Outside(RetireDocument(t)))
    ensures var o, p := ws[i].o, ws[i + 1].o;
            if o.revision < 0xFFFF_FFFF_FFFF_FFFF then
              && Fenced(o, p) && p.candidate.None? && p.stopped == (o.stopped || stop)
              && p.registration == o.registration && p.usedContexts == o.usedContexts
            else p == o
    ensures !es[i].call.Fence? ==>
              t in ws[i + 1].tasks
              && ws[i + 1].tasks[t] ==
                 var job := if stop then ShuttingDown else RetiringDocument;
                 if ws[i].o.revision < 0xFFFF_FFFF_FFFF_FFFF then Running(job, ws[i].o.live, None)
                 else Finished(job, false)
  {
    assert StepAt(ws, es, i);
  }

  // ---------------------------------------------------------------- who gets to be active

  predicate IsFence(c: Call) {
    c.Register? || c.Fence? || c.RetireDocument? || c.Shutdown?
  }

  lemma OtherCalls(w: World, c: Call)
    requires CallEnabled(w, c) && !IsFence(c)
    ensures var o, p := w.o, ApplyCall(w, c).o;
            p.revision == o.revision && p.candidate == o.candidate && p.stopped == o.stopped
  {
  }

  lemma Moves(w: World, t: TaskId, m: Move)
    requires MoveEnabled(w, t, m)
    ensures var o, p := w.o, ApplyMove(w, t, m).o;
            p.revision == o.revision && p.candidate == o.candidate && p.stopped == o.stopped
  {
  }

  /** Every fencing call either fences, or leaves revision, candidate and groups alone. */
  lemma FenceOutcome(ws: seq<World>, es: seq<Event>, i: nat)
    requires Execution(ws, es) && i < |es| && es[i].Outside? && IsFence(es[i].call)
    ensures var o, p := ws[i].o, ws[i + 1].o;
            if Fences(ws[i], es[i]) then Fenced(o, p)
            else
              && p.groups == o.groups && p.revision == o.revision
              && p.candidate == o.candidate && p.stopped == o.stopped
  {
    match es[i].call
    case Register(t, intent, registration) => RegistrationDecides(ws, es, i, t, intent, registration);
    case Fence(stop) => FenceDecides(ws, es, i, stop, 0);
    case RetireDocument(t) => FenceDecides(ws, es, i, false, t);
    case Shutdown(t) => FenceDecides(ws, es, i, true, t);
  }

  lemma FenceStep(ws: seq<World>, es: seq<Event>, i: nat)
    requires Execution(ws, es) && i < |es|
    ensures ws[i + 1].o.revision == ws[i].o.revision + if Fences(ws[i], es[i]) then 1 else 0
    ensures !Fences(ws[i], es[i]) ==>
              ws[i + 1].o.candidate == ws[i].o.candidate && ws[i + 1].o.stopped == ws[i].o.stopped
  {
    assert StepAt(ws, es, i);
    match es[i]
    case Outside(call) =>
      if IsFence(call) {
        FenceOutcome(ws, es, i);
      } else {
        OtherCalls(ws[i], call);
      }
    case Inside(t, move) => Moves(ws[i], t, move);
  }

  ghost predicate NoFence(ws: seq<World>, es: seq<Event>, i: nat, j: nat)
    requires |ws| == |es| + 1 && j <= |es|
  {
    forall k: nat {:trigger Fences(ws[k], es[k])} | i <= k < j :: !Fences(ws[k], es[k])
  }

  lemma {:induction false} RevisionCountsFences(ws: seq<World>, es: seq<Event>, i: nat, j: nat)
    requires Execution(ws, es) && i <= j <= |es|
    ensures ws[i].o.revision <= ws[j].o.revision
    ensures ws[i].o.revision == ws[j].o.revision <==> NoFence(ws, es, i, j)
    ensures NoFence(ws, es, i, j) ==> ws[j].o.candidate == ws[i].o.candidate && ws[j].o.stopped == ws[i].o.stopped
    decreases j - i
  {
    if i < j {
      RevisionCountsFences(ws, es, i, j - 1);
      FenceStep(ws, es, j - 1);
      assert NoFence(ws, es, i, j) <==> NoFence(ws, es, i, j - 1) && !Fences(ws[j - 1], es[j - 1]);
    }
  }

  lemma MoveKeepsJob(w: World, u: TaskId, m: Move, t: TaskId)
    requires MoveEnabled(w, u, m) && t in w.tasks
    ensures t in ApplyMove(w, u, m).tasks && ApplyMove(w, u, m).tasks[t].job == w.tasks[t].job
  {
  }

  lemma {:induction false} JobStays(ws: seq<World>, es: seq<Event>, i: nat, j: nat, t: TaskId)
    requires Execution(ws, es) && i <= j < |ws| && t in ws[i].tasks
    ensures t in ws[j].tasks && ws[j].tasks[t].job == ws[i].tasks[t].job
    decreases j - i
  {
    if i < j {
      JobStays(ws, es, i, j - 1, t);
      assert StepAt(ws, es, j - 1);
      match es[j - 1]
      case Outside(call) => CallKeepsTasks(ws[j - 1], call, t);
      case Inside(u, move) => MoveKeepsJob(ws[j - 1], u, move, t);
    }
  }

  /**
   A driver that has closed all its groups makes its context active exactly when its document is
   still current and nothing has fenced the owner since the registration.
   */
  lemma ActivationDecides(ws: seq<World>, es: seq<Event>, i: nat, j: nat, t: TaskId, guard: bool)
    requires Execution(ws, es) && i < j < |es| && es[j] == Inside(t, Finish(guard))
    requires es[i].Outside? && es[i].call.Register? && es[i].call.t == t
    ensures Admits(ws[i].o, es[i].call.intent, es[i].call.registration)
    ensures t in ws[j + 1].tasks && ws[j + 1].tasks[t].Finished?
    ensures ws[j + 1].tasks[t].ok <==> guard && NoFence(ws, es, i + 1, j)
    ensures ws[j + 1].o ==
            if guard && NoFence(ws, es, i + 1, j) then ws[j].o.(active := es[i].call.intent) else ws[j].o
  {
    assert StepAt(ws, es, j) && StepAt(ws, es, i);
    var intent := es[i].call.intent;
    RegistrationDecides(ws, es, i, t, intent, es[i].call.registration);
    if !Admits(ws[i].o, intent, es[i].call.registration) {
      FinishedStays(ws, es, i + 1, j, t);
      assert false;
    }
    JobStays(ws, es, i + 1, j, t);
    RevisionCountsFences(ws, es, i + 1, j);
  }

  // ---------------------------------------------------------------- what a group is told

  /**
   `check` in a reachable state: the group is in the map and uncancelled, its document current, and
   it is accepted, or only offered and still within its offer time.
   */
  lemma CheckDecides(
      ws: seq<World>, es: seq<Event>, n: nat, id: Id, read: bool, offerExpired: bool, guard: bool)
    requires Execution(ws, es) && n < |ws| && id in ws[n].o.groups
    ensures Check(ws[n].o, id, read, offerExpired, guard) <==>
            && id in ws[n].o.live && !ws[n].o.groups[id].cancelled && guard
            && (ws[n].o.groups[id].accepted || (!read && !offerExpired))
  {
    Reachable(ws, es, n);
    assert GroupOk(ws[n], id);
  }

  /** The steps that change one flag of the group `id`. */
  ghost predicate CancelsAt(w: World, e: Event, id: Id)
    requires id in w.o.groups
  {
    || (id in w.o.live && Fences(w, e))
    || (id in w.o.live && e.Outside? && e.call.CloseCalled? && e.call.id == id
        && e.call.context == w.o.groups[id].context)
    || (e.Inside? && e.move == Cancel(id))
  }

  predicate AcceptsAt(w: World, e: Event, id: Id)
    requires id in w.o.groups
  {
    e.Outside? && e.call.Accepted? && e.call.id == id && id in w.o.live && !w.o.groups[id].cancelled
  }

  predicate MovesAt(w: World, e: Event, id: Id, move: Move) {
    e.Inside? && e.move == move && InClose(w, e.t) && At(w, e.t) == id
  }

  predicate TimerEndsAt(e: Event, id: Id) {
    e.Outside? && e.call.TimerEnds? && e.call.id == id
  }

  /** What one step makes of the group `g` with this id. */
  ghost predicate Changed(w: World, e: Event, id: Id, h: Group)
    requires id in w.o.groups
  {
    var g := w.o.groups[id];
    && h.context == g.context && h.selections == g.selections && h.revision == g.revision
    && (h.cancelled <==> g.cancelled || CancelsAt(w, e, id))
    && (h.accepted <==> g.accepted || AcceptsAt(w, e, id))
    && (h.retired <==> g.retired || MovesAt(w, e, id, RetireReturns(true)))
    && (h.raw <==> g.raw && e != Outside(RawFinished(id)))
    && (h.timerStarted <==> g.timerStarted || e == Outside(Expire(id)))
    && (h.timerActive <==>
          (g.timerActive && !TimerEndsAt(e, id)) || (!g.timerStarted && e == Outside(Expire(id))))
    && (h.timerCancelled <==> g.timerCancelled || MovesAt(w, e, id, RawJoined))
  }

  lemma FenceChanges(w: World, c: Call, p: Owner, id: Id)
    requires id in w.o.groups && IsFence(c)
    requires if Fences(w, Outside(c)) then Fenced(w.o, p) else p.groups == w.o.groups
    ensures id in p.groups && Changed(w, Outside(c), id, p.groups[id])
  {
    if Fences(w, Outside(c)) {
      assert p.groups[id] == if id in w.o.live then w.o.groups[id].(cancelled := true) else w.o.groups[id];
    }
  }

  lemma ClosedGroup(w: World, t: TaskId, x: Id, context: Context, id: Id)
    requires w.o.live <= w.o.groups.Keys && id in w.o.groups
    ensures var p := DoCloseCalled(w, t, x, context).o;
            && id in p.groups
            && p.groups[id] ==
               if x == id && id in w.o.live && id in w.o.usedDrops && w.o.usedDrops[id] == context
               then w.o.groups[id].(cancelled := true) else w.o.groups[id]
  {
  }

  lemma ClosingChanges(w: World, t: TaskId, x: Id, context: Context, id: Id)
    requires CallEnabled(w, CloseCalled(t, x, context)) && id in w.o.groups
    requires id in w.o.usedDrops && w.o.usedDrops[id] == w.o.groups[id].context
    ensures var p := DoCloseCalled(w, t, x, context).o;
            id in p.groups && Changed(w, Outside(CloseCalled(t, x, context)), id, p.groups[id])
  {
    ClosedGroup(w, t, x, context, id);
  }

  lemma AcceptedGroup(w: World, x: Id, context: Context, id: Id)
    requires x in w.o.groups && id in w.o.groups && GroupOk(w, x) && OneContext(w.o)
    requires w.o.groups[x].context == context
    ensures var p := Accept(w.o, x, context).0;
            && id in p.groups
            && p.groups[id] ==
               if x == id && id in w.o.live && !w.o.groups[id].cancelled then w.o.groups[id].(accepted := true)
               else w.o.groups[id]
  {
  }

  lemma AcceptChanges(w: World, x: Id, context: Context, id: Id)
    requires x in w.o.groups && id in w.o.groups && GroupOk(w, x) && OneContext(w.o)
    requires w.o.groups[x].context == context
    ensures var p := Accept(w.o, x, context).0;
            id in p.groups && Changed(w, Outside(Accepted(x, context)), id, p.groups[id])
  {
    AcceptedGroup(w, x, context, id);
  }

  lemma ExpireChanges(w: World, x: Id, id: Id)
    requires x in w.o.groups && id in w.o.groups
    ensures var p := StartTimer(w.o, x);
            id in p.groups && Changed(w, Outside(Expire(x)), id, p.groups[id])
  {
    var p := StartTimer(w.o, x);
    assert p.groups[id] == if id == x && !w.o.groups[id].timerStarted
                           then w.o.groups[id].(timerStarted := true, timerActive := true) else w.o.groups[id];
  }

  lemma TimerEndsChanges(w: World, x: Id, expired: bool, t: TaskId, id: Id)
    requires x in w.o.groups && id in w.o.groups
    ensures var p := DoTimerEnds(w, x, expired, t).o;
            id in p.groups && Changed(w, Outside(TimerEnds(x, expired, t)), id, p.groups[id])
  {
  }

  lemma RawChanges(w: World, x: Id, id: Id)
    requires x in w.o.groups && id in w.o.groups
    ensures var p := SetGroup(w, x, w.o.groups[x].(raw := false)).o;
            id in p.groups && Changed(w, Outside(RawFinished(x)), id, p.groups[id])
  {
  }

  lemma OtherCallChanges(w: World, c: Call, id: Id)
    requires CallEnabled(w, c) && id in w.o.groups && (c.Configure? || c.Drop? || c.CloseGroup?)
    requires id in w.o.usedDrops
    ensures id in ApplyCall(w, c).o.groups && Changed(w, Outside(c), id, ApplyCall(w, c).o.groups[id])
  {
    assert ApplyCall(w, c).o.groups[id] == w.o.groups[id];
  }

  lemma CallLive(w: World, c: Call, id: Id)
    requires CallEnabled(w, c) && id in w.o.groups && id in w.o.usedDrops
    ensures id in ApplyCall(w, c).o.live <==> id in w.o.live
  {
    if !c.Drop? {
      assert ApplyCall(w, c).o.live == w.o.live;
    }
  }

  lemma PlainCallChanges(w: World, c: Call, id: Id)
    requires Inv(w) && CallEnabled(w, c) && id in w.o.groups && !IsFence(c)
    ensures id in ApplyCall(w, c).o.groups && Changed(w, Outside(c), id, ApplyCall(w, c).o.groups[id])
  {
    assert GroupOk(w, id);
    match c
    case CloseCalled(t, x, context) => ClosingChanges(w, t, x, context, id);
    case Accepted(x, context) =>
      assert GroupOk(w, x);
      AcceptChanges(w, x, context, id);
    case Expire(x) => ExpireChanges(w, x, id);
    case TimerEnds(x, expired, t) => TimerEndsChanges(w, x, expired, t, id);
    case RawFinished(x) => RawChanges(w, x, id);
    case _ => OtherCallChanges(w, c, id);
  }

  lemma FenceCallChanges(ws: seq<World>, es: seq<Event>, i: nat, id: Id)
    requires Execution(ws, es) && i < |es| && id in ws[i].o.groups && es[i].Outside? && IsFence(es[i].call)
    ensures id in ws[i + 1].o.groups && Changed(ws[i], es[i], id, ws[i + 1].o.groups[id])
  {
    FenceOutcome(ws, es, i);
    FenceChanges(ws[i], es[i].call, ws[i + 1].o, id);
  }

  lemma OtherGroupStays(w: World, t: TaskId, m: Move, id: Id)
    requires MoveEnabled(w, t, m) && id in w.o.groups && m != Cancel(id)
    requires InClose(w, t) ==> At(w, t) != id
    ensures id in ApplyMove(w, t, m).o.groups && ApplyMove(w, t, m).o.groups[id] == w.o.groups[id]
  {
  }

  lemma AtGroupChanges(w: World, t: TaskId, m: Move)
    requires MoveEnabled(w, t, m) && InClose(w, t)
    ensures var id, g := At(w, t), w.o.groups[At(w, t)];
            && id in ApplyMove(w, t, m).o.groups
            && ApplyMove(w, t, m).o.groups[id] ==
               (match m
                case RawJoined => g.(timerCancelled := true)
                case RetireReturns(ok) => if ok then g.(retired := true) else g
                case _ => g)
  {
  }

  lemma MoveChanges(w: World, t: TaskId, m: Move, id: Id)
    requires MoveEnabled(w, t, m) && id in w.o.groups
    ensures id in ApplyMove(w, t, m).o.groups && Changed(w, Inside(t, m), id, ApplyMove(w, t, m).o.groups[id])
  {
    if m == Cancel(id) {
    } else if InClose(w, t) && At(w, t) == id {
      AtGroupChanges(w, t, m);
    } else {
      OtherGroupStays(w, t, m, id);
    }
  }

  lemma MoveLive(w: World, t: TaskId, m: Move, id: Id)
    requires MoveEnabled(w, t, m)
    ensures id in ApplyMove(w, t, m).o.live <==> id in w.o.live && !MovesAt(w, Inside(t, m), id, Remove)
  {
  }

  /** Each flag of a group changes by the steps named here, and by no other. */
  lemma FlagsChange(ws: seq<World>, es: seq<Event>, i: nat, id: Id)
    requires Execution(ws, es) && i < |es| && id in ws[i].o.groups
    ensures id in ws[i + 1].o.groups && Changed(ws[i], es[i], id, ws[i + 1].o.groups[id])
    ensures id in ws[i + 1].o.live <==> id in ws[i].o.live && !MovesAt(ws[i], es[i], id, Remove)
  {
    Reachable(ws, es, i);
    assert StepAt(ws, es, i);
    match es[i]
    case Outside(call) =>
      assert GroupOk(ws[i], id);
      CallLive(ws[i], call, id);
      if IsFence(call) {
        FenceCallChanges(ws, es, i, id);
      } else {
        PlainCallChanges(ws[i], call, id);
      }
    case Inside(t, move) =>
      MoveChanges(ws[i], t, move, id);
      MoveLive(ws[i], t, move, id);
  }

  lemma GroupStays(ws: seq<World>, es: seq<Event>, i: nat, j: nat, id: Id)
    requires Execution(ws, es) && i < j < |ws| && CapturesAt(ws, es, i, id)
    ensures id in ws[i + 1].o.groups && id in ws[j].o.groups
    ensures GroupEvolves(ws[i + 1].o.groups[id], ws[j].o.groups[id])
  {
    var c := es[i].call;
    CaptureDecides(ws, es, i, id, c.selections, c.lease, c.epoch);
    RunEvolves(ws, es, i + 1, j);
  }

  /** Some step from `i` on and before the `j`-th accepted the group, or cancelled it, or removed it. */
  ghost predicate AcceptedSince(ws: seq<World>, es: seq<Event>, i: nat, j: nat, id: Id)
    requires |ws| == |es| + 1 && i <= j <= |es|
    decreases j
  {
    i < j && (AcceptedSince(ws, es, i, j - 1, id)
              || (id in ws[j - 1].o.groups && AcceptsAt(ws[j - 1], es[j - 1], id)))
  }

  ghost predicate CancelledSince(ws: seq<World>, es: seq<Event>, i: nat, j: nat, id: Id)
    requires |ws| == |es| + 1 && i <= j <= |es|
    decreases j
  {
    i < j && (CancelledSince(ws, es, i, j - 1, id)
              || (id in ws[j - 1].o.groups && CancelsAt(ws[j - 1], es[j - 1], id)))
  }

  ghost predicate RemovedSince(ws: seq<World>, es: seq<Event>, i: nat, j: nat, id: Id)
    requires |ws| == |es| + 1 && i <= j <= |es|
    decreases j
  {
    i < j && (RemovedSince(ws, es, i, j - 1, id) || MovesAt(ws[j - 1], es[j - 1], id, Remove))
  }

  lemma {:induction false} AcceptedIsHistory(ws: seq<World>, es: seq<Event>, i: nat, j: nat, id: Id)
    requires Execution(ws, es) && i <= j < |ws| && id in ws[i].o.groups
    ensures id in ws[j].o.groups
    ensures ws[j].o.groups[id].accepted <==> ws[i].o.groups[id].accepted || AcceptedSince(ws, es, i, j, id)
    decreases j
  {
    if i < j {
      AcceptedIsHistory(ws, es, i, j - 1, id);
      FlagsChange(ws, es, j - 1, id);
    }
  }

  lemma {:induction false} CancelledIsHistory(ws: seq<World>, es: seq<Event>, i: nat, j: nat, id: Id)
    requires Execution(ws, es) && i <= j < |ws| && id in ws[i].o.groups
    ensures id in ws[j].o.groups
    ensures ws[j].o.groups[id].cancelled <==> ws[i].o.groups[id].cancelled || CancelledSince(ws, es, i, j, id)
    decreases j
  {
    if i < j {
      CancelledIsHistory(ws, es, i, j - 1, id);
      FlagsChange(ws, es, j - 1, id);
    }
  }

  lemma {:induction false} LiveIsHistory(ws: seq<World>, es: seq<Event>, i: nat, j: nat, id: Id)
    requires Execution(ws, es) && i <= j < |ws| && id in ws[i].o.groups
    ensures id in ws[j].o.groups
    ensures id in ws[j].o.live <==> id in ws[i].o.live && !RemovedSince(ws, es, i, j, id)
    decreases j
  {
    if i < j {
      LiveIsHistory(ws, es, i, j - 1, id);
      FlagsChange(ws, es, j - 1, id);
    }
  }

  lemma {:induction false} RawIsHistory(ws: seq<World>, es: seq<Event>, i: nat, j: nat, id: Id)
    requires Execution(ws, es) && i <= j < |ws| && id in ws[i].o.groups
    ensures id in ws[j].o.groups
    ensures ws[j].o.groups[id].raw <==>
            ws[i].o.groups[id].raw && forall k | i <= k < j :: es[k] != Outside(RawFinished(id))
    decreases j
  {
    if i < j {
      RawIsHistory(ws, es, i, j - 1, id);
      FlagsChange(ws, es, j - 1, id);
    }
  }

  /**
   A captured group keeps its selections, and is accepted, cancelled, in the map and busy with its
   raw capture exactly when the steps since its capture say so.
   */
  lemma GroupIsItsHistory(ws: seq<World>, es: seq<Event>, i: nat, j: nat, id: Id)
    requires Execution(ws, es) && i < j < |ws| && CapturesAt(ws, es, i, id)
    ensures id in ws[j].o.groups
    ensures var g := ws[j].o.groups[id];
            && g.selections == es[i].call.selections && Some(g.context) == ws[i].o.active
            && g.revision == ws[i].o.revision
            && (g.accepted <==> AcceptedSince(ws, es, i + 1, j, id))
            && (g.cancelled <==> CancelledSince(ws, es, i + 1, j, id))
            && (id in ws[j].o.live <==> !RemovedSince(ws, es, i + 1, j, id))
            && (g.raw <==> forall k | i < k < j :: es[k] != Outside(RawFinished(id)))
  {
    GroupStays(ws, es, i, j, id);
    CaptureDecides(ws, es, i, id, es[i].call.selections, es[i].call.lease, es[i].call.epoch);
    AcceptedIsHistory(ws, es, i + 1, j, id);
    CancelledIsHistory(ws, es, i + 1, j, id);
    LiveIsHistory(ws, es, i + 1, j, id);
    RawIsHistory(ws, es, i + 1, j, id);
  }

  /**
   As long as a drop is in the map, exactly its own selections are owned by it; and the selection
   check that meets it passes exactly when the drop was accepted, is not cancelled, and belongs to
   the lease that asks.
   */
  lemma DroppedSelectionsAreOwned(ws: seq<World>, es: seq<Event>, i: nat, j: nat, id: Id, s: Id, lease: string,
                                  offerExpired: bool, guard: bool)
    requires Execution(ws, es) && i < j < |ws| && CapturesAt(ws, es, i, id) && id in ws[j].o.live
    ensures id in Owning(ws[j].o, s) <==> s in es[i].call.selections
    ensures s in es[i].call.selections ==>
              (CheckSelection(ws[j].o, s, lease, Some(id), offerExpired, guard) <==>
                 && AcceptedSince(ws, es, i + 1, j, id) && !CancelledSince(ws, es, i + 1, j, id)
                 && ws[i].o.active.value.lease == lease && guard)
  {
    GroupIsItsHistory(ws, es, i, j, id);
    CheckDecides(ws, es, j, id, true, offerExpired, guard);
  }

  // ---------------------------------------------------------------- the end of a group

  /** `close`: only for the context the drop was captured under; a live group is cancelled and closed. */
  lemma CloseDecides(ws: seq<World>, es: seq<Event>, i: nat, t: TaskId, id: Id, context: Context)
    requires Execution(ws, es) && i < |es| && es[i] == Outside(CloseCalled(t, id, context))
    ensures CapturedBefore(ws, es, i, id) <==> id in ws[i].o.groups
    ensures t in ws[i + 1].tasks
    ensures ws[i + 1].tasks[t] ==
            if CapturedBefore(ws, es, i, id) && ws[i].o.groups[id].context == context
            then Running(Closing, ws[i].o.live * {id}, None) else Finished(Closing, false)
  {
    assert StepAt(ws, es, i);
    Reachable(ws, es, i);
    BookIsHistory(ws, es, i, id);
    if id in ws[i].o.groups {
      assert GroupOk(ws[i], id);
    }
    assert id in ws[i].o.live ==> ws[i].o.live * {id} == {id};
    assert id !in ws[i].o.live ==> ws[i].o.live * {id} == {};
  }

  /** The end of an offer timer closes its group exactly when the offer expired and was not accepted. */
  lemma TimerDecides(ws: seq<World>, es: seq<Event>, i: nat, id: Id, expired: bool, t: TaskId)
    requires Execution(ws, es) && i < |es| && es[i] == Outside(TimerEnds(id, expired, t))
    ensures id in ws[i].o.groups && t !in ws[i].tasks
    ensures ws[i + 1].tasks ==
            if expired && !ws[i].o.groups[id].accepted then ws[i].tasks[t := Running(Closing, {id}, None)]
            else ws[i].tasks
  {
    assert StepAt(ws, es, i);
  }

  lemma CallConfigured(w: World, c: Call)
    requires CallEnabled(w, c) && !IsFence(c) && OneContext(w.o)
    requires w.o.candidate.Some? || w.o.groups.Keys != {} ==> w.o.configured
    ensures var p := ApplyCall(w, c).o;
            && p.configured == (w.o.configured || c.Configure?)
            && (p.candidate.Some? || p.groups.Keys != {} ==> p.configured)
  {
  }

  lemma MoveConfigured(w: World, t: TaskId, m: Move)
    requires MoveEnabled(w, t, m)
    ensures var p := ApplyMove(w, t, m).o;
            p.configured == w.o.configured && p.candidate == w.o.candidate && p.groups.Keys == w.o.groups.Keys
  {
  }

  lemma FenceConfigured(ws: seq<World>, es: seq<Event>, i: nat)
    requires Execution(ws, es) && i < |es| && es[i].Outside? && IsFence(es[i].call)
    ensures ws[i + 1].o.configured == ws[i].o.configured && ws[i + 1].o.groups.Keys == ws[i].o.groups.Keys
    ensures ws[i + 1].o.candidate.Some? ==> ws[i + 1].o.candidate == ws[i].o.candidate || ws[i].o.configured
  {
    match es[i].call
    case Register(t, intent, registration) => RegistrationDecides(ws, es, i, t, intent, registration);
    case Fence(stop) => FenceDecides(ws, es, i, stop, 0);
    case RetireDocument(t) => FenceDecides(ws, es, i, false, t);
    case Shutdown(t) => FenceDecides(ws, es, i, true, t);
  }

  lemma ConfiguredStep(ws: seq<World>, es: seq<Event>, i: nat)
    requires Execution(ws, es) && i < |es|
    requires ws[i].o.candidate.Some? || ws[i].o.groups.Keys != {} ==> ws[i].o.configured
    ensures ws[i + 1].o.configured == (ws[i].o.configured || es[i] == Outside(Configure))
    ensures ws[i + 1].o.candidate.Some? || ws[i + 1].o.groups.Keys != {} ==> ws[i + 1].o.configured
  {
    Reachable(ws, es, i);
    assert StepAt(ws, es, i);
    match es[i]
    case Outside(call) =>
      if IsFence(call) {
        FenceConfigured(ws, es, i);
      } else {
        CallConfigured(ws[i], call);
      }
    case Inside(t, move) => MoveConfigured(ws[i], t, move);
  }

  /** The owner is configured exactly when it has been told to; without that there is neither context nor group. */
  lemma {:induction false} ConfiguredIsHistory(ws: seq<World>, es: seq<Event>, n: nat)
    requires Execution(ws, es) && n <= |es|
    ensures ws[n].o.configured <==> Outside(Configure) in es[..n]
    ensures ws[n].o.candidate.Some? || ws[n].o.groups.Keys != {} ==> ws[n].o.configured
  {
    if n > 0 {
      ConfiguredIsHistory(ws, es, n - 1);
      ConfiguredStep(ws, es, n - 1);
      assert es[..n] == es[..n - 1] + [es[n - 1]];
    }
  }

  /** The task that gets a group's cleanup mutex joins its capture, unless another has retired the group already. */
  lemma LockDecides(ws: seq<World>, es: seq<Event>, i: nat, t: TaskId)
    requires Execution(ws, es) && i < |es| && es[i] == Inside(t, Lock)
    ensures InClose(ws[i], t) && var id := At(ws[i], t);
            if ws[i].o.groups[id].retired then
              && ws[i + 1].holds == ws[i].holds
              && ws[i + 1].tasks == ws[i].tasks[t := Running(ws[i].tasks[t].job, ws[i].tasks[t].todo - {id}, None)]
            else Holds(ws[i + 1], t, Joining) && ws[i + 1].tasks == ws[i].tasks
    ensures ws[i + 1].o == ws[i].o
  {
    assert StepAt(ws, es, i);
  }

  /** The four steps that retire a group whose cleanup mutex task `t` has taken. */
  function Retired(w: World, t: TaskId): World
    requires Holds(w, t, Joining) && w.o.configured
  {
    var joined := DoRawJoined(w, t);
    var stopped := DoTimerStopped(joined, t);
    DoRemove(DoRetireReturns(stopped, t, true), t)
  }

  /**
   Once the raw capture and the timer of a held group have ended, nothing keeps its task from
   retiring it: the four steps are enabled one after the other, the group leaves the map with one
   retirement more, its mutex is free, and the task goes on with the rest.
   */
  lemma RetirementCompletes(ws: seq<World>, es: seq<Event>, n: nat, t: TaskId)
    requires Execution(ws, es) && n < |ws| && Holds(ws[n], t, Joining)
    requires var g := ws[n].o.groups[At(ws[n], t)]; !g.raw && !g.timerActive
    ensures ws[n].o.configured
    ensures var w, v, id := ws[n], Retired(ws[n], t), At(ws[n], t);
            && MoveEnabled(w, t, RawJoined)
            && MoveEnabled(DoRawJoined(w, t), t, TimerStopped)
            && MoveEnabled(DoTimerStopped(DoRawJoined(w, t), t), t, RetireReturns(true))
            && MoveEnabled(DoRetireReturns(DoTimerStopped(DoRawJoined(w, t), t), t, true), t, Remove)
            && v.o.live == w.o.live - {id} && id !in v.holds && id in v.o.groups && v.o.groups[id].retired
            && Count(w, id) == 0 && Count(v, id) == 1
            && t in v.tasks && v.tasks[t] == Running(w.tasks[t].job, w.tasks[t].todo - {id}, None)
  {
    Reachable(ws, es, n);
    ConfiguredIsHistory(ws, es, n);
    assert GroupOk(ws[n], At(ws[n], t));
  }
}
