/**
 What the recaps of agent-handoff.ts consist of: which records of a transcript, in which order, with
 which labels, and how much room there is for them.
 */
module RecapContents {
  import opened Wrappers
  import opened HandoffText
  import opened TokenBudgetRecap
  import Simple = LostSessionRecap

  // ---------------------------------------------------------------- order

  /** The place of `i` among the elements of `s`. */
  function Rank(s: set<nat>, i: nat): nat {
    |set k | k in s && k < i|
  }

  /** `out` holds the items with an index in `s`, in the order of the items. */
  ghost predicate InOrder<T>(items: seq<T>, s: set<nat>, out: seq<T>) {
    && Within(s, |items|) && |out| == |s|
    && forall i {:trigger i in s} | i in s :: Rank(s, i) < |out| && out[Rank(s, i)] == items[i]
  }

  lemma RankBelow(s: set<nat>, i: nat, n: nat)
    requires i < n
    ensures Rank(s, i) == Rank(s - {n}, i)
  {
    assert (set k | k in s && k < i) == set k | k in s - {n} && k < i;
  }

  lemma RankOfLast(s: set<nat>, n: nat)
    requires Within(s, n + 1)
    ensures Rank(s, n) == |s - {n}|
  {
    assert (set k | k in s && k < n) == s - {n};
  }

  lemma OneMoreInOrder<T>(items: seq<T>, s: set<nat>, out: seq<T>, n: nat)
    requires |items| == n + 1 && Within(s, n + 1) && InOrder(items[..n], s - {n}, out)
    ensures InOrder(items, s, out + if n in s then [items[n]] else [])
  {
    RankOfLast(s, n);
    assert s == (s - {n}) + if n in s then {n} else {};
    forall i | i in s
      ensures i < n ==> i in s - {n} && Rank(s, i) == Rank(s - {n}, i)
    {
      if i < n {
        RankBelow(s, i, n);
      }
    }
  }

  /** The records of a selection stand in the recap in the order of the transcript. */
  lemma {:induction false} ChosenInOrder<T>(items: seq<T>, s: set<nat>)
    requires Within(s, |items|)
    ensures InOrder(items, s, Chosen(items, s))
  {
    if items != [] {
      var n := |items| - 1;
      ChosenInOrder(items[..n], s - {n});
      OneMoreInOrder(items, s, Chosen(items[..n], s - {n}), n);
      if n in s {
        ChosenOutside(items[..n], s - {n}, n);
        assert (s - {n}) + {n} == s;
      } else {
        assert s - {n} == s;
      }
    }
  }

  function Missing(n: nat, s: set<nat>): set<nat> {
    set i | 0 <= i < n && i !in s
  }

  lemma MarkerIffMissing(n: nat, s: set<nat>)
    requires Within(s, n)
    ensures All(n) - s == Missing(n, s) && (|s| < n <==> Missing(n, s) != {})
  {
    OnlyAllIsFull(s, n);
    if |s| < n {
      assert All(n) != s;
      assert exists i :: i in All(n) && i !in s;
    } else {
      assert s == All(n);
    }
  }

  /**
   The text of a recap: header, the marker exactly when a record is missing, the kept records oldest
   first with an empty line between them, footer. The ids of all records and of the missing ones are
   listed in the order of the transcript.
   */
  lemma RecapInOrder(frame: Frame, records: seq<Record>, s: set<nat>, budget: nat) returns (kept: seq<Text>)
    requires Within(s, |records|)
    ensures InOrder(Texts(records), s, kept)
    ensures var recap, missing := RecapOf(frame, records, s, budget), Missing(|records|, s);
            && recap.text == frame.header + (if missing != {} then frame.marker else [])
                             + Join(kept) + Units("\n\n---")
            && InOrder(Ids(records), missing, recap.omittedIds)
            && |recap.sourceIds| == |records|
            && (forall i | 0 <= i < |records| :: recap.sourceIds[i] == records[i].id)
            && 7 * recap.tokens >= 2 * |recap.text| > 7 * (recap.tokens - 1) && recap.budget == budget
  {
    kept := Chosen(Texts(records), s);
    ChosenInOrder(Texts(records), s);
    MarkerIffMissing(|records|, s);
    ChosenInOrder(Ids(records), Missing(|records|, s));
  }

  /**
   What the builder promises is a recap in order: there is one exactly when a selection with the newest
   user record fits, and its text and omitted ids are those of the best such selection.
   */
  lemma BuiltInOrder(frame: Frame, records: seq<Record>, budget: nat, result: Result<Recap, RecapError>)
    returns (s: set<nat>, kept: seq<Text>)
    requires Promised(frame, records, budget, result) && result.Success?
    ensures Best(frame, Texts(records), Protected(records), s, budget) && InOrder(Texts(records), s, kept)
    ensures result.value.text == frame.header + (if Missing(|records|, s) != {} then frame.marker else [])
                                 + Join(kept) + Units("\n\n---")
    ensures InOrder(Ids(records), Missing(|records|, s), result.value.omittedIds)
  {
    s :| Best(frame, Texts(records), Protected(records), s, budget)
         && result.value == RecapOf(frame, records, s, budget);
    kept := RecapInOrder(frame, records, s, budget);
  }

  /** Texts are joined in order, with two line ends between neighbours. */
  lemma JoinedInOrder(first: Text, second: Text, rest: seq<Text>)
    ensures Join([first]) == first
    ensures Join([first, second] + rest) == first + Units("\n\n") + Join([second] + rest)
  {
    assert [first, second] + rest == [first] + ([second] + rest);
    JoinCons(first, [second] + rest);
  }

  // ---------------------------------------------------------------- what fits

  /** Three and a half characters to the token. */
  lemma FitsMeans(frame: Frame, texts: seq<Text>, s: set<nat>, budget: nat)
    ensures Fits(frame, texts, s, budget) <==> 2 * |Render(frame, texts, s)| <= 7 * budget
  {
  }

  lemma {:induction false} AgreeAbove(a: set<nat>, b: set<nat>, i: nat, n: nat)
    requires i < n && PrefersNewer(a, b, n) && i in b
    requires forall k | i < k < n :: k in a <==> k in b
    ensures i in a
  {
    if i < n - 1 {
      AgreeAbove(a, b, i, n - 1);
    }
  }

  /**
   The best selection takes every record for which there is room beside the newer ones it has taken
   and the protected one, and no older record can cost it that.
   */
  lemma NewestComeFirst(frame: Frame, texts: seq<Text>, required: set<nat>, s: set<nat>, i: nat, budget: nat)
    requires Best(frame, texts, required, s, budget) && i < |texts|
    requires Feasible(frame, texts, required, (set k | k in s && k > i) + required + {i}, budget)
    ensures i in s
  {
    var t := (set k | k in s && k > i) + required + {i};
    assert PrefersNewer(s, t, |texts|);
    AgreeAbove(s, t, i, |texts|);
  }

  // ---------------------------------------------------------------- records and turns

  /** User and agent records with something to say; generated first prompts are left out. */
  predicate Contributes(p: Part, trim: Text -> Text) {
    && (p.partId.Some? ==> !(Units("user-initial-") <= p.partId.value))
    && (p.role.User? || p.role.Assistant?)
    && if p.partType.OtherPart? then p.tool.Some? else p.content.Some? && trim(p.content.value) != []
  }

  function Labelled(p: Part, trim: Text -> Text): Text
    requires Contributes(p, trim)
  {
    (match p.role
     case User => Units("User: ")
     case Assistant => Units("Previous agent: ")
     case OtherRole => [])
    + if p.partType.OtherPart? then Units("Tool outcome: ") + p.tool.value else trim(p.content.value)
  }

  function Contributors(parts: seq<Part>, trim: Text -> Text): set<nat> {
    set i | 0 <= i < |parts| && Contributes(parts[i], trim)
  }

  function Labels(parts: seq<Part>, trim: Text -> Text): (labels: seq<Text>)
    ensures |labels| == |parts|
  {
    seq(|parts|, i requires 0 <= i < |parts| => if Contributes(parts[i], trim) then Labelled(parts[i], trim) else [])
  }

  /** What each part would be as a record: its own id or its place in the transcript, its role, its labelled text. */
  function Described(parts: seq<Part>, trim: Text -> Text): (records: seq<Record>)
    ensures |records| == |parts|
  {
    seq(|parts|, i requires 0 <= i < |parts| =>
      Record(if parts[i].partId.Some? then Given(parts[i].partId.value) else AtIndex(i), parts[i].role,
             Labels(parts, trim)[i]))
  }

  lemma Shorter(parts: seq<Part>, trim: Text -> Text, n: nat)
    requires |parts| == n + 1
    ensures Labels(parts[..n], trim) == Labels(parts, trim)[..n]
    ensures Described(parts[..n], trim) == Described(parts, trim)[..n]
    ensures Contributors(parts[..n], trim) == Contributors(parts, trim) - {n}
    ensures TextContributors(parts[..n], trim) == TextContributors(parts, trim) - {n}
  {
  }

  /** The records are the contributing parts of the transcript, in its order. */
  lemma {:induction false} RecordsListContributors(parts: seq<Part>, trim: Text -> Text)
    ensures InOrder(Described(parts, trim), Contributors(parts, trim), Records(parts, trim))
  {
    if parts != [] {
      var n := |parts| - 1;
      RecordsListContributors(parts[..n], trim);
      Shorter(parts, trim, n);
      LastRecord(parts, trim);
      OneMoreInOrder(Described(parts, trim), Contributors(parts, trim), Records(parts[..n], trim), n);
    }
  }

  lemma ContributesMeans(p: Part, trim: Text -> Text)
    ensures Contributes(p, trim) <==> !(IsInitialPrompt(p) || p.role.OtherRole? || Content(p, trim) == [])
    ensures Contributes(p, trim) ==> Label(p.role) + Content(p, trim) == Labelled(p, trim)
  {
  }

  lemma LastRecord(parts: seq<Part>, trim: Text -> Text)
    requires parts != []
    ensures var n := |parts| - 1;
            Records(parts, trim) ==
            Records(parts[..n], trim) + if n in Contributors(parts, trim) then [Described(parts, trim)[n]] else []
  {
    var n := |parts| - 1;
    var p := parts[n];
    ContributesMeans(p, trim);
    assert n in Contributors(parts, trim) <==> Contributes(p, trim);
    assert Labels(parts, trim)[n] == if Contributes(p, trim) then Labelled(p, trim) else [];
  }

  /** The turns of the other two builders are the contributing parts that are text, in the order of the transcript. */
  function TextContributors(parts: seq<Part>, trim: Text -> Text): set<nat> {
    set i | 0 <= i < |parts| && Contributes(parts[i], trim) && !parts[i].partType.OtherPart?
  }

  lemma {:induction false} TurnsListContributors(parts: seq<Part>, trim: Text -> Text)
    ensures InOrder(Labels(parts, trim), TextContributors(parts, trim), Simple.Turns(parts, trim))
  {
    if parts != [] {
      var n := |parts| - 1;
      TurnsListContributors(parts[..n], trim);
      TurnsSplit(parts, trim);
      Shorter(parts, trim, n);
      assert n in TextContributors(parts, trim) ==> Labels(parts, trim)[n] == Labelled(parts[n], trim);
      OneMoreInOrder(Labels(parts, trim), TextContributors(parts, trim), Simple.Turns(parts[..n], trim), n);
    }
  }

  lemma TurnsSplit(parts: seq<Part>, trim: Text -> Text)
    requires parts != []
    ensures var n := |parts| - 1;
            Simple.Turns(parts, trim) ==
            Simple.Turns(parts[..n], trim)
            + if n in TextContributors(parts, trim) then [Labelled(parts[n], trim)] else []
  {
    var n := |parts| - 1;
    assert parts == parts[..n] + [parts[n]];
    Simple.TurnsConcat(parts[..n], [parts[n]], trim);
    LastTurn(parts[n], trim);
  }

  lemma LastTurn(p: Part, trim: Text -> Text)
    ensures Simple.Turns([p], trim) ==
            if Contributes(p, trim) && !p.partType.OtherPart? then [Labelled(p, trim)] else []
  {
    assert [p][1..] == [];
  }

  // ---------------------------------------------------------------- room

  /** A literal stands for its characters' own code units, so different literals are different texts. */
  lemma UnitsFaithful(s: string, t: string)
    requires forall c | c in s || c in t :: c as int < 0x1_0000
    ensures forall i | 0 <= i < |s| :: Units(s)[i] as int == s[i] as int
    ensures Units(s) == Units(t) ==> s == t
  {
    forall i | 0 <= i < |s|
      ensures Units(s)[i] as int == s[i] as int
    {
      assert s[i] in s;
    }
    if Units(s) == Units(t) {
      assert |s| == |Units(s)| == |Units(t)| == |t|;
      forall i | 0 <= i < |s|
        ensures s[i] == t[i]
      {
        assert s[i] in s && t[i] in t;
        assert Units(s)[i] == Units(t)[i];
      }
    }
  }

  /** The title tells the two kinds of recap apart. */
  lemma FrameByKind(kind: Kind)
    ensures kind.Lost? ==> Units("## Continuing after a lost session\n\n") <= FrameOf(kind).header
    ensures kind.Switch? ==> Units("## Previous agent context\n\n") <= FrameOf(kind).header
    ensures Units("(Some historical exchanges or tool outcomes are omitted from this recap. ") <= FrameOf(kind).marker
    ensures Simple.MARKER == Units("\U{2026}(earlier conversation omitted)\U{2026}\n\n")
  {
  }

  /** The number is an integer that JavaScript holds exactly. */
  predicate IsSafe(n: Number, i: int) {
    n == Finite(i as real) && -0x1F_FFFF_FFFF_FFFF <= i <= 0x1F_FFFF_FFFF_FFFF
  }

  /** `b` tokens and the reserved ones stay below 16000 and six tenths of the model's window. */
  predicate InWindow(window: Option<nat>, reserved: int, b: int) {
    b + reserved <= 16_000 && (window.Some? ==> 10 * (b + reserved) <= 6 * window.value)
  }

  /** `b` is not above what the caller asks for, 1500 for a lost session and 16000 for a switch by default. */
  predicate Wanted(options: Options, b: int) {
    match options.maxTokens
    case None => b <= if options.kind.Lost? then 1500 else 16_000
    case Some(Finite(r)) => b as real <= r
    case Some(Infinite(positive)) => positive
    case Some(NaN) => false
  }

  predicate MayUse(options: Options, window: Option<nat>, reserved: int, b: int) {
    InWindow(window, reserved, b) && Wanted(options, b)
  }

  /** The largest number of tokens inside the window. */
  lemma WindowRoom(window: Option<nat>, reserved: int)
    ensures var room := TaskContextBudget(window) - reserved;
            InWindow(window, reserved, room) && !InWindow(window, reserved, room + 1)
            && forall b :: InWindow(window, reserved, b) <==> b <= room
  {
    match window
    case None =>
    case Some(w) =>
      var share := (w as real * 0.6).Floor;
      assert share as real <= w as real * 0.6 < share as real + 1.0;
      assert (10 * share) as real <= (6 * w) as real < (10 * share + 10) as real;
      assert 10 * share <= 6 * w < 10 * share + 10;
  }

  lemma FloorOfInteger(i: int)
    ensures (i as real).Floor == i
  {
  }

  /** A number with a fraction that is below `room`. */
  predicate BindingFraction(n: Number, room: int) {
    n.Finite? && n.value.Floor as real != n.value && n.value.Floor + 1 <= room
  }

  predicate AtMost(b: int, n: Number) {
    match n
    case Finite(r) => b as real <= r
    case Infinite(positive) => positive
    case NaN => false
  }

  /** The smaller of a number and an integer, if it is a safe positive integer. */
  lemma LeastOf(n: Number, room: int)
    requires room <= 16_000
    ensures var least := SafeInteger(MinNumber(n, room));
            && (least.Some? && least.value > 0 <==> 1 <= room && AtMost(1, n) && !BindingFraction(n, room))
            && (least.Some? && least.value > 0 ==>
                  && least.value <= room && AtMost(least.value, n)
                  && (least.value == room || !AtMost(least.value + 1, n)))
  {
    FloorOfInteger(room);
    if n.Finite? {
      assert n.value.Floor as real <= n.value < n.value.Floor as real + 1.0;
    }
  }

  /**
   The budget: with no reservation that is a safe natural number there is none. Otherwise it is the
   largest number of tokens that the window and the caller allow, if that is positive; only a
   fraction that would itself be the least bound leaves none.
   */
  lemma BudgetDecides(options: Options, window: Option<nat>, reserved: int)
    requires if options.reservedTokens.Some? then IsSafe(options.reservedTokens.value, reserved) else reserved == 0
    ensures var fraction := && options.maxTokens.Some? && options.maxTokens.value.Finite?
                            && options.maxTokens.value.value.Floor as real != options.maxTokens.value.value
                            && InWindow(window, reserved, options.maxTokens.value.value.Floor + 1);
            Budget(options, window).Some? <==> reserved >= 0 && MayUse(options, window, reserved, 1) && !fraction
    ensures Budget(options, window).Some? ==>
              var b := Budget(options, window).value;
              MayUse(options, window, reserved, b) && !MayUse(options, window, reserved, b + 1)
  {
    var standard := Finite(if options.kind.Lost? then 1500.0 else 16_000.0);
    var wanted := if options.maxTokens.Some? then options.maxTokens.value else standard;
    WindowRoom(window, reserved);
    WantedIsAtMost(options, wanted);
    if reserved >= 0 {
      BudgetIsLeast(options, window, reserved, wanted);
      LeastOf(wanted, TaskContextBudget(window) - reserved);
      FloorOfInteger(if options.kind.Lost? then 1500 else 16_000);
    } else {
      FloorOfInteger(reserved);
    }
  }

  lemma WantedIsAtMost(options: Options, wanted: Number)
    requires wanted == if options.maxTokens.Some? then options.maxTokens.value
                       else Finite(if options.kind.Lost? then 1500.0 else 16_000.0)
    ensures forall b: int :: Wanted(options, b) <==> AtMost(b, wanted)
  {
  }

  lemma BudgetIsLeast(options: Options, window: Option<nat>, reserved: int, wanted: Number)
    requires if options.reservedTokens.Some? then IsSafe(options.reservedTokens.value, reserved) else reserved == 0
    requires wanted == if options.maxTokens.Some? then options.maxTokens.value
                       else Finite(if options.kind.Lost? then 1500.0 else 16_000.0)
    requires reserved >= 0
    ensures var least := SafeInteger(MinNumber(wanted, TaskContextBudget(window) - reserved));
            Budget(options, window) == if least.Some? && least.value > 0 then Some(least.value as nat) else None
  {
    FloorOfInteger(reserved);
  }

  lemma UnsafeReservation(options: Options, window: Option<nat>)
    requires options.reservedTokens.Some? && forall i | i >= 0 :: !IsSafe(options.reservedTokens.value, i)
    ensures Budget(options, window).None?
  {
    var n := options.reservedTokens.value;
    if n.Finite? && SafeInteger(n).Some? {
      assert IsSafe(n, n.value.Floor);
    }
  }

  /** The correction factor in force: one, unless a positive number is given, and kept between a tenth and ten. */
  ghost predicate Corrects(correction: Number, factor: real) {
    if correction.Finite? && correction.value > 0.0 then
      && 0.1 <= factor <= 10.0
      && (factor < correction.value ==> factor == 10.0) && (factor > correction.value ==> factor == 0.1)
    else factor == 1.0
  }

  /** The estimate is the least number of tokens that holds the corrected characters; a bad count has none. */
  lemma EstimateDecides(characters: Number, correction: Number, factor: real)
    requires Corrects(correction, factor)
    ensures EstimateCorrected(characters, correction).Some? <==> characters.Finite? && characters.value >= 0.0
    ensures EstimateCorrected(characters, correction).Some? ==>
              var t := EstimateCorrected(characters, correction).value;
              3.5 * (t as real - 1.0) < characters.value * factor <= 3.5 * t as real
  {
    if characters.Finite? && characters.value >= 0.0 {
      var r := characters.value / 3.5 * factor;
      assert EstimateCorrected(characters, correction) == Some(Ceiling(r));
      var t := Ceiling(r);
      assert t as real - 1.0 < r <= t as real;
      assert 3.5 * r == characters.value * factor;
    }
  }

  /** There is a recap of a lost session only if the number leaves room beside header, marker and footer. */
  lemma LimitDecides(maxChars: Number)
    ensures var fixed := |Simple.HEADER| + |Simple.MARKER| + 5;
            && (Simple.Limit(maxChars).Some? <==> maxChars.Finite? && maxChars.value.Floor > fixed)
            && (Simple.Limit(maxChars).Some? ==> Simple.Limit(maxChars).value == maxChars.value.Floor - fixed)
  {
  }

  /**
   A lost session's recap uses its room: it is the whole conversation as long as that fits, and a
   longer one fills all but two of the characters allowed.
   */
  lemma LostRecapFillsItsRoom(parts: seq<Part>, maxChars: real, trim: Text -> Text)
    requires Simple.Limit(Finite(maxChars)).Some?
    ensures var full, limit := Join(Simple.Turns(parts, trim)), Simple.Limit(Finite(maxChars)).value;
            var recap := Simple.LostRecap(Simple.Turns(parts, trim), limit);
            && (|full| <= limit ==> recap == Simple.HEADER + full + Units("\n\n---"))
            && (|full| > limit ==> maxChars.Floor - 2 <= |recap| <= maxChars.Floor
                                   && Simple.HEADER + Simple.MARKER <= recap)
  {
    LimitDecides(Finite(maxChars));
    var limit := Simple.Limit(Finite(maxChars)).value;
    var turns := Simple.Turns(parts, trim);
    Simple.BodyLengthBounds(turns, limit);
    RecapLength(turns, limit);
  }

  lemma RecapLength(turns: seq<Text>, limit: nat)
    requires limit > 0 && Simple.BodyLength(turns, limit) <= |Join(turns)|
    ensures var n, recap := Simple.BodyLength(turns, limit), Simple.LostRecap(turns, limit);
            && (n == |Join(turns)| <= limit ==> recap == Simple.HEADER + Join(turns) + Units("\n\n---"))
            && (|Join(turns)| > limit ==>
                  && |recap| == |Simple.HEADER| + |Simple.MARKER| + n + 5 && Simple.HEADER + Simple.MARKER <= recap)
  {
  }
}
