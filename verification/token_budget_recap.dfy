/**
 `buildTokenBudgetedRecap` keeps whole records only. It selects greedily, newest first, with
 a running character count. The greedy selection is proved to be the best one there is.
 */
module TokenBudgetRecap {
  import opened Wrappers
  import opened HandoffText
  import Simple = LostSessionRecap

  datatype Kind = Lost | Switch

  datatype RecordId = Given(id: Text) | AtIndex(index: nat)

  datatype Record = Record(id: RecordId, role: Role, text: Text)

  /** The fixed text around the records. */
  datatype Frame = Frame(header: Text, marker: Text)

  datatype Options = Options(kind: Kind, maxTokens: Option<Number>, reservedTokens: Option<Number>)

  datatype Recap = Recap(text: Text, tokens: nat, budget: nat, sourceIds: seq<RecordId>, omittedIds: seq<RecordId>)

  datatype RecapError = InstructionTooLarge | BudgetTooSmall

  const MAX_SAFE_INTEGER := 0x1F_FFFF_FFFF_FFFF

  const MAX_BUDGET := 16_000

  const LOST_TITLE: Text := Units("## Continuing after a lost session\n\n")

  const SWITCH_TITLE: Text := Units("## Previous agent context\n\n")

  const CONTEXT_NOTE: Text :=
    Units("Historical context only; do not repeat completed actions. ")
    + Units("Inspect retained tool outcomes before continuing.\n\n")

  const OMISSION_NOTE: Text :=
    Units("(Some historical exchanges or tool outcomes are omitted from this recap. ")
    + Units("The complete source remains in this task\U{2019}s saved transcript.)\n\n")

  function FrameOf(kind: Kind): Frame {
    Frame((if kind.Lost? then LOST_TITLE else SWITCH_TITLE) + CONTEXT_NOTE, OMISSION_NOTE)
  }

  function Ceiling(r: real): int {
    -((-r).Floor)
  }

  /** `estimateTokens` with its correction; None where it throws. */
  function EstimateCorrected(characters: Number, correction: Number): Option<int> {
    if !characters.Finite? || characters.value < 0.0 then None
    else
      var factor := if !correction.Finite? || correction.value <= 0.0 then 1.0
                    else if correction.value < 0.1 then 0.1
                    else if correction.value > 10.0 then 10.0
                    else correction.value;
      Some(Ceiling(characters.value / 3.5 * factor))
  }

  /** `estimateTokens` as the builders call it: characters over 3.5, rounded up. */
  function EstimateTokens(characters: nat): (tokens: nat)
    ensures 7 * tokens >= 2 * characters > 7 * (tokens - 1)
  {
    (2 * characters + 6) / 7
  }

  /** Without a correction the estimate never throws on a length, and is the plain one. */
  lemma EstimateUncorrected(characters: nat)
    ensures EstimateCorrected(Finite(characters as real), Finite(1.0)) == Some(EstimateTokens(characters))
  {
    var t := EstimateTokens(characters);
    var r := characters as real / 3.5 * 1.0;
    assert 3.5 * r == characters as real;
    assert 2.0 * (characters as real) == 7.0 * r;
    assert t as real - 1.0 < r <= t as real;
    var whole: int := t;
    assert (-r).Floor == -whole;
  }

  function TaskContextBudget(window: Option<nat>): int {
    match window
    case None => MAX_BUDGET
    case Some(w) => var share := (w as real * 0.6).Floor; if share < MAX_BUDGET then share else MAX_BUDGET
  }

  /** `Number.isSafeInteger`, with the integer it is. */
  function SafeInteger(n: Number): Option<int> {
    if n.Finite? && n.value.Floor as real == n.value && -MAX_SAFE_INTEGER <= n.value.Floor <= MAX_SAFE_INTEGER
    then Some(n.value.Floor) else None
  }

  function MinNumber(n: Number, i: int): Number {
    match n
    case NaN => NaN
    case Infinite(positive) => if positive then Finite(i as real) else n
    case Finite(r) => if r < i as real then n else Finite(i as real)
  }

  /** The budget, or None where the source throws before it looks at any record. */
  function Budget(options: Options, window: Option<nat>): Option<nat> {
    var reserved := SafeInteger(if options.reservedTokens.Some? then options.reservedTokens.value else Finite(0.0));
    if reserved.None? || reserved.value < 0 then None
    else
      var wanted := if options.maxTokens.Some? then options.maxTokens.value
                    else Finite(if options.kind.Lost? then 1500.0 else MAX_BUDGET as real);
      var budget := SafeInteger(MinNumber(wanted, TaskContextBudget(window) - reserved.value));
      if budget.None? || budget.value <= 0 then None else Some(budget.value)
  }

  /** What a transcript record contributes: its text, or the outcome of its tool. */
  function Content(p: Part, trim: Text -> Text): Text {
    if !p.partType.OtherPart? then (if p.content.Some? then trim(p.content.value) else [])
    else if p.tool.Some? then Units("Tool outcome: ") + p.tool.value
    else []
  }

  function Records(parts: seq<Part>, trim: Text -> Text): seq<Record> {
    if parts == [] then []
    else
      var i, p := |parts| - 1, parts[|parts| - 1];
      Records(parts[..i], trim) +
      if IsInitialPrompt(p) || p.role.OtherRole? || Content(p, trim) == [] then []
      else [Record(if p.partId.Some? then Given(p.partId.value) else AtIndex(i), p.role,
                   Label(p.role) + Content(p, trim))]
  }

  function Texts(records: seq<Record>): (texts: seq<Text>)
    ensures |texts| == |records| && forall i | 0 <= i < |texts| :: texts[i] == records[i].text
  {
    seq(|records|, i requires 0 <= i < |records| => records[i].text)
  }

  /** The last user record, as a set of at most one index. */
  function Protected(records: seq<Record>): (p: set<nat>)
    ensures forall i | i in p :: i < |records| && records[i].role.User? && p == {i}
    ensures forall i | i in p :: forall j | i < j < |records| :: !records[j].role.User?
    ensures p == {} ==> forall i | 0 <= i < |records| :: !records[i].role.User?
  {
    if records == [] then {}
    else if records[|records| - 1].role.User? then {|records| - 1}
    else Protected(records[..|records| - 1])
  }

  /** Without tool outcomes the records are exactly the turns of the other two builders, in order. */
  lemma {:induction false} RecordsAreTurns(parts: seq<Part>, trim: Text -> Text)
    requires forall p | p in parts :: p.partType.OtherPart? ==> p.tool.None?
    ensures Texts(Records(parts, trim)) == Simple.Turns(parts, trim)
  {
    if parts != [] {
      var i := |parts| - 1;
      RecordsAreTurns(parts[..i], trim);
      assert parts == parts[..i] + [parts[i]];
      Simple.TurnsConcat(parts[..i], [parts[i]], trim);
      assert [parts[i]][1..] == [];
      OneRecordIsOneTurn(parts, trim);
    }
  }

  lemma OneRecordIsOneTurn(parts: seq<Part>, trim: Text -> Text)
    requires parts != [] && var p := parts[|parts| - 1]; p.partType.OtherPart? ==> p.tool.None?
    ensures var older, p := Records(parts[..|parts| - 1], trim), parts[|parts| - 1];
            Texts(Records(parts, trim)) ==
            Texts(older) + if Simple.IsTurn(p, trim) then [Simple.TurnText(p, trim)] else []
  {
  }

  // ---------------------------------------------------------------- selections

  ghost predicate Within(s: set<nat>, n: nat) {
    forall i | i in s :: i < n
  }

  function Chosen<T>(items: seq<T>, s: set<nat>): seq<T> {
    if items == [] then []
    else
      var n := |items| - 1;
      Chosen(items[..n], s) + if n in s then [items[n]] else []
  }

  function Characters(texts: seq<Text>, s: set<nat>): nat {
    if texts == [] then 0
    else
      var n := |texts| - 1;
      Characters(texts[..n], s) + if n in s then |texts[n]| else 0
  }

  function All(n: nat): (s: set<nat>)
    ensures forall i :: i in s <==> 0 <= i < n
  {
    if n == 0 then {} else All(n - 1) + {n - 1}
  }

  function Render(frame: Frame, texts: seq<Text>, s: set<nat>): Text {
    frame.header + (if |s| < |texts| then frame.marker else []) + Join(Chosen(texts, s)) + FOOTER
  }

  /** The rendered recap stays within the budget. */
  predicate Fits(frame: Frame, texts: seq<Text>, s: set<nat>, budget: nat) {
    EstimateTokens(|Render(frame, texts, s)|) <= budget
  }

  /** The same question asked of a running count of characters and records: the source's `fits`. */
  predicate FitsCount(frame: Frame, total: nat, characters: nat, count: nat, budget: nat) {
    EstimateTokens(|frame.header| + (if count < total then |frame.marker| else 0) + characters
                   + (if count > 1 then count - 1 else 0) * 2 + 5) <= budget
  }

  ghost predicate Feasible(frame: Frame, texts: seq<Text>, required: set<nat>, s: set<nat>, budget: nat) {
    required <= s && Within(s, |texts|) && Fits(frame, texts, s, budget)
  }

  /** Newest first, `a` keeps the first record on which the two selections differ. */
  ghost predicate PrefersNewer(a: set<nat>, b: set<nat>, n: nat) {
    n == 0 || if (n - 1 in a) == (n - 1 in b) then PrefersNewer(a, b, n - 1) else n - 1 in a
  }

  ghost predicate Best(frame: Frame, texts: seq<Text>, required: set<nat>, s: set<nat>, budget: nat) {
    && Feasible(frame, texts, required, s, budget)
    && forall t: set<nat> {:trigger Feasible(frame, texts, required, t, budget)} ::
         Feasible(frame, texts, required, t, budget) ==> PrefersNewer(s, t, |texts|)
  }

  lemma {:induction false} ChosenOutside<T>(items: seq<T>, s: set<nat>, i: nat)
    requires i >= |items|
    ensures Chosen(items, s + {i}) == Chosen(items, s)
  {
    if items != [] {
      ChosenOutside(items[..|items| - 1], s, i);
    }
  }

  lemma {:induction false} CharactersAdd(texts: seq<Text>, s: set<nat>, i: nat)
    requires i !in s
    ensures Characters(texts, s + {i}) == Characters(texts, s) + if i < |texts| then |texts[i]| else 0
  {
    if texts != [] {
      CharactersAdd(texts[..|texts| - 1], s, i);
    }
  }

  lemma {:induction false} ChosenSize<T>(items: seq<T>, s: set<nat>)
    requires Within(s, |items|)
    ensures |Chosen(items, s)| == |s|
  {
    if items == [] {
      assert s == {};
    } else {
      var n := |items| - 1;
      var older := s - {n};
      ChosenSize(items[..n], older);
      if n in s {
        ChosenOutside(items[..n], older, n);
        assert older + {n} == s;
      } else {
        assert older == s;
      }
    }
  }

  lemma {:induction false} JoinedLength(texts: seq<Text>, s: set<nat>)
    ensures |Join(Chosen(texts, s))| ==
            Characters(texts, s) + (if |Chosen(texts, s)| > 1 then |Chosen(texts, s)| - 1 else 0) * 2
  {
    if texts != [] {
      var n := |texts| - 1;
      JoinedLength(texts[..n], s);
      if n in s {
        JoinAppendLength(Chosen(texts[..n], s), texts[n]);
      } else {
        assert Chosen(texts, s) == Chosen(texts[..n], s);
      }
    }
  }

  lemma RenderedLength(frame: Frame, texts: seq<Text>, s: set<nat>)
    requires Within(s, |texts|)
    ensures |Render(frame, texts, s)| ==
            |frame.header| + (if |s| < |texts| then |frame.marker| else 0) + Characters(texts, s)
            + (if |s| > 1 then |s| - 1 else 0) * 2 + 5
  {
    ChosenSize(texts, s);
    JoinedLength(texts, s);
  }

  /** Counting as the source does is measuring the rendered text. */
  lemma CountIsRenderedLength(frame: Frame, texts: seq<Text>, s: set<nat>, budget: nat)
    requires Within(s, |texts|)
    ensures Fits(frame, texts, s, budget) <==> FitsCount(frame, |texts|, Characters(texts, s), |s|, budget)
  {
    RenderedLength(frame, texts, s);
  }

  lemma {:induction false} CharactersMonotone(texts: seq<Text>, s: set<nat>, t: set<nat>)
    requires s <= t
    ensures Characters(texts, s) <= Characters(texts, t)
  {
    if texts != [] {
      CharactersMonotone(texts[..|texts| - 1], s, t);
    }
  }

  lemma SubsetSize(s: set<nat>, t: set<nat>)
    requires s <= t
    ensures |s| <= |t| && (|s| == |t| ==> s == t)
  {
    assert t == s + (t - s);
  }

  lemma AllSize(n: nat)
    ensures |All(n)| == n
  {
    if n > 0 {
      AllSize(n - 1);
    }
  }

  /** Only the whole transcript has as many records as the transcript. */
  lemma OnlyAllIsFull(s: set<nat>, n: nat)
    requires Within(s, n)
    ensures |s| <= n && (|s| == n <==> s == All(n))
  {
    AllSize(n);
    SubsetSize(s, All(n));
  }

  /** Leaving records out never makes a partial selection longer. */
  lemma SmallerFits(frame: Frame, texts: seq<Text>, s: set<nat>, t: set<nat>, budget: nat)
    requires s <= t && Within(t, |texts|) && t != All(|texts|) && Fits(frame, texts, t, budget)
    ensures Fits(frame, texts, s, budget)
  {
    RenderedLength(frame, texts, s);
    RenderedLength(frame, texts, t);
    OnlyAllIsFull(t, |texts|);
    SubsetSize(s, t);
    CharactersMonotone(texts, s, t);
  }

  // ---------------------------------------------------------------- the greedy choice

  /** The selection the walk ends with when the records from `i` up have been decided as in `s`. */
  function Greedy(fits: set<nat> -> bool, i: nat, s: set<nat>): set<nat> {
    if i == 0 then s
    else if i - 1 !in s && fits(s + {i - 1}) then Greedy(fits, i - 1, s + {i - 1})
    else Greedy(fits, i - 1, s)
  }

  function WithinBudget(frame: Frame, texts: seq<Text>, budget: nat): set<nat> -> bool {
    s => Fits(frame, texts, s, budget)
  }

  /** The two selections agree on the records from `i` up. */
  ghost predicate SameFrom(s: set<nat>, t: set<nat>, i: nat) {
    forall j {:trigger j in s} {:trigger j in t} | i <= j :: j in s <==> j in t
  }

  lemma {:induction false} GreedyKeeps(fits: set<nat> -> bool, i: nat, s: set<nat>, n: nat)
    requires i <= n && Within(s, n)
    ensures var g := Greedy(fits, i, s);
            s <= g && Within(g, n) && SameFrom(g, s, i) && (g == s || fits(g))
  {
    if i > 0 {
      GreedyKeeps(fits, i - 1, s, n);
      if i - 1 !in s && fits(s + {i - 1}) {
        GreedyKeeps(fits, i - 1, s + {i - 1}, n);
      }
    }
  }

  /** The walk ends with a selection at least as new as any `t` whose parts all fit. */
  lemma {:induction false} GreedyDominates(
      fits: set<nat> -> bool, i: nat, s: set<nat>, required: set<nat>, t: set<nat>, n: nat)
    requires i <= n && Within(s, n) && required <= t && SameFrom(s, t, i)
    requires forall j | j in s && j < i :: j in required
    requires forall u {:trigger fits(u)} | required <= u <= t :: fits(u)
    requires required <= s
    ensures PrefersNewer(Greedy(fits, i, s), t, i)
  {
    if i > 0 {
      var d := i - 1;
      var next := if d !in s && fits(s + {d}) then s + {d} else s;
      if d in t && d !in s {
        assert s + {d} <= t;
      }
      GreedyKeeps(fits, d, next, n);
      assert d in Greedy(fits, i, s) <==> d in next;
      if (d in next) == (d in t) {
        GreedyDominates(fits, d, next, required, t, n);
      }
    }
  }

  lemma {:induction false} AllPrefersNewer(t: set<nat>, n: nat, m: nat)
    requires m <= n
    ensures PrefersNewer(All(n), t, m)
  {
    if m > 0 {
      AllPrefersNewer(t, n, m - 1);
    }
  }

  lemma AllIsBest(frame: Frame, texts: seq<Text>, required: set<nat>, budget: nat)
    requires Within(required, |texts|) && Fits(frame, texts, All(|texts|), budget)
    ensures Best(frame, texts, required, All(|texts|), budget)
  {
    forall t: set<nat> | Feasible(frame, texts, required, t, budget)
      ensures PrefersNewer(All(|texts|), t, |texts|)
    {
      AllPrefersNewer(t, |texts|, |texts|);
    }
  }

  /** Two best selections are the same selection. */
  lemma {:induction false} PrefersNewerBothWays(a: set<nat>, b: set<nat>, n: nat)
    requires PrefersNewer(a, b, n) && PrefersNewer(b, a, n)
    ensures forall i | 0 <= i < n :: i in a <==> i in b
  {
    if n > 0 {
      PrefersNewerBothWays(a, b, n - 1);
    }
  }

  lemma BestIsUnique(frame: Frame, texts: seq<Text>, required: set<nat>, a: set<nat>, b: set<nat>, budget: nat)
    requires Best(frame, texts, required, a, budget) && Best(frame, texts, required, b, budget)
    ensures a == b
  {
    PrefersNewerBothWays(a, b, |texts|);
  }

  /** No omitted record could be added to the best selection. */
  lemma BestIsMaximal(frame: Frame, texts: seq<Text>, required: set<nat>, s: set<nat>, i: nat, budget: nat)
    requires Best(frame, texts, required, s, budget) && i < |texts| && i !in s
    ensures !Fits(frame, texts, s + {i}, budget)
  {
    if Fits(frame, texts, s + {i}, budget) {
      assert Feasible(frame, texts, required, s + {i}, budget);
      StrictlyMoreIsPreferred(s, i, |texts|);
      assert false;
    }
  }

  lemma {:induction false} StrictlyMoreIsPreferred(s: set<nat>, i: nat, n: nat)
    requires i < n && i !in s
    ensures !PrefersNewer(s, s + {i}, n)
  {
    if i < n - 1 {
      StrictlyMoreIsPreferred(s, i, n - 1);
    }
  }

  /** When the whole transcript does not fit, the greedy selection is best, if anything is feasible. */
  lemma GreedyIsBest(frame: Frame, texts: seq<Text>, required: set<nat>, budget: nat)
    requires Within(required, |texts|) && !Fits(frame, texts, All(|texts|), budget)
    ensures var g := Greedy(WithinBudget(frame, texts, budget), |texts|, required);
            && Within(g, |texts|) && (g == All(|texts|) ==> required == g)
            && (Fits(frame, texts, required, budget) ==> Best(frame, texts, required, g, budget))
            && (!Fits(frame, texts, required, budget) ==> g == required)
    ensures forall t: set<nat> {:trigger Feasible(frame, texts, required, t, budget)} ::
              Feasible(frame, texts, required, t, budget) ==> Fits(frame, texts, required, budget)
  {
    var n, fits := |texts|, WithinBudget(frame, texts, budget);
    var g := Greedy(fits, n, required);
    GreedyKeeps(fits, n, required, n);
    forall t: set<nat> | Feasible(frame, texts, required, t, budget)
      ensures Fits(frame, texts, required, budget) && PrefersNewer(g, t, n)
    {
      PartsFit(frame, texts, required, t, budget);
      assert fits(required);
      GreedyDominates(fits, n, required, required, t, n);
    }
    assert g != required ==> fits(g);
    if !Fits(frame, texts, required, budget) && g != required {
      assert Feasible(frame, texts, required, g, budget);
    }
  }

  /** Whatever fits, short of the whole transcript, fits with any of its unprotected records left out. */
  lemma PartsFit(frame: Frame, texts: seq<Text>, required: set<nat>, t: set<nat>, budget: nat)
    requires Feasible(frame, texts, required, t, budget) && !Fits(frame, texts, All(|texts|), budget)
    ensures forall u {:trigger WithinBudget(frame, texts, budget)(u)} | required <= u <= t ::
              WithinBudget(frame, texts, budget)(u)
  {
    forall u | required <= u <= t
      ensures WithinBudget(frame, texts, budget)(u)
    {
      SmallerFits(frame, texts, u, t, budget);
    }
  }

  // ---------------------------------------------------------------- the builder

  method TotalCharacters(texts: seq<Text>) returns (sum: nat)
    ensures sum == Characters(texts, All(|texts|))
  {
    sum := 0;
    for i := 0 to |texts|
      invariant sum == Characters(texts[..i], All(|texts|))
    {
      assert texts[..i + 1][..i] == texts[..i];
      sum := sum + |texts[i]|;
    }
    assert texts[..|texts|] == texts;
  }

  /** The selection loops of the builder; None where it throws over the protected record. */
  method Select(frame: Frame, texts: seq<Text>, required: set<nat>, budget: nat) returns (choice: Option<set<nat>>)
    requires Within(required, |texts|) && forall i | i in required :: required == {i}
    ensures choice.Some? ==> Within(choice.value, |texts|)
    ensures (exists t :: Feasible(frame, texts, required, t, budget)) <==>
            choice.Some? && Fits(frame, texts, choice.value, budget)
    ensures choice.Some? && Fits(frame, texts, choice.value, budget) ==>
              Best(frame, texts, required, choice.value, budget)
    ensures choice.None? ==> required != {}
    ensures choice.Some? && !Fits(frame, texts, choice.value, budget) ==> required == {}
  {
    var n := |texts|;
    var allCharacters := TotalCharacters(texts);
    CountIsRenderedLength(frame, texts, All(n), budget);
    OnlyAllIsFull(All(n), n);
    if FitsCount(frame, n, allCharacters, n, budget) {
      AllIsBest(frame, texts, required, budget);
      return Some(All(n));
    }
    GreedyIsBest(frame, texts, required, budget);
    var characters := 0;
    NothingChosen(texts);
    if required != {} {
      var p :| p in required;
      assert {} + {p} == required;
      CharactersAdd(texts, {}, p);
      characters := |texts[p]|;
      CountIsRenderedLength(frame, texts, required, budget);
      if !FitsCount(frame, n, characters, 1, budget) { return None; }
    }
    var selected := AddNewestFirst(frame, texts, required, characters, budget);
    choice := Some(selected);
  }

  lemma OneMore(texts: seq<Text>, s: set<nat>, i: nat)
    requires i < |texts| && i !in s
    ensures Characters(texts, s + {i}) == Characters(texts, s) + |texts[i]| && |s + {i}| == |s| + 1
  {
    CharactersAdd(texts, s, i);
  }

  lemma CountOneMore(frame: Frame, texts: seq<Text>, s: set<nat>, i: nat, more: nat, count: nat, budget: nat)
    requires Within(s + {i}, |texts|)
    requires more == Characters(texts, s + {i}) && count == |s + {i}|
    ensures WithinBudget(frame, texts, budget)(s + {i}) <==> FitsCount(frame, |texts|, more, count, budget)
  {
    CountIsRenderedLength(frame, texts, s + {i}, budget);
  }

  /** One turn of the walk over a record not yet selected, decided by counting. */
  lemma GreedyTurn(frame: Frame, texts: seq<Text>, i: nat, s: set<nat>, more: nat, count: nat, budget: nat)
    requires Within(s, |texts|) && i < |texts| && i !in s
    requires more == Characters(texts, s + {i}) && count == |s + {i}|
    ensures var fits := WithinBudget(frame, texts, budget);
            Greedy(fits, i + 1, s) ==
            if FitsCount(frame, |texts|, more, count, budget) then Greedy(fits, i, s + {i}) else Greedy(fits, i, s)
  {
    CountOneMore(frame, texts, s, i, more, count, budget);
  }

  /** The walk's decision on one record, with the running count of characters. */
  method ConsiderRecord(frame: Frame, texts: seq<Text>, index: nat, selected: set<nat>, characters: nat, budget: nat)
    returns (next: set<nat>, nextCharacters: nat)
    requires index < |texts| && Within(selected, |texts|) && characters == Characters(texts, selected)
    ensures Within(next, |texts|) && nextCharacters == Characters(texts, next)
    ensures var fits := WithinBudget(frame, texts, budget);
            Greedy(fits, index + 1, selected) == Greedy(fits, index, next)
  {
    next, nextCharacters := selected, characters;
    if index !in selected {
      OneMore(texts, selected, index);
      var more, count := characters + |texts[index]|, |selected| + 1;
      GreedyTurn(frame, texts, index, selected, more, count, budget);
      if FitsCount(frame, |texts|, more, count, budget) {
        next, nextCharacters := selected + {index}, more;
      }
    }
  }

  /** The walk over the unprotected records. */
  method AddNewestFirst(frame: Frame, texts: seq<Text>, required: set<nat>, characters: nat, budget: nat)
    returns (selected: set<nat>)
    requires Within(required, |texts|) && characters == Characters(texts, required)
    ensures selected == Greedy(WithinBudget(frame, texts, budget), |texts|, required)
  {
    ghost var fits := WithinBudget(frame, texts, budget);
    selected := required;
    var selectedCharacters := characters;
    var index := |texts|;
    while index > 0
      invariant 0 <= index <= |texts| && Within(selected, |texts|)
      invariant selectedCharacters == Characters(texts, selected)
      invariant Greedy(fits, |texts|, required) == Greedy(fits, index, selected)
    {
      index := index - 1;
      selected, selectedCharacters := ConsiderRecord(frame, texts, index, selected, selectedCharacters, budget);
    }
  }

  lemma {:induction false} NothingChosen(texts: seq<Text>)
    ensures Characters(texts, {}) == 0
  {
    if texts != [] {
      NothingChosen(texts[..|texts| - 1]);
    }
  }

  function Ids(records: seq<Record>): seq<RecordId> {
    seq(|records|, i requires 0 <= i < |records| => records[i].id)
  }

  /** The recap of a selection. */
  function RecapOf(frame: Frame, records: seq<Record>, s: set<nat>, budget: nat): Recap {
    var text := Render(frame, Texts(records), s);
    Recap(text, EstimateTokens(|text|), budget, Ids(records), Chosen(Ids(records), All(|records|) - s))
  }

  /** Every record is either in the recap or listed as omitted, and none is both. */
  lemma {:induction false} KeptOrOmitted<T>(items: seq<T>, s: set<nat>, omitted: set<nat>)
    requires forall i | 0 <= i < |items| :: i in omitted <==> i !in s
    ensures multiset(Chosen(items, s)) + multiset(Chosen(items, omitted)) == multiset(items)
  {
    if items != [] {
      var n := |items| - 1;
      KeptOrOmitted(items[..n], s, omitted);
      assert items == items[..n] + [items[n]];
    }
  }

  /** What the builder promises about the records of a transcript. */
  ghost predicate Promised(frame: Frame, records: seq<Record>, budget: nat, result: Result<Recap, RecapError>) {
    var texts, required := Texts(records), Protected(records);
    && (result.Success? <==> exists t :: Feasible(frame, texts, required, t, budget))
    && (result.Success? ==> exists s :: Best(frame, texts, required, s, budget)
                                       && result.value == RecapOf(frame, records, s, budget))
    && (result.Failure? ==> result.error == if required == {} then BudgetTooSmall else InstructionTooLarge)
  }

  /**
   A recap is built exactly when some selection of whole records holds the newest user record
   and fits. The one built is the best of those, and the ids of the others are listed.
   */
  method BuildFromRecords(frame: Frame, records: seq<Record>, budget: nat) returns (result: Result<Recap, RecapError>)
    ensures Promised(frame, records, budget, result)
  {
    var texts := Texts(records);
    var choice := Select(frame, texts, Protected(records), budget);
    if choice.None? { return Failure(InstructionTooLarge); }
    var selected := choice.value;
    if EstimateTokens(|Render(frame, texts, selected)|) > budget { return Failure(BudgetTooSmall); }
    return Success(RecapOf(frame, records, selected, budget));
  }

  method BuildTokenBudgetedRecap(parts: seq<Part>, options: Options, window: Option<nat>, trim: Text -> Text)
    returns (result: Result<Recap, RecapError>)
    ensures Budget(options, window).None? ==> result == Failure(InstructionTooLarge)
    ensures Budget(options, window).Some? && Records(parts, trim) == [] ==>
              result == Success(Recap([], 0, Budget(options, window).value, [], []))
    ensures Budget(options, window).Some? && Records(parts, trim) != [] ==>
              Promised(FrameOf(options.kind), Records(parts, trim), Budget(options, window).value, result)
  {
    var limit := Budget(options, window);
    if limit.None? { return Failure(InstructionTooLarge); }
    var records := Records(parts, trim);
    if records == [] { return Success(Recap([], 0, limit.value, [], [])); }
    result := BuildFromRecords(FrameOf(options.kind), records, limit.value);
  }
}
