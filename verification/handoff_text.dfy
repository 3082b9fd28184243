/** Text as the recap builders of agent-handoff.ts see it: a sequence of UTF-16 code units. */
module HandoffText {
  import opened Wrappers

  newtype CodeUnit = x: int | 0 <= x < 0x1_0000

  type Text = seq<CodeUnit>

  /** A literal; every character used here is a single code unit. */
  function Units(s: string): (t: Text)
    ensures |t| == |s|
  {
    seq(|s|, i requires 0 <= i < |s| => (s[i] as int % 0x1_0000) as CodeUnit)
  }

  datatype Role = User | Assistant | OtherRole

  datatype PartType = Absent | TextPart | OtherPart

  /** One transcript record; `tool` is the JSON text of its tool outcome. */
  datatype Part = Part(partId: Option<Text>, role: Role, content: Option<Text>, partType: PartType, tool: Option<Text>)

  /** A JavaScript number, as far as the builders look at it. */
  datatype Number = Finite(value: real) | Infinite(positive: bool) | NaN

  const INITIAL_PROMPT_PREFIX: Text := Units("user-initial-")

  const FOOTER: Text := Units("\n\n---")

  predicate IsInitialPrompt(p: Part) {
    p.partId.Some? && INITIAL_PROMPT_PREFIX <= p.partId.value
  }

  function Label(role: Role): Text {
    Units(if role.User? then "User: " else "Previous agent: ")
  }

  const SEPARATOR: Text := Units("\n\n")

  function Join(ts: seq<Text>): Text {
    if ts == [] then []
    else if |ts| == 1 then ts[0]
    else ts[0] + SEPARATOR + Join(ts[1..])
  }

  /** `t.slice(-n)`: the last `n` units, or all of them. */
  function Last(t: Text, n: nat): (r: Text)
    ensures |r| == if |t| < n then |t| else n
  {
    if |t| <= n then t else t[|t| - n..]
  }

  lemma JoinCons(t: Text, ts: seq<Text>)
    requires ts != []
    ensures Join([t] + ts) == t + SEPARATOR + Join(ts)
    ensures |Join([t] + ts)| == |t| + 2 + |Join(ts)|
  {
    assert ([t] + ts)[1..] == ts;
  }

  lemma {:induction false} JoinAppendLength(ts: seq<Text>, t: Text)
    ensures |Join(ts + [t])| == |Join(ts)| + |t| + if ts == [] then 0 else 2
  {
    if |ts| == 0 {
      assert ts + [t] == [t];
    } else if |ts| == 1 {
      assert ts + [t] == [ts[0], t];
      JoinCons(ts[0], [t]);
      assert [ts[0]] + [t] == ts + [t];
    } else {
      JoinAppendLength(ts[1..], t);
      assert (ts + [t])[1..] == ts[1..] + [t];
    }
  }

  /** A tail of a tail, and the tail of a concatenation whose second part is shorter than it. */
  lemma LastOfConcat(a: Text, b: Text, n: nat)
    ensures |b| <= n ==> Last(a + b, n) == Last(a, n - |b|) + b
    ensures n <= |b| ==> Last(a + b, n) == Last(b, n)
  {
    if |b| <= n {
      assert |a| <= n - |b| ==> Last(a + b, n) == a + b;
      assert |a| > n - |b| ==> Last(a + b, n) == (a + b)[|a| + |b| - n..] == a[|a| - (n - |b|)..] + b;
    }
  }
}
