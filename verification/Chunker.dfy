/** Context truncation: system messages and the longest affordable suffix of the others. */
module Chunker {
  import opened OpenAI

  const SAFETY_MARGIN: int := 1024

  /** How many tokens a text encodes to. */
  type Encoder = string -> nat

  // ---------------------------------------------------------------- counting

  /** The text parts, separated by blanks. */
  function Joined(ps: seq<Part>, first: bool): string {
    if ps == [] then ""
    else if ps[0].TextPart? then (if first then "" else " ") + ps[0].text + Joined(ps[1..], false)
    else Joined(ps[1..], first)
  }

  function ContentText(content: Content): string {
    match content
    case NoContent => ""
    case Text(t) => t
    case Parts(ps) => Joined(ps, true)
  }

  function CallCost(enc: Encoder, calls: seq<ToolCall>): nat {
    if calls == [] then 0
    else
      var call := calls[|calls| - 1];
      CallCost(enc, calls[..|calls| - 1]) + enc(call.name) + enc(call.arguments)
  }

  function Cost(enc: Encoder, m: Message): (n: nat)
    ensures n >= 4
  {
    enc(ContentText(m.content)) + 4 + CallCost(enc, m.toolCalls)
  }

  function Total(enc: Encoder, ms: seq<Message>): nat {
    if ms == [] then 0 else Total(enc, ms[..|ms| - 1]) + Cost(enc, ms[|ms| - 1])
  }

  /** The counter's loops. */
  method CountMessageTokens(enc: Encoder, ms: seq<Message>) returns (total: nat)
    ensures total == Total(enc, ms)
  {
    total := 0;
    for i := 0 to |ms|
      invariant total == Total(enc, ms[..i])
    {
      var m := ms[i];
      ghost var before := total;
      total := total + enc(ContentText(m.content)) + 4;
      for j := 0 to |m.toolCalls|
        invariant total == before + enc(ContentText(m.content)) + 4 + CallCost(enc, m.toolCalls[..j])
      {
        assert m.toolCalls[..j + 1][..j] == m.toolCalls[..j];
        total := total + enc(m.toolCalls[j].name) + enc(m.toolCalls[j].arguments);
      }
      assert m.toolCalls[..|m.toolCalls|] == m.toolCalls;
      assert ms[..i + 1][..i] == ms[..i];
    }
    assert ms[..|ms|] == ms;
  }

  lemma {:induction false} TotalOfBoth(enc: Encoder, a: seq<Message>, b: seq<Message>)
    ensures Total(enc, a + b) == Total(enc, a) + Total(enc, b)
  {
    if b == [] {
      assert a + b == a;
    } else {
      TotalOfBoth(enc, a, b[..|b| - 1]);
      assert (a + b)[..|a + b| - 1] == a + b[..|b| - 1];
    }
  }

  lemma Snoc(enc: Encoder, ms: seq<Message>, m: Message)
    ensures Total(enc, ms + [m]) == Total(enc, ms) + Cost(enc, m)
    ensures Systems(ms + [m]) == Systems(ms) + (if m.role == "system" then [m] else [])
    ensures Others(ms + [m]) == Others(ms) + (if m.role == "system" then [] else [m])
  {
    hide Cost;
    assert (ms + [m])[..|ms|] == ms;
  }

  lemma OneTotal(enc: Encoder, m: Message)
    ensures Total(enc, [m]) == Cost(enc, m)
  {
    assert [m][..0] == [];
  }

  // ---------------------------------------------------------------- truncation

  function Systems(ms: seq<Message>): seq<Message> {
    if ms == [] then []
    else Systems(ms[..|ms| - 1]) + (if ms[|ms| - 1].role == "system" then [ms[|ms| - 1]] else [])
  }

  function Others(ms: seq<Message>): seq<Message> {
    if ms == [] then []
    else Others(ms[..|ms| - 1]) + (if ms[|ms| - 1].role == "system" then [] else [ms[|ms| - 1]])
  }

  /** How many messages, from the end, as long as the next one is affordable. */
  function Affordable(enc: Encoder, ms: seq<Message>, remaining: int): (k: nat)
    ensures k <= |ms|
  {
    if ms == [] || remaining < Cost(enc, ms[|ms| - 1]) then 0
    else Affordable(enc, ms[..|ms| - 1], remaining - Cost(enc, ms[|ms| - 1])) + 1
  }

  function Last(ms: seq<Message>, k: nat): seq<Message>
    requires k <= |ms|
  {
    ms[|ms| - k..]
  }

  function Budget(window: int): int {
    window - SAFETY_MARGIN
  }

  function Room(enc: Encoder, ms: seq<Message>, window: int): int {
    Budget(window) - Total(enc, Systems(ms))
  }

  function Truncated(enc: Encoder, ms: seq<Message>, window: int): seq<Message> {
    if Total(enc, ms) <= Budget(window) then ms
    else Systems(ms) + Last(Others(ms), Affordable(enc, Others(ms), Room(enc, ms, window)))
  }

  datatype Info = Info(truncated: bool, original: nat, sent: nat, dropped: int)

  /** The reversed loop with its early exit. */
  method ApplyTruncation(enc: Encoder, ms: seq<Message>, window: int) returns (final: seq<Message>, info: Info)
    ensures final == Truncated(enc, ms, window)
    ensures info == Info(Total(enc, ms) > Budget(window), Total(enc, ms), Total(enc, final), |ms| - |final|)
  {
    hide Cost, Total, Systems, Others, Affordable;
    var original := CountMessageTokens(enc, ms);
    var budget := window - SAFETY_MARGIN;
    if original <= budget {
      return ms, Info(false, original, original, 0);
    }
    var system, other := Systems(ms), Others(ms);
    var systemTokens := CountMessageTokens(enc, system);
    var remaining := budget - systemTokens;
    var kept: seq<Message> := [];
    var i := |other|;
    assert other[..i] == other;
    while i > 0
      invariant 0 <= i <= |other| && kept == other[i..]
      invariant Affordable(enc, other, budget - systemTokens) == |kept| + Affordable(enc, other[..i], remaining)
      decreases i
    {
      var m := other[i - 1];
      var c := CountMessageTokens(enc, [m]);
      OneTotal(enc, m);
      AffordableStep(enc, other[..i], remaining);
      assert other[..i][..i - 1] == other[..i - 1];
      if remaining - c < 0 {
        break;
      }
      kept := [m] + kept;
      remaining := remaining - c;
      i := i - 1;
    }
    if i == 0 {
      AffordableNone(enc, remaining);
      assert other[..i] == [];
    }
    final := system + kept;
    var sent := CountMessageTokens(enc, final);
    info := Info(true, original, sent, |ms| - |final|);
  }

  lemma AffordableNone(enc: Encoder, remaining: int)
    ensures Affordable(enc, [], remaining) == 0
  {
  }

  lemma AffordableStep(enc: Encoder, ms: seq<Message>, remaining: int)
    requires ms != []
    ensures var c := Cost(enc, ms[|ms| - 1]);
            Affordable(enc, ms, remaining) ==
            (if remaining < c then 0 else Affordable(enc, ms[..|ms| - 1], remaining - c) + 1)
  {
  }

  // ---------------------------------------------------------------- optimality

  /** Truncation's two classes make up the whole. */
  lemma {:induction false} Partition(enc: Encoder, ms: seq<Message>)
    ensures |Systems(ms)| + |Others(ms)| == |ms|
    ensures Total(enc, Systems(ms)) + Total(enc, Others(ms)) == Total(enc, ms)
    ensures multiset(Systems(ms)) + multiset(Others(ms)) == multiset(ms)
  {
    hide Cost, Systems, Others, Total;
    if ms == [] {
      NoMessages(enc);
    } else {
      var front, m := ms[..|ms| - 1], ms[|ms| - 1];
      Partition(enc, front);
      PartitionStep(enc, front, m);
      assert ms == front + [m];
    }
  }

  lemma NoMessages(enc: Encoder)
    ensures Systems([]) == [] && Others([]) == [] && Total(enc, []) == 0
  {
  }

  lemma PartitionStep(enc: Encoder, front: seq<Message>, m: Message)
    requires |Systems(front)| + |Others(front)| == |front|
    requires Total(enc, Systems(front)) + Total(enc, Others(front)) == Total(enc, front)
    requires multiset(Systems(front)) + multiset(Others(front)) == multiset(front)
    ensures |Systems(front + [m])| + |Others(front + [m])| == |front| + 1
    ensures Total(enc, Systems(front + [m])) + Total(enc, Others(front + [m])) == Total(enc, front + [m])
    ensures multiset(Systems(front + [m])) + multiset(Others(front + [m])) == multiset(front + [m])
  {
    hide Cost, Systems, Others, Total;
    Snoc(enc, front, m);
    if m.role == "system" {
      Snoc(enc, Systems(front), m);
      assert Others(front) + [] == Others(front);
    } else {
      Snoc(enc, Others(front), m);
      assert Systems(front) + [] == Systems(front);
    }
  }

  lemma {:induction false} Roles(ms: seq<Message>)
    ensures forall i :: 0 <= i < |Systems(ms)| ==> Systems(ms)[i].role == "system"
    ensures forall i :: 0 <= i < |Others(ms)| ==> Others(ms)[i].role != "system"
  {
    if ms != [] {
      Roles(ms[..|ms| - 1]);
    }
  }

  lemma LastStep(enc: Encoder, ms: seq<Message>, k: nat)
    requires 0 < k <= |ms|
    ensures Total(enc, Last(ms, k)) == Total(enc, Last(ms[..|ms| - 1], k - 1)) + Cost(enc, ms[|ms| - 1])
  {
    hide Cost, Total;
    Snoc(enc, Last(ms[..|ms| - 1], k - 1), ms[|ms| - 1]);
    assert Last(ms, k) == Last(ms[..|ms| - 1], k - 1) + [ms[|ms| - 1]];
  }

  lemma NoneIsFree(enc: Encoder, ms: seq<Message>)
    ensures Total(enc, Last(ms, 0)) == 0
  {
  }

  /** The last `k` messages fit exactly when `k` is at most the number kept: the greedy choice is the
      longest suffix that fits. */
  lemma {:induction false} FitsIff(enc: Encoder, ms: seq<Message>, remaining: int, k: nat)
    requires k <= |ms| && remaining >= 0
    ensures Total(enc, Last(ms, k)) <= remaining <==> k <= Affordable(enc, ms, remaining)
  {
    hide Cost, Total, Affordable, Last;
    if k == 0 {
      NoneIsFree(enc, ms);
    } else {
      var c := Cost(enc, ms[|ms| - 1]);
      LastStep(enc, ms, k);
      AffordableStep(enc, ms, remaining);
      if remaining >= c {
        FitsIff(enc, ms[..|ms| - 1], remaining - c, k - 1);
      }
    }
  }

  lemma NothingWhenOverdrawn(enc: Encoder, ms: seq<Message>, remaining: int)
    requires remaining < 0
    ensures Affordable(enc, ms, remaining) == 0
  {
  }

  /** When over budget the result is all system messages, then a suffix of the others, all in their
      order; and when the system messages fit, the suffix is the longest that fits with them. */
  lemma TruncationIsOptimal(enc: Encoder, ms: seq<Message>, window: int, k: nat)
    requires Total(enc, ms) > Budget(window) && k <= |Others(ms)|
    ensures var kept := |Truncated(enc, ms, window)| - |Systems(ms)|;
            && 0 <= kept <= |Others(ms)|
            && Truncated(enc, ms, window) == Systems(ms) + Last(Others(ms), kept)
            && (Total(enc, Systems(ms)) > Budget(window) ==> kept == 0)
            && (Total(enc, Systems(ms)) <= Budget(window) ==>
                 (Total(enc, Systems(ms) + Last(Others(ms), k)) <= Budget(window) <==> k <= kept))
  {
    hide Systems, Others, Cost, Total, Affordable;
    TotalOfBoth(enc, Systems(ms), Last(Others(ms), k));
    var room := Room(enc, ms, window);
    if room >= 0 {
      FitsIff(enc, Others(ms), room, k);
    } else {
      NothingWhenOverdrawn(enc, Others(ms), room);
    }
  }

  /** The result is within budget exactly when the system messages alone are. */
  lemma WithinBudgetIff(enc: Encoder, ms: seq<Message>, window: int)
    ensures Total(enc, Truncated(enc, ms, window)) <= window - 1024 <==> Total(enc, Systems(ms)) <= window - 1024
  {
    hide Systems, Others, Cost, Total, Affordable, Last;
    Partition(enc, ms);
    if Total(enc, ms) > Budget(window) {
      var room := Room(enc, ms, window);
      var k := Affordable(enc, Others(ms), room);
      TotalOfBoth(enc, Systems(ms), Last(Others(ms), k));
      if room >= 0 {
        FitsIff(enc, Others(ms), room, k);
      }
    }
  }

  lemma {:induction false} AllSystem(enc: Encoder, a: seq<Message>)
    requires forall i :: 0 <= i < |a| ==> a[i].role == "system"
    ensures Systems(a) == a && Others(a) == []
  {
    if a != [] {
      hide Systems, Others;
      AllSystem(enc, a[..|a| - 1]);
      assert a == a[..|a| - 1] + [a[|a| - 1]];
      Snoc(enc, a[..|a| - 1], a[|a| - 1]);
    }
  }

  lemma {:induction false} SplitOfBoth(enc: Encoder, a: seq<Message>, b: seq<Message>)
    requires forall i :: 0 <= i < |a| ==> a[i].role == "system"
    requires forall i :: 0 <= i < |b| ==> b[i].role != "system"
    ensures Systems(a + b) == a && Others(a + b) == b
  {
    hide Systems, Others;
    if b == [] {
      AllSystem(enc, a);
      assert a + b == a;
    } else {
      var n := |b| - 1;
      SplitOfBoth(enc, a, b[..n]);
      Snoc(enc, a + b[..n], b[n]);
      assert a + b == a + b[..n] + [b[n]];
      assert b == b[..n] + [b[n]] && a + [] == a;
    }
  }

  /** In every case the system messages all remain, and of the others the greedy choice. */
  lemma PartsOfTruncated(enc: Encoder, ms: seq<Message>, window: int)
    ensures Systems(Truncated(enc, ms, window)) == Systems(ms)
    ensures Others(Truncated(enc, ms, window)) == Last(Others(ms), Affordable(enc, Others(ms), Room(enc, ms, window)))
  {
    hide Systems, Others, Affordable, Total, Cost;
    var room, other := Room(enc, ms, window), Others(ms);
    if Total(enc, ms) <= Budget(window) {
      Partition(enc, ms);
      assert Last(other, |other|) == other;
      FitsIff(enc, other, room, |other|);
    } else {
      Roles(ms);
      SplitOfBoth(enc, Systems(ms), Last(other, Affordable(enc, other, room)));
    }
  }

  /** Applying it again with the same window changes no message. */
  lemma TruncationIsIdempotent(enc: Encoder, ms: seq<Message>, window: int)
    ensures Truncated(enc, Truncated(enc, ms, window), window) == Truncated(enc, ms, window)
  {
    hide Systems, Others, Affordable, Total, Cost, Last;
    if Total(enc, ms) > Budget(window) {
      var room, other := Room(enc, ms, window), Others(ms);
      PartsOfTruncated(enc, ms, window);
      AffordableAgain(enc, other, room);
    }
  }

  lemma AffordableAgain(enc: Encoder, ms: seq<Message>, remaining: int)
    ensures var k := Affordable(enc, ms, remaining);
            Last(Last(ms, k), Affordable(enc, Last(ms, k), remaining)) == Last(ms, k)
  {
    hide Affordable, Total, Cost;
    var k := Affordable(enc, ms, remaining);
    if remaining >= 0 {
      FitsIff(enc, ms, remaining, k);
      FitsIff(enc, Last(ms, k), remaining, k);
      assert Last(Last(ms, k), k) == Last(ms, k);
    } else {
      NothingWhenOverdrawn(enc, ms, remaining);
    }
  }

  /** More room keeps no fewer. */
  lemma {:induction false} AffordableGrows(enc: Encoder, ms: seq<Message>, less: int, more: int)
    requires less <= more
    ensures Affordable(enc, ms, less) <= Affordable(enc, ms, more)
  {
    hide Cost;
    if ms != [] {
      var n := |ms| - 1;
      AffordableGrows(enc, ms[..n], less - Cost(enc, ms[n]), more - Cost(enc, ms[n]));
    }
  }

  /** A larger window keeps the system messages and no fewer of the others: what the smaller one
      keeps of them ends what the larger one keeps. */
  lemma {:induction false} LargerWindowKeepsMore(enc: Encoder, ms: seq<Message>, window: int, larger: int)
    requires window <= larger
    ensures var small, large := Truncated(enc, ms, window), Truncated(enc, ms, larger);
            && |small| <= |large|
            && Systems(small) == Systems(large) == Systems(ms)
            && |Others(small)| <= |Others(large)|
            && Others(small) == Last(Others(large), |Others(small)|)
  {
    hide Affordable, Total, Systems, Others, Cost;
    var small, large := Truncated(enc, ms, window), Truncated(enc, ms, larger);
    PartsOfTruncated(enc, ms, window);
    PartsOfTruncated(enc, ms, larger);
    Partition(enc, small);
    Partition(enc, large);
    AffordableGrows(enc, Others(ms), Room(enc, ms, window), Room(enc, ms, larger));
  }

  // ---------------------------------------------------------------- what is counted

  /** Every tool call counts, wherever it stands: its name and its arguments. */
  lemma {:induction false} EveryCallCounts(enc: Encoder, m: Message, a: seq<ToolCall>, call: ToolCall, b: seq<ToolCall>)
    ensures Cost(enc, m.(toolCalls := a + [call] + b)) ==
            Cost(enc, m.(toolCalls := a + b)) + enc(call.name) + enc(call.arguments)
  {
    CallCostOfBoth(enc, a + [call], b);
    CallCostOfBoth(enc, a, [call]);
    CallCostOfBoth(enc, a, b);
    assert [call][..0] == [];
  }

  lemma {:induction false} CallCostOfBoth(enc: Encoder, a: seq<ToolCall>, b: seq<ToolCall>)
    ensures CallCost(enc, a + b) == CallCost(enc, a) + CallCost(enc, b)
  {
    if b == [] {
      assert a + b == a;
    } else {
      CallCostOfBoth(enc, a, b[..|b| - 1]);
      assert (a + b)[..|a + b| - 1] == a + b[..|b| - 1];
    }
  }

  predicate HasText(ps: seq<Part>) {
    exists i :: 0 <= i < |ps| && ps[i].TextPart?
  }

  lemma HasTextStep(ps: seq<Part>)
    requires ps != []
    ensures HasText(ps) <==> ps[0].TextPart? || HasText(ps[1..])
  {
    if HasText(ps) && !ps[0].TextPart? {
      var i :| 0 <= i < |ps| && ps[i].TextPart?;
      assert ps[1..][i - 1].TextPart?;
    }
    if HasText(ps[1..]) {
      var i :| 0 <= i < |ps| - 1 && ps[1..][i].TextPart?;
      assert ps[i + 1].TextPart?;
    }
  }

  lemma JoinedHead(ps: seq<Part>, first: bool)
    requires ps != []
    ensures Joined(ps, first) ==
      if ps[0].TextPart? then (if first then "" else " ") + ps[0].text + Joined(ps[1..], false)
      else Joined(ps[1..], first)
  {
  }

  lemma JoinedNothing(p: Part, first: bool)
    ensures Joined([], first) == "" && !HasText([])
    ensures Joined([p], first) == if p.TextPart? then (if first then "" else " ") + p.text else ""
  {
    assert [p][1..] == [];
    var s := (if first then "" else " ") + (if p.TextPart? then p.text else "");
    assert s + "" == s;
  }

  /** Joining part by part: a text follows those before it after one blank, another part adds nothing. */
  lemma {:induction false} JoinedStep(ps: seq<Part>, p: Part, first: bool)
    ensures Joined(ps + [p], first) ==
      Joined(ps, first) + (if p.TextPart? then (if first && !HasText(ps) then "" else " ") + p.text else "")
  {
    hide Joined, HasText;
    if ps == [] {
      assert ps + [p] == [p];
      JoinedNothing(p, first);
      assert "" + Joined([p], first) == Joined([p], first);
    } else {
      assert (ps + [p])[0] == ps[0] && (ps + [p])[1..] == ps[1..] + [p];
      HasTextStep(ps);
      JoinedHead(ps, first);
      JoinedHead(ps + [p], first);
      var later := first && !ps[0].TextPart?;
      JoinedStep(ps[1..], p, later);
      var head := if ps[0].TextPart? then (if first then "" else " ") + ps[0].text else "";
      var more := if p.TextPart? then (if later && !HasText(ps[1..]) then "" else " ") + p.text else "";
      ThreeTexts(head, Joined(ps[1..], later), more);
      assert "" + Joined(ps[1..], later) == Joined(ps[1..], later);
    }
  }

  lemma ThreeTexts(a: string, b: string, c: string)
    ensures a + b + c == a + (b + c) && "" + b + c == b + c
  {
  }

  /** What a message costs that calls no tool: four, and the encoding of its text. */
  lemma {:induction false} TextCounts(enc: Encoder, m: Message, ps: seq<Part>, p: Part)
    requires m.toolCalls == []
    ensures m.content.NoContent? ==> Cost(enc, m) == enc("") + 4
    ensures m.content.Text? ==> Cost(enc, m) == enc(m.content.text) + 4
    ensures m.content == Parts([]) ==> Cost(enc, m) == enc("") + 4
    ensures m.content == Parts(ps + [p]) ==>
      Cost(enc, m) == 4 + enc(ContentText(Parts(ps)) +
                              (if p.TextPart? then (if HasText(ps) then " " else "") + p.text else ""))
  {
    JoinedStep(ps, p, true);
  }

  lemma {:induction false} PartOfTotal(enc: Encoder, ms: seq<Message>, i: nat)
    requires i < |ms|
    ensures Cost(enc, ms[i]) <= Total(enc, ms)
  {
    hide Cost;
    if i < |ms| - 1 {
      PartOfTotal(enc, ms[..|ms| - 1], i);
    }
  }

  /** Whatever is sent when the system messages fit, no tool call in it takes more than the window less
      the margin of 1024 and the 4 of its message. */
  lemma {:induction false} CallsSentFit(enc: Encoder, ms: seq<Message>, window: int, i: nat, call: ToolCall)
    requires i < |Truncated(enc, ms, window)| && call in Truncated(enc, ms, window)[i].toolCalls
    requires Total(enc, Systems(ms)) <= window - 1024
    ensures enc(call.name) + enc(call.arguments) <= window - 1028
  {
    hide Truncated, Total, Systems, Others;
    var m := Truncated(enc, ms, window)[i];
    WithinBudgetIff(enc, ms, window);
    PartOfTotal(enc, Truncated(enc, ms, window), i);
    var j :| 0 <= j < |m.toolCalls| && m.toolCalls[j] == call;
    assert m.toolCalls == m.toolCalls[..j] + [call] + m.toolCalls[j + 1..];
    EveryCallCounts(enc, m, m.toolCalls[..j], call, m.toolCalls[j + 1..]);
    assert m.(toolCalls := m.toolCalls[..j] + [call] + m.toolCalls[j + 1..]) == m;
  }
}
