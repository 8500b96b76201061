/** Conversations as content blocks: what the Anthropic and Bedrock adapters share, and what any
    faithful translation of single messages means for a whole conversation. */
module Conversation {
  import opened Common
  import opened OpenAI

  datatype Block =
    | TextBlock(text: string)
    | ToolUse(id: string, name: string, input: Json)
    | ToolResult(toolUseId: string, content: string)
    | OtherBlock

  datatype BlockContent = Plain(text: string) | Blocks(blocks: seq<Block>)

  datatype BlockMessage = BlockMessage(role: string, content: BlockContent)

  function IdOr(id: string, newId: string): string {
    if id != "" then id else newId
  }

  /** Tool calls to tool-use blocks; a call without an id gets a new one. */
  function UseBlocks(c: Codec, calls: seq<ToolCall>, newId: nat -> string): seq<Block> {
    seq(|calls|, i requires 0 <= i < |calls| =>
      ToolUse(IdOr(calls[i].id, newId(i)), calls[i].name, ReadArguments(c, calls[i].arguments)))
  }

  function LeadBlocks(text: string): seq<Block> {
    if text != "" then [TextBlock(text)] else []
  }

  function AssistantBlocks(c: Codec, m: Message, newId: nat -> string): seq<Block> {
    LeadBlocks(LeadText(m.content)) + UseBlocks(c, m.toolCalls, newId)
  }

  function Texts(bs: seq<Block>): string {
    if bs == [] then ""
    else Texts(bs[..|bs| - 1]) + (if bs[|bs| - 1].TextBlock? then bs[|bs| - 1].text else "")
  }

  function CallIn(c: Codec, b: Block, n: nat, idOf: (string, nat) -> string): seq<(nat, ToolCall)> {
    match b
    case ToolUse(id, name, input) => [(n, ToolCall(idOf(id, n), name, WriteInput(c, input)))]
    case _ => []
  }

  /** The tool calls of a message, each with the number of calls before it as its index. */
  function Calls(c: Codec, bs: seq<Block>, idOf: (string, nat) -> string): seq<(nat, ToolCall)> {
    if bs == [] then []
    else
      var rest := Calls(c, bs[..|bs| - 1], idOf);
      rest + CallIn(c, bs[|bs| - 1], |rest|, idOf)
  }

  function WithoutIndices(calls: seq<(nat, ToolCall)>): seq<ToolCall> {
    seq(|calls|, i requires 0 <= i < |calls| => calls[i].1)
  }

  function Indices(calls: seq<(nat, ToolCall)>): seq<nat> {
    seq(|calls|, i requires 0 <= i < |calls| => calls[i].0)
  }

  // ---------------------------------------------------------------- raw calls and their translations

  /** Call `j` of the translation, its raw arguments read and written. */
  predicate Rewritten(c: Codec, raw: ToolCall, call: (nat, ToolCall), j: nat) {
    call == (j, raw.(arguments := WriteInput(c, ReadArguments(c, raw.arguments))))
  }

  predicate AllRewritten(c: Codec, raws: seq<ToolCall>, calls: seq<(nat, ToolCall)>) {
    |calls| == |raws| && forall j :: 0 <= j < |calls| ==> Rewritten(c, raws[j], calls[j], j)
  }

  lemma OneMoreRewritten(c: Codec, raws: seq<ToolCall>, calls: seq<(nat, ToolCall)>, raw: ToolCall,
                         call: (nat, ToolCall))
    requires AllRewritten(c, raws, calls) && Rewritten(c, raw, call, |calls|)
    ensures |raws| == |calls| && AllRewritten(c, raws + [raw], calls + [call])
  {
  }

  // ---------------------------------------------------------------- one assistant turn, there and back

  lemma BlockStep(c: Codec, bs: seq<Block>, b: Block, idOf: (string, nat) -> string)
    ensures Texts(bs + [b]) == Texts(bs) + (if b.TextBlock? then b.text else "")
    ensures Calls(c, bs + [b], idOf) == Calls(c, bs, idOf) + CallIn(c, b, |Calls(c, bs, idOf)|, idOf)
  {
    hide CallIn;
    assert (bs + [b])[..|bs|] == bs;
  }

  lemma UseStep(c: Codec, calls: seq<ToolCall>, call: ToolCall, newId: nat -> string)
    ensures UseBlocks(c, calls + [call], newId) ==
      UseBlocks(c, calls, newId) + [ToolUse(IdOr(call.id, newId(|calls|)), call.name, ReadArguments(c, call.arguments))]
  {
    hide ReadArguments, IdOr;
  }

  /** Call `j` after one trip: numbered, and with its arguments read and written once. */
  function Returned(c: Codec, call: ToolCall, j: nat, newId: nat -> string, idOf: (string, nat) -> string)
    : (nat, ToolCall)
  {
    (j, ToolCall(idOf(IdOr(call.id, newId(j)), j), call.name, WriteInput(c, ReadArguments(c, call.arguments))))
  }

  lemma LeadReadsBack(c: Codec, text: string, newId: nat -> string, idOf: (string, nat) -> string)
    ensures Texts(LeadBlocks(text) + UseBlocks(c, [], newId)) == text
    ensures Calls(c, LeadBlocks(text) + UseBlocks(c, [], newId), idOf) == []
  {
    assert LeadBlocks(text) + UseBlocks(c, [], newId) == LeadBlocks(text);
    if text != "" {
      BlockStep(c, [], TextBlock(text), idOf);
      assert [] + [TextBlock(text)] == LeadBlocks(text);
      assert "" + text == text;
    }
  }

  /** Reading back the blocks of an assistant turn gives its text and its calls. */
  lemma {:induction false} TurnReadsBack(c: Codec, text: string, calls: seq<ToolCall>, newId: nat -> string,
                                         idOf: (string, nat) -> string)
    ensures var bs := LeadBlocks(text) + UseBlocks(c, calls, newId);
            && Texts(bs) == text
            && |Calls(c, bs, idOf)| == |calls|
            && forall j :: 0 <= j < |calls| ==> Calls(c, bs, idOf)[j] == Returned(c, calls[j], j, newId, idOf)
  {
    hide ReadArguments, WriteInput, IdOr, LeadBlocks, Texts, Calls, UseBlocks;
    if calls == [] {
      LeadReadsBack(c, text, newId, idOf);
    } else {
      var n := |calls| - 1;
      var front, last := calls[..n], calls[n];
      TurnReadsBack(c, text, front, newId, idOf);
      UseStep(c, front, last, newId);
      assert calls == front + [last];
      var b := ToolUse(IdOr(last.id, newId(n)), last.name, ReadArguments(c, last.arguments));
      var bs := LeadBlocks(text) + UseBlocks(c, front, newId);
      assert LeadBlocks(text) + UseBlocks(c, calls, newId) == bs + [b];
      BlockStep(c, bs, b, idOf);
      assert Texts(bs) + "" == Texts(bs);
      assert CallIn(c, b, n, idOf) == [Returned(c, last, n, newId, idOf)];
    }
  }

  /** A turn came back: its text, and its calls numbered, with their ids, names and, exactly if it is of
      the kinds that survive, the value of their arguments. */
  ghost predicate Kept(c: Codec, m: Message, text: string, calls: seq<(nat, ToolCall)>) {
    && text == LeadText(m.content)
    && |calls| == |m.toolCalls|
    && forall j :: 0 <= j < |calls| ==>
         && calls[j].0 == j && calls[j].1.id == m.toolCalls[j].id && calls[j].1.name == m.toolCalls[j].name
         && var sent := ReadArguments(c, m.toolCalls[j].arguments);
            ReadArguments(c, calls[j].1.arguments) == sent <==> Survives(sent)
  }

  /** Ids are passed on when there are any. */
  ghost predicate KeepsIds(idOf: (string, nat) -> string) {
    forall id: string, j: nat :: id != "" ==> idOf(id, j) == id
  }

  /** An assistant turn with ids survives the trip to blocks and back. */
  lemma AssistantKept(c: Codec, m: Message, newId: nat -> string, idOf: (string, nat) -> string)
    requires Sound(c) && KeepsIds(idOf) && forall tc :: tc in m.toolCalls ==> tc.id != ""
    ensures var bs := AssistantBlocks(c, m, newId); Kept(c, m, Texts(bs), Calls(c, bs, idOf))
  {
    var bs := AssistantBlocks(c, m, newId);
    TurnReadsBack(c, LeadText(m.content), m.toolCalls, newId, idOf);
    hide Texts, Calls, UseBlocks, LeadBlocks, WriteInput, ReadArguments, Survives, LeadText;
    forall j | 0 <= j < |m.toolCalls|
      ensures var sent := ReadArguments(c, m.toolCalls[j].arguments);
              ReadArguments(c, Calls(c, bs, idOf)[j].1.arguments) == sent <==> Survives(sent)
    {
      ArgumentsSurviveIff(c, m.toolCalls[j].arguments);
    }
    assert forall j :: 0 <= j < |m.toolCalls| ==> m.toolCalls[j] in m.toolCalls;
  }

  /** The lead text is all of the text exactly when it is no list of parts with text. */
  lemma LeadIsWholeIff(content: Content)
    ensures LeadText(content) == PlainText(content) <==> !(content.Parts? && PartTexts(content.parts) != "")
  {
  }

  function Uses(bs: seq<Block>): seq<Block> {
    if bs == [] then []
    else Uses(bs[..|bs| - 1]) + (if bs[|bs| - 1].ToolUse? then [bs[|bs| - 1]] else [])
  }

  /** Tool uses as the interfaces send them: with an id, and an object as input. */
  predicate Proper(bs: seq<Block>) {
    forall b :: b in bs && b.ToolUse? ==> b.id != "" && b.input.JObj? && Held(b.input)
  }

  function CallList(c: Codec, bs: seq<Block>, idOf: (string, nat) -> string): seq<ToolCall> {
    WithoutIndices(Calls(c, bs, idOf))
  }

  lemma WithoutIndicesStep(xs: seq<(nat, ToolCall)>, x: (nat, ToolCall))
    ensures WithoutIndices(xs + [x]) == WithoutIndices(xs) + [x.1]
  {
  }

  lemma CallListStep(c: Codec, bs: seq<Block>, b: Block, idOf: (string, nat) -> string)
    ensures var n := |CallList(c, bs, idOf)|;
            CallList(c, bs + [b], idOf) == CallList(c, bs, idOf) +
              (if b.ToolUse? then [ToolCall(idOf(b.id, n), b.name, WriteInput(c, b.input))] else [])
  {
    hide Calls, WriteInput, WithoutIndices;
    BlockStep(c, bs, b, idOf);
    var calls := Calls(c, bs, idOf);
    SameLength(calls);
    if b.ToolUse? {
      WithoutIndicesStep(calls, (|calls|, ToolCall(idOf(b.id, |calls|), b.name, WriteInput(c, b.input))));
    } else {
      assert calls + [] == calls && WithoutIndices(calls) + [] == WithoutIndices(calls);
    }
  }

  lemma SameLength(xs: seq<(nat, ToolCall)>)
    ensures |WithoutIndices(xs)| == |xs|
  {
  }

  /** Sending back the calls a message was read as recreates its tool uses, in order. */
  lemma {:induction false} CallsSendBack(c: Codec, bs: seq<Block>, idOf: (string, nat) -> string, newId: nat -> string)
    requires Sound(c) && Proper(bs) && KeepsIds(idOf)
    ensures UseBlocks(c, CallList(c, bs, idOf), newId) == Uses(bs)
  {
    hide ReadArguments, WriteInput;
    if bs != [] {
      var front, b := bs[..|bs| - 1], bs[|bs| - 1];
      CallsSendBack(c, front, idOf, newId);
      var calls := CallList(c, front, idOf);
      assert bs == front + [b];
      CallListStep(c, front, b, idOf);
      hide UseBlocks, CallList;
      if b.ToolUse? {
        assert b in bs;
        ObjectsSurvive(c, b.input);
        UseStep(c, calls, ToolCall(b.id, b.name, WriteInput(c, b.input)), newId);
      } else {
        assert calls + [] == calls;
      }
    }
  }

  /** A provider that gets its own turn back as a client holds it sees the tool uses it sent, in
      order, after one block with all of its text. */
  lemma TurnSentBack(c: Codec, bs: seq<Block>, content: Content, idOf: (string, nat) -> string, newId: nat -> string)
    requires Sound(c) && Proper(bs) && KeepsIds(idOf)
    requires content == Text(Texts(bs)) || (content == NoContent && Texts(bs) == "")
    ensures AssistantBlocks(c, Message("assistant", content, CallList(c, bs, idOf), ""), newId) ==
      LeadBlocks(Texts(bs)) + Uses(bs)
  {
    CallsSendBack(c, bs, idOf, newId);
  }

  lemma ObjectsSurvive(c: Codec, input: Json)
    requires Sound(c) && input.JObj? && Held(input)
    ensures ReadArguments(c, WriteInput(c, input)) == input
  {
    assert c.loads(WriteInput(c, input)) == Some(input);
    assert WriteInput(c, input) != "";
  }

  // ---------------------------------------------------------------- whole conversations

  /** The messages that translate to something, in order. */
  function Translated(tr: (Message, nat) -> Option<BlockMessage>, ms: seq<Message>): seq<BlockMessage> {
    if ms == [] then []
    else
      Translated(tr, ms[..|ms| - 1]) +
      (match tr(ms[|ms| - 1], |ms| - 1)
       case Some(b) => [b]
       case None => [])
  }

  predicate UsesId(b: BlockMessage, t: string) {
    b.content.Blocks? && exists u :: u in b.content.blocks && u.ToolUse? && u.id == t
  }

  predicate CallsId(m: Message, t: string) {
    m.role == "assistant" && exists tc :: tc in m.toolCalls && tc.id == t
  }

  /** System messages are dropped, the others are not, and tool call ids carry over. */
  ghost predicate Carries(m: Message, b: Option<BlockMessage>, t: string) {
    && (b.None? <==> m.role == "system")
    && (b.Some? ==> (UsesId(b.value, t) <==> t != "" && CallsId(m, t)))
  }

  /** The blocks of an assistant turn use just the ids its calls have. */
  lemma IdsInBlocks(c: Codec, m: Message, newId: nat -> string, t: string)
    requires forall j :: newId(j) != t
    ensures (exists u :: u in AssistantBlocks(c, m, newId) && u.ToolUse? && u.id == t) <==>
            t != "" && exists tc :: tc in m.toolCalls && tc.id == t
  {
    var bs := AssistantBlocks(c, m, newId);
    var lead, uses := LeadBlocks(LeadText(m.content)), UseBlocks(c, m.toolCalls, newId);
    hide ReadArguments;
    if t != "" && exists tc :: tc in m.toolCalls && tc.id == t {
      var j :| 0 <= j < |m.toolCalls| && m.toolCalls[j].id == t;
      assert uses[j].id == t;
      assert bs[|lead| + j] == uses[j];
    }
    if u :| u in bs && u.ToolUse? && u.id == t {
      var j :| 0 <= j < |uses| && uses[j] == u;
      assert m.toolCalls[j] in m.toolCalls;
    }
  }

  function Spoken(ms: seq<Message>): nat {
    if ms == [] then 0 else Spoken(ms[..|ms| - 1]) + (if ms[|ms| - 1].role == "system" then 0 else 1)
  }

  lemma {:induction false} TranslatedPrefix(tr: (Message, nat) -> Option<BlockMessage>, ms: seq<Message>, i: nat)
    requires i <= |ms|
    ensures Translated(tr, ms[..i]) <= Translated(tr, ms)
  {
    if i < |ms| {
      assert ms[..|ms| - 1][..i] == ms[..i];
      TranslatedPrefix(tr, ms[..|ms| - 1], i);
    } else {
      assert ms[..i] == ms;
    }
  }

  /** An id is used by the translated conversation exactly when it is called by the original one. */
  lemma {:induction false} IdsCarry(tr: (Message, nat) -> Option<BlockMessage>, ms: seq<Message>, t: string)
    requires forall i :: 0 <= i < |ms| ==> Carries(ms[i], tr(ms[i], i), t)
    ensures |Translated(tr, ms)| == Spoken(ms)
    ensures (exists b :: b in Translated(tr, ms) && UsesId(b, t)) <==> t != "" && exists m :: m in ms && CallsId(m, t)
  {
    hide UsesId;
    if ms != [] {
      var front, m := ms[..|ms| - 1], ms[|ms| - 1];
      IdsCarry(tr, front, t);
      var b := tr(m, |ms| - 1);
      assert Carries(m, b, t);
      assert ms == front + [m];
      assert forall x :: x in ms <==> x in front || x == m;
      if b.Some? {
        assert forall x :: x in Translated(tr, ms) <==> x in Translated(tr, front) || x == b.value;
      } else {
        assert Translated(tr, ms) == Translated(tr, front);
        assert !CallsId(m, t);
      }
    }
  }

  /** Order is kept: message `i` goes where as many messages precede it as non-system ones preceded
      it; and what stands before it uses an id exactly when some message before it called that id. */
  lemma PlacedInOrder(tr: (Message, nat) -> Option<BlockMessage>, ms: seq<Message>, i: nat, t: string)
    requires i < |ms| && ms[i].role != "system"
    requires forall k :: 0 <= k < |ms| ==> Carries(ms[k], tr(ms[k], k), t)
    ensures var p := Spoken(ms[..i]);
            && p < |Translated(tr, ms)|
            && tr(ms[i], i) == Some(Translated(tr, ms)[p])
            && ((exists q :: 0 <= q < p && UsesId(Translated(tr, ms)[q], t)) <==>
                t != "" && exists k :: 0 <= k < i && CallsId(ms[k], t))
  {
    hide UsesId, CallsId;
    var before, out := ms[..i], Translated(tr, ms);
    assert ms[..i + 1][..i] == before;
    TranslatedPrefix(tr, ms, i);
    TranslatedPrefix(tr, ms, i + 1);
    IdsCarry(tr, before, t);
    var p := Spoken(before);
    assert Carries(ms[i], tr(ms[i], i), t);
    assert out[..p] == Translated(tr, before);
    assert (exists q :: 0 <= q < p && UsesId(out[q], t)) <==> (exists b :: b in Translated(tr, before) && UsesId(b, t));
    assert (exists k :: 0 <= k < i && CallsId(ms[k], t)) <==> (exists m :: m in before && CallsId(m, t));
  }
}
