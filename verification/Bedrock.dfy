/** The Bedrock adapter: Converse blocks and back, and the stream with its running tool counter. */
module Bedrock {
  import opened Common
  import opened OpenAI
  import opened Conversation

  // ---------------------------------------------------------------- translation

  /** Plain content as text blocks, never none. */
  function ContentBlocks(content: Content): seq<Block> {
    match content
    case Text(t) => [TextBlock(t)]
    case NoContent => [TextBlock("")]
    case Parts(ps) => if TextParts(ps) == [] then [TextBlock("")] else TextParts(ps)
  }

  function TextParts(ps: seq<Part>): seq<Block> {
    if ps == [] then []
    else TextParts(ps[..|ps| - 1]) + (if ps[|ps| - 1].TextPart? then [TextBlock(ps[|ps| - 1].text)] else [])
  }

  function ToConverse(c: Codec, m: Message, newId: nat -> string): Option<BlockMessage> {
    if m.role == "system" then None
    else if m.role == "tool" then
      Some(BlockMessage("user", Blocks([ToolResult(m.toolCallId, ResultText(c, m.content))])))
    else if m.role == "assistant" && m.toolCalls != [] then
      Some(BlockMessage("assistant", Blocks(AssistantBlocks(c, m, newId))))
    else
      Some(BlockMessage(if m.role in ["user", "assistant"] then m.role else "user", Blocks(ContentBlocks(m.content))))
  }

  /** Ids are passed on as they are. */
  function AsIs(): (string, nat) -> string {
    (id: string, n: nat) => id
  }

  function Stop(reason: string): string {
    match reason
    case "end_turn" => "stop"
    case "max_tokens" => "length"
    case "tool_use" => "tool_calls"
    case "stop_sequence" => "stop"
    case "content_filtered" => "content_filter"
    case _ => "stop"
  }

  datatype Response = Response(blocks: seq<Block>, stopReason: string, inputTokens: nat, outputTokens: nat,
                               totalTokens: nat)

  function Answer(c: Codec, r: Response): Reply {
    var calls := Calls(c, r.blocks, AsIs());
    var text := Texts(r.blocks);
    Reply(if calls != [] && text == "" then None else Some(text),
          WithoutIndices(calls), Indices(calls),
          if calls != [] then "tool_calls" else Stop(r.stopReason),
          r.inputTokens, r.outputTokens, if r.totalTokens != 0 then r.totalTokens else r.inputTokens + r.outputTokens)
  }

  // ---------------------------------------------------------------- the stream

  /** Converse opens text blocks without a start event. */
  datatype Event =
    | ToolStart(index: int, id: string, name: string)
    | TextDelta(index: int, text: string)
    | ToolDelta(index: int, fragment: string)
    | MessageStop(reason: string)
    | Metadata(inputTokens: Option<nat>, outputTokens: Option<nat>)
    | Noise

  datatype Streaming = Streaming(toolN: int, inTok: nat, outTok: nat, finish: string, chunks: seq<Chunk>)

  const FIRST := Streaming(-1, 0, 0, "stop", [RoleChunk])

  function Advance(s: Streaming, e: Event): Streaming
    requires s.toolN >= -1
  {
    match e
    case ToolStart(_, id, name) => s.(toolN := s.toolN + 1, chunks := s.chunks + [CallStart(s.toolN + 1, id, name, "")])
    case TextDelta(_, t) => s.(chunks := s.chunks + [ContentChunk(t)])
    case ToolDelta(_, f) => if s.toolN >= 0 then s.(chunks := s.chunks + [CallArguments(s.toolN, f)]) else s
    case MessageStop(reason) => s.(finish := Stop(reason))
    case Metadata(i, o) =>
      s.(inTok := if i.Some? then i.value else s.inTok, outTok := if o.Some? then o.value else s.outTok)
    case Noise => s
  }

  function Streamed(es: seq<Event>): (s: Streaming)
    ensures s.toolN >= -1
  {
    if es == [] then FIRST else Advance(Streamed(es[..|es| - 1]), es[|es| - 1])
  }

  function ChunksOf(es: seq<Event>): seq<Chunk> {
    var s := Streamed(es);
    s.chunks + [FinalChunk(s.finish, s.inTok, s.outTok, 0), Done]
  }

  lemma StreamedStep(es: seq<Event>, e: Event)
    ensures Streamed(es + [e]) == Advance(Streamed(es), e)
  {
    assert (es + [e])[..|es|] == es;
  }

  /** The event loop. */
  method ChatStream(es: seq<Event>) returns (chunks: seq<Chunk>)
    ensures chunks == ChunksOf(es)
  {
    hide Stop;
    var inTok: nat, outTok: nat, finish, toolN := 0, 0, "stop", -1;
    chunks := [RoleChunk];
    for i := 0 to |es|
      invariant Streamed(es[..i]) == Streaming(toolN, inTok, outTok, finish, chunks)
    {
      StreamedStep(es[..i], es[i]);
      assert es[..i + 1] == es[..i] + [es[i]];
      match es[i] {
        case ToolStart(_, id, name) =>
          toolN := toolN + 1;
          chunks := chunks + [CallStart(toolN, id, name, "")];
        case TextDelta(_, t) =>
          chunks := chunks + [ContentChunk(t)];
        case ToolDelta(_, f) =>
          if toolN >= 0 {
            chunks := chunks + [CallArguments(toolN, f)];
          }
        case MessageStop(reason) =>
          finish := Stop(reason);
        case Metadata(i, o) =>
          if i.Some? {
            inTok := i.value;
          }
          if o.Some? {
            outTok := o.value;
          }
        case Noise =>
      }
    }
    assert es[..|es|] == es;
    chunks := chunks + [FinalChunk(finish, inTok, outTok, 0), Done];
  }

  // ---------------------------------------------------------------- the assembled message, by block index

  datatype Raw = RawText(text: string) | RawTool(id: string, name: string, fragments: string)

  /** Deltas go to the block with their index; a text delta may open the next block. */
  function Put(raws: seq<Raw>, e: Event): seq<Raw> {
    match e
    case ToolStart(i, id, name) => if i == |raws| then raws + [RawTool(id, name, "")] else raws
    case TextDelta(i, t) =>
      if i == |raws| then raws + [RawText(t)]
      else if 0 <= i < |raws| && raws[i].RawText? then raws[i := RawText(raws[i].text + t)]
      else raws
    case ToolDelta(i, f) =>
      if 0 <= i < |raws| && raws[i].RawTool? then raws[i := raws[i].(fragments := raws[i].fragments + f)] else raws
    case _ => raws
  }

  function Raws(es: seq<Event>): seq<Raw> {
    if es == [] then [] else Put(Raws(es[..|es| - 1]), es[|es| - 1])
  }

  predicate Latest(raws: seq<Raw>, i: int) {
    0 <= i < |raws| && forall j :: i < j < |raws| ==> raws[j].RawTool? != raws[i].RawTool?
  }

  /** The next event fits: blocks open in order, and a delta belongs to the latest block of its kind. */
  predicate Fits(raws: seq<Raw>, e: Event) {
    match e
    case ToolStart(i, _, _) => i == |raws|
    case TextDelta(i, _) => i == |raws| || (Latest(raws, i) && raws[i].RawText?)
    case ToolDelta(i, _) => Latest(raws, i) && raws[i].RawTool?
    case _ => true
  }

  predicate WellFormed(es: seq<Event>) {
    es == [] || (WellFormed(es[..|es| - 1]) && Fits(Raws(es[..|es| - 1]), es[|es| - 1]))
  }

  function BlockOf(c: Codec, raw: Raw): Block {
    match raw
    case RawText(t) => TextBlock(t)
    case RawTool(id, name, fragments) => ToolUse(id, name, ReadArguments(c, fragments))
  }

  function BlocksOf(c: Codec, raws: seq<Raw>): seq<Block> {
    seq(|raws|, i requires 0 <= i < |raws| => BlockOf(c, raws[i]))
  }

  function LastReason(es: seq<Event>): string {
    if es == [] then ""
    else if es[|es| - 1].MessageStop? then es[|es| - 1].reason
    else LastReason(es[..|es| - 1])
  }

  function LastInput(es: seq<Event>): nat {
    if es == [] then 0
    else if es[|es| - 1].Metadata? && es[|es| - 1].inputTokens.Some? then es[|es| - 1].inputTokens.value
    else LastInput(es[..|es| - 1])
  }

  function LastOutput(es: seq<Event>): nat {
    if es == [] then 0
    else if es[|es| - 1].Metadata? && es[|es| - 1].outputTokens.Some? then es[|es| - 1].outputTokens.value
    else LastOutput(es[..|es| - 1])
  }

  /** The message the events describe; `total` is what the provider says of the total. */
  function Assembled(c: Codec, es: seq<Event>, total: nat): Response {
    Response(BlocksOf(c, Raws(es)), LastReason(es), LastInput(es), LastOutput(es), total)
  }
}
