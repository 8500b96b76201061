/** The Anthropic adapter: messages to content blocks and back, and the event stream to chunks. */
module Anthropic {
  import opened Common
  import opened OpenAI
  import opened Conversation

  /** One message to Anthropic's form, or nothing: the system prompt travels separately. */
  function TranslateMessage(c: Codec, m: Message, newId: nat -> string): Option<BlockMessage> {
    if m.role == "system" then None
    else if m.role == "tool" then
      Some(BlockMessage("user", Blocks([ToolResult(m.toolCallId, ResultText(c, m.content))])))
    else if m.role == "assistant" && m.toolCalls != [] then
      Some(BlockMessage("assistant", Blocks(AssistantBlocks(c, m, newId))))
    else Some(BlockMessage(m.role, Plain(PlainText(m.content))))
  }

  // ---------------------------------------------------------------- the non-streamed answer

  /** Missing ids are made up. */
  function Filled(newId: nat -> string): (string, nat) -> string {
    (id: string, n: nat) => IdOr(id, newId(n))
  }

  function MapStopReason(reason: Option<string>): string {
    if reason == Some("max_tokens") then "length"
    else if reason == Some("tool_use") then "tool_calls"
    else "stop"
  }

  datatype Response = Response(blocks: seq<Block>, stopReason: Option<string>, inputTokens: nat, outputTokens: nat)

  function TranslateResponse(c: Codec, r: Response, newId: nat -> string): Reply {
    var calls := Calls(c, r.blocks, Filled(newId));
    Reply(if Texts(r.blocks) == "" then None else Some(Texts(r.blocks)),
          WithoutIndices(calls), Indices(calls),
          MapStopReason(r.stopReason), r.inputTokens, r.outputTokens, r.inputTokens + r.outputTokens)
  }

  // ---------------------------------------------------------------- the streamed answer

  datatype Head = TextHead | ToolHead(id: string, name: string) | OtherHead

  datatype Delta = TextDelta(text: string) | JsonDelta(fragment: string) | OtherDelta

  datatype Event =
    | MessageStart(inputTokens: nat, cacheRead: nat, outputTokens: nat)
    | BlockStart(index: int, head: Head)
    | BlockDelta(index: int, delta: Delta)
    | MessageDelta(stopReason: Option<string>, outputTokens_: Option<nat>)
    | MessageStop
    | Noise

  /** The stream's variables, and the chunks sent so far. */
  datatype Streaming = Streaming(toolIdx: map<int, nat>, inTok: nat, outTok: nat, cacheRead: nat, finish: string,
                                 chunks: seq<Chunk>)

  const FIRST := Streaming(map[], 0, 0, 0, "stop", [RoleChunk])

  function Advance(s: Streaming, e: Event, newId: nat -> string): Streaming {
    match e
    case MessageStart(i, cr, _) => s.(inTok := i, cacheRead := cr)
    case BlockStart(index, ToolHead(id, name)) =>
      var n := |s.toolIdx|;
      s.(toolIdx := s.toolIdx[index := n], chunks := s.chunks + [CallStart(n, IdOr(id, newId(n)), name, "")])
    case BlockStart(_, _) => s
    case BlockDelta(_, TextDelta(t)) => if t == "" then s else s.(chunks := s.chunks + [ContentChunk(t)])
    case BlockDelta(index, JsonDelta(f)) =>
      s.(chunks := s.chunks + [CallArguments(if index in s.toolIdx then s.toolIdx[index] else 0, f)])
    case BlockDelta(_, OtherDelta) => s
    case MessageDelta(reason, o) =>
      s.(finish := MapStopReason(reason), outTok := if o.Some? && o.value != 0 then o.value else s.outTok)
    case MessageStop => s
    case Noise => s
  }

  /** What precedes the first `message_stop`. */
  function Body(es: seq<Event>): seq<Event> {
    if es == [] || es[0].MessageStop? then [] else [es[0]] + Body(es[1..])
  }

  function Streamed(es: seq<Event>, newId: nat -> string): Streaming {
    if es == [] then FIRST else Advance(Streamed(es[..|es| - 1], newId), es[|es| - 1], newId)
  }

  function ChunksOf(es: seq<Event>, newId: nat -> string): seq<Chunk> {
    var s := Streamed(Body(es), newId);
    s.chunks + [FinalChunk(s.finish, s.inTok, s.outTok, s.cacheRead), Done]
  }

  lemma {:induction false} BodyIsPrefix(es: seq<Event>)
    ensures Body(es) <= es && (forall e :: e in Body(es) ==> !e.MessageStop?)
    ensures |Body(es)| < |es| ==> es[|Body(es)|].MessageStop?
  {
    if es != [] && !es[0].MessageStop? {
      BodyIsPrefix(es[1..]);
    }
  }

  lemma StreamedStep(es: seq<Event>, e: Event, newId: nat -> string)
    ensures Streamed(es + [e], newId) == Advance(Streamed(es, newId), e, newId)
  {
    assert (es + [e])[..|es|] == es;
  }

  lemma StreamedNext(es: seq<Event>, i: nat, newId: nat -> string)
    requires i < |es|
    ensures Streamed(es[..i + 1], newId) == Advance(Streamed(es[..i], newId), es[i], newId)
    ensures !es[i].MessageStop? && i <= |Body(es)| ==> i < |Body(es)|
  {
    hide Body, Streamed, Advance;
    BodyIsPrefix(es);
    assert es[..i + 1] == es[..i] + [es[i]];
    StreamedStep(es[..i], es[i], newId);
  }

  lemma StopsAtBody(es: seq<Event>, i: nat)
    requires i <= |es| && i <= |Body(es)| && (i < |es| ==> es[i].MessageStop?)
    ensures es[..i] == Body(es)
  {
    BodyIsPrefix(es);
    assert forall k :: 0 <= k < |Body(es)| ==> Body(es)[k] in Body(es) && es[k] == Body(es)[k];
  }

  /** The event loop, up to `message_stop`. */
  method ChatStream(es: seq<Event>, newId: nat -> string) returns (chunks: seq<Chunk>)
    ensures chunks == ChunksOf(es, newId)
  {
    assert Streamed(es[..0], newId) == FIRST;
    hide Body, Streamed, IdOr, MapStopReason;
    var inTok: nat, outTok: nat, cacheRead: nat, finish := 0, 0, 0, "stop";
    var toolIdx: map<int, nat> := map[];
    chunks := [RoleChunk];
    var i := 0;
    ghost var s := FIRST;
    while i < |es|
      invariant i <= |Body(es)|
      invariant i <= |es|
      invariant s == Streamed(es[..i], newId)
      invariant s == Streaming(toolIdx, inTok, outTok, cacheRead, finish, chunks)
      decreases |es| - i
    {
      StreamedNext(es, i, newId);
      s := Advance(s, es[i], newId);
      match es[i] {
        case MessageStart(it, cr, _) =>
          inTok := it;
          cacheRead := cr;
        case BlockStart(index, ToolHead(id, name)) =>
          var n := |toolIdx|;
          toolIdx := toolIdx[index := n];
          chunks := chunks + [CallStart(n, IdOr(id, newId(n)), name, "")];
        case BlockStart(_, _) =>
        case BlockDelta(_, TextDelta(t)) =>
          if t != "" {
            chunks := chunks + [ContentChunk(t)];
          }
        case BlockDelta(index, JsonDelta(f)) =>
          var n := if index in toolIdx then toolIdx[index] else 0;
          chunks := chunks + [CallArguments(n, f)];
        case BlockDelta(_, OtherDelta) =>
        case MessageDelta(reason, o) =>
          finish := MapStopReason(reason);
          if o.Some? && o.value != 0 {
            outTok := o.value;
          }
        case MessageStop =>
          break;
        case Noise =>
      }
      i := i + 1;
    }
    StopsAtBody(es, i);
    chunks := chunks + [FinalChunk(finish, inTok, outTok, cacheRead), Done];
  }
}
