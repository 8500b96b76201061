/** The Gemini adapter: parts and back, and the chunk loop of the stream. */
module Gemini {
  import opened Common
  import opened OpenAI
  import opened Conversation

  /** A part may carry a text, a function call, both or neither. */
  datatype GeminiPart = GeminiPart(text: Option<string>, call: Option<FunctionCall>)

  datatype FunctionCall = FunctionCall(name: string, args: Json)

  datatype GeminiMessage =
    | GeminiMessage(role: string, parts: seq<GeminiPart>)
    | FunctionResponse(name: string, result: Json)

  // ---------------------------------------------------------------- translation

  function LeadParts(text: string): seq<GeminiPart> {
    if text != "" then [GeminiPart(Some(text), None)] else []
  }

  function CallPart(c: Codec, call: ToolCall): GeminiPart {
    GeminiPart(None, Some(FunctionCall(call.name, ReadArguments(c, call.arguments))))
  }

  function CallParts(c: Codec, calls: seq<ToolCall>): seq<GeminiPart> {
    seq(|calls|, i requires 0 <= i < |calls| => CallPart(c, calls[i]))
  }

  /** One message to Gemini's form; `name` is the message's own name field. Nothing for a system
      prompt given as a string. */
  function ToGemini(c: Codec, m: Message, name: string): Option<GeminiMessage> {
    if m.role == "system" && m.content.Text? then None
    else if m.role == "tool" then
      Some(FunctionResponse(IdOr(name, IdOr(m.toolCallId, "tool")), ContentJson(m.content)))
    else if m.role == "assistant" && m.toolCalls != [] then
      Some(GeminiMessage("model", LeadParts(LeadText(m.content)) + CallParts(c, m.toolCalls)))
    else
      Some(GeminiMessage(if m.role == "assistant" then "model" else "user",
                         [GeminiPart(Some(PlainText(m.content)), None)]))
  }

  /** How the non-streamed reading takes a part: by its text if it has one, be it empty. */
  function AsBlock(p: GeminiPart): Block {
    if p.text.Some? then TextBlock(p.text.value)
    else if p.call.Some? then ToolUse("", p.call.value.name, p.call.value.args)
    else OtherBlock
  }

  function AsBlocks(ps: seq<GeminiPart>): seq<Block> {
    seq(|ps|, i requires 0 <= i < |ps| => AsBlock(ps[i]))
  }

  /** Ids are always made up. */
  function Made(newId: nat -> string): (string, nat) -> string {
    (id: string, n: nat) => newId(n)
  }

  function Finish(reason: string): string {
    match reason
    case "STOP" => "stop"
    case "MAX_TOKENS" => "length"
    case "SAFETY" => "content_filter"
    case "RECITATION" => "content_filter"
    case "OTHER" => "stop"
    case _ => "stop"
  }

  /** One response body, or one chunk of a stream; an absent reason is "". */
  datatype Data = Data(parts: seq<GeminiPart>, finishReason: string, promptCount: Option<nat>,
                       candidatesCount: Option<nat>,
                       totalCount: Option<nat>)

  function OrZero(n: Option<nat>): nat {
    if n.Some? then n.value else 0
  }

  function Answer(c: Codec, d: Data, newId: nat -> string): Reply {
    var calls := Calls(c, AsBlocks(d.parts), Made(newId));
    var text := Texts(AsBlocks(d.parts));
    var i, o, t := OrZero(d.promptCount), OrZero(d.candidatesCount), OrZero(d.totalCount);
    Reply(if calls != [] && text == "" then None else Some(text),
          WithoutIndices(calls), Indices(calls),
          if calls != [] then "tool_calls" else Finish(d.finishReason),
          i, o, if t != 0 then t else i + o)
  }

  // ---------------------------------------------------------------- the stream

  datatype Streaming = Streaming(toolN: int, inTok: nat, outTok: nat, finish: string, chunks: seq<Chunk>)

  const FIRST := Streaming(-1, 0, 0, "stop", [RoleChunk])

  function AddPart(c: Codec, s: Streaming, p: GeminiPart, newId: nat -> string): (s': Streaming)
    requires s.toolN >= -1
    ensures s'.toolN >= -1
  {
    if p.text.Some? && p.text.value != "" then s.(chunks := s.chunks + [ContentChunk(p.text.value)])
    else if p.call.Some? then
      var n := s.toolN + 1;
      s.(toolN := n, finish := "tool_calls",
         chunks := s.chunks + [CallStart(n, newId(n), p.call.value.name, WriteInput(c, p.call.value.args))])
    else s
  }

  function AddParts(c: Codec, s: Streaming, ps: seq<GeminiPart>, newId: nat -> string): (s': Streaming)
    requires s.toolN >= -1
    ensures s'.toolN >= -1
  {
    if ps == [] then s else AddPart(c, AddParts(c, s, ps[..|ps| - 1], newId), ps[|ps| - 1], newId)
  }

  /** A count that is there and not zero replaces the last one. */
  function Newer(old_: nat, new_: Option<nat>): nat {
    if new_.Some? && new_.value != 0 then new_.value else old_
  }

  function Close(s: Streaming, d: Data): Streaming {
    s.(finish := if d.finishReason != "" && s.finish != "tool_calls" then Finish(d.finishReason) else s.finish,
       inTok := Newer(s.inTok, d.promptCount), outTok := Newer(s.outTok, d.candidatesCount))
  }

  function Streamed(c: Codec, ds: seq<Data>, newId: nat -> string): (s: Streaming)
    ensures s.toolN >= -1
  {
    if ds == [] then FIRST
    else Close(AddParts(c, Streamed(c, ds[..|ds| - 1], newId), ds[|ds| - 1].parts, newId), ds[|ds| - 1])
  }

  function ChunksOf(c: Codec, ds: seq<Data>, newId: nat -> string): seq<Chunk> {
    var s := Streamed(c, ds, newId);
    s.chunks + [FinalChunk(s.finish, s.inTok, s.outTok, 0), Done]
  }

  /** One more part, and all of them. */
  lemma AddNext(c: Codec, s: Streaming, ps: seq<GeminiPart>, j: nat, newId: nat -> string)
    requires s.toolN >= -1 && j <= |ps|
    ensures AddParts(c, s, ps[..0], newId) == s
    ensures j < |ps| ==> AddParts(c, s, ps[..j + 1], newId) == AddPart(c, AddParts(c, s, ps[..j], newId), ps[j], newId)
    ensures j == |ps| ==> AddParts(c, s, ps[..j], newId) == AddParts(c, s, ps, newId)
  {
    hide AddPart;
    if j < |ps| {
      assert ps[..j + 1][..j] == ps[..j];
    } else {
      assert ps[..j] == ps;
    }
  }

  /** One more chunk, and all of them. */
  lemma StreamNext(c: Codec, ds: seq<Data>, k: nat, newId: nat -> string)
    requires k <= |ds|
    ensures Streamed(c, ds[..0], newId) == FIRST
    ensures k < |ds| ==>
      Streamed(c, ds[..k + 1], newId) == Close(AddParts(c, Streamed(c, ds[..k], newId), ds[k].parts, newId), ds[k])
    ensures k == |ds| ==> Streamed(c, ds[..k], newId) == Streamed(c, ds, newId)
  {
    hide AddParts;
    if k < |ds| {
      assert ds[..k + 1][..k] == ds[..k];
    } else {
      assert ds[..k] == ds;
    }
  }

  /** The chunk loop and, inside it, the loop over a chunk's parts. */
  method ChatStream(c: Codec, ds: seq<Data>, newId: nat -> string) returns (chunks: seq<Chunk>)
    ensures chunks == ChunksOf(c, ds, newId)
  {
    hide Finish, WriteInput, Streamed, AddParts;
    StreamNext(c, ds, 0, newId);
    var inTok: nat, outTok: nat, finish, toolN := 0, 0, "stop", -1;
    chunks := [RoleChunk];
    for k := 0 to |ds|
      invariant Streamed(c, ds[..k], newId) == Streaming(toolN, inTok, outTok, finish, chunks)
    {
      var d := ds[k];
      ghost var s := Streamed(c, ds[..k], newId);
      AddNext(c, s, d.parts, 0, newId);
      for j := 0 to |d.parts|
        invariant AddParts(c, s, d.parts[..j], newId) == Streaming(toolN, inTok, outTok, finish, chunks)
      {
        var p := d.parts[j];
        AddNext(c, s, d.parts, j, newId);
        if p.text.Some? && p.text.value != "" {
          chunks := chunks + [ContentChunk(p.text.value)];
        } else if p.call.Some? {
          toolN := toolN + 1;
          chunks := chunks + [CallStart(toolN, newId(toolN), p.call.value.name, WriteInput(c, p.call.value.args))];
          finish := "tool_calls";
        }
      }
      AddNext(c, s, d.parts, |d.parts|, newId);
      StreamNext(c, ds, k, newId);
      if d.finishReason != "" && finish != "tool_calls" {
        finish := Finish(d.finishReason);
      }
      inTok := Newer(inTok, d.promptCount);
      outTok := Newer(outTok, d.candidatesCount);
    }
    StreamNext(c, ds, |ds|, newId);
    chunks := chunks + [FinalChunk(finish, inTok, outTok, 0), Done];
  }
}
