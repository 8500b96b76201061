/** The OpenAI-shaped side of the translators: messages, tool calls, and what a client makes of a
    stream of chunks. */
module OpenAI {
  import opened Common

  // ---------------------------------------------------------------- JSON

  /** JSON values; a float is its mantissa times a power of two. */
  datatype Json =
    | JNull
    | JBool(b: bool)
    | JInt(n: int)
    | JFloat(mantissa: int, exponent: int)
    | JStr(s: string)
    | JArr(items: seq<Json>)
    | JObj(fields: seq<(string, Json)>)

  /** What a Python dictionary or list can hold: no key twice. */
  predicate Held(j: Json) {
    match j
    case JArr(items) => forall i :: 0 <= i < |items| ==> Held(items[i])
    case JObj(fields) =>
      && (forall i, k :: 0 <= i < k < |fields| ==> fields[i].0 != fields[k].0)
      && (forall i :: 0 <= i < |fields| ==> Held(fields[i].1))
    case _ => true
  }

  /** Python's truth test, negated. */
  predicate Falsy(j: Json) {
    || j == JNull || j == JBool(false) || j == JInt(0) || (j.JFloat? && j.mantissa == 0)
    || j == JStr("") || j == JArr([]) || j == JObj([])
  }

  const EMPTY_OBJECT := JObj([])

  /** Dumping and parsing, as given functions. */
  datatype Codec = Codec(dumps: Json -> string, loads: string -> Option<Json>)

  /** What is dumped parses to the value dumped, and what parses is a value Python can hold. */
  ghost predicate Sound(c: Codec) {
    && (forall j :: Held(j) ==> c.loads(c.dumps(j)) == Some(j))
    && (forall s :: c.loads(s).Some? ==> Held(c.loads(s).value))
    && c.loads("{}") == Some(EMPTY_OBJECT)
    && c.loads("") == None
  }

  /** Tool arguments as every translator reads them: "" as {}, and {} for what does not parse. */
  function ReadArguments(c: Codec, arguments: string): Json {
    match c.loads(if arguments == "" then "{}" else arguments)
    case Some(j) => j
    case None => EMPTY_OBJECT
  }

  /** Tool input as every translator writes it: a falsy value as {}. */
  function WriteInput(c: Codec, input: Json): string {
    c.dumps(if Falsy(input) then EMPTY_OBJECT else input)
  }

  /** What comes back as it was sent: true, numbers but zero, texts and lists but empty ones, any object. */
  predicate Survives(j: Json) {
    match j
    case JNull => false
    case JBool(b) => b
    case JInt(n) => n != 0
    case JFloat(m, _) => m != 0
    case JStr(s) => |s| > 0
    case JArr(items) => |items| > 0
    case JObj(_) => true
  }

  lemma SurvivesIff(j: Json)
    ensures Survives(j) <==> !Falsy(j) || j == EMPTY_OBJECT
  {
  }

  lemma ReadIsHeld(c: Codec, arguments: string)
    requires Sound(c)
    ensures Held(ReadArguments(c, arguments))
  {
    assert Held(EMPTY_OBJECT);
  }

  /** Writing what was read preserves the arguments' value exactly when it is of the kinds that survive. */
  lemma ArgumentsSurviveIff(c: Codec, arguments: string)
    requires Sound(c)
    ensures ReadArguments(c, WriteInput(c, ReadArguments(c, arguments))) == ReadArguments(c, arguments)
       <==> Survives(ReadArguments(c, arguments))
  {
    var j := ReadArguments(c, arguments);
    var w := WriteInput(c, j);
    ReadIsHeld(c, arguments);
    assert Held(EMPTY_OBJECT);
    assert c.loads(w) == Some(if Falsy(j) then EMPTY_OBJECT else j);
    assert w != "";
    SurvivesIff(j);
  }

  // ---------------------------------------------------------------- messages

  datatype Part = TextPart(text: string) | OtherPart(raw: Json)

  datatype Content = NoContent | Text(text: string) | Parts(parts: seq<Part>)

  datatype ToolCall = ToolCall(id: string, name: string, arguments: string)

  datatype Message = Message(role: string, content: Content, toolCalls: seq<ToolCall>, toolCallId: string)

  function PartTexts(ps: seq<Part>): string {
    if ps == [] then ""
    else PartTexts(ps[..|ps| - 1]) + (if ps[|ps| - 1].TextPart? then ps[|ps| - 1].text else "")
  }

  function PartJson(p: Part): Json {
    match p
    case TextPart(t) => JObj([("type", JStr("text")), ("text", JStr(t))])
    case OtherPart(raw) => raw
  }

  function ContentJson(c: Content): Json {
    match c
    case NoContent => JNull
    case Text(t) => JStr(t)
    case Parts(ps) => JArr(seq(|ps|, i requires 0 <= i < |ps| => PartJson(ps[i])))
  }

  /** A tool result's text: a string as it is, anything else dumped. */
  function ResultText(c: Codec, content: Content): string {
    if content.Text? then content.text else c.dumps(ContentJson(content))
  }

  function PlainText(content: Content): string {
    match content
    case NoContent => ""
    case Text(t) => t
    case Parts(ps) => PartTexts(ps)
  }

  /** An assistant turn's leading text, when it also calls tools. */
  function LeadText(content: Content): string {
    if content.Text? then content.text else ""
  }

  // ---------------------------------------------------------------- chunks and what they fold to

  datatype Chunk =
    | RoleChunk
    | ContentChunk(text: string)
    | CallStart(index: nat, id: string, name: string, arguments: string)
    | CallArguments(index: nat, fragment: string)
    | FinalChunk(finish: string, promptTokens: nat, completionTokens: nat, cachedTokens: nat)
    | Done

  /** What a client holds after a stream. */
  datatype Turn = Turn(text: string, calls: seq<ToolCall>, finish: Option<string>,
                       promptTokens: nat, completionTokens: nat)

  const NO_TURN := Turn("", [], None, 0, 0)

  /** Tool calls are placed at their index; fragments are appended to the call they name. */
  function Fold1(t: Turn, c: Chunk): Turn {
    match c
    case ContentChunk(s) => t.(text := t.text + s)
    case CallStart(n, id, name, args) =>
      if n == |t.calls| then t.(calls := t.calls + [ToolCall(id, name, args)])
      else if n < |t.calls| then t.(calls := t.calls[n := ToolCall(id, name, args)])
      else t
    case CallArguments(n, fragment) =>
      if n < |t.calls| then
        t.(calls := t.calls[n := t.calls[n].(arguments := t.calls[n].arguments + fragment)])
      else t
    case FinalChunk(f, p, o, _) => t.(finish := Some(f), promptTokens := p, completionTokens := o)
    case _ => t
  }

  function Fold(cs: seq<Chunk>): Turn {
    if cs == [] then NO_TURN else Fold1(Fold(cs[..|cs| - 1]), cs[|cs| - 1])
  }

  lemma FoldStep(cs: seq<Chunk>, c: Chunk)
    ensures Fold(cs + [c]) == Fold1(Fold(cs), c)
  {
    assert (cs + [c])[..|cs|] == cs;
  }

  /** A stream as a client expects it: the role, then text and calls, then one closing chunk and the
      end mark. */
  predicate Framed(cs: seq<Chunk>) {
    && |cs| >= 3 && cs[0] == RoleChunk && cs[|cs| - 2].FinalChunk? && cs[|cs| - 1] == Done
    && forall i :: 0 < i < |cs| - 2 ==> IsDelta(cs[i])
  }

  predicate IsDelta(c: Chunk) {
    c.ContentChunk? || c.CallStart? || c.CallArguments?
  }

  /** What is sent before the closing chunk. */
  predicate Opened(cs: seq<Chunk>) {
    cs != [] && cs[0] == RoleChunk && forall i :: 0 < i < |cs| ==> IsDelta(cs[i])
  }

  lemma ClosingFrames(cs: seq<Chunk>, final: Chunk)
    requires Opened(cs) && final.FinalChunk?
    ensures Framed(cs + [final, Done])
  {
  }

  /** Call `r` with `f` appended to its arguments. */
  function Appended(calls: seq<ToolCall>, r: nat, f: string): seq<ToolCall>
    requires r < |calls|
  {
    calls[r := calls[r].(arguments := calls[r].arguments + f)]
  }

  lemma AppendedSnoc(calls: seq<ToolCall>, more: seq<ToolCall>, r: nat, f: string)
    requires r < |calls|
    ensures Appended(calls + more, r, f) == Appended(calls, r, f) + more
  {
  }

  lemma AppendedLast(calls: seq<ToolCall>, call: ToolCall, f: string)
    ensures Appended(calls + [call], |calls|, f) == calls + [call.(arguments := call.arguments + f)]
  {
  }

  /** A non-streamed answer. */
  datatype Reply = Reply(content: Option<string>, calls: seq<ToolCall>, indices: seq<nat>, finish: string,
                         promptTokens: nat, completionTokens: nat, totalTokens: nat)

  function OrEmpty(s: Option<string>): string {
    if s.Some? then s.value else ""
  }

  /** The same text, the same calls in the same order with equal parsed arguments, and tool calls
      numbered without gaps. */
  ghost predicate SameAnswer(c: Codec, t: Turn, r: Reply) {
    && OrEmpty(r.content) == t.text
    && |r.calls| == |t.calls| == |r.indices|
    && forall j :: 0 <= j < |t.calls| ==>
         && r.indices[j] == j
         && r.calls[j].id == t.calls[j].id && r.calls[j].name == t.calls[j].name
         && ReadArguments(c, r.calls[j].arguments) == ReadArguments(c, t.calls[j].arguments)
  }
}
