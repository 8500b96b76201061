/** Bedrock's running tool counter against a map by block index, and its stream against its
    non-streamed answer. */
module BedrockRuns {
  import opened Common
  import opened OpenAI
  import opened Conversation
  import opened Bedrock

  // ---------------------------------------------------------------- what the blocks amount to

  function RawTexts(raws: seq<Raw>): string {
    if raws == [] then ""
    else RawTexts(raws[..|raws| - 1]) + (if raws[|raws| - 1].RawText? then raws[|raws| - 1].text else "")
  }

  function CallOf(raw: Raw): seq<ToolCall> {
    match raw
    case RawText(_) => []
    case RawTool(id, name, fragments) => [ToolCall(id, name, fragments)]
  }

  /** The tool blocks, in order, as calls with raw arguments. */
  function RawCalls(raws: seq<Raw>): seq<ToolCall> {
    if raws == [] then [] else RawCalls(raws[..|raws| - 1]) + CallOf(raws[|raws| - 1])
  }

  lemma RawStep(raws: seq<Raw>, raw: Raw)
    ensures RawTexts(raws + [raw]) == RawTexts(raws) + (if raw.RawText? then raw.text else "")
    ensures RawCalls(raws + [raw]) == RawCalls(raws) + CallOf(raw)
  {
    assert (raws + [raw])[..|raws|] == raws;
  }

  lemma LastRaw(raws: seq<Raw>)
    requires raws != []
    ensures var front, raw := raws[..|raws| - 1], raws[|raws| - 1];
            && RawTexts(raws) == RawTexts(front) + (if raw.RawText? then raw.text else "")
            && RawCalls(raws) == RawCalls(front) + CallOf(raw)
  {
  }

  /** Text for the latest text block is text at the end of the whole. */
  lemma {:induction false} TextAtLatest(raws: seq<Raw>, i: nat, text: string)
    requires Latest(raws, i) && raws[i].RawText?
    ensures var raws' := raws[i := RawText(raws[i].text + text)];
            RawTexts(raws') == RawTexts(raws) + text && RawCalls(raws') == RawCalls(raws)
  {
    hide RawTexts, RawCalls;
    var n, raws' := |raws| - 1, raws[i := RawText(raws[i].text + text)];
    LastRaw(raws);
    LastRaw(raws');
    if i == n {
      assert raws'[..n] == raws[..n];
      assert RawTexts(raws[..n]) + (raws[i].text + text) == RawTexts(raws[..n]) + raws[i].text + text;
    } else {
      assert raws'[..n] == raws[..n][i := raws'[i]];
      TextAtLatest(raws[..n], i, text);
      assert raws[n].RawTool?;
      assert RawTexts(raws[..n]) + "" == RawTexts(raws[..n]) && RawTexts(raws'[..n]) + "" == RawTexts(raws'[..n]);
    }
  }

  /** A fragment for the latest tool block goes to the last call. */
  lemma {:induction false} FragmentAtLatest(raws: seq<Raw>, i: nat, f: string)
    requires Latest(raws, i) && raws[i].RawTool?
    ensures RawCalls(raws) != []
    ensures var raws' := raws[i := raws[i].(fragments := raws[i].fragments + f)];
            RawTexts(raws') == RawTexts(raws) && RawCalls(raws') == Appended(RawCalls(raws), |RawCalls(raws)| - 1, f)
  {
    hide RawTexts, RawCalls, Appended;
    var n, raws' := |raws| - 1, raws[i := raws[i].(fragments := raws[i].fragments + f)];
    LastRaw(raws);
    LastRaw(raws');
    if i == n {
      assert raws'[..n] == raws[..n];
      AppendedLast(RawCalls(raws[..n]), ToolCall(raws[n].id, raws[n].name, raws[n].fragments), f);
    } else {
      assert raws'[..n] == raws[..n][i := raws'[i]];
      FragmentAtLatest(raws[..n], i, f);
      assert raws[n].RawText?;
      assert RawCalls(raws[..n]) + [] == RawCalls(raws[..n]) && RawCalls(raws'[..n]) + [] == RawCalls(raws'[..n]);
    }
  }

  // ---------------------------------------------------------------- the counter

  /** How many tool blocks precede block `i`: its index in a map by block index. */
  function IndexOf(raws: seq<Raw>, i: nat): nat
    requires i <= |raws|
  {
    |RawCalls(raws[..i])|
  }

  lemma {:induction false} IndexGrows(raws: seq<Raw>, i: nat)
    requires i < |raws| && raws[i].RawTool?
    ensures IndexOf(raws, i) < |RawCalls(raws)|
    ensures IndexOf(raws, i) == |RawCalls(raws)| - 1 <==> forall j :: i < j < |raws| ==> raws[j].RawText?
  {
    hide RawCalls;
    var n := |raws| - 1;
    LastRaw(raws);
    assert forall j :: 0 <= j < n ==> raws[..n][j] == raws[j];
    if i < n {
      assert raws[..n][..i] == raws[..i];
      IndexGrows(raws[..n], i);
    }
  }

  /** Whatever the stream, the counter is one less than the tools started. */
  lemma {:induction false} CounterCountsTools(es: seq<Event>)
    requires WellFormed(es)
    ensures Streamed(es).toolN + 1 == |RawCalls(Raws(es))|
  {
    StreamTracks(es);
  }

  /** The counter names the same call as a map by block index exactly for the latest tool block. */
  lemma CounterIsTheIndexIff(es: seq<Event>, i: nat)
    requires WellFormed(es) && i < |Raws(es)| && Raws(es)[i].RawTool?
    ensures Streamed(es).toolN == IndexOf(Raws(es), i) <==> Latest(Raws(es), i)
  {
    CounterCountsTools(es);
    IndexGrows(Raws(es), i);
  }

  // ---------------------------------------------------------------- each event keeps track

  ghost predicate Tracks(raws: seq<Raw>, s: Streaming) {
    && Fold(s.chunks).text == RawTexts(raws)
    && Fold(s.chunks).calls == RawCalls(raws)
    && s.toolN + 1 == |RawCalls(raws)|
  }

  lemma StartTracks(raws: seq<Raw>, e: Event, s: Streaming)
    requires s.toolN >= -1 && Tracks(raws, s) && Fits(raws, e) && e.ToolStart?
    ensures Tracks(Put(raws, e), Advance(s, e))
  {
    hide Fold, RawTexts, RawCalls;
    RawStep(raws, RawTool(e.id, e.name, ""));
    FoldStep(s.chunks, CallStart(s.toolN + 1, e.id, e.name, ""));
    assert RawTexts(raws) + "" == RawTexts(raws);
  }

  lemma TextTracks(raws: seq<Raw>, e: Event, s: Streaming)
    requires s.toolN >= -1 && Tracks(raws, s) && Fits(raws, e) && e.TextDelta?
    ensures Tracks(Put(raws, e), Advance(s, e))
  {
    hide Fold, RawTexts, RawCalls;
    FoldStep(s.chunks, ContentChunk(e.text));
    if e.index == |raws| {
      RawStep(raws, RawText(e.text));
      assert RawCalls(raws) + [] == RawCalls(raws);
    } else {
      TextAtLatest(raws, e.index, e.text);
    }
  }

  lemma FragmentTracks(raws: seq<Raw>, e: Event, s: Streaming)
    requires s.toolN >= -1 && Tracks(raws, s) && Fits(raws, e) && e.ToolDelta?
    ensures Tracks(Put(raws, e), Advance(s, e))
  {
    hide Fold, RawTexts, RawCalls;
    FragmentAtLatest(raws, e.index, e.fragment);
    FoldStep(s.chunks, CallArguments(s.toolN, e.fragment));
  }

  lemma {:induction false} StreamTracks(es: seq<Event>)
    requires WellFormed(es)
    ensures Tracks(Raws(es), Streamed(es))
  {
    if es == [] {
      assert [RoleChunk][..0] == [];
    } else {
      hide Tracks, Advance, Fits, Put;
      var before, e := es[..|es| - 1], es[|es| - 1];
      StreamTracks(before);
      match e
      case ToolStart(_, _, _) => StartTracks(Raws(before), e, Streamed(before));
      case TextDelta(_, _) => TextTracks(Raws(before), e, Streamed(before));
      case ToolDelta(_, _) => FragmentTracks(Raws(before), e, Streamed(before));
      case _ => OtherTracks(Raws(before), e, Streamed(before));
    }
  }

  lemma OtherTracks(raws: seq<Raw>, e: Event, s: Streaming)
    requires s.toolN >= -1 && Tracks(raws, s) && (e.MessageStop? || e.Metadata? || e.Noise?)
    ensures Tracks(Put(raws, e), Advance(s, e))
  {
  }

  lemma {:induction false} CountersTrack(es: seq<Event>)
    ensures var s := Streamed(es);
            s.inTok == LastInput(es) && s.outTok == LastOutput(es) && s.finish == Stop(LastReason(es))
  {
    hide Stop;
    if es == [] {
      assert Stop("") == "stop" by {
        EmptyReasonStops();
      }
    } else {
      CountersTrack(es[..|es| - 1]);
    }
  }

  lemma EmptyReasonStops()
    ensures Stop("") == "stop"
  {
  }

  // ---------------------------------------------------------------- stream against answer

  lemma {:induction false} BlocksTranslate(c: Codec, raws: seq<Raw>)
    ensures Texts(BlocksOf(c, raws)) == RawTexts(raws)
    ensures AllRewritten(c, RawCalls(raws), Calls(c, BlocksOf(c, raws), AsIs()))
  {
    if raws != [] {
      hide Texts, Calls, RawTexts, RawCalls, AllRewritten, ReadArguments, WriteInput;
      var n := |raws| - 1;
      var front, b := BlocksOf(c, raws[..n]), BlockOf(c, raws[n]);
      BlocksTranslate(c, raws[..n]);
      assert BlocksOf(c, raws) == front + [b];
      LastRaw(raws);
      BlockStep(c, front, b, AsIs());
      var rawCalls, calls := RawCalls(raws[..n]), Calls(c, front, AsIs());
      if raws[n].RawTool? {
        var raw := ToolCall(raws[n].id, raws[n].name, raws[n].fragments);
        OneMoreRewritten(c, rawCalls, calls, raw, (|calls|, raw.(arguments := WriteInput(c, b.input))));
      } else {
        assert rawCalls + [] == rawCalls && calls + [] == calls;
      }
    }
  }

  /** Every tool's arguments parse, to an object. */
  predicate ArgumentsParse(c: Codec, raws: seq<Raw>) {
    forall raw :: raw in raws && raw.RawTool? ==> ReadArguments(c, raw.fragments).JObj?
  }

  lemma {:induction false} FragmentsSurvive(c: Codec, raws: seq<Raw>)
    requires Sound(c) && ArgumentsParse(c, raws)
    ensures forall call :: call in RawCalls(raws) ==>
              ReadArguments(c, WriteInput(c, ReadArguments(c, call.arguments))) == ReadArguments(c, call.arguments)
  {
    hide ReadArguments, WriteInput;
    if raws != [] {
      var n := |raws| - 1;
      FragmentsSurvive(c, raws[..n]);
      if raws[n].RawTool? {
        assert raws[n] in raws;
        ReadIsHeld(c, raws[n].fragments);
        ObjectsSurvive(c, ReadArguments(c, raws[n].fragments));
      }
    }
  }

  lemma ClosedFold(es: seq<Event>)
    ensures var s := Streamed(es);
            var t := Fold(ChunksOf(es));
            && t.text == Fold(s.chunks).text && t.calls == Fold(s.chunks).calls && t.finish == Some(s.finish)
            && t.promptTokens == s.inTok && t.completionTokens == s.outTok
  {
    hide Fold, Streamed;
    var s := Streamed(es);
    var final := FinalChunk(s.finish, s.inTok, s.outTok, 0);
    FoldStep(s.chunks, final);
    FoldStep(s.chunks + [final], Done);
    assert ChunksOf(es) == s.chunks + [final] + [Done];
  }

  /** For every stream whose blocks open in order with deltas for the latest block of their kind, the
      chunks fold to the non-streamed answer; the finish reasons agree exactly when there are no tool
      calls or the stop reason is tool_use, and the totals exactly when the provider's is absent or
      the sum. */
  lemma StreamAgreesWithAnswer(c: Codec, es: seq<Event>, total: nat)
    requires Sound(c) && WellFormed(es) && ArgumentsParse(c, Raws(es))
    ensures var t := Fold(ChunksOf(es));
            var r := Answer(c, Assembled(c, es, total));
            && SameAnswer(c, t, r)
            && t.promptTokens == r.promptTokens && t.completionTokens == r.completionTokens
            && (t.finish == Some(r.finish) <==> t.calls == [] || LastReason(es) == "tool_use")
            && (r.totalTokens == t.promptTokens + t.completionTokens <==>
                total == 0 || total == t.promptTokens + t.completionTokens)
  {
    hide Fold, Streamed, ChunksOf, Raws, BlocksOf, Texts;
    hide Calls, RawTexts, RawCalls, ReadArguments, WriteInput, WellFormed;
    hide LastReason, LastInput, LastOutput, Stop, ArgumentsParse;
    StreamTracks(es);
    CountersTrack(es);
    ClosedFold(es);
    BlocksTranslate(c, Raws(es));
    FragmentsSurvive(c, Raws(es));
    OnlyToolUseFinishes(LastReason(es));
  }

  /** A call cut off by the token limit: the stream says length, the answer tool_calls. */
  lemma CutCallFinishesDiffer(c: Codec, id: string, name: string, total: nat)
    ensures var es := [ToolStart(0, id, name), MessageStop("max_tokens")];
            && WellFormed(es)
            && Fold(ChunksOf(es)).finish == Some("length")
            && Answer(c, Assembled(c, es, total)).finish == "tool_calls"
  {
    var e0, e1 := ToolStart(0, id, name), MessageStop("max_tokens");
    var es := [e0, e1];
    assert es[..1] == [e0] && [e0][..0] == [];
    assert Raws([]) == [] && WellFormed([]);
    assert Raws([e0]) == [RawTool(id, name, "")] && WellFormed([e0]);
    assert Raws(es) == [RawTool(id, name, "")] && WellFormed(es);
    assert LastReason(es) == "max_tokens";
    CountersTrack(es);
    ClosedFold(es);
    assert Stop("max_tokens") == "length";
    var b := BlockOf(c, RawTool(id, name, ""));
    assert BlocksOf(c, Raws(es)) == [] + [b];
    hide Fold, Streamed, Calls, BlocksOf, Raws, ReadArguments, WellFormed;
    BlockStep(c, [], b, AsIs());
  }

  lemma OnlyToolUseFinishes(reason: string)
    ensures Stop(reason) == "tool_calls" <==> reason == "tool_use"
  {
  }

  /** Whichever block a fragment names, it is charged to the last call: the latest-block condition
      is needed. */
  lemma {:induction false} AnyFragmentReachesLastCall(es: seq<Event>, i: int, f: string)
    requires WellFormed(es) && RawCalls(Raws(es)) != []
    ensures var calls := RawCalls(Raws(es));
            Fold(Streamed(es + [ToolDelta(i, f)]).chunks).calls == Appended(calls, |calls| - 1, f)
  {
    hide Fold, Streamed, Raws, RawCalls, RawTexts, WellFormed;
    StreamTracks(es);
    StreamedStep(es, ToolDelta(i, f));
    FoldStep(Streamed(es).chunks, CallArguments(Streamed(es).toolN, f));
  }

  // ---------------------------------------------------------------- the round trip

  lemma AsIsKeepsIds()
    ensures KeepsIds(AsIs())
  {
  }

  /** An assistant turn with ids, sent to Bedrock and read back, is kept; its text is all there
      exactly when it was not given as parts. */
  lemma AssistantTurnSurvives(c: Codec, m: Message, newId: nat -> string, stop: string, i: nat, o: nat, total: nat)
    requires Sound(c) && m.role == "assistant" && m.toolCalls != [] && forall tc :: tc in m.toolCalls ==> tc.id != ""
    ensures var sent := ToConverse(c, m, newId);
            && sent.Some? && sent.value.role == "assistant" && sent.value.content.Blocks?
            && var r := Answer(c, Response(sent.value.content.blocks, stop, i, o, total));
               && |r.indices| == |r.calls|
               && Kept(c, m, OrEmpty(r.content),
                       seq(|r.calls|, j requires 0 <= j < |r.calls| => (r.indices[j], r.calls[j])))
               && (OrEmpty(r.content) == PlainText(m.content)
                   <==> !(m.content.Parts? && PartTexts(m.content.parts) != ""))
  {
    hide Texts, Calls, UseBlocks, LeadBlocks, LeadText, PlainText, PartTexts, ReadArguments, Survives, Stop;
    AsIsKeepsIds();
    AssistantKept(c, m, newId, AsIs());
    LeadIsWholeIff(m.content);
    hide Kept, AsIs;
    var bs := AssistantBlocks(c, m, newId);
    var r := Answer(c, Response(bs, stop, i, o, total));
    assert seq(|r.calls|, j requires 0 <= j < |r.calls| => (r.indices[j], r.calls[j])) == Calls(c, bs, AsIs());
  }

  /** Bedrock gets back the tool uses it sent, in order, after all of its text. */
  lemma AnswerSentBack(c: Codec, r: Response, newId: nat -> string)
    requires Sound(c) && Proper(r.blocks) && Answer(c, r).calls != []
    ensures var reply := Answer(c, r);
            var content := if reply.content.Some? then Text(reply.content.value) else NoContent;
            ToConverse(c, Message("assistant", content, reply.calls, ""), newId) ==
            Some(BlockMessage("assistant", Blocks(LeadBlocks(Texts(r.blocks)) + Uses(r.blocks))))
  {
    hide Stop;
    var reply := Answer(c, r);
    AsIsKeepsIds();
    TurnSentBack(c, r.blocks, if reply.content.Some? then Text(reply.content.value) else NoContent, AsIs(), newId);
    assert reply.calls == CallList(c, r.blocks, AsIs());
  }

  function Translator(c: Codec, newIds: nat -> nat -> string): (Message, nat) -> Option<BlockMessage> {
    (m: Message, i: nat) => ToConverse(c, m, newIds(i))
  }

  lemma {:induction false} TextPartsAreTexts(ps: seq<Part>)
    ensures forall b :: b in TextParts(ps) ==> b.TextBlock?
  {
    if ps != [] {
      TextPartsAreTexts(ps[..|ps| - 1]);
    }
  }

  lemma CarriesIds(c: Codec, m: Message, newId: nat -> string, t: string)
    requires forall j :: newId(j) != t
    ensures Carries(m, ToConverse(c, m, newId), t)
  {
    IdsInBlocks(c, m, newId, t);
    if m.content.Parts? {
      TextPartsAreTexts(m.content.parts);
    }
  }

  /** Over a whole conversation order is kept, and what precedes a tool result uses its id exactly
      when what preceded it before called that id, given that no made-up id repeats it. */
  lemma ToolResultsStillRefer(c: Codec, newIds: nat -> nat -> string, ms: seq<Message>, i: nat)
    requires i < |ms| && ms[i].role == "tool" && forall k, j :: newIds(k)(j) != ms[i].toolCallId
    ensures var out := Translated(Translator(c, newIds), ms);
            var p, t := Spoken(ms[..i]), ms[i].toolCallId;
            && p < |out| == Spoken(ms)
            && out[p] == BlockMessage("user", Blocks([ToolResult(t, ResultText(c, ms[i].content))]))
            && ((exists q :: 0 <= q < p && UsesId(out[q], t))
                <==> t != "" && exists k :: 0 <= k < i && CallsId(ms[k], t))
  {
    var t, tr := ms[i].toolCallId, Translator(c, newIds);
    forall k | 0 <= k < |ms| ensures Carries(ms[k], tr(ms[k], k), t) {
      CarriesIds(c, ms[k], newIds(k), t);
    }
    assert tr(ms[i], i) == ToConverse(c, ms[i], newIds(i));
    PlacedInOrder(tr, ms, i, t);
    IdsCarry(tr, ms, t);
  }

  // ---------------------------------------------------------------- the finish and the frame

  /** What a stop reason is told as. */
  predicate TellsStop(finish: string, reason: string) {
    && (finish == "tool_calls" <==> reason == "tool_use")
    && (finish == "length" <==> reason == "max_tokens")
    && (finish == "content_filter" <==> reason == "content_filtered")
    && (finish == "stop" <==> reason !in {"tool_use", "max_tokens", "content_filtered"})
  }

  lemma MappedStop(reason: string)
    ensures TellsStop(Stop(reason), reason)
  {
  }

  lemma {:induction false} StreamIsOpened(es: seq<Event>)
    ensures Opened(Streamed(es).chunks)
  {
    if es != [] {
      StreamIsOpened(es[..|es| - 1]);
    }
  }

  /** The stream is framed, and its finish tells the stop reason last reported; so does the answer's
      unless it has calls, which it tells as tool_calls. */
  lemma {:induction false} FinishTellsStopReason(c: Codec, es: seq<Event>, r: Response)
    ensures Framed(ChunksOf(es))
    ensures Fold(ChunksOf(es)).finish.Some? && TellsStop(Fold(ChunksOf(es)).finish.value, LastReason(es))
    ensures if Answer(c, r).calls != [] then Answer(c, r).finish == "tool_calls"
            else TellsStop(Answer(c, r).finish, r.stopReason)
  {
    hide Stop, TellsStop, Fold, Streamed, Opened, Framed, Calls, Texts;
    var s := Streamed(es);
    StreamIsOpened(es);
    CountersTrack(es);
    MappedStop(LastReason(es));
    MappedStop(r.stopReason);
    ClosedFold(es);
    ClosingFrames(s.chunks, FinalChunk(s.finish, s.inTok, s.outTok, 0));
  }
}
