/** Anthropic streaming means the same as the non-streamed translation of the assembled message,
    and an assistant turn survives the trip to Anthropic's form and back. */
module AnthropicRuns {
  import opened Common
  import opened OpenAI
  import opened Conversation
  import opened Anthropic

  // ---------------------------------------------------------------- the assembled message

  /** The blocks started so far, in order. */
  function Heads(es: seq<Event>): seq<Head> {
    if es == [] then []
    else Heads(es[..|es| - 1]) + (if es[|es| - 1].BlockStart? then [es[|es| - 1].head] else [])
  }

  /** The text, or the argument fragments, that arrived for one block. */
  function TextFor(es: seq<Event>, i: int): string {
    if es == [] then ""
    else
      var e := es[|es| - 1];
      TextFor(es[..|es| - 1], i) + (if e.BlockDelta? && e.index == i && e.delta.TextDelta? then e.delta.text else "")
  }

  function FragmentsFor(es: seq<Event>, i: int): string {
    if es == [] then ""
    else
      var e := es[|es| - 1];
      FragmentsFor(es[..|es| - 1], i) +
      (if e.BlockDelta? && e.index == i && e.delta.JsonDelta? then e.delta.fragment else "")
  }

  function LastStop(es: seq<Event>): Option<string> {
    if es == [] then None
    else if es[|es| - 1].MessageDelta? then es[|es| - 1].stopReason
    else LastStop(es[..|es| - 1])
  }

  function LastInput(es: seq<Event>): nat {
    if es == [] then 0
    else if es[|es| - 1].MessageStart? then es[|es| - 1].inputTokens
    else LastInput(es[..|es| - 1])
  }

  /** The provisional output count of the message start. */
  function StartOutput(es: seq<Event>): nat {
    if es == [] then 0
    else if es[|es| - 1].MessageStart? then es[|es| - 1].outputTokens
    else StartOutput(es[..|es| - 1])
  }

  /** The output count last reported by a message delta. */
  function LastOutput(es: seq<Event>): Option<nat> {
    if es == [] then None
    else if es[|es| - 1].MessageDelta? && es[|es| - 1].outputTokens_.Some? then es[|es| - 1].outputTokens_
    else LastOutput(es[..|es| - 1])
  }

  function BlockFor(c: Codec, es: seq<Event>, heads: seq<Head>, i: nat): Block
    requires i < |heads|
  {
    match heads[i]
    case TextHead => TextBlock(TextFor(es, i))
    case ToolHead(id, name) => ToolUse(id, name, ReadArguments(c, FragmentsFor(es, i)))
    case OtherHead => OtherBlock
  }

  function FirstBlocks(c: Codec, es: seq<Event>, n: nat): seq<Block>
    requires n <= |Heads(es)|
  {
    seq(n, i requires 0 <= i < n => BlockFor(c, es, Heads(es), i))
  }

  /** The message the events describe, each block put together from its own deltas. */
  function Assembled(c: Codec, es: seq<Event>): Response {
    Response(FirstBlocks(c, es, |Heads(es)|), LastStop(es), LastInput(es),
             if LastOutput(es).Some? then LastOutput(es).value else StartOutput(es))
  }

  /** The next event fits what came before: blocks start in order with a usable id, a text delta
      belongs to the latest text block, an argument fragment to a tool block already started, and
      the output count does not fall. */
  predicate Fits(before: seq<Event>, e: Event) {
    var heads := Heads(before);
    match e
    case BlockStart(index, head) => index == |heads| && (head.ToolHead? ==> head.id != "")
    case BlockDelta(i, TextDelta(_)) =>
      0 <= i < |heads| && heads[i].TextHead? && forall j :: i < j < |heads| ==> !heads[j].TextHead?
    case BlockDelta(i, JsonDelta(_)) => 0 <= i < |heads| && heads[i].ToolHead?
    case MessageDelta(_, Some(o)) => LastOutput(before).Some? ==> LastOutput(before).value <= o
    case MessageStop => false
    case _ => true
  }

  predicate WellFormed(es: seq<Event>) {
    es == [] || (WellFormed(es[..|es| - 1]) && Fits(es[..|es| - 1], es[|es| - 1]))
  }

  /** Every tool's arguments parse, to an object. */
  predicate ArgumentsParse(c: Codec, es: seq<Event>) {
    forall i :: 0 <= i < |Heads(es)| && Heads(es)[i].ToolHead? ==> ReadArguments(c, FragmentsFor(es, i)).JObj?
  }

  // ---------------------------------------------------------------- what the stream has sent so far

  /** The text of the first `n` blocks. */
  function TextUpTo(es: seq<Event>, n: nat): string
    requires n <= |Heads(es)|
  {
    if n == 0 then "" else TextUpTo(es, n - 1) + (if Heads(es)[n - 1].TextHead? then TextFor(es, n - 1) else "")
  }

  /** How many of the first `n` blocks are tools. */
  function Rank(heads: seq<Head>, n: nat): nat
    requires n <= |heads|
  {
    if n == 0 then 0 else Rank(heads, n - 1) + (if heads[n - 1].ToolHead? then 1 else 0)
  }

  /** The calls of the first `n` blocks, arguments still as raw fragments. */
  function CallsUpTo(es: seq<Event>, n: nat): seq<ToolCall>
    requires n <= |Heads(es)|
  {
    if n == 0 then []
    else
      match Heads(es)[n - 1]
      case ToolHead(id, name) => CallsUpTo(es, n - 1) + [ToolCall(id, name, FragmentsFor(es, n - 1))]
      case _ => CallsUpTo(es, n - 1)
  }

  lemma {:induction false} OneCallPerTool(es: seq<Event>, n: nat)
    requires n <= |Heads(es)|
    ensures |CallsUpTo(es, n)| == Rank(Heads(es), n)
  {
    if n > 0 {
      OneCallPerTool(es, n - 1);
    }
  }

  lemma {:induction false} RankBelow(heads: seq<Head>, i: nat, n: nat)
    requires i < n <= |heads| && heads[i].ToolHead?
    ensures Rank(heads, i) < Rank(heads, n)
  {
    if i < n - 1 {
      RankBelow(heads, i, n - 1);
    }
  }

  lemma {:induction false} RankSame(a: seq<Head>, b: seq<Head>, n: nat)
    requires n <= |a| && n <= |b| && a[..n] == b[..n]
    ensures Rank(a, n) == Rank(b, n)
  {
    if n > 0 {
      assert a[..n - 1] == a[..n][..n - 1] && b[..n - 1] == b[..n][..n - 1];
      assert a[n - 1] == a[..n][n - 1] && b[n - 1] == b[..n][n - 1];
      RankSame(a, b, n - 1);
    }
  }

  /** The tool map numbers the tool blocks in order. */
  ghost predicate Numbers(toolIdx: map<int, nat>, heads: seq<Head>) {
    && (forall i :: i in toolIdx <==> 0 <= i < |heads| && heads[i].ToolHead?)
    && (forall i :: i in toolIdx ==> toolIdx[i] == Rank(heads, i))
    && |toolIdx| == Rank(heads, |heads|)
  }

  lemma NumbersGrow(toolIdx: map<int, nat>, heads: seq<Head>, head: Head)
    requires Numbers(toolIdx, heads)
    ensures Numbers(if head.ToolHead? then toolIdx[|heads| := |toolIdx|] else toolIdx, heads + [head])
  {
    forall i | 0 <= i <= |heads| ensures Rank(heads + [head], i) == Rank(heads, i) {
      assert (heads + [head])[..i] == heads[..i];
      RankSame(heads + [head], heads, i);
    }
    assert Rank(heads + [head], |heads| + 1) == Rank(heads, |heads|) + if head.ToolHead? then 1 else 0;
    if head.ToolHead? {
      assert |heads| !in toolIdx;
    }
  }

  /** The stream's tool map, the folded chunks and the counters, told from the events. */
  ghost predicate Tracks(es: seq<Event>, s: Streaming) {
    var heads := Heads(es);
    var t := Fold(s.chunks);
    && Numbers(s.toolIdx, heads)
    && t.text == TextUpTo(es, |heads|)
    && t.calls == CallsUpTo(es, |heads|)
    && s.inTok == LastInput(es)
    && s.outTok == (if LastOutput(es).Some? then LastOutput(es).value else 0)
    && s.finish == MapStopReason(LastStop(es))
  }

  lemma EventStep(es: seq<Event>, e: Event)
    ensures Heads(es + [e]) == Heads(es) + (if e.BlockStart? then [e.head] else [])
    ensures forall i :: TextFor(es + [e], i) ==
              TextFor(es, i) + (if e.BlockDelta? && e.index == i && e.delta.TextDelta? then e.delta.text else "")
    ensures forall i :: FragmentsFor(es + [e], i) ==
              FragmentsFor(es, i) +
              (if e.BlockDelta? && e.index == i && e.delta.JsonDelta? then e.delta.fragment else "")
    ensures LastStop(es + [e]) == if e.MessageDelta? then e.stopReason else LastStop(es)
    ensures LastInput(es + [e]) == if e.MessageStart? then e.inputTokens else LastInput(es)
    ensures LastOutput(es + [e]) == if e.MessageDelta? && e.outputTokens_.Some? then e.outputTokens_ else LastOutput(es)
  {
    assert (es + [e])[..|es|] == es;
  }

  /** Nothing has arrived for a block that has not started. */
  lemma {:induction false} NothingAhead(es: seq<Event>, i: int)
    requires WellFormed(es) && i >= |Heads(es)|
    ensures TextFor(es, i) == "" && FragmentsFor(es, i) == ""
  {
    if es != [] {
      var before, e := es[..|es| - 1], es[|es| - 1];
      assert es == before + [e];
      EventStep(before, e);
      NothingAhead(before, i);
    }
  }

  /** Blocks whose own deltas did not grow contribute as before. */
  lemma {:induction false} UpToSame(es: seq<Event>, es': seq<Event>, n: nat)
    requires n <= |Heads(es)| && n <= |Heads(es')|
    requires forall j :: 0 <= j < n ==> Heads(es)[j] == Heads(es')[j]
    requires forall j :: 0 <= j < n ==> FragmentsFor(es', j) == FragmentsFor(es, j)
    requires forall j :: 0 <= j < n ==> TextFor(es', j) == TextFor(es, j)
    ensures TextUpTo(es', n) == TextUpTo(es, n) && CallsUpTo(es', n) == CallsUpTo(es, n)
  {
    if n > 0 {
      UpToSame(es, es', n - 1);
    }
  }

  lemma UpToStep(es: seq<Event>, n: nat)
    requires 0 < n <= |Heads(es)|
    ensures TextUpTo(es, n) == TextUpTo(es, n - 1) + (if Heads(es)[n - 1].TextHead? then TextFor(es, n - 1) else "")
    ensures CallsUpTo(es, n) == CallsUpTo(es, n - 1) +
              (match Heads(es)[n - 1]
               case ToolHead(id, name) => [ToolCall(id, name, FragmentsFor(es, n - 1))]
               case _ => [])
  {
    hide Heads, TextFor, FragmentsFor;
    assert CallsUpTo(es, n - 1) + [] == CallsUpTo(es, n - 1);
  }

  /** Text appended to the latest text block is text appended to the whole. */
  lemma {:induction false} TextGrows(es: seq<Event>, es': seq<Event>, i: nat, text: string, n: nat)
    requires i < n <= |Heads(es)| && Heads(es') == Heads(es) && Heads(es)[i].TextHead?
    requires forall j :: i < j < n ==> !Heads(es)[j].TextHead?
    requires forall j :: 0 <= j < n ==> FragmentsFor(es', j) == FragmentsFor(es, j)
    requires forall j :: 0 <= j < n ==> TextFor(es', j) == TextFor(es, j) + (if j == i then text else "")
    ensures TextUpTo(es', n) == TextUpTo(es, n) + text && CallsUpTo(es', n) == CallsUpTo(es, n)
  {
    hide Heads, TextFor, FragmentsFor, TextUpTo, CallsUpTo;
    if n - 1 == i {
      forall j | 0 <= j < i ensures TextFor(es', j) == TextFor(es, j) {
        assert TextFor(es, j) + "" == TextFor(es, j);
      }
      UpToSame(es, es', i);
      UpToStep(es, n);
      UpToStep(es', n);
      assert TextUpTo(es, i) + (TextFor(es, i) + text) == TextUpTo(es, i) + TextFor(es, i) + text;
    } else {
      TextGrows(es, es', i, text, n - 1);
      UpToStep(es, n);
      UpToStep(es', n);
      assert TextFor(es, n - 1) + "" == TextFor(es, n - 1);
      assert TextUpTo(es, n - 1) + "" == TextUpTo(es, n - 1);
      assert TextUpTo(es', n - 1) + "" == TextUpTo(es', n - 1);
    }
  }

  lemma FragmentAtLast(es: seq<Event>, es': seq<Event>, i: nat, f: string)
    requires i < |Heads(es)| && Heads(es') == Heads(es) && Heads(es)[i].ToolHead?
    requires forall j :: 0 <= j <= i ==> TextFor(es', j) == TextFor(es, j)
    requires forall j :: 0 <= j < i ==> FragmentsFor(es', j) == FragmentsFor(es, j)
    requires FragmentsFor(es', i) == FragmentsFor(es, i) + f
    ensures Rank(Heads(es), i) < |CallsUpTo(es, i + 1)|
    ensures TextUpTo(es', i + 1) == TextUpTo(es, i + 1)
    ensures CallsUpTo(es', i + 1) == Appended(CallsUpTo(es, i + 1), Rank(Heads(es), i), f)
  {
    OneCallPerTool(es, i);
    UpToStep(es, i + 1);
    UpToStep(es', i + 1);
    hide Heads, TextFor, FragmentsFor, TextUpTo, CallsUpTo, Rank, Appended;
    UpToSame(es, es', i);
    AppendedLast(CallsUpTo(es, i), ToolCall(Heads(es)[i].id, Heads(es)[i].name, FragmentsFor(es, i)), f);
  }

  /** A fragment for one tool reaches that tool's call and no other. */
  lemma {:induction false} FragmentGrows(es: seq<Event>, es': seq<Event>, i: nat, f: string, n: nat)
    requires i < n <= |Heads(es)| && Heads(es') == Heads(es) && Heads(es)[i].ToolHead?
    requires forall j :: 0 <= j < n ==> TextFor(es', j) == TextFor(es, j)
    requires forall j :: 0 <= j < n ==> j != i ==> FragmentsFor(es', j) == FragmentsFor(es, j)
    requires FragmentsFor(es', i) == FragmentsFor(es, i) + f
    ensures Rank(Heads(es), i) < |CallsUpTo(es, n)|
    ensures TextUpTo(es', n) == TextUpTo(es, n)
    ensures CallsUpTo(es', n) == Appended(CallsUpTo(es, n), Rank(Heads(es), i), f)
  {
    hide Heads, TextFor, FragmentsFor, TextUpTo, CallsUpTo, Rank, Appended;
    if n - 1 == i {
      FragmentAtLast(es, es', i, f);
    } else {
      UpToStep(es, n);
      UpToStep(es', n);
      FragmentGrows(es, es', i, f, n - 1);
      AppendedSnoc(CallsUpTo(es, n - 1),
                   match Heads(es)[n - 1]
                   case ToolHead(id, name) => [ToolCall(id, name, FragmentsFor(es, n - 1))]
                   case _ => [],
                   Rank(Heads(es), i), f);
    }
  }

  // ---------------------------------------------------------------- each event keeps track

  /** A block start adds an empty block at the end. */
  lemma StartGrows(es: seq<Event>, e: Event)
    requires WellFormed(es) && Fits(es, e) && e.BlockStart?
    ensures var n := |Heads(es)|;
            && Heads(es + [e]) == Heads(es) + [e.head]
            && TextUpTo(es + [e], n + 1) == TextUpTo(es, n)
            && CallsUpTo(es + [e], n + 1) == CallsUpTo(es, n) +
                 (if e.head.ToolHead? then [ToolCall(e.head.id, e.head.name, "")] else [])
  {
    var es', n := es + [e], |Heads(es)|;
    EventStep(es, e);
    hide Heads, TextFor, FragmentsFor, LastStop, LastInput, LastOutput, WellFormed, Rank;
    NothingAhead(es, n);
    assert forall j :: TextFor(es, j) + "" == TextFor(es, j) && FragmentsFor(es, j) + "" == FragmentsFor(es, j);
    UpToSame(es, es', n);
    UpToStep(es', n + 1);
    assert TextUpTo(es, n) + "" == TextUpTo(es, n);
  }

  /** A start changes none of the counters. */
  lemma StartCounts(es: seq<Event>, e: Event)
    requires e.BlockStart?
    ensures LastStop(es + [e]) == LastStop(es) && LastInput(es + [e]) == LastInput(es)
    ensures LastOutput(es + [e]) == LastOutput(es)
  {
    EventStep(es, e);
  }

  lemma ToolStartTracks(es: seq<Event>, id: string, name: string, s: Streaming, newId: nat -> string)
    requires WellFormed(es) && Tracks(es, s) && id != ""
    ensures var e := BlockStart(|Heads(es)|, ToolHead(id, name)); Tracks(es + [e], Advance(s, e, newId))
  {
    var e := BlockStart(|Heads(es)|, ToolHead(id, name));
    hide Heads, LastStop, LastInput, LastOutput, WellFormed, Fold, TextUpTo, CallsUpTo, Rank, TextFor, FragmentsFor;
    StartCounts(es, e);
    StartGrows(es, e);
    OneCallPerTool(es, |Heads(es)|);
    NumbersGrow(s.toolIdx, Heads(es), e.head);
    var n := |s.toolIdx|;
    var s' := s.(toolIdx := s.toolIdx[|Heads(es)| := n],
                 chunks := s.chunks + [CallStart(n, e.head.id, e.head.name, "")]);
    assert Advance(s, e, newId) == s';
    assert n == |CallsUpTo(es, |Heads(es)|)|;
    hide Numbers, Advance, Fits;
    FoldStep(s.chunks, CallStart(n, e.head.id, e.head.name, ""));
  }

  lemma PlainStartTracks(es: seq<Event>, e: Event, s: Streaming, newId: nat -> string)
    requires WellFormed(es) && Fits(es, e) && Tracks(es, s) && e.BlockStart? && !e.head.ToolHead?
    ensures Tracks(es + [e], Advance(s, e, newId))
  {
    StartCounts(es, e);
    StartGrows(es, e);
    NumbersGrow(s.toolIdx, Heads(es), e.head);
    hide Heads, TextFor, FragmentsFor, LastStop, LastInput, LastOutput;
    hide WellFormed, Fold, TextUpTo, CallsUpTo, Numbers, Rank;
    assert CallsUpTo(es, |Heads(es)|) + [] == CallsUpTo(es, |Heads(es)|);
  }

  lemma TextTracks(es: seq<Event>, e: Event, s: Streaming, newId: nat -> string)
    requires Fits(es, e) && Tracks(es, s) && e.BlockDelta? && e.delta.TextDelta?
    ensures Tracks(es + [e], Advance(s, e, newId))
  {
    var es', n := es + [e], |Heads(es)|;
    EventStep(es, e);
    hide Heads, TextFor, FragmentsFor, LastStop, LastInput, LastOutput, Fold;
    assert Heads(es) + [] == Heads(es);
    assert forall j :: FragmentsFor(es, j) + "" == FragmentsFor(es, j);
    TextGrows(es, es', e.index, e.delta.text, n);
    FoldStep(s.chunks, ContentChunk(e.delta.text));
    assert TextUpTo(es, n) + "" == TextUpTo(es, n);
  }

  lemma FragmentTracks(es: seq<Event>, e: Event, s: Streaming, newId: nat -> string)
    requires Fits(es, e) && Tracks(es, s) && e.BlockDelta? && e.delta.JsonDelta?
    ensures Tracks(es + [e], Advance(s, e, newId))
  {
    var es', n := es + [e], |Heads(es)|;
    EventStep(es, e);
    hide Heads, TextFor, FragmentsFor, LastStop, LastInput, LastOutput, Fold;
    assert Heads(es) + [] == Heads(es);
    assert forall j :: TextFor(es, j) + "" == TextFor(es, j) && FragmentsFor(es, j) + "" == FragmentsFor(es, j);
    FragmentGrows(es, es', e.index, e.delta.fragment, n);
    FoldStep(s.chunks, CallArguments(s.toolIdx[e.index], e.delta.fragment));
  }

  lemma OtherTracks(es: seq<Event>, e: Event, s: Streaming, newId: nat -> string)
    requires Fits(es, e) && Tracks(es, s)
    requires !e.BlockStart? && !(e.BlockDelta? && !e.delta.OtherDelta?)
    ensures Tracks(es + [e], Advance(s, e, newId))
  {
    var es', n := es + [e], |Heads(es)|;
    EventStep(es, e);
    hide Heads, TextFor, FragmentsFor, LastStop, LastInput, LastOutput, Fold;
    assert Heads(es) + [] == Heads(es);
    assert forall j :: TextFor(es, j) + "" == TextFor(es, j) && FragmentsFor(es, j) + "" == FragmentsFor(es, j);
    UpToSame(es, es', n);
  }

  lemma {:induction false} StreamTracks(es: seq<Event>, newId: nat -> string)
    requires WellFormed(es)
    ensures Tracks(es, Streamed(es, newId))
  {
    if es == [] {
      FirstTracks();
    } else {
      hide Tracks, Advance, Fits;
      var before, e := es[..|es| - 1], es[|es| - 1];
      StreamTracks(before, newId);
      assert es == before + [e];
      var s := Streamed(before, newId);
      match e
      case BlockStart(_, ToolHead(id, name)) =>
        ToolStartFits(before, e);
        ToolStartTracks(before, id, name, s, newId);
      case BlockStart(_, _) => PlainStartTracks(before, e, s, newId);
      case BlockDelta(_, TextDelta(_)) => TextTracks(before, e, s, newId);
      case BlockDelta(_, JsonDelta(_)) => FragmentTracks(before, e, s, newId);
      case _ => OtherTracks(before, e, s, newId);
    }
  }

  lemma ToolStartFits(es: seq<Event>, e: Event)
    requires Fits(es, e) && e.BlockStart? && e.head.ToolHead?
    ensures e.head.id != "" && e == BlockStart(|Heads(es)|, ToolHead(e.head.id, e.head.name))
  {
  }

  lemma FirstTracks()
    ensures Tracks([], FIRST)
  {
    assert [RoleChunk][..0] == [];
  }

  // ---------------------------------------------------------------- the refinement

  lemma FilledKeepsIds(newId: nat -> string)
    ensures KeepsIds(Filled(newId))
  {
    forall id: string, j: nat | id != "" ensures Filled(newId)(id, j) == id {
      assert IdOr(id, newId(j)) == id;
    }
  }

  lemma FirstBlocksStep(c: Codec, es: seq<Event>, n: nat)
    requires 0 < n <= |Heads(es)|
    ensures FirstBlocks(c, es, n) == FirstBlocks(c, es, n - 1) + [BlockFor(c, es, Heads(es), n - 1)]
  {
    hide Heads, BlockFor;
  }

  lemma ToolBlockTranslates(c: Codec, raws: seq<ToolCall>, front: seq<Block>, raw: ToolCall, newId: nat -> string)
    requires AllRewritten(c, raws, Calls(c, front, Filled(newId))) && raw.id != ""
    ensures var b := ToolUse(raw.id, raw.name, ReadArguments(c, raw.arguments));
            AllRewritten(c, raws + [raw], Calls(c, front + [b], Filled(newId)))
  {
    hide Texts, Calls, AllRewritten, IdOr, ReadArguments, WriteInput;
    var b := ToolUse(raw.id, raw.name, ReadArguments(c, raw.arguments));
    var calls := Calls(c, front, Filled(newId));
    BlockStep(c, front, b, Filled(newId));
    FilledKeepsIds(newId);
    OneMoreRewritten(c, raws, calls, raw, (|calls|, raw.(arguments := WriteInput(c, b.input))));
  }

  lemma PlainBlockTranslates(c: Codec, raws: seq<ToolCall>, front: seq<Block>, b: Block, newId: nat -> string)
    requires AllRewritten(c, raws, Calls(c, front, Filled(newId))) && !b.ToolUse?
    ensures AllRewritten(c, raws + [], Calls(c, front + [b], Filled(newId)))
  {
    hide Texts, Calls, AllRewritten, IdOr, ReadArguments, WriteInput;
    var calls := Calls(c, front, Filled(newId));
    BlockStep(c, front, b, Filled(newId));
    assert raws + [] == raws && calls + [] == calls;
  }

  lemma OneBlockTranslates(c: Codec, es: seq<Event>, raws: seq<ToolCall>, front: seq<Block>, i: nat,
                           newId: nat -> string)
    requires i < |Heads(es)| && (Heads(es)[i].ToolHead? ==> Heads(es)[i].id != "")
    requires AllRewritten(c, raws, Calls(c, front, Filled(newId)))
    ensures var more := match Heads(es)[i]
                        case ToolHead(id, name) => [ToolCall(id, name, FragmentsFor(es, i))]
                        case _ => [];
            AllRewritten(c, raws + more, Calls(c, front + [BlockFor(c, es, Heads(es), i)], Filled(newId)))
  {
    hide Heads, TextFor, FragmentsFor, ReadArguments, Calls, AllRewritten, Filled;
    match Heads(es)[i]
    case ToolHead(id, name) => ToolBlockTranslates(c, raws, front, ToolCall(id, name, FragmentsFor(es, i)), newId);
    case TextHead => PlainBlockTranslates(c, raws, front, TextBlock(TextFor(es, i)), newId);
    case OtherHead => PlainBlockTranslates(c, raws, front, OtherBlock, newId);
  }

  lemma TextTranslates(c: Codec, es: seq<Event>, front: seq<Block>, i: nat)
    requires i < |Heads(es)|
    ensures Texts(front + [BlockFor(c, es, Heads(es), i)]) ==
            Texts(front) + (if Heads(es)[i].TextHead? then TextFor(es, i) else "")
  {
    hide Heads, TextFor, FragmentsFor, ReadArguments, Calls;
    BlockStep(c, front, BlockFor(c, es, Heads(es), i), (id, j) => id);
  }

  predicate ToolsHaveIds(heads: seq<Head>) {
    forall i :: 0 <= i < |heads| && heads[i].ToolHead? ==> heads[i].id != ""
  }

  lemma {:induction false} BlocksTranslate(c: Codec, es: seq<Event>, n: nat, newId: nat -> string)
    requires n <= |Heads(es)| && ToolsHaveIds(Heads(es))
    ensures Texts(FirstBlocks(c, es, n)) == TextUpTo(es, n)
    ensures AllRewritten(c, CallsUpTo(es, n), Calls(c, FirstBlocks(c, es, n), Filled(newId)))
  {
    hide Heads, TextFor, FragmentsFor, TextUpTo, CallsUpTo;
    hide Texts, Calls, FirstBlocks, AllRewritten, Filled, BlockFor;
    if n == 0 {
      NoBlocksTranslate(c, es, newId);
    } else {
      BlocksTranslate(c, es, n - 1, newId);
      FirstBlocksStep(c, es, n);
      UpToStep(es, n);
      TextTranslates(c, es, FirstBlocks(c, es, n - 1), n - 1);
      OneBlockTranslates(c, es, CallsUpTo(es, n - 1), FirstBlocks(c, es, n - 1), n - 1, newId);
    }
  }

  lemma NoBlocksTranslate(c: Codec, es: seq<Event>, newId: nat -> string)
    ensures Texts(FirstBlocks(c, es, 0)) == TextUpTo(es, 0)
    ensures AllRewritten(c, CallsUpTo(es, 0), Calls(c, FirstBlocks(c, es, 0), Filled(newId)))
  {
    hide Heads, WriteInput, ReadArguments;
    NoBlocks(es);
  }

  lemma NoBlocks(es: seq<Event>)
    ensures TextUpTo(es, 0) == "" && CallsUpTo(es, 0) == []
  {
    hide Heads;
  }

  lemma {:induction false} StartedToolsHaveIds(es: seq<Event>)
    requires WellFormed(es)
    ensures ToolsHaveIds(Heads(es))
  {
    if es != [] {
      StartedToolsHaveIds(es[..|es| - 1]);
    }
  }

  lemma {:induction false} CallsAreFragments(es: seq<Event>, n: nat, j: nat)
    requires n <= |Heads(es)| && j < |CallsUpTo(es, n)|
    ensures exists i :: 0 <= i < n && Heads(es)[i].ToolHead? && CallsUpTo(es, n)[j].arguments == FragmentsFor(es, i)
  {
    hide Heads, FragmentsFor;
    if j < |CallsUpTo(es, n - 1)| {
      CallsAreFragments(es, n - 1, j);
    } else {
      assert Heads(es)[n - 1].ToolHead?;
    }
  }

  lemma ParsedArgumentsSurvive(c: Codec, arguments: string)
    requires Sound(c) && ReadArguments(c, arguments).JObj?
    ensures ReadArguments(c, WriteInput(c, ReadArguments(c, arguments))) == ReadArguments(c, arguments)
  {
    ArgumentsSurviveIff(c, arguments);
  }

  /** What the closing chunks add. */
  lemma ClosedFold(es: seq<Event>, newId: nat -> string)
    ensures var s := Streamed(Body(es), newId);
            var t := Fold(ChunksOf(es, newId));
            && t.text == Fold(s.chunks).text && t.calls == Fold(s.chunks).calls && t.finish == Some(s.finish)
            && t.promptTokens == s.inTok && t.completionTokens == s.outTok
  {
    var s := Streamed(Body(es), newId);
    hide Fold, Streamed, Body;
    var final := FinalChunk(s.finish, s.inTok, s.outTok, s.cacheRead);
    FoldStep(s.chunks, final);
    FoldStep(s.chunks + [final], Done);
    assert ChunksOf(es, newId) == s.chunks + [final] + [Done];
  }

  lemma {:induction false} FragmentsSurvive(c: Codec, es: seq<Event>)
    requires Sound(c) && ArgumentsParse(c, es)
    ensures forall j :: 0 <= j < |CallsUpTo(es, |Heads(es)|)| ==>
              var a := CallsUpTo(es, |Heads(es)|)[j].arguments;
              ReadArguments(c, WriteInput(c, ReadArguments(c, a))) == ReadArguments(c, a)
  {
    hide Heads, CallsUpTo, FragmentsFor, ReadArguments, WriteInput;
    var calls := CallsUpTo(es, |Heads(es)|);
    forall j | 0 <= j < |calls|
      ensures ReadArguments(c, WriteInput(c, ReadArguments(c, calls[j].arguments)))
          == ReadArguments(c, calls[j].arguments)
    {
      CallsAreFragments(es, |Heads(es)|, j);
      ParsedArgumentsSurvive(c, calls[j].arguments);
    }
  }

  /** Streaming refines non-streaming: for every well-formed stream, what a client folds the chunks
      into is what the non-streamed translation says of the assembled message. The output counts agree
      exactly when a message delta reported one, or the start reported none. */
  lemma StreamingRefinesNonStreaming(c: Codec, es: seq<Event>, newId: nat -> string, newId': nat -> string)
    requires Sound(c) && WellFormed(Body(es)) && ArgumentsParse(c, Body(es))
    ensures var t := Fold(ChunksOf(es, newId));
            var r := TranslateResponse(c, Assembled(c, Body(es)), newId');
            && SameAnswer(c, t, r)
            && t.finish == Some(r.finish)
            && t.promptTokens == r.promptTokens && r.totalTokens == r.promptTokens + r.completionTokens
            && (t.completionTokens == r.completionTokens <==> LastOutput(Body(es)).Some? || StartOutput(Body(es)) == 0)
  {
    hide Heads, Fold, Streamed, Texts, Calls, TextUpTo, CallsUpTo, ReadArguments, WriteInput, Body, FirstBlocks;
    hide ChunksOf, LastStop, LastInput, LastOutput, StartOutput, WellFormed, ArgumentsParse, MapStopReason, Rank;
    var body := Body(es);
    StreamTracks(body, newId);
    ClosedFold(es, newId);
    StartedToolsHaveIds(body);
    BlocksTranslate(c, body, |Heads(body)|, newId');
    FragmentsSurvive(c, body);
  }

  /** An output count given only at the start: the stream loses it. */
  lemma StartOutputIsLost(c: Codec, i: nat, o: nat, newId: nat -> string, newId': nat -> string)
    ensures var es := [MessageStart(i, 0, o)];
            && WellFormed(Body(es))
            && Fold(ChunksOf(es, newId)).completionTokens == 0
            && TranslateResponse(c, Assembled(c, Body(es)), newId').completionTokens == o
  {
    var e := MessageStart(i, 0, o);
    assert [e][1..] == [] && [e][..0] == [];
    assert Body([e]) == [e];
    assert WellFormed([]) && Fits([], e);
    assert WellFormed([e]);
    StreamTracks([e], newId);
    ClosedFold([e], newId);
    EventStep([], e);
    assert StartOutput([e]) == o && LastOutput([e]) == None;
  }

  /** A fragment for a block that is no tool is charged to the first call: well-formedness is needed. */
  lemma StrayFragmentReachesFirstCall(newId: nat -> string)
    ensures var es := [BlockStart(0, ToolHead("t", "f")), BlockStart(1, OtherHead), BlockDelta(1, JsonDelta("x"))];
            !WellFormed(es) && Fold(Streamed(es, newId).chunks).calls == [ToolCall("t", "f", "x")]
  {
    var e0, e1, e2 := BlockStart(0, ToolHead("t", "f")), BlockStart(1, OtherHead), BlockDelta(1, JsonDelta("x"));
    EventStep([], e0);
    EventStep([e0], e1);
    assert [] + [e0] == [e0] && [e0] + [e1] == [e0, e1] && [e0, e1] + [e2] == [e0, e1, e2];
    assert [e0, e1, e2][..2] == [e0, e1];
    assert !Fits([e0, e1], e2);
    StreamedStep([], e0, newId);
    StreamedStep([e0], e1, newId);
    StreamedStep([e0, e1], e2, newId);
    var c1, c2 := CallStart(0, "t", "f", ""), CallArguments(0, "x");
    assert Streamed([e0, e1, e2], newId).chunks == [RoleChunk] + [c1] + [c2];
    FirstTracks();
    FoldStep([RoleChunk], c1);
    FoldStep([RoleChunk] + [c1], c2);
    assert Fold([RoleChunk]) == NO_TURN by {
      assert [RoleChunk][..0] == [];
    }
    assert "" + "x" == "x";
  }

  // ---------------------------------------------------------------- the round trip

  /** An assistant turn with ids, sent to Anthropic and read back, is kept; its text is all there
      exactly when it was not given as parts. */
  lemma AssistantTurnSurvives(c: Codec, m: Message, newId: nat -> string, stop: Option<string>, i: nat, o: nat,
                              newId': nat -> string)
    requires Sound(c) && m.role == "assistant" && m.toolCalls != [] && forall tc :: tc in m.toolCalls ==> tc.id != ""
    ensures var sent := TranslateMessage(c, m, newId);
            && sent.Some? && sent.value.role == "assistant" && sent.value.content.Blocks?
            && var r := TranslateResponse(c, Response(sent.value.content.blocks, stop, i, o), newId');
               && |r.indices| == |r.calls|
               && Kept(c, m, OrEmpty(r.content),
                       seq(|r.calls|, j requires 0 <= j < |r.calls| => (r.indices[j], r.calls[j])))
               && (OrEmpty(r.content) == PlainText(m.content)
                   <==> !(m.content.Parts? && PartTexts(m.content.parts) != ""))
  {
    FilledKeepsIds(newId');
    AssistantKept(c, m, newId, Filled(newId'));
    LeadIsWholeIff(m.content);
    hide Texts, Calls, UseBlocks, LeadBlocks, LeadText, PlainText, PartTexts, ReadArguments, Survives, Kept, Filled;
    var bs := AssistantBlocks(c, m, newId);
    var r := TranslateResponse(c, Response(bs, stop, i, o), newId');
    assert seq(|r.calls|, j requires 0 <= j < |r.calls| => (r.indices[j], r.calls[j])) == Calls(c, bs, Filled(newId'));
  }

  /** Anthropic gets back the tool uses it sent, in order, after all of its text. */
  lemma AnswerSentBack(c: Codec, r: Response, newId: nat -> string, newId': nat -> string)
    requires Sound(c) && Proper(r.blocks) && TranslateResponse(c, r, newId).calls != []
    ensures var reply := TranslateResponse(c, r, newId);
            var content := if reply.content.Some? then Text(reply.content.value) else NoContent;
            TranslateMessage(c, Message("assistant", content, reply.calls, ""), newId') ==
            Some(BlockMessage("assistant", Blocks(LeadBlocks(Texts(r.blocks)) + Uses(r.blocks))))
  {
    var reply := TranslateResponse(c, r, newId);
    FilledKeepsIds(newId);
    TurnSentBack(c, r.blocks, if reply.content.Some? then Text(reply.content.value) else NoContent, Filled(newId),
                 newId');
    assert reply.calls == CallList(c, r.blocks, Filled(newId));
  }

  /** The translation of message `i` of a conversation; `newIds(i)` are the ids made up for it. */
  function Translator(c: Codec, newIds: nat -> nat -> string): (Message, nat) -> Option<BlockMessage> {
    (m: Message, i: nat) => TranslateMessage(c, m, newIds(i))
  }

  lemma CarriesIds(c: Codec, m: Message, newId: nat -> string, t: string)
    requires forall j :: newId(j) != t
    ensures Carries(m, TranslateMessage(c, m, newId), t)
  {
    IdsInBlocks(c, m, newId, t);
  }

  /** Over a whole conversation order is kept, and what precedes a tool result uses its id exactly
      when what preceded it before called that id, given that no made-up id repeats it. */
  lemma ToolResultsStillRefer(c: Codec, newIds: nat -> nat -> string, ms: seq<Message>, i: nat)
    requires i < |ms| && ms[i].role == "tool" && forall k, j :: newIds(k)(j) != ms[i].toolCallId
    ensures var out := Translated(Translator(c, newIds), ms);
            var p, t := Spoken(ms[..i]), ms[i].toolCallId;
            && p < |out| == Spoken(ms)
            && out[p] == BlockMessage("user", Blocks([ToolResult(t, ResultText(c, ms[i].content))]))
            && ((exists q :: 0 <= q < p && UsesId(out[q], t))
                <==> t != "" && exists k :: 0 <= k < i && CallsId(ms[k], t))
  {
    var t, tr := ms[i].toolCallId, Translator(c, newIds);
    forall k | 0 <= k < |ms| ensures Carries(ms[k], tr(ms[k], k), t) {
      CarriesIds(c, ms[k], newIds(k), t);
    }
    assert tr(ms[i], i) == TranslateMessage(c, ms[i], newIds(i));
    PlacedInOrder(tr, ms, i, t);
    IdsCarry(tr, ms, t);
  }

  // ---------------------------------------------------------------- the finish and the frame

  /** What a stop reason is told as. */
  predicate TellsStop(finish: string, reason: Option<string>) {
    && (finish == "tool_calls" <==> reason == Some("tool_use"))
    && (finish == "length" <==> reason == Some("max_tokens"))
    && (finish == "stop" <==> reason != Some("tool_use") && reason != Some("max_tokens"))
  }

  lemma MappedStop(reason: Option<string>)
    ensures TellsStop(MapStopReason(reason), reason)
  {
  }

  function LastCacheRead(es: seq<Event>): nat {
    if es == [] then 0
    else if es[|es| - 1].MessageStart? then es[|es| - 1].cacheRead
    else LastCacheRead(es[..|es| - 1])
  }

  /** The last output count that was reported and not zero. */
  function LastCount(es: seq<Event>): nat {
    if es == [] then 0
    else
      var e := es[|es| - 1];
      if e.MessageDelta? && e.outputTokens_.Some? && e.outputTokens_.value != 0 then e.outputTokens_.value
      else LastCount(es[..|es| - 1])
  }

  /** Any stream, well-formed or not: its frame, its finish, its cached count. */
  lemma {:induction false} StreamIsOpened(es: seq<Event>, newId: nat -> string)
    ensures var s := Streamed(es, newId);
            && Opened(s.chunks) && s.cacheRead == LastCacheRead(es)
            && s.finish == MapStopReason(LastStop(es)) && s.inTok == LastInput(es) && s.outTok == LastCount(es)
            && forall i :: 0 <= i < |s.chunks| ==> s.chunks[i] != ContentChunk("")
  {
    hide MapStopReason, IdOr;
    if es == [] {
      MappedStop(None);
    } else {
      StreamIsOpened(es[..|es| - 1], newId);
    }
  }

  /** The stream's finish, and the answer's, tell the stop reason last reported: tool_use as tool_calls,
      max_tokens as length, anything else as stop. The stream is framed, sends no empty text, and closes
      with the counts last reported, of output the last that was not zero. */
  lemma {:induction false} FinishTellsStopReason(c: Codec, es: seq<Event>, r: Response, newId: nat -> string)
    ensures var cs := ChunksOf(es, newId);
            && Framed(cs) && cs[|cs| - 2].cachedTokens == LastCacheRead(Body(es))
            && (forall i :: 0 <= i < |cs| ==> cs[i] != ContentChunk(""))
            && Fold(cs).finish.Some? && TellsStop(Fold(cs).finish.value, LastStop(Body(es)))
            && Fold(cs).promptTokens == LastInput(Body(es)) && Fold(cs).completionTokens == LastCount(Body(es))
    ensures TellsStop(TranslateResponse(c, r, newId).finish, r.stopReason)
  {
    hide MapStopReason, TellsStop, Fold, Streamed, Body, Opened, Framed, Calls, Texts;
    var s := Streamed(Body(es), newId);
    StreamIsOpened(Body(es), newId);
    MappedStop(LastStop(Body(es)));
    MappedStop(r.stopReason);
    ClosedFold(es, newId);
    ClosingFrames(s.chunks, FinalChunk(s.finish, s.inTok, s.outTok, s.cacheRead));
    assert ChunksOf(es, newId) == s.chunks + [FinalChunk(s.finish, s.inTok, s.outTok, s.cacheRead), Done];
  }

  lemma {:induction false} RankIffTool(heads: seq<Head>, n: nat)
    requires n <= |heads|
    ensures Rank(heads, n) > 0 <==> exists i :: 0 <= i < n && heads[i].ToolHead?
  {
    if n > 0 {
      RankIffTool(heads, n - 1);
    }
  }

  /** When the provider stops for tools exactly if it started a tool block, a client is told tool_calls
      exactly when it holds calls. */
  lemma {:induction false} ToolFinishIffCalls(es: seq<Event>, newId: nat -> string)
    requires WellFormed(Body(es))
    requires LastStop(Body(es)) == Some("tool_use") <==>
               exists i :: 0 <= i < |Heads(Body(es))| && Heads(Body(es))[i].ToolHead?
    ensures var t := Fold(ChunksOf(es, newId)); t.finish == Some("tool_calls") <==> t.calls != []
  {
    hide Fold, Streamed, Body, Heads, CallsUpTo, Rank, MapStopReason, ChunksOf, LastStop, WellFormed, TextUpTo, Numbers;
    var body := Body(es);
    StreamTracks(body, newId);
    ClosedFold(es, newId);
    OneCallPerTool(body, |Heads(body)|);
    RankIffTool(Heads(body), |Heads(body)|);
    MappedStop(LastStop(body));
  }
}
