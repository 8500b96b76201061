/** Gemini streaming against the non-streamed answer, however the parts are split, and the round trip
    of an assistant turn. */
module GeminiRuns {
  import opened Common
  import opened OpenAI
  import opened Conversation
  import opened Gemini

  // ---------------------------------------------------------------- the whole of a stream

  function AllParts(ds: seq<Data>): seq<GeminiPart> {
    if ds == [] then [] else AllParts(ds[..|ds| - 1]) + ds[|ds| - 1].parts
  }

  function LastReason(ds: seq<Data>): string {
    if ds == [] then ""
    else if ds[|ds| - 1].finishReason != "" then ds[|ds| - 1].finishReason
    else LastReason(ds[..|ds| - 1])
  }

  /** The last count that was not zero. */
  function LastPrompt(ds: seq<Data>): nat {
    if ds == [] then 0
    else if OrZero(ds[|ds| - 1].promptCount) != 0 then OrZero(ds[|ds| - 1].promptCount)
    else LastPrompt(ds[..|ds| - 1])
  }

  function LastCandidates(ds: seq<Data>): nat {
    if ds == [] then 0
    else if OrZero(ds[|ds| - 1].candidatesCount) != 0 then OrZero(ds[|ds| - 1].candidatesCount)
    else LastCandidates(ds[..|ds| - 1])
  }

  /** The chunks as one response. */
  function Merged(ds: seq<Data>, total: Option<nat>): Data {
    Data(AllParts(ds), LastReason(ds), Some(LastPrompt(ds)), Some(LastCandidates(ds)), total)
  }

  /** How the stream takes a part: an empty text does not hide a call. */
  function SentBlock(p: GeminiPart): Block {
    if p.text.Some? && p.text.value != "" then TextBlock(p.text.value)
    else if p.call.Some? then ToolUse("", p.call.value.name, p.call.value.args)
    else OtherBlock
  }

  function SentBlocks(ps: seq<GeminiPart>): seq<Block> {
    seq(|ps|, i requires 0 <= i < |ps| => SentBlock(ps[i]))
  }

  // ---------------------------------------------------------------- each chunk keeps track

  ghost predicate Tracks(c: Codec, ps: seq<GeminiPart>, s: Streaming, newId: nat -> string) {
    var calls := CallList(c, SentBlocks(ps), Made(newId));
    && Fold(s.chunks).text == Texts(SentBlocks(ps))
    && Fold(s.chunks).calls == calls
    && s.toolN + 1 == |calls|
    && (s.finish == "tool_calls" <==> calls != [])
  }

  lemma PartTracks(c: Codec, ps: seq<GeminiPart>, p: GeminiPart, s: Streaming, newId: nat -> string)
    requires s.toolN >= -1 && Tracks(c, ps, s, newId)
    ensures Tracks(c, ps + [p], AddPart(c, s, p, newId), newId)
  {
    hide Fold, Texts, CallList, WriteInput;
    var bs, b := SentBlocks(ps), SentBlock(p);
    assert SentBlocks(ps + [p]) == bs + [b];
    BlockStep(c, bs, b, Made(newId));
    CallListStep(c, bs, b, Made(newId));
    assert Texts(bs) + "" == Texts(bs);
    assert CallList(c, bs, Made(newId)) + [] == CallList(c, bs, Made(newId));
    if b.TextBlock? {
      FoldStep(s.chunks, ContentChunk(b.text));
    } else if b.ToolUse? {
      FoldStep(s.chunks, CallStart(s.toolN + 1, newId(s.toolN + 1), b.name, WriteInput(c, b.input)));
    }
  }

  lemma {:induction false} PartsTrack(c: Codec, before: seq<GeminiPart>, ps: seq<GeminiPart>, s: Streaming,
                                      newId: nat -> string)
    requires s.toolN >= -1 && Tracks(c, before, s, newId)
    ensures Tracks(c, before + ps, AddParts(c, s, ps, newId), newId)
    ensures var s' := AddParts(c, s, ps, newId);
            s'.inTok == s.inTok && s'.outTok == s.outTok && (s'.finish == s.finish || s'.finish == "tool_calls")
  {
    hide Tracks;
    if ps == [] {
      assert before + ps == before;
    } else {
      var n := |ps| - 1;
      PartsTrack(c, before, ps[..n], s, newId);
      PartTracks(c, before + ps[..n], ps[n], AddParts(c, s, ps[..n], newId), newId);
      assert before + ps == before + ps[..n] + [ps[n]];
    }
  }

  lemma FinishIsNeverToolCalls(reason: string)
    ensures Finish(reason) != "tool_calls" && Finish("") == "stop"
  {
  }

  /** After any chunks: the text and calls of all parts so far, the counters, and the finish. */
  lemma {:induction false} StreamTracks(c: Codec, ds: seq<Data>, newId: nat -> string)
    ensures var s := Streamed(c, ds, newId);
            && Tracks(c, AllParts(ds), s, newId)
            && s.inTok == LastPrompt(ds) && s.outTok == LastCandidates(ds)
            && (s.finish == "tool_calls" || s.finish == Finish(LastReason(ds)))
  {
    hide Finish;
    if ds == [] {
      FirstTracks(c, newId);
    } else {
      hide Tracks;
      var before, d := ds[..|ds| - 1], ds[|ds| - 1];
      var s := Streamed(c, before, newId);
      StreamTracks(c, before, newId);
      PartsTrack(c, AllParts(before), d.parts, s, newId);
      var s' := AddParts(c, s, d.parts, newId);
      ClosingTracks(c, AllParts(ds), s', d, newId);
      FinishIsNeverToolCalls(d.finishReason);
    }
  }

  lemma FirstTracks(c: Codec, newId: nat -> string)
    ensures Tracks(c, [], FIRST, newId) && Finish("") == "stop"
  {
    assert [RoleChunk][..0] == [];
    assert SentBlocks([]) == [];
  }

  lemma ClosingTracks(c: Codec, ps: seq<GeminiPart>, s: Streaming, d: Data, newId: nat -> string)
    requires Tracks(c, ps, s, newId)
    ensures Tracks(c, ps, Close(s, d), newId)
  {
    FinishIsNeverToolCalls(d.finishReason);
  }

  // ---------------------------------------------------------------- stream against answer

  /** A part whose call only the stream sees. */
  predicate Ambiguous(p: GeminiPart) {
    p.text == Some("") && p.call.Some?
  }

  function Ambiguities(ps: seq<GeminiPart>): nat {
    if ps == [] then 0 else Ambiguities(ps[..|ps| - 1]) + (if Ambiguous(ps[|ps| - 1]) then 1 else 0)
  }

  lemma {:induction false} AmbiguitiesIff(ps: seq<GeminiPart>)
    ensures Ambiguities(ps) == 0 <==> forall p :: p in ps ==> !Ambiguous(p)
  {
    if ps != [] {
      AmbiguitiesIff(ps[..|ps| - 1]);
      assert ps == ps[..|ps| - 1] + [ps[|ps| - 1]];
    }
  }

  /** Equal up to ids. */
  predicate AlikeBut(a: seq<ToolCall>, b: seq<ToolCall>) {
    |a| == |b| && forall j :: 0 <= j < |a| ==> a[j].name == b[j].name && a[j].arguments == b[j].arguments
  }

  lemma OneMoreAlike(a: seq<ToolCall>, b: seq<ToolCall>, x: ToolCall, y: ToolCall)
    requires AlikeBut(a, b) && x.name == y.name && x.arguments == y.arguments
    ensures AlikeBut(a + [x], b + [y])
  {
  }

  lemma BothSnoc(ps: seq<GeminiPart>)
    requires ps != []
    ensures var n := |ps| - 1;
            && SentBlocks(ps) == SentBlocks(ps[..n]) + [SentBlock(ps[n])]
            && AsBlocks(ps) == AsBlocks(ps[..n]) + [AsBlock(ps[n])]
  {
    hide SentBlock, AsBlock;
  }

  lemma {:induction false} TextsAgree(c: Codec, ps: seq<GeminiPart>)
    ensures Texts(SentBlocks(ps)) == Texts(AsBlocks(ps))
  {
    if ps != [] {
      hide Texts, SentBlocks, AsBlocks;
      var n := |ps| - 1;
      var sent, read := SentBlocks(ps[..n]), AsBlocks(ps[..n]);
      TextsAgree(c, ps[..n]);
      BothSnoc(ps);
      BlockStep(c, sent, SentBlock(ps[n]), NoNewIds());
      BlockStep(c, read, AsBlock(ps[n]), NoNewIds());
      assert Texts(sent) + "" == Texts(sent);
    }
  }

  function NoNewIds(): (string, nat) -> string {
    (id: string, n: nat) => ""
  }

  /** The stream has one call more than the answer for every ambiguous part; without one they have
      the same calls up to ids. */
  lemma {:induction false} CallsDiffer(c: Codec, ps: seq<GeminiPart>, idOf: (string, nat) -> string,
                                       idOf': (string, nat) -> string)
    ensures var sent, read := CallList(c, SentBlocks(ps), idOf), CallList(c, AsBlocks(ps), idOf');
            && |sent| == |read| + Ambiguities(ps)
            && (Ambiguities(ps) == 0 ==> AlikeBut(sent, read))
  {
    if ps != [] {
      hide CallList, WriteInput, AlikeBut, SentBlocks, AsBlocks;
      var n := |ps| - 1;
      var p, sent, read := ps[n], SentBlocks(ps[..n]), AsBlocks(ps[..n]);
      CallsDiffer(c, ps[..n], idOf, idOf');
      BothSnoc(ps);
      CallListStep(c, sent, SentBlock(p), idOf);
      CallListStep(c, read, AsBlock(p), idOf');
      var a, b := CallList(c, sent, idOf), CallList(c, read, idOf');
      if AsBlock(p).ToolUse? {
        if Ambiguities(ps) == 0 {
          var call := p.call.value;
          OneMoreAlike(a, b, ToolCall(idOf("", |a|), call.name, WriteInput(c, call.args)),
                       ToolCall(idOf'("", |b|), call.name, WriteInput(c, call.args)));
        }
      } else {
        assert a + [] == a && b + [] == b;
      }
    }
  }

  lemma ClosedFold(c: Codec, ds: seq<Data>, newId: nat -> string)
    ensures var s := Streamed(c, ds, newId);
            var t := Fold(ChunksOf(c, ds, newId));
            && t.text == Fold(s.chunks).text && t.calls == Fold(s.chunks).calls && t.finish == Some(s.finish)
            && t.promptTokens == s.inTok && t.completionTokens == s.outTok
  {
    hide Fold, Streamed;
    var s := Streamed(c, ds, newId);
    var final := FinalChunk(s.finish, s.inTok, s.outTok, 0);
    FoldStep(s.chunks, final);
    FoldStep(s.chunks + [final], Done);
    assert ChunksOf(c, ds, newId) == s.chunks + [final] + [Done];
  }

  lemma IndicesStep(xs: seq<(nat, ToolCall)>, x: (nat, ToolCall))
    ensures Indices(xs + [x]) == Indices(xs) + [x.0]
  {
  }

  lemma {:induction false} CallsAreNumbered(c: Codec, bs: seq<Block>, idOf: (string, nat) -> string)
    ensures var calls := Calls(c, bs, idOf);
            && |Indices(calls)| == |calls| == |WithoutIndices(calls)|
            && forall j :: 0 <= j < |calls| ==> Indices(calls)[j] == j
  {
    hide WriteInput;
    if bs != [] {
      var n := |bs| - 1;
      CallsAreNumbered(c, bs[..n], idOf);
      assert bs == bs[..n] + [bs[n]];
      BlockStep(c, bs[..n], bs[n], idOf);
      hide Calls, Indices;
      var calls := Calls(c, bs[..n], idOf);
      if bs[n].ToolUse? {
        IndicesStep(calls, CallIn(c, bs[n], |calls|, idOf)[0]);
      } else {
        assert calls + [] == calls;
      }
    }
  }

  /** However the parts are split over chunks, the stream folds to the answer for all of them at
      once, up to ids, exactly when no part is ambiguous; the finish reasons agree exactly when the
      answer has calls if the stream has; the totals exactly when the provider's is absent or the sum. */
  lemma StreamAgreesWithAnswer(c: Codec, ds: seq<Data>, total: Option<nat>, newId: nat -> string, newId': nat -> string)
    ensures var t := Fold(ChunksOf(c, ds, newId));
            var r := Answer(c, Merged(ds, total), newId');
            && OrEmpty(r.content) == t.text
            && (AlikeBut(t.calls, r.calls) <==> forall p :: p in AllParts(ds) ==> !Ambiguous(p))
            && (forall j :: 0 <= j < |r.indices| ==> r.indices[j] == j) && |r.indices| == |r.calls|
            && t.promptTokens == r.promptTokens && t.completionTokens == r.completionTokens
            && (t.finish == Some(r.finish) <==> t.calls == [] || r.calls != [])
            && (r.totalTokens == t.promptTokens + t.completionTokens <==>
                OrZero(total) == 0 || OrZero(total) == t.promptTokens + t.completionTokens)
  {
    hide Fold, Streamed, ChunksOf, AllParts, LastReason, LastPrompt, LastCandidates, Texts, Calls, SentBlocks, AsBlocks;
    hide Finish, Made, Ambiguities, Indices;
    var ps := AllParts(ds);
    StreamTracks(c, ds, newId);
    ClosedFold(c, ds, newId);
    TextsAgree(c, ps);
    CallsDiffer(c, ps, Made(newId), Made(newId'));
    AmbiguitiesIff(ps);
    CallsAreNumbered(c, AsBlocks(ps), Made(newId'));
    FinishIsNeverToolCalls(LastReason(ds));
    var r := Answer(c, Merged(ds, total), newId');
    assert r.calls == CallList(c, AsBlocks(ps), Made(newId'));
    hide CallList, AlikeBut;
    AlikeLength(Fold(ChunksOf(c, ds, newId)).calls, r.calls);
  }

  lemma AlikeLength(a: seq<ToolCall>, b: seq<ToolCall>)
    ensures AlikeBut(a, b) ==> |a| == |b|
  {
  }

  lemma OnePart(p: GeminiPart, reason: string)
    requires reason != ""
    ensures var ds := [Data([p], reason, None, None, None)];
            && AllParts(ds) == [p] && LastReason(ds) == reason
            && SentBlocks([p]) == [] + [SentBlock(p)] && AsBlocks([p]) == [] + [AsBlock(p)]
  {
    hide SentBlock, AsBlock;
    assert [Data([p], reason, None, None, None)][..0] == [];
  }

  /** A call in a part with an empty text: the stream sends it, the answer has none. */
  lemma HiddenCall(c: Codec, call: FunctionCall, total: Option<nat>, newId: nat -> string, newId': nat -> string)
    ensures var ds := [Data([GeminiPart(Some(""), Some(call))], "STOP", None, None, None)];
            var t, r := Fold(ChunksOf(c, ds, newId)), Answer(c, Merged(ds, total), newId');
            && |t.calls| == 1 && t.finish == Some("tool_calls")
            && r.calls == [] && r.finish == "stop"
  {
    hide Fold, Streamed, Calls, AllParts, LastReason, SentBlocks;
    hide AsBlocks, ChunksOf, WriteInput, Texts, LastPrompt, LastCandidates;
    var p := GeminiPart(Some(""), Some(call));
    var ds := [Data([p], "STOP", None, None, None)];
    assert Finish("STOP") == "stop";
    OnePart(p, "STOP");
    StreamTracks(c, ds, newId);
    ClosedFold(c, ds, newId);
    CallListStep(c, [], SentBlock(p), Made(newId));
    CallListStep(c, [], AsBlock(p), Made(newId'));
    NoCallsInNothing(c, Made(newId));
    NoCallsInNothing(c, Made(newId'));
  }

  lemma NoCallsInNothing(c: Codec, idOf: (string, nat) -> string)
    ensures CallList(c, [], idOf) == []
  {
  }

  // ---------------------------------------------------------------- splits

  predicate PureText(p: GeminiPart) {
    p.text.Some? && p.call.None?
  }

  /** The parts with adjacent texts joined. */
  function Glued(ps: seq<GeminiPart>): seq<GeminiPart> {
    if ps == [] then []
    else
      var g, p := Glued(ps[..|ps| - 1]), ps[|ps| - 1];
      if g != [] && PureText(g[|g| - 1]) && PureText(p) then
        g[..|g| - 1] + [GeminiPart(Some(g[|g| - 1].text.value + p.text.value), None)]
      else g + [p]
  }

  /** Where a text is cut makes no difference. */
  lemma CutTextGlues(ps: seq<GeminiPart>, a: string, b: string)
    ensures Glued(ps + [GeminiPart(Some(a), None)] + [GeminiPart(Some(b), None)]) ==
            Glued(ps + [GeminiPart(Some(a + b), None)])
  {
    var x, y, xy := GeminiPart(Some(a), None), GeminiPart(Some(b), None), GeminiPart(Some(a + b), None);
    assert (ps + [x] + [y])[..|ps| + 1] == ps + [x] && (ps + [x])[..|ps|] == ps && (ps + [xy])[..|ps|] == ps;
    var g := Glued(ps);
    if g != [] && PureText(g[|g| - 1]) {
      var t := g[|g| - 1].text.value;
      assert t + a + b == t + (a + b);
    }
  }

  /** What a client sees of some parts. */
  predicate SeenAlike(c: Codec, ps: seq<GeminiPart>, qs: seq<GeminiPart>, idOf: (string, nat) -> string) {
    && Texts(SentBlocks(ps)) == Texts(SentBlocks(qs))
    && CallList(c, SentBlocks(ps), idOf) == CallList(c, SentBlocks(qs), idOf)
  }

  lemma SentSnoc(ps: seq<GeminiPart>, p: GeminiPart)
    ensures SentBlocks(ps + [p]) == SentBlocks(ps) + [SentBlock(p)]
  {
    hide SentBlock;
  }

  lemma SentStep(c: Codec, ps: seq<GeminiPart>, p: GeminiPart, idOf: (string, nat) -> string)
    ensures var b, n := SentBlock(p), |CallList(c, SentBlocks(ps), idOf)|;
            && Texts(SentBlocks(ps + [p])) == Texts(SentBlocks(ps)) + (if b.TextBlock? then b.text else "")
            && CallList(c, SentBlocks(ps + [p]), idOf) == CallList(c, SentBlocks(ps), idOf) +
                 (if b.ToolUse? then [ToolCall(idOf(b.id, n), b.name, WriteInput(c, b.input))] else [])
  {
    hide Texts, CallList, SentBlock, SentBlocks, WriteInput;
    SentSnoc(ps, p);
    BlockStep(c, SentBlocks(ps), SentBlock(p), idOf);
    CallListStep(c, SentBlocks(ps), SentBlock(p), idOf);
  }

  lemma PureTextIsSeen(c: Codec, ps: seq<GeminiPart>, p: GeminiPart, idOf: (string, nat) -> string)
    requires PureText(p)
    ensures Texts(SentBlocks(ps + [p])) == Texts(SentBlocks(ps)) + p.text.value
    ensures CallList(c, SentBlocks(ps + [p]), idOf) == CallList(c, SentBlocks(ps), idOf)
  {
    hide Texts, CallList, SentBlocks, WriteInput;
    SentStep(c, ps, p, idOf);
    assert CallList(c, SentBlocks(ps), idOf) + [] == CallList(c, SentBlocks(ps), idOf);
    assert Texts(SentBlocks(ps)) + "" == Texts(SentBlocks(ps));
  }

  /** Joining two texts at the end changes nothing that is seen. */
  lemma JoinIsSeenAlike(c: Codec, ps: seq<GeminiPart>, x: GeminiPart, y: GeminiPart, idOf: (string, nat) -> string)
    requires PureText(x) && PureText(y)
    ensures SeenAlike(c, ps + [GeminiPart(Some(x.text.value + y.text.value), None)], ps + [x] + [y], idOf)
  {
    hide Texts, CallList, SentBlocks;
    PureTextIsSeen(c, ps, GeminiPart(Some(x.text.value + y.text.value), None), idOf);
    PureTextIsSeen(c, ps, x, idOf);
    PureTextIsSeen(c, ps + [x], y, idOf);
    var t := Texts(SentBlocks(ps));
    assert t + (x.text.value + y.text.value) == t + x.text.value + y.text.value;
  }

  lemma OneMoreSeenAlike(c: Codec, ps: seq<GeminiPart>, qs: seq<GeminiPart>, p: GeminiPart,
                         idOf: (string, nat) -> string)
    requires SeenAlike(c, ps, qs, idOf)
    ensures SeenAlike(c, ps + [p], qs + [p], idOf)
  {
    hide Texts, CallList, SentBlocks, SentBlock, WriteInput;
    SentStep(c, ps, p, idOf);
    SentStep(c, qs, p, idOf);
  }

  lemma LastGlued(ps: seq<GeminiPart>)
    requires ps != []
    ensures var g, p := Glued(ps[..|ps| - 1]), ps[|ps| - 1];
            if g != [] && PureText(g[|g| - 1]) && PureText(p) then
              Glued(ps) == g[..|g| - 1] + [GeminiPart(Some(g[|g| - 1].text.value + p.text.value), None)]
            else Glued(ps) == g + [p]
  {
  }

  /** Seen alike for every way of giving ids. */
  ghost predicate AlwaysSeenAlike(c: Codec, ps: seq<GeminiPart>, qs: seq<GeminiPart>) {
    forall idOf: (string, nat) -> string :: SeenAlike(c, ps, qs, idOf)
  }

  lemma {:induction false} GluedIsSeenAlike(c: Codec, ps: seq<GeminiPart>)
    ensures AlwaysSeenAlike(c, Glued(ps), ps)
  {
    forall idOf: (string, nat) -> string ensures SeenAlike(c, Glued(ps), ps, idOf) {
      if ps != [] {
        GluedIsSeenAlike(c, ps[..|ps| - 1]);
        LastGlued(ps);
        hide Glued;
        assert SeenAlike(c, Glued(ps[..|ps| - 1]), ps[..|ps| - 1], idOf);
        hide SeenAlike;
        JoinedSeenAlike(c, ps, Glued(ps[..|ps| - 1]), Glued(ps), idOf);
      } else {
        assert Glued(ps) == ps;
      }
    }
  }

  lemma JoinedSeenAlike(c: Codec, ps: seq<GeminiPart>, g: seq<GeminiPart>, glued: seq<GeminiPart>,
                        idOf: (string, nat) -> string)
    requires ps != [] && SeenAlike(c, g, ps[..|ps| - 1], idOf)
    requires var p := ps[|ps| - 1];
             if g != [] && PureText(g[|g| - 1]) && PureText(p) then
               glued == g[..|g| - 1] + [GeminiPart(Some(g[|g| - 1].text.value + p.text.value), None)]
             else glued == g + [p]
    ensures SeenAlike(c, glued, ps, idOf)
  {
    hide SeenAlike, PureText;
    var n := |ps| - 1;
    var p := ps[n];
    OneMoreSeenAlike(c, g, ps[..n], p, idOf);
    assert ps == ps[..n] + [p];
    if g != [] && PureText(g[|g| - 1]) && PureText(p) {
      JoinIsSeenAlike(c, g[..|g| - 1], g[|g| - 1], p, idOf);
      assert g == g[..|g| - 1] + [g[|g| - 1]];
      SeenAlikeTwice(c, glued, g + [p], ps, idOf);
    }
  }

  lemma SeenAlikeTwice(c: Codec, ps: seq<GeminiPart>, qs: seq<GeminiPart>, rs: seq<GeminiPart>,
                       idOf: (string, nat) -> string)
    requires SeenAlike(c, ps, qs, idOf) && SeenAlike(c, qs, rs, idOf)
    ensures SeenAlike(c, ps, rs, idOf)
  {
  }

  /** Two splits of the same content, be it inside a text, with the same last reason fold to the same
      turn, ids and all. */
  lemma {:induction false} SplitsAgree(c: Codec, ds: seq<Data>, ds': seq<Data>, newId: nat -> string)
    requires Glued(AllParts(ds)) == Glued(AllParts(ds')) && LastReason(ds) == LastReason(ds')
    ensures var t, t' := Fold(ChunksOf(c, ds, newId)), Fold(ChunksOf(c, ds', newId));
            t.text == t'.text && t.calls == t'.calls && t.finish == t'.finish
  {
    hide Fold, Streamed, ChunksOf, AllParts, LastReason, Texts, SentBlocks, CallList, Finish, Glued, Made;
    GluedIsSeenAlike(c, AllParts(ds));
    GluedIsSeenAlike(c, AllParts(ds'));
    assert SeenAlike(c, Glued(AllParts(ds)), AllParts(ds), Made(newId));
    assert SeenAlike(c, Glued(AllParts(ds')), AllParts(ds'), Made(newId));
    StreamTracks(c, ds, newId);
    StreamTracks(c, ds', newId);
    ClosedFold(c, ds, newId);
    ClosedFold(c, ds', newId);
    FinishIsNeverToolCalls(LastReason(ds));
  }

  // ---------------------------------------------------------------- the round trip

  function NoId(call: ToolCall): ToolCall {
    call.(id := "")
  }

  function Nameless(calls: seq<ToolCall>): seq<ToolCall> {
    seq(|calls|, i requires 0 <= i < |calls| => NoId(calls[i]))
  }

  function NoIds(): nat -> string {
    (i: nat) => ""
  }

  lemma PartsAreBlocks(c: Codec, text: string, calls: seq<ToolCall>)
    ensures AsBlocks(LeadParts(text) + CallParts(c, calls)) == LeadBlocks(text) + UseBlocks(c, Nameless(calls), NoIds())
  {
    hide ReadArguments;
    var ps, bs := LeadParts(text) + CallParts(c, calls), LeadBlocks(text) + UseBlocks(c, Nameless(calls), NoIds());
    var k := |LeadParts(text)|;
    forall i | 0 <= i < |ps| ensures AsBlock(ps[i]) == bs[i] {
      if i >= k {
        assert ps[i] == CallPart(c, calls[i - k]);
        assert bs[i] == UseBlocks(c, Nameless(calls), NoIds())[i - k];
        assert NoIds()(i - k) == "";
      }
    }
  }

  /** An assistant turn, sent to Gemini and read back, is kept up to ids, which are the made-up ones
      in order; its text is all there exactly when it was not given as parts. */
  lemma AssistantTurnSurvives(c: Codec, m: Message, name: string, d: Data, newId: nat -> string)
    requires Sound(c) && m.role == "assistant" && m.toolCalls != []
    ensures var sent := ToGemini(c, m, name);
            && sent.Some? && sent.value.GeminiMessage? && sent.value.role == "model"
            && var r := Answer(c, d.(parts := sent.value.parts), newId);
               && OrEmpty(r.content) == LeadText(m.content)
               && |r.calls| == |r.indices| == |m.toolCalls|
               && (forall j :: 0 <= j < |r.calls| ==>
                    && r.indices[j] == j && r.calls[j].id == newId(j) && r.calls[j].name == m.toolCalls[j].name
                    && var args := ReadArguments(c, m.toolCalls[j].arguments);
                       ReadArguments(c, r.calls[j].arguments) == args <==> Survives(args))
               && (OrEmpty(r.content) == PlainText(m.content)
                   <==> !(m.content.Parts? && PartTexts(m.content.parts) != ""))
  {
    hide Texts, Calls, UseBlocks, LeadBlocks, LeadText;
    hide PlainText, PartTexts, ReadArguments, WriteInput, Survives, AsBlocks;
    hide LeadParts, CallParts, Finish;
    PartsAreBlocks(c, LeadText(m.content), m.toolCalls);
    TurnReadsBack(c, LeadText(m.content), Nameless(m.toolCalls), NoIds(), Made(newId));
    LeadIsWholeIff(m.content);
    forall j | 0 <= j < |m.toolCalls|
      ensures var args := ReadArguments(c, m.toolCalls[j].arguments);
              ReadArguments(c, WriteInput(c, args)) == args <==> Survives(args)
    {
      ArgumentsSurviveIff(c, m.toolCalls[j].arguments);
    }
  }

  // ---------------------------------------------------------------- the finish and the frame

  /** What a finish reason is told as, when there are no calls. */
  predicate TellsReason(finish: string, reason: string) {
    && (finish == "length" <==> reason == "MAX_TOKENS")
    && (finish == "content_filter" <==> reason == "SAFETY" || reason == "RECITATION")
    && (finish == "stop" <==> reason !in {"MAX_TOKENS", "SAFETY", "RECITATION"})
  }

  lemma MappedReason(reason: string)
    ensures TellsReason(Finish(reason), reason)
  {
  }

  predicate SendsNoEmptyText(cs: seq<Chunk>) {
    forall i :: 0 <= i < |cs| ==> cs[i] != ContentChunk("")
  }

  lemma {:induction false} PartsAreOpened(c: Codec, s: Streaming, ps: seq<GeminiPart>, newId: nat -> string)
    requires s.toolN >= -1 && Opened(s.chunks) && SendsNoEmptyText(s.chunks)
    ensures var cs := AddParts(c, s, ps, newId).chunks; Opened(cs) && SendsNoEmptyText(cs)
  {
    hide WriteInput;
    if ps != [] {
      PartsAreOpened(c, s, ps[..|ps| - 1], newId);
    }
  }

  lemma {:induction false} StreamIsOpened(c: Codec, ds: seq<Data>, newId: nat -> string)
    ensures var cs := Streamed(c, ds, newId).chunks; Opened(cs) && SendsNoEmptyText(cs)
  {
    hide AddParts, Finish;
    if ds != [] {
      hide Opened, SendsNoEmptyText;
      StreamIsOpened(c, ds[..|ds| - 1], newId);
      PartsAreOpened(c, Streamed(c, ds[..|ds| - 1], newId), ds[|ds| - 1].parts, newId);
    }
  }

  /** The stream is framed and sends no empty text. With calls it finishes as tool_calls, without as the
      reason last reported says; and so does the answer. */
  lemma {:induction false} FinishTellsReason(c: Codec, ds: seq<Data>, d: Data, newId: nat -> string)
    ensures Framed(ChunksOf(c, ds, newId)) && SendsNoEmptyText(ChunksOf(c, ds, newId))
    ensures var t := Fold(ChunksOf(c, ds, newId));
            && t.finish.Some?
            && (if t.calls != [] then t.finish.value == "tool_calls" else TellsReason(t.finish.value, LastReason(ds)))
    ensures var r := Answer(c, d, newId);
            if r.calls != [] then r.finish == "tool_calls" else TellsReason(r.finish, d.finishReason)
  {
    hide Finish, TellsReason, Fold, Streamed, Opened, Framed, Calls, Texts, CallList, SentBlocks;
    var s := Streamed(c, ds, newId);
    StreamIsOpened(c, ds, newId);
    StreamTracks(c, ds, newId);
    MappedReason(LastReason(ds));
    MappedReason(d.finishReason);
    ClosedFold(c, ds, newId);
    ClosingFrames(s.chunks, FinalChunk(s.finish, s.inTok, s.outTok, 0));
  }
}
