/** What the three adapters make of the same message. */
module Adapters {
  import opened Common
  import opened OpenAI
  import opened Conversation
  import Anthropic
  import Bedrock
  import Gemini

  lemma {:induction false} TextPartsKept(ps: seq<Part>)
    ensures Texts(Bedrock.TextParts(ps)) == PartTexts(ps)
  {
    if ps != [] {
      var n := |ps| - 1;
      TextPartsKept(ps[..n]);
      var before := Bedrock.TextParts(ps[..n]);
      if ps[n].TextPart? {
        assert (before + [TextBlock(ps[n].text)])[..|before|] == before;
      } else {
        assert before + [] == before && PartTexts(ps[..n]) + "" == PartTexts(ps[..n]);
      }
    }
  }

  /** Bedrock gets at least one block, and in its blocks all of the text. */
  lemma ContentKept(content: Content)
    ensures Bedrock.ContentBlocks(content) != [] && Texts(Bedrock.ContentBlocks(content)) == PlainText(content)
  {
    hide Bedrock.TextParts, PartTexts;
    if content.Parts? {
      TextPartsKept(content.parts);
    }
    if content.Text? {
      OneText(content.text);
    }
    OneText("");
    NoTexts();
  }

  lemma OneText(t: string)
    ensures Texts([TextBlock(t)]) == t
  {
    assert [TextBlock(t)][..0] == [];
    assert "" + t == t;
  }

  lemma NoTexts()
    ensures Texts([]) == ""
  {
  }

  /** A plain user or assistant message says the same to all three providers, in the same role. */
  lemma PlainMessagesAgree(c: Codec, m: Message, newId: nat -> string, name: string)
    requires m.role in ["user", "assistant"] && (m.role == "assistant" ==> m.toolCalls == [])
    ensures var a, b := Anthropic.TranslateMessage(c, m, newId), Bedrock.ToConverse(c, m, newId);
            var g := Gemini.ToGemini(c, m, name);
            && a == Some(BlockMessage(m.role, Plain(PlainText(m.content))))
            && b.Some? && b.value.role == m.role && b.value.content.Blocks?
            && Texts(b.value.content.blocks) == PlainText(m.content)
            && g.Some? && g.value.GeminiMessage? && (g.value.role == "model" <==> m.role == "assistant")
            && Texts(Gemini.AsBlocks(g.value.parts)) == PlainText(m.content)
  {
    hide Texts, PlainText, Bedrock.ContentBlocks;
    ContentKept(m.content);
    OneText(PlainText(m.content));
    var part := Gemini.GeminiPart(Some(PlainText(m.content)), None);
    assert Gemini.AsBlocks([part]) == [TextBlock(PlainText(m.content))];
  }

  /** A system message is dropped from the conversation by all three, except that Gemini's keeps it,
      as the user's, exactly when its content is no string. */
  lemma SystemMessages(c: Codec, m: Message, newId: nat -> string, name: string)
    ensures Anthropic.TranslateMessage(c, m, newId).None? <==> m.role == "system"
    ensures Bedrock.ToConverse(c, m, newId).None? <==> m.role == "system"
    ensures Gemini.ToGemini(c, m, name).None? <==> m.role == "system" && m.content.Text?
    ensures m.role == "system" && !m.content.Text? ==>
      Gemini.ToGemini(c, m, name).value.GeminiMessage? && Gemini.ToGemini(c, m, name).value.role == "user"
  {
  }

  // ---------------------------------------------------------------- tool results

  /** The text a provider gets stands for this content: the string itself, or JSON that parses to it. */
  ghost predicate StandsFor(c: Codec, text: string, content: Content) {
    match content
    case Text(t) => text == t
    case NoContent => c.loads(text) == Some(JNull)
    case Parts(ps) =>
      && (forall i :: 0 <= i < |ps| ==> Held(PartJson(ps[i]))) ==>
           c.loads(text).Some? && c.loads(text).value.JArr? && IsParts(c.loads(text).value.items, ps)
  }

  /** A text part is an object with its type and text; any other part is as it came. */
  predicate IsParts(items: seq<Json>, ps: seq<Part>) {
    && |items| == |ps|
    && forall i :: 0 <= i < |ps| ==>
         (match ps[i]
          case TextPart(t) => items[i] == JObj([("type", JStr("text")), ("text", JStr(t))])
          case OtherPart(raw) => items[i] == raw)
  }

  lemma PartsDumpAndParse(c: Codec, ps: seq<Part>)
    requires Sound(c) && forall i :: 0 <= i < |ps| ==> Held(PartJson(ps[i]))
    ensures c.loads(ResultText(c, Parts(ps))) == Some(ContentJson(Parts(ps)))
  {
    assert Held(ContentJson(Parts(ps)));
  }

  lemma ResultTextStands(c: Codec, content: Content)
    requires Sound(c)
    ensures StandsFor(c, ResultText(c, content), content)
  {
    match content
    case Text(_) =>
    case NoContent => assert Held(JNull);
    case Parts(ps) =>
      if forall i :: 0 <= i < |ps| ==> Held(PartJson(ps[i])) {
        PartsDumpAndParse(c, ps);
      }
  }

  /** A tool result arrives at Anthropic and Bedrock as the user's single block, under its call's id and
      with its content; at Gemini with its content, under the message's name, else the id, else "tool". */
  lemma {:induction false} ToolResultArrives(c: Codec, m: Message, newId: nat -> string, name: string)
    requires Sound(c) && m.role == "tool"
    ensures var a, b := Anthropic.TranslateMessage(c, m, newId), Bedrock.ToConverse(c, m, newId);
            && a.Some? && b == a && a.value.role == "user" && a.value.content.Blocks? && |a.value.content.blocks| == 1
            && var r := a.value.content.blocks[0];
               r.ToolResult? && r.toolUseId == m.toolCallId && StandsFor(c, r.content, m.content)
    ensures var g := Gemini.ToGemini(c, m, name);
            && g.Some? && g.value.FunctionResponse?
            && g.value.name == (if name != "" then name else if m.toolCallId != "" then m.toolCallId else "tool")
            && (m.content.Text? ==> g.value.result == JStr(m.content.text))
            && (m.content.NoContent? ==> g.value.result == JNull)
            && (m.content.Parts? ==> g.value.result.JArr? && IsParts(g.value.result.items, m.content.parts))
  {
    hide StandsFor, ResultText;
    ResultTextStands(c, m.content);
  }

  // ---------------------------------------------------------------- answers

  /** An answer's text is the blocks' text, and null in place of none: from Anthropic whenever there is
      none, from Bedrock and Gemini only beside calls. */
  lemma {:induction false} NullContent(c: Codec, a: Anthropic.Response, b: Bedrock.Response, d: Gemini.Data,
                                       newId: nat -> string)
    ensures var ra, rb := Anthropic.TranslateResponse(c, a, newId), Bedrock.Answer(c, b);
            var rg := Gemini.Answer(c, d, newId);
            && OrEmpty(ra.content) == Texts(a.blocks) && (ra.content.None? <==> Texts(a.blocks) == "")
            && OrEmpty(rb.content) == Texts(b.blocks) && (rb.content.None? <==> Texts(b.blocks) == "" && rb.calls != [])
            && OrEmpty(rg.content) == Texts(Gemini.AsBlocks(d.parts))
            && (rg.content.None? <==> Texts(Gemini.AsBlocks(d.parts)) == "" && rg.calls != [])
  {
    hide Texts, Calls;
  }
}
