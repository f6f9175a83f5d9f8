// The provider-neutral transcript (llm/base.py) and its two native forms: Gemini contents
// (llm/google_provider.py) and Anthropic messages (llm/anthropic_provider.py).
module Messages {
  import opened Common
  import opened Json

  datatype ToolCall = ToolCall(id: string, name: string, arguments: Json, providerData: Option<Json>)

  datatype Role = User | Assistant | Tool

  datatype Message = Message(role: Role, content: string, toolCalls: seq<ToolCall>, toolCallId: string)

  function Text(role: Role, content: string): Message { Message(role, content, [], "") }

  function CallTurn(call: ToolCall): Message { Message(Assistant, "", [call], "") }

  function ResultTurn(call: ToolCall, content: string): Message { Message(Tool, content, [], call.id) }

  /* ---------- Gemini ---------- */

  datatype GeminiPart =
    | GeminiText(text: string)
    | FunctionCall(id: string, name: string, args: Json, signature: Option<Json>)
    | FunctionResponse(id: string, name: string, output: string)

  datatype NativeRole = NativeUser | NativeModel

  datatype GeminiContent = GeminiContent(role: NativeRole, parts: seq<GeminiPart>)

  function GeminiCalls(calls: seq<ToolCall>): seq<GeminiPart> {
    seq(|calls|, i requires 0 <= i < |calls| =>
      FunctionCall(calls[i].id, calls[i].name, calls[i].arguments, calls[i].providerData))
  }

  function NameOf(names: map<string, string>, id: string): string {
    if id in names then names[id] else ""
  }

  function GeminiForm(m: Message, names: map<string, string>): GeminiContent {
    if m.role == Tool then
      GeminiContent(NativeUser, [FunctionResponse(m.toolCallId, NameOf(names, m.toolCallId), m.content)])
    else if m.role == Assistant && m.toolCalls != [] then
      GeminiContent(NativeModel, (if m.content != "" then [GeminiText(m.content)] else []) + GeminiCalls(m.toolCalls))
    else
      GeminiContent(if m.role == User then NativeUser else NativeModel, [GeminiText(m.content)])
  }

  // The calls of a transcript, in order.
  function CallsOf(messages: seq<Message>): seq<ToolCall> {
    if messages == [] then []
    else
      var last := messages[|messages| - 1];
      CallsOf(messages[..|messages| - 1]) + (if last.role == Assistant then last.toolCalls else [])
  }

  // The id-to-name index: a later call with the same id wins.
  function NameIndex(calls: seq<ToolCall>): map<string, string> {
    if calls == [] then map[]
    else
      var last := calls[|calls| - 1];
      NameIndex(calls[..|calls| - 1])[last.id := last.name]
  }

  function GeminiForms(messages: seq<Message>): seq<GeminiContent> {
    var names := NameIndex(CallsOf(messages));
    seq(|messages|, i requires 0 <= i < |messages| => GeminiForm(messages[i], names))
  }

  lemma {:induction false} NameIndexIsLastCall(calls: seq<ToolCall>, id: string)
    ensures id in NameIndex(calls) <==> exists i :: 0 <= i < |calls| && calls[i].id == id
    ensures id in NameIndex(calls) ==>
            exists i :: 0 <= i < |calls| && calls[i].id == id && calls[i].name == NameIndex(calls)[id]
                        && forall j :: i < j < |calls| ==> calls[j].id != id
  {
    if calls != [] {
      var n := |calls| - 1;
      NameIndexIsLastCall(calls[..n], id);
      if calls[n].id != id && id in NameIndex(calls[..n]) {
        var i :| 0 <= i < n && calls[..n][i].id == id && calls[..n][i].name == NameIndex(calls)[id]
                 && forall j :: i < j < n ==> calls[..n][j].id != id;
        assert calls[i].id == id && calls[i].name == NameIndex(calls)[id];
        assert forall j :: i < j < n ==> calls[j] == calls[..n][j];
      } else if calls[n].id == id {
        assert calls[n].name == NameIndex(calls)[id];
      }
      assert forall i :: 0 <= i < n ==> calls[i] == calls[..n][i];
    }
  }

  method IndexCalls(messages: seq<Message>) returns (names: map<string, string>)
    ensures names == NameIndex(CallsOf(messages))
  {
    names := map[];
    for i := 0 to |messages|
      invariant names == NameIndex(CallsOf(messages[..i]))
    {
      var message := messages[i];
      assert messages[..i + 1][..i] == messages[..i];
      if message.role == Assistant {
        ghost var before := CallsOf(messages[..i]);
        assert before + message.toolCalls[..0] == before;
        for k := 0 to |message.toolCalls|
          invariant names == NameIndex(before + message.toolCalls[..k])
        {
          var call := message.toolCalls[k];
          names := names[call.id := call.name];
          assert (before + message.toolCalls[..k + 1])[..|before| + k] == before + message.toolCalls[..k];
        }
        assert message.toolCalls[..|message.toolCalls|] == message.toolCalls;
        assert CallsOf(messages[..i + 1]) == before + message.toolCalls;
      } else {
        assert CallsOf(messages[..i + 1]) == CallsOf(messages[..i]) + [] == CallsOf(messages[..i]);
      }
    }
    assert messages[..|messages|] == messages;
  }

  method ToGeminiContent(message: Message, names: map<string, string>) returns (content: GeminiContent)
    ensures content == GeminiForm(message, names) && GeminiCarries(message, content)
  {
    GeminiFormCarries(message, names);
    if message.role == Tool {
      return GeminiContent(NativeUser,
                           [FunctionResponse(message.toolCallId, NameOf(names, message.toolCallId), message.content)]);
    }
    if message.role == Assistant && message.toolCalls != [] {
      var parts := [];
      if message.content != "" {
        parts := parts + [GeminiText(message.content)];
      }
      ghost var lead := parts;
      for k := 0 to |message.toolCalls|
        invariant parts == lead + GeminiCalls(message.toolCalls)[..k]
      {
        var call := message.toolCalls[k];
        parts := parts + [FunctionCall(call.id, call.name, call.arguments, call.providerData)];
      }
      return GeminiContent(NativeModel, parts);
    }
    return GeminiContent(if message.role == User then NativeUser else NativeModel, [GeminiText(message.content)]);
  }

  method ToGeminiContents(messages: seq<Message>) returns (contents: seq<GeminiContent>)
    ensures contents == GeminiForms(messages)
    ensures |contents| == |messages| && forall i :: 0 <= i < |messages| ==> GeminiCarries(messages[i], contents[i])
  {
    var names := IndexCalls(messages);
    contents := [];
    for i := 0 to |messages|
      invariant contents == GeminiForms(messages)[..i]
      invariant forall k :: 0 <= k < i ==> GeminiCarries(messages[k], contents[k])
    {
      var content := ToGeminiContent(messages[i], names);
      contents := contents + [content];
    }
  }

  /* ---------- Anthropic ---------- */

  datatype AnthropicBlock =
    | TextBlock(text: string)
    | ToolUse(id: string, name: string, input: Json)
    | ToolResult(toolUseId: string, content: string)

  datatype AnthropicContent = Flat(text: string) | Blocks(blocks: seq<AnthropicBlock>)

  datatype AnthropicMessage = AnthropicMessage(role: Role, content: AnthropicContent)

  function ToolUses(calls: seq<ToolCall>): seq<AnthropicBlock> {
    seq(|calls|, i requires 0 <= i < |calls| => ToolUse(calls[i].id, calls[i].name, calls[i].arguments))
  }

  function AnthropicForm(m: Message): AnthropicMessage {
    if m.role == Tool then
      AnthropicMessage(User, Blocks([ToolResult(m.toolCallId, m.content)]))
    else if m.role == Assistant && m.toolCalls != [] then
      AnthropicMessage(Assistant,
                       Blocks((if m.content != "" then [TextBlock(m.content)] else []) + ToolUses(m.toolCalls)))
    else
      AnthropicMessage(m.role, Flat(m.content))
  }

  function AnthropicForms(messages: seq<Message>): seq<AnthropicMessage> {
    seq(|messages|, i requires 0 <= i < |messages| => AnthropicForm(messages[i]))
  }

  method ToAnthropicMessage(message: Message) returns (native: AnthropicMessage)
    ensures native == AnthropicForm(message) && AnthropicCarries(message, native)
  {
    AnthropicFormCarries(message);
    if message.role == Tool {
      return AnthropicMessage(User, Blocks([ToolResult(message.toolCallId, message.content)]));
    }
    if message.role == Assistant && message.toolCalls != [] {
      var content := [];
      if message.content != "" {
        content := content + [TextBlock(message.content)];
      }
      ghost var lead := content;
      assert lead == if message.content != "" then [TextBlock(message.content)] else [];
      for k := 0 to |message.toolCalls|
        invariant content == lead + ToolUses(message.toolCalls)[..k]
      {
        var call := message.toolCalls[k];
        content := content + [ToolUse(call.id, call.name, call.arguments)];
      }
      assert content == lead + ToolUses(message.toolCalls);
      return AnthropicMessage(Assistant, Blocks(content));
    }
    return AnthropicMessage(message.role, Flat(message.content));
  }

  /* ---------- What the native forms carry ---------- */

  // What a turn says: its text parts joined.
  function GeminiSpoken(parts: seq<GeminiPart>): string {
    if parts == [] then ""
    else (if parts[0].GeminiText? then parts[0].text else "") + GeminiSpoken(parts[1..])
  }

  // The calls a turn makes, in order.
  function GeminiCalled(parts: seq<GeminiPart>): seq<ToolCall> {
    if parts == [] then []
    else
      (if parts[0].FunctionCall?
       then [ToolCall(parts[0].id, parts[0].name, parts[0].args, parts[0].signature)] else [])
      + GeminiCalled(parts[1..])
  }

  function CalledIn(m: Message): seq<ToolCall> { if m.role == Assistant then m.toolCalls else [] }

  // The content says what the message says, makes its calls, and answers the call it answers with its content.
  predicate GeminiCarries(m: Message, c: GeminiContent) {
    if m.role == Tool then
      && c.role == NativeUser && |c.parts| == 1 && c.parts[0].FunctionResponse?
      && c.parts[0].id == m.toolCallId && c.parts[0].output == m.content
    else
      && c.role == (if m.role == User then NativeUser else NativeModel)
      && GeminiSpoken(c.parts) == m.content && GeminiCalled(c.parts) == CalledIn(m)
      && forall k :: 0 <= k < |c.parts| ==> !c.parts[k].FunctionResponse?
  }

  lemma {:induction false} GeminiCallsCarry(calls: seq<ToolCall>)
    ensures GeminiSpoken(GeminiCalls(calls)) == "" && GeminiCalled(GeminiCalls(calls)) == calls
  {
    if calls != [] {
      assert GeminiCalls(calls)[1..] == GeminiCalls(calls[1..]);
      GeminiCallsCarry(calls[1..]);
    }
  }

  lemma GeminiFormCarries(m: Message, names: map<string, string>)
    ensures GeminiCarries(m, GeminiForm(m, names))
  {
    var calls := GeminiCalls(m.toolCalls);
    GeminiCallsCarry(m.toolCalls);
    assert ([GeminiText(m.content)] + calls)[1..] == calls && [] + calls == calls;
  }

  // `name` is that of the last call bearing `id`, or empty when none does.
  ghost predicate NamesTheCall(calls: seq<ToolCall>, id: string, name: string) {
    if exists i :: 0 <= i < |calls| && calls[i].id == id then
      exists i :: 0 <= i < |calls| && calls[i].id == id && calls[i].name == name
                  && forall j :: i < j < |calls| ==> calls[j].id != id
    else name == ""
  }

  lemma GeminiFormsCarry(messages: seq<Message>, i: nat)
    requires i < |messages|
    ensures |GeminiForms(messages)| == |messages| && GeminiCarries(messages[i], GeminiForms(messages)[i])
    ensures messages[i].role == Tool ==>
              NamesTheCall(CallsOf(messages), messages[i].toolCallId, GeminiForms(messages)[i].parts[0].name)
  {
    GeminiFormCarries(messages[i], NameIndex(CallsOf(messages)));
    NameIndexIsLastCall(CallsOf(messages), messages[i].toolCallId);
  }

  function AnthropicSpoken(content: AnthropicContent): string
    decreases if content.Flat? then 0 else |content.blocks|
  {
    if content.Flat? then content.text
    else if content.blocks == [] then ""
    else
      (if content.blocks[0].TextBlock? then content.blocks[0].text else "")
      + AnthropicSpoken(Blocks(content.blocks[1..]))
  }

  function AnthropicCalled(content: AnthropicContent): seq<ToolCall>
    decreases if content.Flat? then 0 else |content.blocks|
  {
    if content.Flat? || content.blocks == [] then []
    else
      (if content.blocks[0].ToolUse?
       then [ToolCall(content.blocks[0].id, content.blocks[0].name, content.blocks[0].input, None)] else [])
      + AnthropicCalled(Blocks(content.blocks[1..]))
  }

  // What the provider attached to a call is Gemini's alone.
  function Plain(calls: seq<ToolCall>): seq<ToolCall> {
    seq(|calls|, i requires 0 <= i < |calls| => calls[i].(providerData := None))
  }

  predicate AnthropicCarries(m: Message, c: AnthropicMessage) {
    if m.role == Tool then c.role == User && c.content == Blocks([ToolResult(m.toolCallId, m.content)])
    else
      && c.role == m.role
      && AnthropicSpoken(c.content) == m.content && AnthropicCalled(c.content) == Plain(CalledIn(m))
      && (c.content.Blocks? ==> forall k :: 0 <= k < |c.content.blocks| ==> !c.content.blocks[k].ToolResult?)
  }

  lemma {:induction false} ToolUsesCarry(calls: seq<ToolCall>)
    ensures AnthropicSpoken(Blocks(ToolUses(calls))) == "" && AnthropicCalled(Blocks(ToolUses(calls))) == Plain(calls)
  {
    if calls != [] {
      assert ToolUses(calls)[1..] == ToolUses(calls[1..]);
      ToolUsesCarry(calls[1..]);
    }
  }

  lemma AnthropicFormCarries(m: Message)
    ensures AnthropicCarries(m, AnthropicForm(m))
  {
    var uses := ToolUses(m.toolCalls);
    ToolUsesCarry(m.toolCalls);
    assert ([TextBlock(m.content)] + uses)[1..] == uses && [] + uses == uses;
  }

  lemma AnthropicFormsCarry(messages: seq<Message>, i: nat)
    requires i < |messages|
    ensures |AnthropicForms(messages)| == |messages| && AnthropicCarries(messages[i], AnthropicForms(messages)[i])
  {
    AnthropicFormCarries(messages[i]);
  }

  /* ---------- What the providers accept ---------- */

  predicate SaysText(c: GeminiContent, role: NativeRole) {
    c.role == role && forall i :: 0 <= i < |c.parts| ==> c.parts[i].GeminiText?
  }

  predicate IsAnswered(response: GeminiPart, parts: seq<GeminiPart>)
    requires response.FunctionResponse?
  {
    exists q :: 0 <= q < |parts| && parts[q].FunctionCall? && parts[q].id == response.id
      && parts[q].name == response.name
  }

  // A turn alternates with the one before it; a function call directly follows a real user turn;
  // a response directly follows the call with its id and carries that call's name.
  predicate GeminiTurnFits(cs: seq<GeminiContent>, i: nat)
    requires i < |cs|
  {
    && (i == 0 ==> cs[i].role == NativeUser)
    && (i > 0 ==> cs[i - 1].role != cs[i].role)
    && forall k :: 0 <= k < |cs[i].parts| ==>
         match cs[i].parts[k]
         case GeminiText(_) => true
         case FunctionCall(_, _, _, _) => i > 0 && SaysText(cs[i - 1], NativeUser)
         case FunctionResponse(_, _, _) => i > 0 && IsAnswered(cs[i].parts[k], cs[i - 1].parts)
  }

  predicate GeminiAccepts(cs: seq<GeminiContent>) {
    cs != [] && cs[|cs| - 1].role == NativeUser && forall i :: 0 <= i < |cs| ==> GeminiTurnFits(cs, i)
  }

  predicate AnthropicTurnFits(ms: seq<AnthropicMessage>, i: nat)
    requires i < |ms|
  {
    && ms[i].role != Tool
    && (i == 0 ==> ms[i].role == User)
    && (i > 0 ==> ms[i - 1].role != ms[i].role)
    && (ms[i].content.Blocks? ==> forall k :: 0 <= k < |ms[i].content.blocks| ==>
          match ms[i].content.blocks[k]
          case TextBlock(_) => true
          case ToolUse(_, _, _) => i > 0 && ms[i - 1].role == User && ms[i - 1].content.Flat?
          case ToolResult(id, _) => i > 0 && ms[i - 1].content.Blocks? && HasUse(ms[i - 1].content.blocks, id))
  }

  predicate AnthropicAccepts(ms: seq<AnthropicMessage>) {
    ms != [] && ms[|ms| - 1].role == User && forall i :: 0 <= i < |ms| ==> AnthropicTurnFits(ms, i)
  }

  predicate HasUse(blocks: seq<AnthropicBlock>, id: string) {
    exists q :: 0 <= q < |blocks| && blocks[q].ToolUse? && blocks[q].id == id
  }

  /* ---------- Transcripts in the shape the runtime builds ---------- */

  // Plain turns that alternate, starting with the user.
  predicate Alternates(ms: seq<Message>) {
    forall i :: 0 <= i < |ms| ==>
      ms[i].toolCalls == [] && ms[i].toolCallId == "" && ms[i].role == if i % 2 == 0 then User else Assistant
  }

  // A stored history: whole exchanges only.
  predicate Exchanges(history: seq<Message>) {
    |history| % 2 == 0 && Alternates(history)
  }

  // What the runtime sends: a history and this turn's user message, then possibly one call
  // and its result.
  predicate Sendable(ms: seq<Message>) {
    || (|ms| % 2 == 1 && Alternates(ms))
    || (|ms| % 2 == 1 && |ms| >= 3 && Alternates(ms[..|ms| - 2])
        && |ms[|ms| - 2].toolCalls| == 1
        && ms[|ms| - 2] == CallTurn(ms[|ms| - 2].toolCalls[0])
        && ms[|ms| - 1] == ResultTurn(ms[|ms| - 2].toolCalls[0], ms[|ms| - 1].content))
  }

  lemma {:induction false} PlainTurnsHaveNoCalls(ms: seq<Message>)
    requires Alternates(ms)
    ensures CallsOf(ms) == []
  {
    if ms != [] { PlainTurnsHaveNoCalls(ms[..|ms| - 1]); }
  }

  lemma ResponseNameIsCallName(ms: seq<Message>, call: ToolCall)
    requires |ms| >= 3 && Alternates(ms[..|ms| - 2])
    requires ms[|ms| - 2] == CallTurn(call) && ms[|ms| - 1].role == Tool
    ensures NameOf(NameIndex(CallsOf(ms)), call.id) == call.name
  {
    PlainTurnsHaveNoCalls(ms[..|ms| - 2]);
    assert ms[..|ms| - 1][..|ms| - 2] == ms[..|ms| - 2];
    assert CallsOf(ms[..|ms| - 1]) == [call];
    assert CallsOf(ms) == [call];
    assert [call][..0] == [];
  }

  // The turns before the call and its result are plain.
  function PlainPart(ms: seq<Message>): nat {
    if Alternates(ms) || |ms| < 2 then |ms| else |ms| - 2
  }

  lemma PlainTurn(ms: seq<Message>, i: nat)
    requires Sendable(ms) && i < PlainPart(ms)
    ensures ms[i].toolCalls == [] && ms[i].role == if i % 2 == 0 then User else Assistant
  {
    assert ms[..PlainPart(ms)][i] == ms[i];
  }

  lemma GeminiPlainTurnFits(ms: seq<Message>, i: nat)
    requires Sendable(ms) && i < PlainPart(ms)
    ensures GeminiTurnFits(GeminiForms(ms), i)
  {
    PlainTurn(ms, i);
    if i > 0 { PlainTurn(ms, i - 1); }
  }

  lemma GeminiEndsWithUser(ms: seq<Message>)
    requires Sendable(ms)
    ensures GeminiForms(ms) != [] && GeminiForms(ms)[|ms| - 1].role == NativeUser
  {
    if Alternates(ms) { PlainTurn(ms, |ms| - 1); }
  }

  lemma GeminiTakesSendable(ms: seq<Message>)
    requires Sendable(ms)
    ensures GeminiAccepts(GeminiForms(ms))
  {
    hide GeminiTurnFits, GeminiForm, Alternates;
    forall i | 0 <= i < |ms|
      ensures GeminiTurnFits(GeminiForms(ms), i)
    {
      if i < PlainPart(ms) {
        GeminiPlainTurnFits(ms, i);
      } else {
        GeminiCallAndResult(ms);
      }
    }
    GeminiEndsWithUser(ms);
  }

  lemma GeminiCallAndResult(ms: seq<Message>)
    requires Sendable(ms) && !Alternates(ms)
    ensures GeminiTurnFits(GeminiForms(ms), |ms| - 2) && GeminiTurnFits(GeminiForms(ms), |ms| - 1)
  {
    var cs, n, call := GeminiForms(ms), |ms|, ms[|ms| - 2].toolCalls[0];
    PlainTurn(ms, n - 3);
    ResponseNameIsCallName(ms, call);
    assert cs[n - 2].parts == [FunctionCall(call.id, call.name, call.arguments, call.providerData)];
    assert cs[n - 2].parts[0].FunctionCall?;
  }

  lemma AnthropicTakesSendable(ms: seq<Message>)
    requires Sendable(ms)
    ensures AnthropicAccepts(AnthropicForms(ms))
  {
    var ns, n := AnthropicForms(ms), |ms|;
    forall i | 0 <= i < n
      ensures AnthropicTurnFits(ns, i)
    {
      if i < PlainPart(ms) {
        PlainTurn(ms, i);
        if i > 0 { PlainTurn(ms, i - 1); }
      } else {
        AnthropicCallAndResult(ms);
      }
    }
    if Alternates(ms) { PlainTurn(ms, n - 1); }
  }

  lemma AnthropicCallAndResult(ms: seq<Message>)
    requires Sendable(ms) && !Alternates(ms)
    ensures AnthropicTurnFits(AnthropicForms(ms), |ms| - 2) && AnthropicTurnFits(AnthropicForms(ms), |ms| - 1)
  {
    var ns, n, call := AnthropicForms(ms), |ms|, ms[|ms| - 2].toolCalls[0];
    PlainTurn(ms, n - 3);
    assert ns[n - 2].content.blocks == [ToolUse(call.id, call.name, call.arguments)];
    assert ns[n - 2].content.blocks[0].ToolUse?;
  }

  /* ---------- Nothing is lost ---------- */

  // As the runtime builds messages: only a result names the call it answers, only an assistant turn makes calls.
  predicate Built(m: Message) {
    && (m.role != Assistant ==> m.toolCalls == [])
    && (m.role != Tool ==> m.toolCallId == "")
  }

  ghost predicate AllBuilt(ms: seq<Message>) {
    forall i :: 0 <= i < |ms| ==> Built(ms[i])
  }

  lemma GeminiTurnTellsTheMessage(a: Message, b: Message, c: GeminiContent)
    requires Built(a) && Built(b) && GeminiCarries(a, c) && GeminiCarries(b, c)
    ensures a == b
  {
  }

  // Two transcripts with the same Gemini contents are the same transcript.
  lemma GeminiLosesNothing(a: seq<Message>, b: seq<Message>)
    requires AllBuilt(a) && AllBuilt(b) && GeminiForms(a) == GeminiForms(b)
    ensures a == b
  {
    assert |GeminiForms(a)| == |a| && |GeminiForms(b)| == |b|;
    forall i | 0 <= i < |a| ensures a[i] == b[i] {
      GeminiFormsCarry(a, i);
      GeminiFormsCarry(b, i);
      GeminiTurnTellsTheMessage(a[i], b[i], GeminiForms(a)[i]);
    }
  }

  // A message without what Gemini attached to its calls.
  function PlainMessage(m: Message): Message { m.(toolCalls := Plain(m.toolCalls)) }

  lemma AnthropicTurnTellsTheMessage(a: Message, b: Message, c: AnthropicMessage)
    requires Built(a) && Built(b) && AnthropicCarries(a, c) && AnthropicCarries(b, c)
    ensures PlainMessage(a) == PlainMessage(b)
  {
    assert a.role == Tool ==> c.content.Blocks? && c.content.blocks[0].ToolResult?;
    assert b.role == Tool ==> c.content.Blocks? && c.content.blocks[0].ToolResult?;
  }

  // ... and two with the same Anthropic messages differ at most in what Gemini attached to their calls.
  lemma AnthropicLosesNothing(a: seq<Message>, b: seq<Message>)
    requires AllBuilt(a) && AllBuilt(b) && AnthropicForms(a) == AnthropicForms(b)
    ensures |a| == |b| && forall i :: 0 <= i < |a| ==> PlainMessage(a[i]) == PlainMessage(b[i])
  {
    assert |AnthropicForms(a)| == |a| && |AnthropicForms(b)| == |b|;
    forall i | 0 <= i < |a| ensures PlainMessage(a[i]) == PlainMessage(b[i]) {
      AnthropicFormsCarry(a, i);
      AnthropicFormsCarry(b, i);
      AnthropicTurnTellsTheMessage(a[i], b[i], AnthropicForms(a)[i]);
    }
  }

  // Every transcript the runtime sends is built so.
  lemma SendableIsBuilt(ms: seq<Message>)
    requires Sendable(ms)
    ensures AllBuilt(ms)
  {
    forall i | 0 <= i < |ms| ensures Built(ms[i]) {
      assert i < PlainPart(ms) ==> ms[..PlainPart(ms)][i] == ms[i];
    }
  }
}
