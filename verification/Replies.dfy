// What a turn says and does in the words themselves: the answers to a Confirmation Request, the texts the
// Customer is sent, the transcript the LLM phrases a Tool result from (conversation.py).
module Replies {
  import opened Common
  import opened Messages
  import opened Sessions
  import opened ToolRail
  import opened Conversation
  import opened ConversationRuns

  /* ---------- Yes, no, neither ---------- */

  predicate Blank(s: string) {
    forall i :: 0 <= i < |s| ==>
      || s[i] == ' ' || s[i] == '\t' || s[i] == '\n' || s[i] == '\U{000B}' || s[i] == '\U{000C}' || s[i] == '\r'
      || '\U{001C}' <= s[i] <= '\U{001F}'
  }

  // `w` is `word` in some casing.
  predicate Spells(w: string, word: string) {
    |w| == |word| && forall i :: 0 <= i < |w| ==>
      w[i] == word[i] || ('a' <= word[i] <= 'z' && w[i] as int == word[i] as int - 32)
  }

  // Blanks, the word, blanks.
  ghost predicate Says(text: string, word: string) {
    exists before, w, after ::
      text == before + w + after && Blank(before) && Spells(w, word) && Blank(after)
  }

  ghost predicate AnswersYes(text: string) {
    exists word :: word in {"yes", "y", "yeah", "yep", "confirm", "ok", "okay"} && Says(text, word)
  }

  ghost predicate AnswersNo(text: string) {
    exists word :: word in {"no", "n", "nope", "cancel"} && Says(text, word)
  }

  lemma {:induction false} TrimLeftDrops(before: string, rest: string)
    requires Blank(before) && (rest != "" ==> !IsSpace(rest[0]))
    ensures TrimLeft(before + rest) == rest
  {
    if before != "" {
      assert (before + rest)[1..] == before[1..] + rest;
      TrimLeftDrops(before[1..], rest);
    } else {
      assert before + rest == rest;
    }
  }

  lemma {:induction false} TrimRightDrops(rest: string, after: string)
    requires Blank(after) && (rest != "" ==> !IsSpace(rest[|rest| - 1]))
    ensures TrimRight(rest + after) == rest
  {
    if after != "" {
      var n, text := |after| - 1, rest + after;
      assert text[|text| - 1] == after[n] && text[..|text| - 1] == rest + after[..n];
      TrimRightDrops(rest, after[..n]);
    } else {
      assert rest + after == rest;
    }
  }

  lemma {:induction false} TrimLeftSplits(s: string) returns (before: string)
    ensures s == before + TrimLeft(s) && Blank(before)
  {
    before := "";
    if s != "" && IsSpace(s[0]) {
      var b := TrimLeftSplits(s[1..]);
      before := [s[0]] + b;
    }
  }

  lemma {:induction false} TrimRightSplits(s: string) returns (after: string)
    ensures s == TrimRight(s) + after && Blank(after)
  {
    after := "";
    if s != "" && IsSpace(s[|s| - 1]) {
      var b := TrimRightSplits(s[..|s| - 1]);
      after := b + [s[|s| - 1]];
    }
  }

  predicate LowerCase(word: string) {
    word != "" && forall i :: 0 <= i < |word| ==> 'a' <= word[i] <= 'z'
  }

  lemma LowerExactly(w: string, word: string)
    requires LowerCase(word)
    ensures Lower(w) == word <==> Spells(w, word)
    ensures Spells(w, word) ==> w != "" && !IsSpace(w[0]) && !IsSpace(w[|w| - 1])
  {
    assert forall i :: 0 <= i < |w| ==> Lower(w)[i] == LowerChar(w[i]);
  }

  // Trimming is undone by blanks around the word.
  lemma TrimDrops(before: string, w: string, after: string)
    requires Blank(before) && Blank(after) && w != "" && !IsSpace(w[0]) && !IsSpace(w[|w| - 1])
    ensures TrimRight(TrimLeft(before + w + after)) == w
  {
    hide Blank, IsSpace;
    var rest := w + after;
    assert before + w + after == before + rest;
    TrimLeftDrops(before, rest);
    TrimRightDrops(w, after);
  }

  lemma TrimSplits(text: string) returns (before: string, after: string)
    ensures text == before + TrimRight(TrimLeft(text)) + after && Blank(before) && Blank(after)
  {
    hide Blank;
    before := TrimLeftSplits(text);
    after := TrimRightSplits(TrimLeft(text));
  }

  lemma SaysExactly(text: string, word: string)
    requires LowerCase(word)
    ensures Says(text, word) <==> Lower(TrimRight(TrimLeft(text))) == word
  {
    hide Blank, IsSpace, Spells, Lower, TrimLeft, TrimRight, LowerCase;
    if Says(text, word) {
      var before, w, after :|
        text == before + w + after && Blank(before) && Spells(w, word) && Blank(after);
      LowerExactly(w, word);
      TrimDrops(before, w, after);
    }
    var before, after := TrimSplits(text);
    LowerExactly(TrimRight(TrimLeft(text)), word);
  }

  // A reply is read as yes exactly when it is one of seven words, as no exactly when it is one of four: in any
  // casing, between any blanks, and nothing else around it.
  lemma ReplyExactly(text: string)
    ensures ParseReply(text) == Yes <==> AnswersYes(text)
    ensures ParseReply(text) == No <==> AnswersNo(text)
    ensures !(AnswersYes(text) && AnswersNo(text))
  {
    hide Says, LowerCase;
    WordsAreLowerCase();
    var normalized := Lower(TrimRight(TrimLeft(text)));
    forall word | LowerCase(word) ensures Says(text, word) <==> normalized == word {
      SaysExactly(text, word);
    }
    if normalized in YES_REPLIES || normalized in NO_REPLIES {
      assert Says(text, normalized);
    }
  }

  lemma WordsAreLowerCase()
    ensures forall word | word in {"yes", "y", "yeah", "yep", "confirm", "ok", "okay"} :: LowerCase(word)
    ensures forall word | word in {"no", "n", "nope", "cancel"} :: LowerCase(word)
  {
  }

  /* ---------- What a turn says and sends ---------- */

  // The reply to the Customer is `draft` as the Output Rail leaves it.
  predicate Leaves(cfg: Config, m: Inbound, draft: string, reply: Option<string>) {
    if !cfg.outputEnabled then reply == Some(draft)
    else match m.answers.output(draft)
         case None => reply == None
         case Some(verdict) => reply == Some(if verdict.allowed then draft else verdict.text)
  }

  // The messages that end in this turn's user message.
  function Question(history: seq<Message>, text: string): seq<Message> {
    history + [Message(User, text, [], "")]
  }

  // ... and go on with the call that ran and the Tool's own answer to it.
  function Answered(history: seq<Message>, text: string, call: ToolCall, result: string): seq<Message> {
    history + [Message(User, text, [], ""), Message(Assistant, "", [call], ""), Message(Tool, result, [], call.id)]
  }

  // The turn runs `call`, has the LLM phrase what the Tool returned, and says what the LLM made of it.
  predicate RunsAndPhrases(cfg: Config, s: Session, m: Inbound, call: ToolCall, earlier: seq<Event>, step: Step) {
    match m.answers.tool
    case None => step.events == earlier + [Executed(call)] && step.reply == None
    case Some(result) =>
      && step.events == earlier + [Executed(call), Asked(Answered(s.history, m.text, call, result))]
      && match m.answers.continuation
         case None => step.reply == None
         case Some(phrased) => Leaves(cfg, m, phrased.text, step.reply)
  }

  lemma RequestAfterAnswer(cfg: Config, s: Session, m: Inbound, call: ToolCall)
    requires Passes(cfg, m) && s.pending == Some(call)
    ensures SessionAfter(cfg, s, m).pending
            == if AnswersNo(m.text) || (AnswersYes(m.text) && Returns(m)) then None else Some(call)
  {
    ReplyExactly(m.text);
    TurnApplied(cfg, s, m);
    hide AnswersYes, AnswersNo, ParseReply, SessionAfter;
  }

  lemma YesSays(cfg: Config, s: Session, m: Inbound, call: ToolCall)
    requires Passes(cfg, m) && s.pending == Some(call) && ParseReply(m.text) == Yes
    ensures RunsAndPhrases(cfg, s, m, call, [], StepOn(cfg, s, m))
  {
    hide ParseReply;
    if m.answers.tool.Some? {
      assert Continuation(WithUser(s.history, m.text), call, m.answers.tool.value)
             == Answered(s.history, m.text, call, m.answers.tool.value);
    }
  }

  lemma NoYesSays(cfg: Config, s: Session, m: Inbound, call: ToolCall)
    requires Passes(cfg, m) && s.pending == Some(call) && ParseReply(m.text) != Yes
    ensures StepOn(cfg, s, m).events == []
    ensures Leaves(cfg, m, if ParseReply(m.text) == No then "No problem — cancelled, nothing was done."
                           else "Sorry, I didn't catch that — please reply yes or no.", StepOn(cfg, s, m).reply)
  {
    hide ParseReply;
  }

  // While a call waits for its Confirmation.
  lemma AnswerToARequest(cfg: Config, s: Session, m: Inbound, call: ToolCall)
    requires Passes(cfg, m) && s.pending == Some(call)
    ensures var step, pending := StepOn(cfg, s, m), SessionAfter(cfg, s, m).pending;
            if AnswersYes(m.text) then
              RunsAndPhrases(cfg, s, m, call, [], step)
              && pending == if m.answers.tool.Some? && m.answers.continuation.Some? then None else Some(call)
            else if AnswersNo(m.text) then
              step.events == [] && pending
                == None && Leaves(cfg, m, "No problem — cancelled, nothing was done.", step.reply)
            else
              step.events == [] && pending == Some(call)
              && Leaves(cfg, m, "Sorry, I didn't catch that — please reply yes or no.", step.reply)
  {
    ReplyExactly(m.text);
    RequestAfterAnswer(cfg, s, m, call);
    hide AnswersYes, AnswersNo, ParseReply, SessionAfter, StepOn, RunsAndPhrases, Leaves;
    if AnswersYes(m.text) {
      YesSays(cfg, s, m, call);
    } else {
      NoYesSays(cfg, s, m, call);
    }
  }

  // A message the Input Rail stops is answered with the rail's own text, or not at all when the rail raises; so is one
  // whose session key names no customer.
  lemma BlockedTurnSays(cfg: Config, s: Session, m: Inbound)
    requires !Passes(cfg, m)
    ensures var verdict := m.answers.input;
            StepOn(cfg, s, m).reply == if ':' in m.key && verdict.Some? then Some(verdict.value.text) else None
  {
  }

  // The first configured Tool of the name.
  predicate IsConfigured(tools: seq<ToolConfig>, name: string, k: nat) {
    k < |tools| && tools[k].name == name && forall j :: 0 <= j < k ==> tools[j].name != name
  }

  lemma {:induction false} DescriptionOfConfigured(tools: seq<ToolConfig>, name: string, k: nat)
    requires IsConfigured(tools, name, k)
    ensures Description(name, tools) == tools[k].description
  {
    if k > 0 { DescriptionOfConfigured(tools[1..], name, k - 1); }
  }

  // While nothing waits. The LLM's own text is the draft unless it asks for a Tool and Tools are configured; then the
  // first call alone decides.
  lemma FreshTurnSays(cfg: Config, s: Session, m: Inbound)
    requires Passes(cfg, m) && s.pending == None
    ensures var step, asked := StepOn(cfg, s, m), [Asked(Question(s.history, m.text))];
            match m.answers.first
            case None => step.reply == None && step.events == asked
            case Some(answer) =>
              if cfg.tools == [] || answer.toolCalls == [] then
                step.events == asked && Leaves(cfg, m, answer.text, step.reply)
              else
                var call := answer.toolCalls[0];
                match Decide(call.name, cfg.tools)
                case Allow => RunsAndPhrases(cfg, s, m, call, asked, step)
                case Deny => step.events == asked && Leaves(cfg, m, "Sorry, I can't do that.", step.reply)
                case RequireConfirmation =>
                  step.events == asked
                  && forall k: nat :: IsConfigured(cfg.tools, call.name, k) ==>
                    Leaves(cfg, m, "You're about to " + Lower(cfg.tools[k].description) + " with: " + m.rendered
                                   + ". Reply yes to confirm or no to cancel.", step.reply)
  {
    if m.answers.first.Some? && m.answers.first.value.toolCalls != [] {
      var call := m.answers.first.value.toolCalls[0];
      forall k: nat | IsConfigured(cfg.tools, call.name, k) ensures Description(call.name, cfg.tools)
        == cfg.tools[k].description {
        DescriptionOfConfigured(cfg.tools, call.name, k);
      }
      if m.answers.tool.Some? {
        assert Continuation(WithUser(s.history, m.text), call, m.answers.tool.value)
               == Answered(s.history, m.text, call, m.answers.tool.value);
      }
    }
  }

  /* ---------- Over runs ---------- */

  // Whatever the clocks do: a "no" that passes the Input Rail while a call waits runs nothing, sends nothing and
  // leaves nothing waiting.
  lemma NoCancels(w: World, run: seq<Inbound>, n: nat)
    requires n < |run| && Passes(w.cfg, run[n]) && AnswersNo(run[n].text)
    requires SessionAt(w, run, n, run[n].key).pending.Some?
    ensures StepAt(w, run, n).events == [] && SessionAt(w, run, n + 1, run[n].key).pending == None
    ensures Leaves(w.cfg, run[n], "No problem — cancelled, nothing was done.", StepAt(w, run, n).reply)
  {
    var s := SessionAt(w, run, n, run[n].key);
    ReplyExactly(run[n].text);
    AnswerToARequest(w.cfg, s, run[n], s.pending.value);
    NextPendingOrGone(w, run, n);
  }

  // ... each of the seven yes words runs the waiting call and no other ...
  lemma YesRuns(w: World, run: seq<Inbound>, n: nat, call: ToolCall)
    requires n < |run| && Passes(w.cfg, run[n]) && AnswersYes(run[n].text)
    requires SessionAt(w, run, n, run[n].key).pending == Some(call)
    ensures forall other :: Executes(w, run, n, other) <==> other == call
    ensures Returns(run[n]) ==> SessionAt(w, run, n + 1, run[n].key).pending == None
  {
    ReplyExactly(run[n].text);
    AnswerToARequest(w.cfg, SessionAt(w, run, n, run[n].key), run[n], call);
    NextPendingOrGone(w, run, n);
    forall other ensures Executes(w, run, n, other) <==> other == call {
      TurnExecutes(w.cfg, SessionAt(w, run, n, run[n].key), run[n], other);
    }
  }

  // ... and any other text runs nothing, asks again, and with prompt sweeps leaves the request as it was.
  lemma AnythingElseAsksAgain(w: World, run: seq<Inbound>, n: nat, call: ToolCall)
    requires n < |run| && Passes(w.cfg, run[n]) && !AnswersYes(run[n].text) && !AnswersNo(run[n].text)
    requires SessionAt(w, run, n, run[n].key).pending == Some(call)
    ensures StepAt(w, run, n).events == []
    ensures Leaves(w.cfg, run[n], "Sorry, I didn't catch that — please reply yes or no.", StepAt(w, run, n).reply)
    ensures Prompt(w.ttl, w.clock) ==> SessionAt(w, run, n + 1, run[n].key).pending == Some(call)
  {
    AnswerToARequest(w.cfg, SessionAt(w, run, n, run[n].key), run[n], call);
    if Prompt(w.ttl, w.clock) { NextSession(w, run, n, run[n].key); }
  }

  // Message `j` of the session asked for `call`, and since then none answered no, or yes with both external
  // calls returning.
  ghost predicate Waiting(w: World, run: seq<Inbound>, j: nat, i: nat, key: string, call: ToolCall)
    requires j < i <= |run|
  {
    && Intercepts(w, run, j, key, call)
    && forall k :: j < k < i ==>
         && !Forgets(w, run, k, key)
         && (run[k].key == key && Passes(w.cfg, run[k]) ==>
               !AnswersNo(run[k].text) && !(AnswersYes(run[k].text) && Returns(run[k])))
  }

  // In the words themselves: a Tool that needs a Confirmation runs exactly on one of the seven words while its
  // request waits.
  lemma ConfirmedExecutionInWords(w: World, run: seq<Inbound>, i: nat, call: ToolCall)
    requires Prompt(w.ttl, w.clock) && i < |run|
    requires Decide(call.name, w.cfg.tools) == RequireConfirmation
    ensures Executes(w, run, i, call) <==>
            && Passes(w.cfg, run[i]) && AnswersYes(run[i].text)
            && exists j :: 0 <= j < i && Waiting(w, run, j, i, run[i].key, call)
  {
    var key := run[i].key;
    ConfirmedExecution(w, run, i, call);
    ReplyExactly(run[i].text);
    forall j | 0 <= j < i
      ensures Waiting(w, run, j, i, key, call) <==> Intercepts(w, run, j, key, call) && Open(w, run, j, i, key)
    {
      WaitingIsOpen(w, run, j, i, key, call);
    }
  }

  lemma WaitingIsOpen(w: World, run: seq<Inbound>, j: nat, i: nat, key: string, call: ToolCall)
    requires j < i <= |run|
    ensures Waiting(w, run, j, i, key, call) <==> Intercepts(w, run, j, key, call) && Open(w, run, j, i, key)
  {
    hide Intercepts, Forgets, AnswersYes, AnswersNo, ParseReply;
    forall k | j < k < i
      ensures Settles(w.cfg, run[k]) <==>
              Passes(w.cfg, run[k])
              && (AnswersNo(run[k].text) || (AnswersYes(run[k].text) && Returns(run[k])))
    {
      ReplyExactly(run[k].text);
    }
  }
}
