// One turn of a conversation: Input Rail, pending Confirmation or fresh turn, Tool Rail, Output Rail,
// history (conversation.py, agent_core.py).
module Conversation {
  import opened Common
  import opened Messages
  import opened Sessions
  import opened ToolRail

  datatype Config = Config(tools: seq<ToolConfig>, inputEnabled: bool, outputEnabled: bool)

  datatype Verdict = Verdict(allowed: bool, text: string)

  datatype LlmResponse = LlmResponse(text: string, toolCalls: seq<ToolCall>)

  // What the outside world answers during one turn; None is a call that raises. The Output Rail answers
  // for the text it is shown.
  datatype Answers = Answers(
    input: Option<Verdict>,
    first: Option<LlmResponse>,
    tool: Option<string>,
    continuation: Option<LlmResponse>,
    output: string -> Option<Verdict>)

  // What the runtime does to the outside world: ask the LLM, run a Tool.
  datatype Event = Asked(messages: seq<Message>) | Executed(call: ToolCall)

  // The session writes, the reply (None when the turn raised) and the outside effects of a step.
  datatype Step = Step(writes: seq<Write>, reply: Option<string>, events: seq<Event>)

  /* ---------- Replies to a Confirmation Request ---------- */

  datatype Reply = Yes | No | Neither

  predicate IsSpace(c: char) { c in {' ', '\t', '\n', '\r', '\U{000B}', '\U{000C}', '\U{001C}', '\U{001D}', '\U{001E}',
                                     '\U{001F}'} }

  function TrimLeft(s: string): string {
    if s != "" && IsSpace(s[0]) then TrimLeft(s[1..]) else s
  }

  function TrimRight(s: string): string {
    if s != "" && IsSpace(s[|s| - 1]) then TrimRight(s[..|s| - 1]) else s
  }

  function LowerChar(c: char): char {
    if 'A' <= c <= 'Z' then (c as int - 'A' as int + 'a' as int) as char else c
  }

  function Lower(s: string): string {
    seq(|s|, i requires 0 <= i < |s| => LowerChar(s[i]))
  }

  const YES_REPLIES := {"yes", "y", "yeah", "yep", "confirm", "ok", "okay"}
  const NO_REPLIES := {"no", "n", "nope", "cancel"}

  function ParseReply(text: string): Reply {
    var normalized := Lower(TrimRight(TrimLeft(text)));
    if normalized in YES_REPLIES then Yes
    else if normalized in NO_REPLIES then No
    else Neither
  }

  const CANCELLATION_TEXT := "No problem — cancelled, nothing was done."
  const NUDGE_TEXT := "Sorry, I didn't catch that — please reply yes or no."
  const DENY_TEXT := "Sorry, I can't do that."

  function Description(name: string, tools: seq<ToolConfig>): string {
    if tools == [] then name
    else if tools[0].name == name then tools[0].description
    else Description(name, tools[1..])
  }

  // The rendering of the arguments is left to the caller.
  function ConfirmationPrompt(call: ToolCall, tools: seq<ToolConfig>, rendered: string): string {
    "You're about to " + Lower(Description(call.name, tools)) + " with: " + rendered
    + ". Reply yes to confirm or no to cancel."
  }

  /* ---------- The turn as a function of one session ---------- */

  function WithUser(history: seq<Message>, userMessage: string): seq<Message> {
    history + [Text(User, userMessage)]
  }

  function Continuation(history: seq<Message>, call: ToolCall, result: string): seq<Message> {
    history + [CallTurn(call), ResultTurn(call, result)]
  }

  // Run a Tool and ask the LLM to phrase its result. `history` ends in this turn's user message.
  function RunTool(history: seq<Message>, call: ToolCall, a: Answers, onSuccess: seq<Write>): Step {
    if a.tool == None then Step([], None, [Executed(call)])
    else
      var events := [Executed(call), Asked(Continuation(history, call, a.tool.value))];
      if a.continuation == None then Step([], None, events)
      else Step(onSuccess, Some(a.continuation.value.text), events)
  }

  function Resolve(s: Session, call: ToolCall, userMessage: string, a: Answers): Step {
    match ParseReply(userMessage)
    case Yes => RunTool(WithUser(s.history, userMessage), call, a, [SetPending(None)])
    case No => Step([SetPending(None)], Some(CANCELLATION_TEXT), [])
    case Neither => Step([], Some(NUDGE_TEXT), [])
  }

  function HandleCall(cfg: Config, history: seq<Message>, call: ToolCall, a: Answers, rendered: string): Step {
    match Decide(call.name, cfg.tools)
    case Allow => RunTool(history, call, a, [])
    case RequireConfirmation => Step([SetPending(Some(call))], Some(ConfirmationPrompt(call, cfg.tools, rendered)), [])
    case Deny => Step([], Some(DENY_TEXT), [])
  }

  function Fresh(cfg: Config, s: Session, userMessage: string, a: Answers, rendered: string): Step {
    var asked := [Asked(WithUser(s.history, userMessage))];
    if a.first == None then Step([], None, asked)
    else if cfg.tools != [] && a.first.value.toolCalls != [] then
      var handled := HandleCall(cfg, WithUser(s.history, userMessage), a.first.value.toolCalls[0], a, rendered);
      handled.(events := asked + handled.events)
    else Step([], Some(a.first.value.text), asked)
  }

  function Output(cfg: Config, text: string, a: Answers): Option<string> {
    if !cfg.outputEnabled then Some(text)
    else if a.output(text) == None then None
    else if !a.output(text).value.allowed then Some(a.output(text).value.text)
    else Some(text)
  }

  function Exchange(userMessage: string, text: string): seq<Write> {
    [Append(Text(User, userMessage)), Append(Text(Assistant, text))]
  }

  // The part of the turn behind the Input Rail, before the Output Rail.
  function Inner(cfg: Config, s: Session, userMessage: string, a: Answers, rendered: string): Step {
    if s.pending.Some? then Resolve(s, s.pending.value, userMessage, a)
    else Fresh(cfg, s, userMessage, a, rendered)
  }

  function Turn(cfg: Config, s: Session, userMessage: string, a: Answers, rendered: string): Step {
    if cfg.inputEnabled && a.input == None then Step([], None, [])
    else if cfg.inputEnabled && !a.input.value.allowed then
      Step(Exchange(userMessage, a.input.value.text), Some(a.input.value.text), [])
    else
      var inner := Inner(cfg, s, userMessage, a, rendered);
      var final := if inner.reply == None then None else Output(cfg, inner.reply.value, a);
      if final == None then inner.(reply := None)
      else inner.(writes := inner.writes + Exchange(userMessage, final.value), reply := final)
  }

  /* ---------- The runtime over the SQLite store ---------- */

  class ConversationRuntime {
    const cfg: Config
    const sessionStore: SqliteSessionStore

    constructor (cfg: Config, sessionStore: SqliteSessionStore)
      ensures this.cfg == cfg && this.sessionStore == sessionStore
    {
      this.cfg, this.sessionStore := cfg, sessionStore;
    }

    // Given the session's step, where does the store end up?
    ghost function Stored(before: Store, key: string, step: Step): Store {
      StoredAll(sessionStore.idleTtlSeconds, sessionStore.clock, before, key, step.writes)
    }

    method HandleMessage(key: string, userMessage: string, a: Answers, rendered: string)
      returns (reply: Option<string>, events: seq<Event>)
      modifies sessionStore
      ensures ':' !in key ==> reply == None && events == [] && sessionStore.State() == old(sessionStore.State())
      ensures ':' in key ==>
                var step := Turn(cfg, View(old(sessionStore.State()), key), userMessage, a, rendered);
                reply == step.reply && events == step.events
                && sessionStore.State() == Stored(old(sessionStore.State()), key, step)
    {
      ghost var before := sessionStore.State();
      ghost var ttl, clock := sessionStore.idleTtlSeconds, sessionStore.clock;
      if ':' !in key {
        return None, [];
      }
      if cfg.inputEnabled {
        if a.input == None {
          return None, [];
        }
        if !a.input.value.allowed {
          sessionStore.AppendMessage(key, User, userMessage);
          sessionStore.AppendMessage(key, Assistant, a.input.value.text);
          StoredPair(ttl, clock, before, key, [], userMessage, a.input.value.text);
          return Some(a.input.value.text), [];
        }
      }
      var pending := sessionStore.GetPendingConfirmation(key);
      if pending.Some? {
        reply, events := ResolveConfirmation(key, pending.value, userMessage, a);
      } else {
        reply, events := FreshTurn(key, userMessage, a, rendered);
      }
      if reply == None {
        return;
      }
      reply := CheckOutput(reply.value, a);
      if reply == None {
        return;
      }
      sessionStore.AppendMessage(key, User, userMessage);
      sessionStore.AppendMessage(key, Assistant, reply.value);
      StoredPair(ttl, clock, before, key, Inner(cfg, View(before, key), userMessage, a, rendered).writes, userMessage,
                 reply.value);
    }

    method ResolveConfirmation(key: string, pending: ToolCall, userMessage: string, a: Answers)
      returns (reply: Option<string>, events: seq<Event>)
      modifies sessionStore
      ensures var step := Resolve(View(old(sessionStore.State()), key), pending, userMessage, a);
              reply == step.reply && events == step.events
              && sessionStore.State() == Stored(old(sessionStore.State()), key, step)
    {
      ghost var before := sessionStore.State();
      var parsed := ParseReply(userMessage);
      if parsed == Yes {
        var history := sessionStore.GetHistory(key);
        events := [Executed(pending)];
        if a.tool == None {
          return None, events;
        }
        events := events + [Asked(Continuation(WithUser(history, userMessage), pending, a.tool.value))];
        if a.continuation == None {
          return None, events;
        }
        sessionStore.SetPendingConfirmation(key, None);
        StoredOne(sessionStore.idleTtlSeconds, sessionStore.clock, before, key, SetPending(None));
        return Some(a.continuation.value.text), events;
      }
      if parsed == No {
        sessionStore.SetPendingConfirmation(key, None);
        StoredOne(sessionStore.idleTtlSeconds, sessionStore.clock, before, key, SetPending(None));
        return Some(CANCELLATION_TEXT), [];
      }
      return Some(NUDGE_TEXT), [];
    }

    method FreshTurn(key: string, userMessage: string, a: Answers, rendered: string)
      returns (reply: Option<string>, events: seq<Event>)
      modifies sessionStore
      ensures var step := Fresh(cfg, View(old(sessionStore.State()), key), userMessage, a, rendered);
              reply == step.reply && events == step.events
              && sessionStore.State() == Stored(old(sessionStore.State()), key, step)
    {
      var history := sessionStore.GetHistory(key);
      events := [Asked(history + [Text(User, userMessage)])];
      if a.first == None {
        return None, events;
      }
      var result := a.first.value;
      if cfg.tools == [] {
        result := LlmResponse(result.text, []);
      }
      if result.toolCalls != [] {
        var more;
        reply, more := HandleToolCall(key, history + [Text(User, userMessage)], result.toolCalls[0], a, rendered);
        return reply, events + more;
      }
      return Some(result.text), events;
    }

    method HandleToolCall(key: string, history: seq<Message>, call: ToolCall, a: Answers, rendered: string)
      returns (reply: Option<string>, events: seq<Event>)
      modifies sessionStore
      ensures var step := HandleCall(cfg, history, call, a, rendered);
              reply == step.reply && events == step.events
              && sessionStore.State() == Stored(old(sessionStore.State()), key, step)
    {
      ghost var before := sessionStore.State();
      var decision := Decide(call.name, cfg.tools);
      if decision == Allow {
        events := [Executed(call)];
        if a.tool == None {
          return None, events;
        }
        events := events + [Asked(Continuation(history, call, a.tool.value))];
        if a.continuation == None {
          return None, events;
        }
        return Some(a.continuation.value.text), events;
      }
      if decision == RequireConfirmation {
        sessionStore.SetPendingConfirmation(key, Some(call));
        StoredOne(sessionStore.idleTtlSeconds, sessionStore.clock, before, key, SetPending(Some(call)));
        return Some(ConfirmationPrompt(call, cfg.tools, rendered)), [];
      }
      return Some(DENY_TEXT), [];
    }

    method CheckOutput(text: string, a: Answers) returns (reply: Option<string>)
      ensures reply == Output(cfg, text, a)
    {
      if !cfg.outputEnabled {
        return Some(text);
      }
      var verdict := a.output(text);
      if verdict == None {
        return None;
      }
      if !verdict.value.allowed {
        return Some(verdict.value.text);
      }
      return Some(text);
    }
  }

  lemma StoredOne(ttl: real, clock: nat -> Tick, before: Store, key: string, w: Write)
    ensures StoredAll(ttl, clock, before, key, [w]) == Sessions.Stored(ttl, clock(before.writeCount), before, key, w)
  {
    assert [w][..0] == [];
  }

  lemma StoredPair(ttl: real, clock: nat -> Tick, before: Store, key: string, ws: seq<Write>, userMessage: string,
                   text: string)
    ensures var s := StoredAll(ttl, clock, before, key, ws);
            var s1 := Sessions.Stored(ttl, clock(s.writeCount), s, key, Append(Text(User, userMessage)));
            var s2 := Sessions.Stored(ttl, clock(s1.writeCount), s1, key, Append(Text(Assistant, text)));
            StoredAll(ttl, clock, before, key, ws + Exchange(userMessage, text)) == s2
            && StoredAll(ttl, clock, before, key, Exchange(userMessage, text))
               == StoredAll(ttl, clock, before, key, [] + Exchange(userMessage, text))
  {
    var first, second := Append(Text(User, userMessage)), Append(Text(Assistant, text));
    assert [] + Exchange(userMessage, text) == Exchange(userMessage, text);
    assert (ws + Exchange(userMessage, text))[..|ws| + 1] == ws + [first];
    assert (ws + [first])[..|ws|] == ws;
  }
}
