// Whole runs of a conversation runtime: any interleaving of sessions, any LLM replies, rail verdicts
// and Tool results, any external call raising.
module ConversationRuns {
  import opened Common
  import Json
  import opened Messages
  import opened Sessions
  import opened ToolRail
  import opened Conversation

  datatype Inbound = Inbound(key: string, text: string, answers: Answers, rendered: string)

  datatype World = World(cfg: Config, ttl: real, clock: nat -> Tick)

  function StepOn(cfg: Config, s: Session, m: Inbound): Step {
    if ':' !in m.key then Step([], None, []) else Turn(cfg, s, m.text, m.answers, m.rendered)
  }

  function SessionAfter(cfg: Config, s: Session, m: Inbound): Session {
    AppliedAll(s, StepOn(cfg, s, m).writes)
  }

  function After(w: World, s: Store, m: Inbound): Store {
    StoredAll(w.ttl, w.clock, s, m.key, StepOn(w.cfg, View(s, m.key), m).writes)
  }

  function StoreAt(w: World, run: seq<Inbound>, n: nat): Store
    requires n <= |run|
  {
    if n == 0 then NOTHING else After(w, StoreAt(w, run, n - 1), run[n - 1])
  }

  function SessionAt(w: World, run: seq<Inbound>, n: nat, key: string): Session
    requires n <= |run|
  {
    View(StoreAt(w, run, n), key)
  }

  function StepAt(w: World, run: seq<Inbound>, n: nat): Step
    requires n < |run|
  {
    StepOn(w.cfg, SessionAt(w, run, n, run[n].key), run[n])
  }

  lemma {:induction false} SameStart(w: World, run: seq<Inbound>, run': seq<Inbound>, n: nat)
    requires n <= |run| && n <= |run'| && forall k :: 0 <= k < n ==> run[k] == run'[k]
    ensures StoreAt(w, run, n) == StoreAt(w, run', n)
  {
    hide After;
    if n > 0 { SameStart(w, run, run', n - 1); }
  }

  /* ---------- What one turn does to its session ---------- */

  // The message reaches the part of the turn behind the Input Rail.
  predicate Passes(cfg: Config, m: Inbound) {
    ':' in m.key && (cfg.inputEnabled ==> m.answers.input.Some? && m.answers.input.value.allowed)
  }

  // Asked on a fresh turn, the LLM wants a Tool that needs a Confirmation.
  predicate Wants(cfg: Config, m: Inbound, call: ToolCall) {
    && m.answers.first.Some? && m.answers.first.value.toolCalls != []
    && m.answers.first.value.toolCalls[0] == call && Decide(call.name, cfg.tools) == RequireConfirmation
  }

  // A "no", or a "yes" whose Tool call and continuation both return.
  predicate Settles(cfg: Config, m: Inbound) {
    && Passes(cfg, m)
    && (ParseReply(m.text) == No
        || (ParseReply(m.text) == Yes && m.answers.tool.Some? && m.answers.continuation.Some?))
  }

  lemma DenyWithoutTools(name: string)
    ensures Decide(name, []) == Deny
  {
  }

  lemma AppliedAllSmall(s: Session, ws: seq<Write>, a: Write, b: Write)
    ensures AppliedAll(s, []) == s && AppliedAll(s, [a]) == Applied(s, a)
    ensures AppliedAll(s, ws + [a, b]) == Applied(Applied(AppliedAll(s, ws), a), b)
  {
    assert [a][..0] == [];
    assert (ws + [a, b])[..|ws| + 1] == ws + [a];
    assert (ws + [a])[..|ws|] == ws;
  }

  lemma ExchangeApplied(s: Session, ws: seq<Write>, userMessage: string, text: string)
    ensures AppliedAll(s, ws + Exchange(userMessage, text))
            == AppliedAll(s, ws).(history := AppliedAll(s, ws).history + [Text(User, userMessage)]
                                  + [Text(Assistant, text)])
  {
    AppliedAllSmall(s, ws, Append(Text(User, userMessage)), Append(Text(Assistant, text)));
  }

  // The writes of the inner step change the pending request only.
  lemma InnerApplied(cfg: Config, s: Session, m: Inbound)
    requires Passes(cfg, m)
    ensures var s' := AppliedAll(s, Inner(cfg, s, m.text, m.answers, m.rendered).writes);
            && s'.history == s.history
            && (s.pending.Some? ==> s'.pending == if Settles(cfg, m) then None else s.pending)
            && (s.pending == None ==> forall call: ToolCall :: s'.pending == Some(call) <==> Wants(cfg, m, call))
  {
    var a := m.answers;
    AppliedAllSmall(s, [], SetPending(None), SetPending(None));
    if s.pending == None && a.first.Some? && a.first.value.toolCalls != [] {
      var call := a.first.value.toolCalls[0];
      DenyWithoutTools(call.name);
      AppliedAllSmall(s, [], SetPending(Some(call)), SetPending(None));
    }
  }

  ghost predicate NextPending(cfg: Config, before: Session, m: Inbound, after: Option<ToolCall>) {
    if !Passes(cfg, m) then after == before.pending
    else if before.pending.Some? then after == if Settles(cfg, m) then None else before.pending
    else forall call: ToolCall :: after == Some(call) <==> Wants(cfg, m, call)
  }

  lemma TurnApplied(cfg: Config, s: Session, m: Inbound)
    ensures var step := StepOn(cfg, s, m); var s' := SessionAfter(cfg, s, m);
            && NextPending(cfg, s, m, s'.pending)
            && s'.history == s.history
              + (if step.reply.Some? then [Text(User, m.text), Text(Assistant, step.reply.value)] else [])
  {
    hide Inner, ParseReply, Settles, Wants;
    var step := StepOn(cfg, s, m);
    if !Passes(cfg, m) {
      assert [] + step.writes == step.writes;
      if step.reply.Some? {
        ExchangeApplied(s, [], m.text, step.reply.value);
      }
    } else {
      var inner := Inner(cfg, s, m.text, m.answers, m.rendered);
      InnerApplied(cfg, s, m);
      if step.reply.Some? {
        ExchangeApplied(s, inner.writes, m.text, step.reply.value);
      }
    }
  }

  /* ---------- What one turn does to the store ---------- */

  // Message `n` belongs to another session, and the sweep it triggers drops the idle row of `key`.
  predicate Forgets(w: World, run: seq<Inbound>, n: nat, key: string)
    requires n < |run|
  {
    run[n].key != key && key in StoreAt(w, run, n).rows && key !in StoreAt(w, run, n + 1).rows
  }

  // It is forgotten exactly when one of those sweeps comes later than the time-to-live after its last write.
  lemma ForgetsExactlyTheIdle(w: World, run: seq<Inbound>, n: nat, key: string)
    requires n < |run|
    ensures var s, s' := StoreAt(w, run, n), StoreAt(w, run, n + 1);
            Forgets(w, run, n, key) <==>
              && run[n].key != key && key in s.rows
              && SweptBetween(w.ttl, w.clock, s.writeCount, s'.writeCount, s.rows[key].lastActive)
  {
    if run[n].key != key {
      OtherRows(w.ttl, w.clock, StoreAt(w, run, n), run[n].key, StepAt(w, run, n).writes, key);
    }
  }

  lemma OtherSession(w: World, run: seq<Inbound>, n: nat, key: string)
    requires n < |run| && run[n].key != key
    ensures SessionAt(w, run, n + 1, key) == if Forgets(w, run, n, key) then EMPTY else SessionAt(w, run, n, key)
  {
    OtherRows(w.ttl, w.clock, StoreAt(w, run, n), run[n].key, StepAt(w, run, n).writes, key);
  }

  lemma NextSession(w: World, run: seq<Inbound>, n: nat, key: string)
    requires Prompt(w.ttl, w.clock) && n < |run|
    ensures run[n].key == key ==>
            SessionAt(w, run, n + 1, key) == SessionAfter(w.cfg, SessionAt(w, run, n, key), run[n])
    ensures run[n].key != key ==>
              SessionAt(w, run, n + 1, key) == if Forgets(w, run, n, key) then EMPTY else SessionAt(w, run, n, key)
  {
    if run[n].key == key {
      assert PromptBetween(w.ttl, w.clock, StoreAt(w, run, n).writeCount,
                           StoreAt(w, run, n).writeCount + |StepAt(w, run, n).writes|);
      OwnWritesOnly(w.ttl, w.clock, StoreAt(w, run, n), key, StepAt(w, run, n).writes);
    } else {
      OtherSession(w, run, n, key);
    }
  }

  // Without `Prompt`: a turn's own sweep may lose the request it leaves, and nothing more.
  lemma NextPendingOrGone(w: World, run: seq<Inbound>, n: nat)
    requires n < |run|
    ensures var s, pending := SessionAt(w, run, n, run[n].key), SessionAt(w, run, n + 1, run[n].key).pending;
            pending == None || pending == SessionAfter(w.cfg, s, run[n]).pending
  {
    OwnRowOrGone(w.ttl, w.clock, StoreAt(w, run, n), run[n].key, StepAt(w, run, n).writes);
  }

  /* ---------- Which call is pending, over any run ---------- */

  // Turn `j` of the session intercepts `call`: it stores the request and runs nothing.
  predicate Intercepts(w: World, run: seq<Inbound>, j: nat, key: string, call: ToolCall)
    requires j < |run|
  {
    run[j].key == key && Passes(w.cfg, run[j]) && SessionAt(w, run, j, key).pending == None
      && Wants(w.cfg, run[j], call)
  }

  // Between turns `j` and `i` no message of the session settles the request and no sweep drops it.
  ghost predicate Open(w: World, run: seq<Inbound>, j: nat, i: nat, key: string)
    requires i <= |run|
  {
    forall k :: j < k < i ==> !(run[k].key == key && Settles(w.cfg, run[k])) && !Forgets(w, run, k, key)
  }

  ghost predicate Intercepted(w: World, run: seq<Inbound>, i: nat, key: string, call: ToolCall)
    requires i <= |run|
  {
    exists j :: 0 <= j < i && Intercepts(w, run, j, key, call) && Open(w, run, j, i, key)
  }

  lemma InterceptedStep(w: World, run: seq<Inbound>, i: nat, key: string, call: ToolCall)
    requires i < |run|
    ensures Intercepted(w, run, i + 1, key, call) <==>
            || Intercepts(w, run, i, key, call)
            || (Intercepted(w, run, i, key, call) && !(run[i].key == key && Settles(w.cfg, run[i]))
                && !Forgets(w, run, i, key))
  {
    hide StoreAt, Forgets, Settles, Intercepts;
    if Intercepts(w, run, i, key, call) {
      assert Open(w, run, i, i + 1, key);
    }
    if Intercepted(w, run, i + 1, key, call) {
      var j :| 0 <= j < i + 1 && Intercepts(w, run, j, key, call) && Open(w, run, j, i + 1, key);
      if j < i { assert Open(w, run, j, i, key); }
    }
    if Intercepted(w, run, i, key, call) && !(run[i].key == key && Settles(w.cfg, run[i])) && !Forgets(w, run, i, key) {
      var j :| 0 <= j < i && Intercepts(w, run, j, key, call) && Open(w, run, j, i, key);
      assert Open(w, run, j, i + 1, key);
    }
  }

  // The pending call is the one the last open interception of the session stored.
  lemma {:induction false} PendingIsIntercepted(w: World, run: seq<Inbound>, i: nat, key: string, call: ToolCall)
    requires Prompt(w.ttl, w.clock) && i <= |run|
    ensures SessionAt(w, run, i, key).pending == Some(call) <==> Intercepted(w, run, i, key, call)
  {
    if i > 0 {
      var n := i - 1;
      PendingIsIntercepted(w, run, n, key, call);
      InterceptedStep(w, run, n, key, call);
      NextSession(w, run, n, key);
      if run[n].key == key {
        TurnApplied(w.cfg, SessionAt(w, run, n, key), run[n]);
      }
    }
  }

  // Whatever the clocks do, a pending call was intercepted and is still open.
  lemma {:induction false} PendingWasIntercepted(w: World, run: seq<Inbound>, i: nat, key: string, call: ToolCall)
    requires i <= |run| && SessionAt(w, run, i, key).pending == Some(call)
    ensures Intercepted(w, run, i, key, call)
  {
    if i > 0 {
      var n := i - 1;
      InterceptedStep(w, run, n, key, call);
      if run[n].key == key {
        NextPendingOrGone(w, run, n);
        TurnApplied(w.cfg, SessionAt(w, run, n, key), run[n]);
      } else {
        OtherSession(w, run, n, key);
      }
      if SessionAt(w, run, n, key).pending == Some(call) {
        PendingWasIntercepted(w, run, n, key, call);
      }
    }
  }

  /* ---------- Which Tool executions can ever happen ---------- */

  predicate Executes(w: World, run: seq<Inbound>, i: nat, call: ToolCall)
    requires i < |run|
  {
    Executed(call) in StepAt(w, run, i).events
  }

  predicate OneExecution(events: seq<Event>) {
    forall p, q :: 0 <= p < q < |events| ==> !(events[p].Executed? && events[q].Executed?)
  }

  lemma TurnExecutes(cfg: Config, s: Session, m: Inbound, call: ToolCall)
    ensures OneExecution(StepOn(cfg, s, m).events)
    ensures Executed(call) in StepOn(cfg, s, m).events <==>
            Passes(cfg, m) && if s.pending.Some? then s.pending.value == call && ParseReply(m.text) == Yes
                              else && m.answers.first.Some? && m.answers.first.value.toolCalls != []
                                   && m.answers.first.value.toolCalls[0] == call
                                     && Decide(call.name, cfg.tools) == Allow
  {
    if s.pending == None && m.answers.first.Some? && m.answers.first.value.toolCalls != [] {
      DenyWithoutTools(m.answers.first.value.toolCalls[0].name);
    }
    var ran := RunTool([], call, m.answers, []);
    assert ran.events[0] == Executed(call);
  }

  // A Tool that needs a Confirmation runs exactly on a "yes" that passes the Input Rail while a request
  // for that very call, intercepted by an earlier turn of the same session, is still open.
  lemma ConfirmedExecution(w: World, run: seq<Inbound>, i: nat, call: ToolCall)
    requires Prompt(w.ttl, w.clock) && i < |run|
    requires Decide(call.name, w.cfg.tools) == RequireConfirmation
    ensures Executes(w, run, i, call) <==>
            Passes(w.cfg, run[i]) && ParseReply(run[i].text) == Yes && Intercepted(w, run, i, run[i].key, call)
  {
    TurnExecutes(w.cfg, SessionAt(w, run, i, run[i].key), run[i], call);
    PendingIsIntercepted(w, run, i, run[i].key, call);
  }

  // The safety half needs no clock condition at all.
  lemma ExecutedWasIntercepted(w: World, run: seq<Inbound>, i: nat, call: ToolCall)
    requires i < |run| && Decide(call.name, w.cfg.tools) == RequireConfirmation && Executes(w, run, i, call)
    ensures Passes(w.cfg, run[i]) && ParseReply(run[i].text) == Yes && Intercepted(w, run, i, run[i].key, call)
    ensures SessionAt(w, run, i, run[i].key).pending == Some(call)
  {
    TurnExecutes(w.cfg, SessionAt(w, run, i, run[i].key), run[i], call);
    PendingWasIntercepted(w, run, i, run[i].key, call);
  }

  // As long as one process serves one configuration, a Tool the Tool Rail denies never runs, and a Tool it
  // allows runs exactly when the LLM asks for it on a fresh turn; no turn runs two Tools.
  lemma OtherExecutions(w: World, run: seq<Inbound>, i: nat, call: ToolCall)
    requires i < |run| && Decide(call.name, w.cfg.tools) != RequireConfirmation
    ensures OneExecution(StepAt(w, run, i).events)
    ensures Executes(w, run, i, call) <==>
            && Decide(call.name, w.cfg.tools) == Allow
            && Passes(w.cfg, run[i]) && SessionAt(w, run, i, run[i].key).pending == None
            && run[i].answers.first.Some? && run[i].answers.first.value.toolCalls != []
            && run[i].answers.first.value.toolCalls[0] == call
  {
    TurnExecutes(w.cfg, SessionAt(w, run, i, run[i].key), run[i], call);
    if SessionAt(w, run, i, run[i].key).pending == Some(call) {
      PendingWasIntercepted(w, run, i, run[i].key, call);
    }
  }

  // When external calls return, every message of the session between the interception and the "yes"
  // was blocked by the Input Rail or was neither yes nor no.
  predicate Returns(m: Inbound) {
    m.answers.tool.Some? && m.answers.continuation.Some?
  }

  lemma OnlyNudgesInBetween(w: World, run: seq<Inbound>, i: nat, call: ToolCall) returns (j: nat)
    requires i < |run| && forall k :: 0 <= k < |run| ==> Returns(run[k])
    requires Decide(call.name, w.cfg.tools) == RequireConfirmation && Executes(w, run, i, call)
    ensures ParseReply(run[i].text) == Yes
    ensures j < i && Intercepts(w, run, j, run[i].key, call)
    ensures forall k :: j < k < i && run[k].key == run[i].key ==>
            !Passes(w.cfg, run[k]) || ParseReply(run[k].text) == Neither
  {
    j := Interception(w, run, i, call);
  }

  /* ---------- At most once per Confirmation Request ---------- */

  // A confirmed execution uses its request up exactly when the Tool call and the continuation return.
  lemma UsedUpExactlyWhenReturned(w: World, run: seq<Inbound>, i: nat, call: ToolCall)
    requires i < |run| && Decide(call.name, w.cfg.tools) == RequireConfirmation && Executes(w, run, i, call)
    ensures SessionAt(w, run, i + 1, run[i].key).pending == (if Returns(run[i]) then None else Some(call))
  {
    var s, m := SessionAt(w, run, i, run[i].key), run[i];
    ExecutedWasIntercepted(w, run, i, call);
    if Returns(m) {
      NextPendingOrGone(w, run, i);
      TurnApplied(w.cfg, s, m);
    } else {
      UnreturnedWritesNothing(w.cfg, s, m);
    }
  }

  lemma UnreturnedWritesNothing(cfg: Config, s: Session, m: Inbound)
    requires Passes(cfg, m) && s.pending.Some? && ParseReply(m.text) == Yes && !Returns(m)
    ensures StepOn(cfg, s, m).writes == []
  {
  }

  // Two confirmed executions of one session, the first of which returned, answer two different requests.
  lemma OneExecutionPerRequest(w: World, run: seq<Inbound>, i1: nat, i2: nat, c1: ToolCall, c2: ToolCall)
    returns (j: nat)
    requires i1 < i2 < |run| && run[i1].key == run[i2].key
    requires Decide(c1.name, w.cfg.tools) == Decide(c2.name, w.cfg.tools) == RequireConfirmation
    requires Executes(w, run, i1, c1) && Executes(w, run, i2, c2) && Returns(run[i1])
    ensures i1 < j < i2 && Intercepts(w, run, j, run[i2].key, c2)
  {
    j := Interception(w, run, i2, c2);
    SettledBetween(w, run, i1, c1, j, i2);
  }

  lemma SettlesWhenConfirmed(cfg: Config, m: Inbound)
    requires Passes(cfg, m) && ParseReply(m.text) == Yes && Returns(m)
    ensures Settles(cfg, m)
  {
  }

  // An execution that returned settles the request open at the time, so a request still open was stored later.
  lemma SettledBetween(w: World, run: seq<Inbound>, i: nat, call: ToolCall, j: nat, n: nat)
    requires i < n <= |run| && j < n && Open(w, run, j, n, run[i].key)
    requires Decide(call.name, w.cfg.tools) == RequireConfirmation && Executes(w, run, i, call) && Returns(run[i])
    requires SessionAt(w, run, j, run[i].key).pending == None
    ensures i < j
  {
    hide StepAt, StoreAt, Settles, Passes, Forgets, Executes, View, Intercepted, Decide, Returns, ParseReply;
    ExecutedWasIntercepted(w, run, i, call);
    SettlesWhenConfirmed(w.cfg, run[i]);
  }

  lemma Interception(w: World, run: seq<Inbound>, i: nat, call: ToolCall) returns (j: nat)
    requires i < |run| && Decide(call.name, w.cfg.tools) == RequireConfirmation && Executes(w, run, i, call)
    ensures ParseReply(run[i].text) == Yes
    ensures j < i && Intercepts(w, run, j, run[i].key, call) && Open(w, run, j, i, run[i].key)
  {
    ExecutedWasIntercepted(w, run, i, call);
    j :| 0 <= j < i && Intercepts(w, run, j, run[i].key, call) && Open(w, run, j, i, run[i].key);
  }

  // The request survives a continuation that raises: whatever the configuration and the call, a second
  // "yes" then runs the same Tool call again.
  lemma RaisingContinuationRunsTwice(w: World, key: string, call: ToolCall, text: string, result: string)
    returns (run: seq<Inbound>)
    requires ':' in key && Decide(call.name, w.cfg.tools) == RequireConfirmation
    ensures |run| == 3 && Executes(w, run, 1, call) && Executes(w, run, 2, call)
    ensures forall k :: 0 <= k < 3 ==> run[k].key == key && run[k].answers.tool.Some?
    ensures !Intercepts(w, run, 1, key, call)
  {
    hide Turn, StoredAll;
    var ok := Some(Verdict(true, ""));
    var ask := Answers(ok, Some(LlmResponse(text, [call])), Some(result), None, _ => ok);
    run := [Inbound(key, text, ask, ""), Inbound(key, "yes", ask, ""), Inbound(key, "yes", ask, "")];
    SaysYes();
    FirstTurnPending(w, run, key, call);
    TurnExecutes(w.cfg, SessionAt(w, run, 1, key), run[1], call);
    UsedUpExactlyWhenReturned(w, run, 1, call);
    TurnExecutes(w.cfg, SessionAt(w, run, 2, key), run[2], call);
  }

  // The few writes of a first turn never reach a sweep, so the request it stores is there.
  lemma FirstTurnPending(w: World, run: seq<Inbound>, key: string, call: ToolCall)
    requires run != [] && run[0].key == key && Passes(w.cfg, run[0]) && Wants(w.cfg, run[0], call)
    ensures SessionAt(w, run, 1, key).pending == Some(call)
  {
    AtMostThreeWrites(w.cfg, EMPTY, run[0]);
    TurnApplied(w.cfg, EMPTY, run[0]);
    hide StepOn, StoredAll;
    var ws := StepOn(w.cfg, EMPTY, run[0]).writes;
    assert StoreAt(w, run, 0) == NOTHING && View(NOTHING, key) == EMPTY;
    OwnWritesOnly(w.ttl, w.clock, NOTHING, key, ws);
  }

  lemma AtMostThreeWrites(cfg: Config, s: Session, m: Inbound)
    ensures |StepOn(cfg, s, m).writes| <= 3
  {
  }

  lemma SaysYes()
    ensures ParseReply("yes") == Yes
  {
    assert TrimLeft("yes") == "yes" && TrimRight("yes") == "yes";
    assert Lower("yes") == "yes";
  }

  /* ---------- Session isolation ---------- */

  // The messages of `key` among the first `n`, starting over whenever a sweep forgets the session.
  function Since(w: World, run: seq<Inbound>, n: nat, key: string): seq<Inbound>
    requires n <= |run|
  {
    if n == 0 then []
    else if run[n - 1].key == key then Since(w, run, n - 1, key) + [run[n - 1]]
    else if Forgets(w, run, n - 1, key) then []
    else Since(w, run, n - 1, key)
  }

  // A session talking to the runtime alone.
  function Alone(cfg: Config, messages: seq<Inbound>): Session {
    if messages == [] then EMPTY
    else
      var before, m := Alone(cfg, messages[..|messages| - 1]), messages[|messages| - 1];
      SessionAfter(cfg, before, m)
  }

  lemma AloneSnoc(cfg: Config, mine: seq<Inbound>, m: Inbound, s: Session)
    requires s == Alone(cfg, mine)
    ensures Alone(cfg, mine + [m]) == SessionAfter(cfg, s, m)
  {
    assert (mine + [m])[..|mine|] == mine;
  }

  // In any interleaving, with any sweeps, a session's history and pending request are those of its own
  // messages alone, since it was last forgotten.
  lemma {:induction false} SessionIsAlone(w: World, run: seq<Inbound>, n: nat, key: string)
    requires Prompt(w.ttl, w.clock) && n <= |run|
    ensures SessionAt(w, run, n, key) == Alone(w.cfg, Since(w, run, n, key))
  {
    hide StepOn, SessionAfter, Forgets, StoredAll, Turn;
    if n > 0 {
      SessionIsAlone(w, run, n - 1, key);
      NextSession(w, run, n - 1, key);
      AloneSnoc(w.cfg, Since(w, run, n - 1, key), run[n - 1], SessionAt(w, run, n - 1, key));
    }
  }

  // The messages of one session, and the position of message `n` among them.
  function Only(run: seq<Inbound>, key: string): seq<Inbound> {
    if run == [] then []
    else Only(run[..|run| - 1], key) + (if run[|run| - 1].key == key then [run[|run| - 1]] else [])
  }

  lemma {:induction false} SinceOfOwnMessages(w: World, messages: seq<Inbound>, n: nat, key: string)
    requires n <= |messages| && forall k :: 0 <= k < |messages| ==> messages[k].key == key
    ensures Since(w, messages, n, key) == messages[..n]
  {
    if n > 0 { SinceOfOwnMessages(w, messages, n - 1, key); }
  }

  lemma {:induction false} OnlyHasKey(run: seq<Inbound>, key: string)
    ensures forall k :: 0 <= k < |Only(run, key)| ==> Only(run, key)[k].key == key
  {
    if run != [] { OnlyHasKey(run[..|run| - 1], key); }
  }

  lemma {:induction false} SinceWithoutSweeps(w: World, run: seq<Inbound>, n: nat, key: string)
    requires n <= |run| && forall k :: 0 <= k < n ==> !Forgets(w, run, k, key)
    ensures Since(w, run, n, key) == Only(run[..n], key)
  {
    if n > 0 {
      SinceWithoutSweeps(w, run, n - 1, key);
      assert run[..n][..n - 1] == run[..n - 1];
    }
  }

  // If no sweep forgets the session, turn `n` of the interleaved run - its writes, reply, Tool executions
  // and the transcripts it sends - is the turn of the run that contains only this session's messages.
  lemma Isolation(w: World, run: seq<Inbound>, n: nat)
    requires Prompt(w.ttl, w.clock) && n < |run|
    requires forall k :: 0 <= k < n ==> !Forgets(w, run, k, run[n].key)
    ensures var mine := Only(run[..n], run[n].key);
            && StepAt(w, run, n) == StepAt(w, mine + [run[n]], |mine|)
            && SessionAt(w, run, n, run[n].key) == SessionAt(w, mine, |mine|, run[n].key)
  {
    var key := run[n].key;
    var mine := Only(run[..n], key);
    var own := mine + [run[n]];
    OnlyHasKey(run[..n], key);
    SinceWithoutSweeps(w, run, n, key);
    SessionIsAlone(w, run, n, key);
    SinceOfOwnMessages(w, own, |mine|, key);
    SessionIsAlone(w, own, |mine|, key);
    assert own[..|mine|] == mine;
    SinceOfOwnMessages(w, mine, |mine|, key);
    SessionIsAlone(w, mine, |mine|, key);
    assert mine[..|mine|] == mine;
  }

  // No turn of another session sweeps later than the time-to-live after this session's last write.
  ghost predicate SweptInTime(w: World, run: seq<Inbound>, n: nat, key: string)
    requires n <= |run|
  {
    forall k :: 0 <= k < n && run[k].key != key && key in StoreAt(w, run, k).rows ==>
      var s := StoreAt(w, run, k);
      !SweptBetween(w.ttl, w.clock, s.writeCount, StoreAt(w, run, k + 1).writeCount, s.rows[key].lastActive)
  }

  // The same, from a condition on the clock.
  lemma IsolationInTime(w: World, run: seq<Inbound>, n: nat)
    requires Prompt(w.ttl, w.clock) && n < |run| && SweptInTime(w, run, n, run[n].key)
    ensures var mine := Only(run[..n], run[n].key);
            && StepAt(w, run, n) == StepAt(w, mine + [run[n]], |mine|)
            && SessionAt(w, run, n, run[n].key) == SessionAt(w, mine, |mine|, run[n].key)
  {
    forall k | 0 <= k < n ensures !Forgets(w, run, k, run[n].key) {
      ForgetsExactlyTheIdle(w, run, k, run[n].key);
    }
    Isolation(w, run, n);
  }

  /* ---------- Nothing reaches or leaves unchecked ---------- */

  // The Output Rail let `drafted` through as it was, or put its refusal in its place.
  predicate Released(output: string -> Option<Verdict>, drafted: string, text: string) {
    output(drafted).Some? && text == if output(drafted).value.allowed then drafted else output(drafted).value.text
  }

  // The text is the Input Rail's refusal of this message, or left through the Output Rail.
  ghost predicate Cleared(cfg: Config, m: Inbound, text: string) {
    if cfg.inputEnabled && m.answers.input.Some? && !m.answers.input.value.allowed then
      text == m.answers.input.value.text
    else cfg.outputEnabled ==> exists drafted :: Released(m.answers.output, drafted, text)
  }

  // A message the Input Rail does not pass reaches neither the LLM nor a Tool and settles nothing.
  lemma BlockedReachesNothing(cfg: Config, s: Session, m: Inbound)
    requires !Passes(cfg, m)
    ensures StepOn(cfg, s, m).events == [] && SessionAfter(cfg, s, m).pending == s.pending
  {
    TurnApplied(cfg, s, m);
  }

  lemma ReplyIsCleared(cfg: Config, s: Session, m: Inbound, text: string)
    requires StepOn(cfg, s, m).reply == Some(text)
    ensures Cleared(cfg, m, text)
  {
    if Passes(cfg, m) && cfg.outputEnabled {
      var drafted := Inner(cfg, s, m.text, m.answers, m.rendered).reply.value;
      assert Released(m.answers.output, drafted, text);
    }
  }

  lemma AppendedIsTheExchange(cfg: Config, s: Session, m: Inbound, message: Message)
    requires Append(message) in StepOn(cfg, s, m).writes
    ensures var reply := StepOn(cfg, s, m).reply;
            reply.Some? && (message == Text(User, m.text) || message == Text(Assistant, reply.value))
  {
  }

  // Every assistant text in any session's history, after any run and whatever the clocks do, was cleared by
  // the rails for a message of that session.
  lemma {:induction false} EveryTextIsCleared(w: World, run: seq<Inbound>, n: nat, key: string, message: Message)
    returns (j: nat)
    requires n <= |run| && message in SessionAt(w, run, n, key).history && message.role == Assistant
    ensures j < n && run[j].key == key && Cleared(w.cfg, run[j], message.content)
  {
    hide StepOn, Cleared, Released;
    var s, m := SessionAt(w, run, n - 1, key), run[n - 1];
    if m.key == key {
      OwnRowOrGone(w.ttl, w.clock, StoreAt(w, run, n - 1), key, StepAt(w, run, n - 1).writes);
    } else {
      OtherSession(w, run, n - 1, key);
    }
    if message in s.history {
      j := EveryTextIsCleared(w, run, n - 1, key, message);
    } else {
      AppendedIsTheExchange(w.cfg, s, m, message);
      ReplyIsCleared(w.cfg, s, m, message.content);
      j := n - 1;
    }
  }

  /* ---------- Every transcript sent to a provider ---------- */

  lemma ExchangesGrow(history: seq<Message>, userMessage: string, text: string)
    requires Exchanges(history)
    ensures Exchanges(history + [Text(User, userMessage), Text(Assistant, text)])
  {
  }

  lemma TurnKeepsExchanges(cfg: Config, s: Session, m: Inbound)
    requires Exchanges(s.history)
    ensures Exchanges(SessionAfter(cfg, s, m).history)
  {
    var step := StepOn(cfg, s, m);
    TurnApplied(cfg, s, m);
    if step.reply.Some? {
      ExchangesGrow(s.history, m.text, step.reply.value);
    } else {
      assert s.history + [] == s.history;
    }
  }

  lemma NextHistory(w: World, run: seq<Inbound>, n: nat, key: string, s: Session)
    requires Prompt(w.ttl, w.clock) && n < |run| && s == SessionAt(w, run, n, key) && Exchanges(s.history)
    ensures Exchanges(SessionAt(w, run, n + 1, key).history)
  {
    NextSession(w, run, n, key);
    TurnKeepsExchanges(w.cfg, s, run[n]);
    NoHistoryIsExchanges();
  }

  lemma NoHistoryIsExchanges()
    ensures Exchanges(EMPTY.history)
  {
  }

  // Histories hold whole exchanges only, through confirmations, refusals, raised turns and sweeps.
  lemma {:induction false} HistoriesAreExchanges(w: World, run: seq<Inbound>, n: nat, key: string)
    requires Prompt(w.ttl, w.clock) && n <= |run|
    ensures Exchanges(SessionAt(w, run, n, key).history)
  {
    if n > 0 {
      HistoriesAreExchanges(w, run, n - 1, key);
      NextHistory(w, run, n - 1, key, SessionAt(w, run, n - 1, key));
    }
  }

  lemma BuiltTranscripts(history: seq<Message>, userMessage: string, call: ToolCall, result: string)
    requires Exchanges(history)
    ensures Sendable(WithUser(history, userMessage))
    ensures Sendable(Continuation(WithUser(history, userMessage), call, result))
  {
    var ms := Continuation(WithUser(history, userMessage), call, result);
    assert ms[..|ms| - 2] == WithUser(history, userMessage);
  }

  lemma TurnSendsSendable(cfg: Config, s: Session, m: Inbound, messages: seq<Message>)
    requires Exchanges(s.history) && Asked(messages) in StepOn(cfg, s, m).events
    ensures Sendable(messages)
  {
    var call := if s.pending.Some? then s.pending.value
                else if m.answers.first.Some? && m.answers.first.value.toolCalls != [] then
                  m.answers.first.value.toolCalls[0]
                else ToolCall("", "", Json.Null, None);
    var result := if m.answers.tool.Some? then m.answers.tool.value else "";
    BuiltTranscripts(s.history, m.text, call, result);
    assert messages == WithUser(s.history, m.text)
           || messages == Continuation(WithUser(s.history, m.text), call, result);
  }

  // Every message list any run hands a provider is one both providers accept: user first and last, roles
  // alternating, each call right after a real user turn, each result right after the call with its id,
  // and Gemini's response name that call's name.
  lemma EveryTranscriptAccepted(w: World, run: seq<Inbound>, n: nat, messages: seq<Message>)
    requires Prompt(w.ttl, w.clock) && n < |run|
    requires Asked(messages) in StepAt(w, run, n).events
    ensures GeminiAccepts(GeminiForms(messages)) && AnthropicAccepts(AnthropicForms(messages))
  {
    HistoriesAreExchanges(w, run, n, run[n].key);
    SentIsAccepted(w, run, n, messages);
  }

  /* ---------- Exactly when every transcript is accepted ---------- */

  const LET_THROUGH := Some(Verdict(true, ""))

  // A message without a word, let through, answered without a Tool: two appends, whatever the session.
  function QuietMessage(key: string): Inbound {
    Inbound(key, "", Answers(LET_THROUGH, Some(LlmResponse("", [])), None, None, _ => LET_THROUGH), "")
  }

  // The LLM asks for `call`.
  function AskingMessage(key: string, call: ToolCall): Inbound {
    Inbound(key, "", Answers(LET_THROUGH, Some(LlmResponse("", [call])), None, None, _ => LET_THROUGH), "")
  }

  // An intercepted call, then `k` quiet messages.
  function OddRun(key: string, call: ToolCall, k: nat): seq<Inbound> {
    if k == 0 then [AskingMessage(key, call)] else OddRun(key, call, k - 1) + [QuietMessage(key)]
  }

  function QuietReply(s: Session): string {
    if s.pending.Some? then NUDGE_TEXT else ""
  }

  lemma QuietWrites(cfg: Config, key: string, s: Session)
    requires ':' in key
    ensures StepOn(cfg, s, QuietMessage(key)).writes == Exchange("", QuietReply(s))
  {
    assert ParseReply("") == Neither;
    assert [] + Exchange("", QuietReply(s)) == Exchange("", QuietReply(s));
  }

  lemma AskingWrites(cfg: Config, key: string, call: ToolCall)
    requires ':' in key && Decide(call.name, cfg.tools) == RequireConfirmation
    ensures |StepOn(cfg, EMPTY, AskingMessage(key, call)).writes| == 3
  {
    DenyWithoutTools(call.name);
  }

  lemma AskingCounts(w: World, key: string, call: ToolCall)
    requires ':' in key && Decide(call.name, w.cfg.tools) == RequireConfirmation
    ensures StoreAt(w, [AskingMessage(key, call)], 1).writeCount == 3
  {
    AskingWrites(w.cfg, key, call);
    hide StepOn, StoredAll, Decide;
    var run := [AskingMessage(key, call)];
    WritesAreCounted(w.ttl, w.clock, NOTHING, key, StepOn(w.cfg, EMPTY, run[0]).writes);
    assert StoreAt(w, run, 0) == NOTHING && View(NOTHING, key) == EMPTY;
  }

  lemma QuietCounts(w: World, key: string, before: seq<Inbound>)
    requires ':' in key
    ensures var run := before + [QuietMessage(key)];
            StoreAt(w, run, |run|).writeCount == StoreAt(w, before, |before|).writeCount + 2
  {
    hide StepOn, StoredAll, View, QuietReply;
    var run, s := before + [QuietMessage(key)], StoreAt(w, before, |before|);
    SameStart(w, before, run, |before|);
    QuietWrites(w.cfg, key, View(s, key));
    WritesAreCounted(w.ttl, w.clock, s, key, Exchange("", QuietReply(View(s, key))));
    assert StoreAt(w, run, |run|) == After(w, s, QuietMessage(key));
  }

  lemma {:induction false} OddRunCounts(w: World, key: string, call: ToolCall, k: nat, run: seq<Inbound>)
    requires ':' in key && Decide(call.name, w.cfg.tools) == RequireConfirmation && run == OddRun(key, call, k)
    ensures |run| == k + 1 && StoreAt(w, run, |run|).writeCount == 2 * k + 3
  {
    hide StoreAt, Decide;
    if k == 0 {
      AskingCounts(w, key, call);
    } else {
      OddRunCounts(w, key, call, k - 1, OddRun(key, call, k - 1));
      QuietCounts(w, key, OddRun(key, call, k - 1));
    }
  }

  // A sweep between the two appends of one turn, late enough to drop that very row, leaves half an exchange.
  lemma HalfAnExchange(ttl: real, clock: nat -> Tick, s: Store, key: string, text: string)
    requires Sweeps(s.writeCount) && clock(s.writeCount).sweepNow - clock(s.writeCount).now > ttl
    ensures View(StoredAll(ttl, clock, s, key, Exchange("", text)), key) == Session([Text(Assistant, text)], None)
  {
    StoredPair(ttl, clock, s, key, [], "", text);
    assert !Sweeps(s.writeCount + 1);
  }

  lemma LeavesHalfAnExchange(w: World, run: seq<Inbound>, i: nat, key: string) returns (text: string)
    requires i < |run| && run[i] == QuietMessage(key) && ':' in key
    requires var n := StoreAt(w, run, i).writeCount; Sweeps(n) && w.clock(n).sweepNow - w.clock(n).now > w.ttl
    ensures SessionAt(w, run, i + 1, key) == Session([Text(Assistant, text)], None)
  {
    hide StepOn, StoredAll, QuietReply;
    var s := StoreAt(w, run, i);
    text := QuietReply(View(s, key));
    QuietWrites(w.cfg, key, View(s, key));
    HalfAnExchange(w.ttl, w.clock, s, key, text);
  }

  lemma SweepsAreOdd(n: nat) returns (k: nat)
    requires Sweeps(n)
    ensures n == 2 * k + 3
  {
    var q := (n + 1) / 500;
    assert n + 1 == 500 * q;
    k := 250 * q - 2;
  }

  // With a Tool that needs a Confirmation one slow sweeping write is enough: some run then sends a transcript
  // that both providers reject.
  lemma SlowWriteBreaksATranscript(w: World, key: string, call: ToolCall, n: nat)
    returns (run: seq<Inbound>, messages: seq<Message>)
    requires ':' in key && Decide(call.name, w.cfg.tools) == RequireConfirmation
    requires Sweeps(n) && w.clock(n).sweepNow - w.clock(n).now > w.ttl
    ensures |run| > 0 && Asked(messages) in StepAt(w, run, |run| - 1).events
    ensures !GeminiAccepts(GeminiForms(messages)) && !AnthropicAccepts(AnthropicForms(messages))
  {
    hide StoreAt, View, StepOn, Decide, GeminiForms, AnthropicForms, GeminiAccepts, AnthropicAccepts, OddRun, Sweeps;
    var k := SweepsAreOdd(n);
    var before, last := OddRun(key, call, k), AskingMessage(key, call);
    OddRunCounts(w, key, call, k, before);
    run := before + [QuietMessage(key), last];
    SameStart(w, before, run, k + 1);
    var text := LeavesHalfAnExchange(w, run, k + 1, key);
    messages := [Text(Assistant, text), Text(User, "")];
    AsksFirst(w.cfg, SessionAt(w, run, k + 2, key), last, messages);
    StartsWithAssistant(messages);
  }

  lemma AsksFirst(cfg: Config, s: Session, m: Inbound, messages: seq<Message>)
    requires Passes(cfg, m) && s.pending == None && messages == WithUser(s.history, m.text)
    ensures Asked(messages) in StepOn(cfg, s, m).events
  {
    var step := Fresh(cfg, s, m.text, m.answers, m.rendered);
    assert step.events[0] == Asked(messages);
  }

  lemma StartsWithAssistant(messages: seq<Message>)
    requires messages != [] && messages[0].role == Assistant && messages[0].toolCalls == []
    ensures !GeminiAccepts(GeminiForms(messages)) && !AnthropicAccepts(AnthropicForms(messages))
  {
    assert !GeminiTurnFits(GeminiForms(messages), 0);
    assert !AnthropicTurnFits(AnthropicForms(messages), 0);
  }

  ghost predicate NothingToConfirm(cfg: Config) {
    forall name :: Decide(name, cfg.tools) != RequireConfirmation
  }

  // Without a Tool that needs a Confirmation a turn writes one exchange or nothing.
  lemma WritesAnExchange(cfg: Config, s: Session, m: Inbound)
    requires NothingToConfirm(cfg) && s.pending == None
    ensures StepOn(cfg, s, m).writes == []
            || exists text :: StepOn(cfg, s, m).writes == Exchange(m.text, text)
  {
    var step := StepOn(cfg, s, m);
    if step.reply.Some? {
      assert [] + Exchange(m.text, step.reply.value) == Exchange(m.text, step.reply.value);
    }
  }

  // Writes in pairs meet a sweep on the second one only, so a sweep never parts an exchange.
  lemma EvenExchange(ttl: real, clock: nat -> Tick, s: Store, key: string, userMessage: string, text: string)
    requires s.writeCount % 2 == 0
    ensures var s' := StoredAll(ttl, clock, s, key, Exchange(userMessage, text));
            var history := View(s', key).history;
            history == [] || history == View(s, key).history + [Text(User, userMessage), Text(Assistant, text)]
  {
    StoredPair(ttl, clock, s, key, [], userMessage, text);
    assert !Sweeps(s.writeCount);
  }

  lemma EvenStep(w: World, run: seq<Inbound>, n: nat, key: string)
    requires NothingToConfirm(w.cfg) && n < |run| && StoreAt(w, run, n).writeCount % 2 == 0
    requires Exchanges(SessionAt(w, run, n, key).history) && SessionAt(w, run, n, run[n].key).pending == None
    ensures StoreAt(w, run, n + 1).writeCount % 2 == 0 && Exchanges(SessionAt(w, run, n + 1, key).history)
  {
    hide StepOn, NothingToConfirm, Exchanges, StoredAll, View;
    var s, m := StoreAt(w, run, n), run[n];
    var ws := StepAt(w, run, n).writes;
    WritesAnExchange(w.cfg, View(s, m.key), m);
    WritesAreCounted(w.ttl, w.clock, s, m.key, ws);
    if m.key != key {
      OtherSession(w, run, n, key);
      NoHistoryIsExchanges();
    } else {
      EvenWrites(w.ttl, w.clock, s, key, m.text, ws);
    }
  }

  lemma EvenWrites(ttl: real, clock: nat -> Tick, s: Store, key: string, userMessage: string, ws: seq<Write>)
    requires s.writeCount % 2 == 0 && Exchanges(View(s, key).history)
    requires ws == [] || exists text :: ws == Exchange(userMessage, text)
    ensures Exchanges(View(StoredAll(ttl, clock, s, key, ws), key).history)
  {
    if ws != [] {
      var text :| ws == Exchange(userMessage, text);
      NoHistoryIsExchanges();
      EvenExchange(ttl, clock, s, key, userMessage, text);
      ExchangesGrow(View(s, key).history, userMessage, text);
    }
  }

  lemma InterceptedNeedsConfirmation(w: World, run: seq<Inbound>, n: nat, key: string, call: ToolCall)
    requires n <= |run| && Intercepted(w, run, n, key, call)
    ensures Decide(call.name, w.cfg.tools) == RequireConfirmation
  {
    var j :| 0 <= j < n && Intercepts(w, run, j, key, call) && Open(w, run, j, n, key);
  }

  lemma NothingIsPending(w: World, run: seq<Inbound>, n: nat, key: string)
    requires NothingToConfirm(w.cfg) && n <= |run|
    ensures SessionAt(w, run, n, key).pending == None
  {
    hide SessionAt, Intercepted;
    if SessionAt(w, run, n, key).pending.Some? {
      PendingWasIntercepted(w, run, n, key, SessionAt(w, run, n, key).pending.value);
      InterceptedNeedsConfirmation(w, run, n, key, SessionAt(w, run, n, key).pending.value);
    }
  }

  lemma {:induction false} EvenHistories(w: World, run: seq<Inbound>, n: nat, key: string)
    requires NothingToConfirm(w.cfg) && n <= |run|
    ensures StoreAt(w, run, n).writeCount % 2 == 0 && Exchanges(SessionAt(w, run, n, key).history)
  {
    hide NothingToConfirm, StepOn, StoredAll;
    if n > 0 {
      EvenHistories(w, run, n - 1, key);
      NothingIsPending(w, run, n - 1, run[n - 1].key);
      EvenStep(w, run, n - 1, key);
    }
  }

  ghost predicate AllTranscriptsAccepted(w: World) {
    forall run: seq<Inbound>, n: nat, messages :: n < |run| && Asked(messages) in StepAt(w, run, n).events ==>
      GeminiAccepts(GeminiForms(messages)) && AnthropicAccepts(AnthropicForms(messages))
  }

  lemma SentIsAccepted(w: World, run: seq<Inbound>, n: nat, messages: seq<Message>)
    requires n < |run| && Exchanges(SessionAt(w, run, n, run[n].key).history)
    requires Asked(messages) in StepAt(w, run, n).events
    ensures GeminiAccepts(GeminiForms(messages)) && AnthropicAccepts(AnthropicForms(messages))
  {
    TurnSendsSendable(w.cfg, SessionAt(w, run, n, run[n].key), run[n], messages);
    GeminiTakesSendable(messages);
    AnthropicTakesSendable(messages);
  }

  // Every transcript of every run is accepted exactly when no sweeping write is slower than the idle
  // time-to-live, or no Tool needs a Confirmation.
  lemma AcceptedExactlyWhenPrompt(w: World)
    ensures AllTranscriptsAccepted(w) <==> Prompt(w.ttl, w.clock) || NothingToConfirm(w.cfg)
  {
    hide StepAt, GeminiForms, AnthropicForms, GeminiAccepts, AnthropicAccepts, Exchanges, SessionAt, Decide;
    if !Prompt(w.ttl, w.clock) && !NothingToConfirm(w.cfg) {
      var n: nat :| Sweeps(n) && w.clock(n).sweepNow - w.clock(n).now > w.ttl;
      var name :| Decide(name, w.cfg.tools) == RequireConfirmation;
      var run, messages := SlowWriteBreaksATranscript(w, ":", ToolCall("", name, Json.Null, None), n);
    } else {
      forall run: seq<Inbound>, n: nat, messages | n < |run| && Asked(messages) in StepAt(w, run, n).events
        ensures GeminiAccepts(GeminiForms(messages)) && AnthropicAccepts(AnthropicForms(messages))
      {
        if Prompt(w.ttl, w.clock) {
          HistoriesAreExchanges(w, run, n, run[n].key);
        } else {
          EvenHistories(w, run, n, run[n].key);
        }
        SentIsAccepted(w, run, n, messages);
      }
    }
  }
}
