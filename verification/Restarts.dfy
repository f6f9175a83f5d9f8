// Conversation runs across process restarts: session/sqlite_store.py keeps history and pending requests on disk,
// so that they outlive deploys, crashes and reboots, while the config is loaded afresh by each process
// (conversation.py).
module Restarts {
  import opened Common
  import opened Messages
  import opened Sessions
  import opened ToolRail
  import opened Conversation
  import opened ConversationRuns

  // A message handled to the end; one whose process dies after its first `writes` session writes; a restart in
  // between. The next process has a config and a clock of its own.
  datatype Happening =
    | Handled(m: Inbound)
    | Crashed(m: Inbound, writes: nat, next: World)
    | Restarted(next: World)

  datatype Process = Process(world: World, store: Store)

  // The rows are kept, the write count starts over.
  function Reopened(w: World, s: Store): Process {
    Process(w, Store(s.rows, 0))
  }

  function Turned(p: Process, m: Inbound): Step {
    StepOn(p.world.cfg, View(p.store, m.key), m)
  }

  // The session writes that get done.
  function Done(p: Process, h: Happening): seq<Write> {
    match h
    case Handled(m) => Turned(p, m).writes
    case Crashed(m, writes, _) =>
      var ws := Turned(p, m).writes;
      if writes < |ws| then ws[..writes] else ws
    case Restarted(_) => []
  }

  function StoredBy(p: Process, h: Happening): Store {
    if h.Restarted? then p.store else StoredAll(p.world.ttl, p.world.clock, p.store, h.m.key, Done(p, h))
  }

  function Next(p: Process, h: Happening): Process {
    if h.Handled? then Process(p.world, StoredBy(p, h)) else Reopened(h.next, StoredBy(p, h))
  }

  function ProcessAt(w: World, run: seq<Happening>, n: nat): Process
    requires n <= |run|
  {
    if n == 0 then Process(w, NOTHING) else Next(ProcessAt(w, run, n - 1), run[n - 1])
  }

  function KeptAt(w: World, run: seq<Happening>, n: nat, key: string): Session
    requires n <= |run|
  {
    View(ProcessAt(w, run, n).store, key)
  }

  function ConfigAt(w: World, run: seq<Happening>, n: nat): Config
    requires n <= |run|
  {
    ProcessAt(w, run, n).world.cfg
  }

  predicate Takes(h: Happening, key: string) {
    !h.Restarted? && h.m.key == key
  }

  // The Tool runs in turn `n`; a turn that dies may run it or die before.
  predicate MayExecute(w: World, run: seq<Happening>, n: nat, call: ToolCall)
    requires n < |run|
  {
    !run[n].Restarted? && Executed(call) in Turned(ProcessAt(w, run, n), run[n].m).events
  }

  // A run without restarts is a run of one process.
  lemma {:induction false} SameWithoutRestarts(w: World, messages: seq<Inbound>, run: seq<Happening>, n: nat)
    requires n <= |messages| <= |run| && forall k :: 0 <= k < n ==> run[k] == Handled(messages[k])
    ensures ProcessAt(w, run, n) == Process(w, StoreAt(w, messages, n))
  {
    if n > 0 { SameWithoutRestarts(w, messages, run, n - 1); }
  }

  /* ---------- What is pending ---------- */

  lemma OnlyFirstSetsPending(cfg: Config, s: Session, m: Inbound)
    ensures forall i :: 1 <= i < |StepOn(cfg, s, m).writes| ==> StepOn(cfg, s, m).writes[i].Append?
  {
  }

  lemma {:induction false} AppendsKeepPending(s: Session, ws: seq<Write>, k: nat)
    requires 1 <= k <= |ws| && forall i :: 1 <= i < |ws| ==> ws[i].Append?
    ensures AppliedAll(s, ws[..k]).pending == AppliedAll(s, ws[..1]).pending
  {
    if k > 1 {
      AppendsKeepPending(s, ws, k - 1);
      assert ws[..k][..k - 1] == ws[..k - 1] && ws[..k][k - 1] == ws[k - 1];
    }
  }

  // A turn cut short has changed the pending request as the whole turn would, or not at all.
  lemma DonePending(p: Process, h: Happening)
    requires !h.Restarted?
    ensures var s := View(p.store, h.m.key);
            AppliedAll(s, Done(p, h)).pending
            == if Done(p, h) == [] then s.pending else SessionAfter(p.world.cfg, s, h.m).pending
  {
    var s, ws := View(p.store, h.m.key), Turned(p, h.m).writes;
    OnlyFirstSetsPending(p.world.cfg, s, h.m);
    hide StepOn;
    if Done(p, h) != [] {
      AppendsKeepPending(s, ws, |Done(p, h)|);
      AppendsKeepPending(s, ws, |ws|);
      assert ws[..|Done(p, h)|] == Done(p, h) && ws[..|ws|] == ws;
    }
  }

  // The turn wants `call` confirmed and stores the request.
  predicate StoresRequest(p: Process, h: Happening, key: string, call: ToolCall) {
    Takes(h, key) && Passes(p.world.cfg, h.m) && View(p.store, key).pending == None && Wants(p.world.cfg, h.m, call)
      && Done(p, h) != []
  }

  predicate ClearsRequest(p: Process, h: Happening, key: string) {
    Takes(h, key) && Settles(p.world.cfg, h.m) && Done(p, h) != []
  }

  lemma PendingStep(p: Process, h: Happening, key: string, call: ToolCall)
    requires View(Next(p, h).store, key).pending == Some(call)
    ensures StoresRequest(p, h, key, call) || (View(p.store, key).pending == Some(call) && !ClearsRequest(p, h, key))
    ensures key in Next(p, h).store.rows
  {
    if Takes(h, key) {
      OwnRowOrGone(p.world.ttl, p.world.clock, p.store, key, Done(p, h));
      DonePending(p, h);
      TurnApplied(p.world.cfg, View(p.store, key), h.m);
      SettledTurnWrites(p, h);
    } else if !h.Restarted? {
      OtherRows(p.world.ttl, p.world.clock, p.store, h.m.key, Done(p, h), key);
    }
  }

  lemma SettledTurnWrites(p: Process, h: Happening)
    requires !h.Restarted?
    ensures Done(p, h) == [] ==> AppliedAll(View(p.store, h.m.key), Done(p, h)) == View(p.store, h.m.key)
  {
  }

  predicate Intercepts(w: World, run: seq<Happening>, j: nat, key: string, call: ToolCall)
    requires j < |run|
  {
    StoresRequest(ProcessAt(w, run, j), run[j], key, call)
  }

  // Happening `k` neither clears the session's request nor drops its row.
  predicate LeavesOpen(w: World, run: seq<Happening>, k: nat, key: string)
    requires k < |run|
  {
    !ClearsRequest(ProcessAt(w, run, k), run[k], key) && key in ProcessAt(w, run, k + 1).store.rows
  }

  ghost predicate Open(w: World, run: seq<Happening>, j: nat, i: nat, key: string)
    requires i <= |run|
  {
    forall k :: j < k < i ==> LeavesOpen(w, run, k, key)
  }

  ghost predicate Intercepted(w: World, run: seq<Happening>, i: nat, key: string, call: ToolCall)
    requires i <= |run|
  {
    exists j :: 0 <= j < i && Intercepts(w, run, j, key, call) && Open(w, run, j, i, key)
  }

  // Through any restarts and crashes, under any configs and clocks, a pending call was intercepted by an earlier
  // turn of the same session and is still open.
  lemma {:induction false} PendingWasIntercepted(w: World, run: seq<Happening>, i: nat, key: string, call: ToolCall)
    requires i <= |run| && KeptAt(w, run, i, key).pending == Some(call)
    ensures Intercepted(w, run, i, key, call)
  {
    if i > 0 {
      hide StoresRequest, ClearsRequest, Next;
      PendingStep(ProcessAt(w, run, i - 1), run[i - 1], key, call);
      if Intercepts(w, run, i - 1, key, call) {
        assert Open(w, run, i - 1, i, key);
      } else {
        PendingWasIntercepted(w, run, i - 1, key, call);
        var j :| 0 <= j < i - 1 && Intercepts(w, run, j, key, call) && Open(w, run, j, i - 1, key);
        assert Open(w, run, j, i, key);
      }
    }
  }

  /* ---------- Which Tools run ---------- */

  // The LLM asks for `call` first on a fresh turn and the Tool Rail of the day allows it.
  predicate AllowedFresh(w: World, run: seq<Happening>, n: nat, call: ToolCall)
    requires n < |run| && !run[n].Restarted?
  {
    var m := run[n].m;
    && KeptAt(w, run, n, m.key).pending == None && Decide(call.name, ConfigAt(w, run, n).tools) == Allow
    && m.answers.first.Some? && m.answers.first.value.toolCalls != [] && m.answers.first.value.toolCalls[0] == call
  }

  // A "yes" runs the pending call whatever the present config says of its Tool.
  lemma ExecutesExactly(w: World, run: seq<Happening>, n: nat, call: ToolCall)
    requires n < |run| && !run[n].Restarted?
    ensures MayExecute(w, run, n, call) <==>
            && Passes(ConfigAt(w, run, n), run[n].m)
            && (|| (KeptAt(w, run, n, run[n].m.key).pending == Some(call) && ParseReply(run[n].m.text) == Yes)
                || AllowedFresh(w, run, n, call))
  {
    TurnExecutes(ConfigAt(w, run, n), KeptAt(w, run, n, run[n].m.key), run[n].m, call);
  }

  // Safety over restarts: a Tool the present config does not simply allow runs only on a "yes" to a request that
  // an earlier turn of the same session, under the config of its day, intercepted and that is still open.
  lemma ExecutedWasIntercepted(w: World, run: seq<Happening>, i: nat, call: ToolCall)
    requires i < |run| && Decide(call.name, ConfigAt(w, run, i).tools) != Allow && MayExecute(w, run, i, call)
    ensures Passes(ConfigAt(w, run, i), run[i].m) && ParseReply(run[i].m.text) == Yes
    ensures KeptAt(w, run, i, run[i].m.key).pending == Some(call) && Intercepted(w, run, i, run[i].m.key, call)
  {
    hide KeptAt, ConfigAt, Intercepted, Passes, Decide, ParseReply;
    ExecutesExactly(w, run, i, call);
    PendingWasIntercepted(w, run, i, run[i].m.key, call);
  }

  lemma {:induction false} SameWorld(w: World, run: seq<Happening>, j: nat, i: nat)
    requires j <= i <= |run| && forall k :: j <= k < i ==> run[k].Handled?
    ensures ProcessAt(w, run, i).world == ProcessAt(w, run, j).world
  {
    hide StoredBy;
    if j < i { SameWorld(w, run, j, i - 1); }
  }

  // A Tool the present config denies runs exactly when a request for it is pending and the message says "yes" -
  // and that request was stored before a restart, when the Tool still needed a Confirmation.
  lemma DeniedRunsExactly(w: World, run: seq<Happening>, i: nat, call: ToolCall)
    requires i < |run| && !run[i].Restarted? && Decide(call.name, ConfigAt(w, run, i).tools) == Deny
    ensures MayExecute(w, run, i, call) <==>
            && Passes(ConfigAt(w, run, i), run[i].m) && ParseReply(run[i].m.text) == Yes
            && KeptAt(w, run, i, run[i].m.key).pending == Some(call)
    ensures MayExecute(w, run, i, call) ==> StoredBeforeARestart(w, run, i, run[i].m.key, call)
  {
    hide KeptAt, Passes, ParseReply, StoredBeforeARestart;
    ExecutesExactly(w, run, i, call);
    if MayExecute(w, run, i, call) {
      PendingWasIntercepted(w, run, i, run[i].m.key, call);
      InterceptedBeforeARestart(w, run, i, run[i].m.key, call);
    }
  }

  ghost predicate StoredBeforeARestart(w: World, run: seq<Happening>, i: nat, key: string, call: ToolCall)
    requires i <= |run|
  {
    exists j, k :: 0 <= j <= k < i && !run[k].Handled? && Intercepts(w, run, j, key, call)
                   && Decide(call.name, ConfigAt(w, run, j).tools) == RequireConfirmation
  }

  lemma InterceptedBeforeARestart(w: World, run: seq<Happening>, i: nat, key: string, call: ToolCall)
    requires i <= |run| && Intercepted(w, run, i, key, call)
    requires Decide(call.name, ConfigAt(w, run, i).tools) != RequireConfirmation
    ensures StoredBeforeARestart(w, run, i, key, call)
  {
    var j :| 0 <= j < i && Intercepts(w, run, j, key, call) && Open(w, run, j, i, key);
    assert Decide(call.name, ConfigAt(w, run, j).tools) == RequireConfirmation;
    hide ProcessAt, Intercepts, Open, Decide;
    if forall k :: j <= k < i ==> run[k].Handled? {
      SameWorld(w, run, j, i);
    }
    var k :| j <= k < i && !run[k].Handled?;
  }

  // The failing input: the owner disables the Tool, the process restarts, and the Customer's "yes" still runs it.
  lemma DisabledToolStillRuns(w: World, next: World, key: string, call: ToolCall) returns (run: seq<Happening>)
    requires ':' in key && Decide(call.name, w.cfg.tools) == RequireConfirmation
    requires Decide(call.name, next.cfg.tools) == Deny
    ensures |run| == 3 && run[0].Handled? && run[1] == Restarted(next) && run[2].Handled?
    ensures MayExecute(w, run, 2, call)
  {
    var yes := AskingMessage(key, call).(text := "yes");
    var ask := AskingMessage(key, call);
    run := [Handled(ask), Restarted(next), Handled(yes)];
    SaysYes();
    FirstTurnPending(w, [ask], key, call);
    SameWithoutRestarts(w, [ask], run, 1);
    assert KeptAt(w, run, 2, key) == KeptAt(w, run, 1, key) && ConfigAt(w, run, 2) == next.cfg;
    ExecutesExactly(w, run, 2, call);
  }

  /* ---------- Transcripts ---------- */

  // The process died between the two appends of the exchange.
  predicate HalfStored(p: Process, h: Happening) {
    h.Crashed? && Turned(p, h.m).reply.Some? && |Done(p, h)| + 1 == |Turned(p, h.m).writes|
  }

  lemma LastTwoAreTheExchange(cfg: Config, s: Session, m: Inbound)
    ensures var step := StepOn(cfg, s, m); var n := |step.writes|;
            && (forall i :: 0 <= i < n - (if step.reply.Some? then 2 else 0) ==> step.writes[i].SetPending?)
            && (step.reply.Some? ==> n >= 2 && step.writes[n - 2..] == Exchange(m.text, step.reply.value))
  {
  }

  lemma {:induction false} SetsKeepHistory(s: Session, ws: seq<Write>)
    requires forall i :: 0 <= i < |ws| ==> ws[i].SetPending?
    ensures AppliedAll(s, ws).history == s.history
  {
    if ws != [] { SetsKeepHistory(s, ws[..|ws| - 1]); }
  }

  // What a turn, cut short or not, has made of the history.
  lemma DoneHistory(p: Process, h: Happening)
    requires !h.Restarted?
    ensures var s := View(p.store, h.m.key);
            AppliedAll(s, Done(p, h)).history
            == if HalfStored(p, h) then s.history + [Text(User, h.m.text)]
               else if Done(p, h) == Turned(p, h.m).writes then SessionAfter(p.world.cfg, s, h.m).history
               else s.history
  {
    var s, ws, done := View(p.store, h.m.key), Turned(p, h.m).writes, Done(p, h);
    LastTwoAreTheExchange(p.world.cfg, s, h.m);
    hide StepOn;
    if HalfStored(p, h) {
      var k := |done| - 1;
      assert done[k] == ws[k] == ws[k..][0] == Append(Text(User, h.m.text));
      assert done[..k] == ws[..k];
      SetsKeepHistory(s, done[..k]);
    } else if done != ws {
      SetsKeepHistory(s, done);
    }
  }

  // A turn keeps whole exchanges exactly when its process does not die between the two appends.
  lemma ExchangesExactlyUnlessHalfStored(p: Process, h: Happening)
    requires !h.Restarted? && Prompt(p.world.ttl, p.world.clock) && Exchanges(View(p.store, h.m.key).history)
    ensures Exchanges(View(Next(p, h).store, h.m.key).history) <==> !HalfStored(p, h)
  {
    hide Done, HalfStored, StepOn, SessionAfter, StoredAll, Alternates;
    var s := View(p.store, h.m.key);
    DoneHistory(p, h);
    TurnKeepsExchanges(p.world.cfg, s, h.m);
    assert PromptBetween(p.world.ttl, p.world.clock, p.store.writeCount, p.store.writeCount + |Done(p, h)|);
    OwnWritesOnly(p.world.ttl, p.world.clock, p.store, h.m.key, Done(p, h));
    assert |s.history + [Text(User, h.m.text)]| == |s.history| + 1;
  }

  predicate NoneHalfStored(w: World, run: seq<Happening>, n: nat)
    requires n <= |run|
  {
    forall k :: 0 <= k < n ==> !HalfStored(ProcessAt(w, run, k), run[k])
  }

  // Every process of the run has prompt sweeps.
  ghost predicate AllPrompt(w: World, run: seq<Happening>) {
    && Prompt(w.ttl, w.clock)
    && forall k :: 0 <= k < |run| && !run[k].Handled? ==> Prompt(run[k].next.ttl, run[k].next.clock)
  }

  lemma {:induction false} PromptAt(w: World, run: seq<Happening>, n: nat)
    requires AllPrompt(w, run) && n <= |run|
    ensures Prompt(ProcessAt(w, run, n).world.ttl, ProcessAt(w, run, n).world.clock)
  {
    hide StoredBy, Prompt;
    if n > 0 { PromptAt(w, run, n - 1); }
  }

  lemma HistoryStep(p: Process, h: Happening, key: string)
    requires Prompt(p.world.ttl, p.world.clock) && !HalfStored(p, h) && Exchanges(View(p.store, key).history)
    ensures Exchanges(View(Next(p, h).store, key).history)
  {
    if Takes(h, key) {
      ExchangesExactlyUnlessHalfStored(p, h);
    } else if !h.Restarted? {
      NoHistoryIsExchanges();
      OtherRows(p.world.ttl, p.world.clock, p.store, h.m.key, Done(p, h), key);
    }
  }

  lemma {:induction false} HistoriesAreExchanges(w: World, run: seq<Happening>, n: nat, key: string)
    requires AllPrompt(w, run) && n <= |run| && NoneHalfStored(w, run, n)
    ensures Exchanges(KeptAt(w, run, n, key).history)
  {
    hide Next, HalfStored, Exchanges, AllPrompt;
    if n == 0 {
      NoHistoryIsExchanges();
    } else {
      HistoriesAreExchanges(w, run, n - 1, key);
      PromptAt(w, run, n - 1);
      NextHistory(w, run, n - 1, key);
    }
  }

  lemma NextHistory(w: World, run: seq<Happening>, n: nat, key: string)
    requires n < |run| && !HalfStored(ProcessAt(w, run, n), run[n]) && Exchanges(KeptAt(w, run, n, key).history)
    requires Prompt(ProcessAt(w, run, n).world.ttl, ProcessAt(w, run, n).world.clock)
    ensures Exchanges(KeptAt(w, run, n + 1, key).history)
  {
    hide HalfStored, Next, Exchanges, Prompt;
    HistoryStep(ProcessAt(w, run, n), run[n], key);
  }

  // Through any restarts, and crashes anywhere but between the two appends, every transcript is accepted.
  lemma EveryTranscriptAccepted(w: World, run: seq<Happening>, n: nat, messages: seq<Message>)
    requires AllPrompt(w, run) && n < |run| && NoneHalfStored(w, run, n)
    requires !run[n].Restarted? && Asked(messages) in Turned(ProcessAt(w, run, n), run[n].m).events
    ensures GeminiAccepts(GeminiForms(messages)) && AnthropicAccepts(AnthropicForms(messages))
  {
    HistoriesAreExchanges(w, run, n, run[n].m.key);
    TurnSendsSendable(ConfigAt(w, run, n), KeptAt(w, run, n, run[n].m.key), run[n].m, messages);
    GeminiTakesSendable(messages);
    AnthropicTakesSendable(messages);
  }

  // The failing input: the process dies after the first append of a turn, and the session's next transcript ends
  // in two user turns.
  lemma CrashBreaksATranscript(w: World, next: World, key: string) returns (run: seq<Happening>, messages: seq<Message>)
    requires ':' in key
    ensures |run| == 2 && HalfStored(ProcessAt(w, run, 0), run[0])
    ensures run[1].Handled? && Asked(messages) in Turned(ProcessAt(w, run, 1), run[1].m).events
    ensures !GeminiAccepts(GeminiForms(messages)) && !AnthropicAccepts(AnthropicForms(messages))
  {
    run := [Crashed(QuietMessage(key), 1, next), Handled(QuietMessage(key))];
    messages := [Text(User, ""), Text(User, "")];
    var p := Process(w, NOTHING);
    assert ProcessAt(w, run, 0) == p && View(NOTHING, key) == EMPTY;
    QuietWrites(w.cfg, key, EMPTY);
    QuietIsAnswered(w.cfg, key);
    hide StepOn;
    assert Done(p, run[0]) == [Append(Text(User, ""))];
    FirstAppend(w, key);
    assert KeptAt(w, run, 1, key) == Session([Text(User, "")], None);
    AsksFirst(next.cfg, Session([Text(User, "")], None), QuietMessage(key), messages);
    TwoUserTurns(messages);
  }

  lemma QuietIsAnswered(cfg: Config, key: string)
    requires ':' in key
    ensures StepOn(cfg, EMPTY, QuietMessage(key)).reply.Some?
  {
  }

  lemma FirstAppend(w: World, key: string)
    ensures View(StoredAll(w.ttl, w.clock, NOTHING, key, [Append(Text(User, ""))]), key)
            == Session([Text(User, "")], None)
  {
    StoredOne(w.ttl, w.clock, NOTHING, key, Append(Text(User, "")));
  }

  lemma TwoUserTurns(messages: seq<Message>)
    requires messages == [Text(User, ""), Text(User, "")]
    ensures !GeminiAccepts(GeminiForms(messages)) && !AnthropicAccepts(AnthropicForms(messages))
  {
    assert !GeminiTurnFits(GeminiForms(messages), 1);
    assert !AnthropicTurnFits(AnthropicForms(messages), 1);
  }
}
