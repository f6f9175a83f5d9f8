# A verified model of the adaptive agent

A Dafny model of a multi-business chat agent: the Interface Layer that takes inbound messages, the conversation
runtime with its rails and Confirmation Requests, the stores behind them, the owner-defined entity tables, and the
Business Config writer. `dafny verify dfyconfig.toml` checks the whole project.

Objects that the program updates in place are classes whose methods are proved against functions of the old state;
the theorems are lemmas about those functions and about whole runs of them. Everything outside the program - LLM
replies, rail verdicts, Tool results, clock readings, generated ids, SQLite's own rules for names and number
conversion - is a parameter and ranges over every value. A call that raises is an answer `None`.

| file | models |
|---|---|
| `InterfaceLayer.dfy` | dedupe, rate limit, routing and handling of one request, and runs of requests |
| `Dedupe.dfy`, `RateLimiter.dfy` | the two time-windowed structures and the unpruned logs they answer for |
| `Conversation.dfy`, `ConversationRuns.dfy` | one turn, and runs of turns over any interleaving of sessions |
| `Replies.dfy` | the same in the words themselves: what each answer does, says and sends |
| `Restarts.dfy` | the same across restarts and crashes, each process with a config of its own |
| `Sessions.dfy` | the SQLite session store with its idle sweep, and the in-memory store it simulates |
| `ToolRail.dfy`, `Messages.dfy` | the Tool gate; native transcripts for the two LLM providers |
| `SqlEngine.dfy`, `Entities.dfy`, `EntityRepository.dfy` | physical tables; the plain map of maps; the repository refining it |
| `Refusals.dfy` | what the repository refuses, and what no table therefore ever holds |
| `CrudTools.dfy`, `AdminTables.dfy`, `Menu.dfy` | the generated Tools, the admin routes, the menu adapter on top of it |
| `TableSafety.dfy` | conversation runs, Tool Rail and provider together: who can change an owner's table |
| `Common.dfy`, `Json.dfy` | Option and Result; JSON trees |
| `ConfigPatch.dfy` | the config patch: key collection and deep merge over JSON trees |
| `WhatsAppRegistry.dfy` | which Business serves which phone id |

## Promises that hold only under a condition

Each is proved with a failing input and the exact condition under which the promise holds.

- A confirmed Tool can run twice. The Tool runs before the request is cleared, so a continuation that raises leaves
  the request open and the next yes runs it again (`RaisingContinuationRunsTwice`); the request is used up exactly
  when both calls return (`UsedUpExactlyWhenReturned`).
- The Tool Rail is not asked again on a yes: a request stored before a restart runs although the config loaded since
  denies its Tool, a disabled one for instance (`DisabledToolStillRuns`); `DeniedRunsExactly` says exactly when.
- Providers accept every transcript exactly when no sweeping write is slower than the session time-to-live, or no Tool
  needs a Confirmation: a sweep between a turn's two appends that drops that very session leaves half an exchange
  (`SlowWriteBreaksATranscript`, `AcceptedExactlyWhenPrompt`). So does a process that dies between them
  (`CrashBreaksATranscript`, `ExchangesExactlyUnlessHalfStored`).
- The limiter's sweep is unobservable exactly when its idle time-to-live covers the 60-second window
  (`AgreesExactlyWhenTtlCoversWindow`; `ShortTtlForgetsABurst` builds the run that tells them apart).
- The editable set does not bound what a config patch changes: an empty mapping contributes no key yet replaces a
  plain value, and a key containing a dot passes for the path it spells (`EmptyMappingSlipsThrough`,
  `DottedKeySlipsThrough`). `FrameExactly` gives the condition for every patch and base.
- `provided_id or uuid4()` treats a falsy id as absent, so the generated update Tool, given the number 0 for the text
  id "0", adds a row instead (`FalsyIdIsReachable`, `InPlaceExactlyWhenIdIsTruthy`). No caller in the program stores
  such a row in a plain table: the create Tool and the create route strip the id, and menu seeding writes a
  tool-linked table, which the provider refuses. It takes a direct `upsert_row`.
- Deleting a tool-linked table removes hand-written Tools that happen to bear its four generated names
  (`LinkedDeleteRemovesAHandWrittenTool`, `LinkedDeleteExactly`), and a config update that fails after its table was
  created or dropped leaves Tools and tables out of step (`InStepExactlyWhenClean`).
- A menu table keyed by AUTOINCREMENT, which table creation accepts, refuses every item whose name is no integer
  (`SeedsExactlyWhenNameIsAnId`, `SeedsAnyListExactlyWhenUuid`).
- The WhatsApp scan skips a Business whose config fails to load, but only on a config error: a business.yaml that cannot
  be decoded stops the scan for every Business (`UndecodableFileStopsTheScan`, `BrokenBusinessIsIsolated`).

## Reading the theorems

- A run is a sequence of serial turns of one process, which starts with an empty store and serves one config; runs in
  `Restarts` also restart and crash, keeping the session rows, loading a new config and counting writes from zero.
- `Prompt` says that no sweeping write, every 500th, takes longer than the session time-to-live from its row to its
  sweep; theorems that do not assume it hold for every clock. `Forgets` marks a turn of another session whose sweep
  drops an idle row.
- `Intercepts` claims that the call was stored as a Confirmation Request, not that the Customer saw the prompt: the
  Output Rail may replace it afterwards.
- The clock of a session store is indexed by write number and gives two readings, one for the row and one for the
  sweep.
- `required` does not become NOT NULL when a column is added later, so a table's strict fields are kept apart from
  its metadata; agreement covers names, order and types.
- A row's id is its key; its fields are the other columns.
- Seeding a menu writes whole rows, so columns beyond the four of a menu item become null again.

## Model

| member | source | states |
|---|---|---|
| Conversation.ConversationRuntime.HandleMessage | src/adaptive_agent/conversation.py:79-116 | one message: a key without a colon raises before anything is stored; otherwise the reply, the outside effects and the whole store are those of the turn function on this session alone, for every verdict, LLM reply and Tool result and for every call that may raise |
| Conversation.ConversationRuntime.ResolveConfirmation | src/adaptive_agent/conversation.py:118-152 | a yes runs the pending call, then asks the LLM, and only then clears the request; a no clears it; anything else stores nothing; the effects made before a raise stay |
| Conversation.ConversationRuntime.FreshTurn | src/adaptive_agent/conversation.py:154-188 | asks the LLM with the history and this message; only the first tool call counts, and none when no Tools are configured |
| Conversation.ConversationRuntime.HandleToolCall | src/adaptive_agent/conversation.py:190-214 | allow runs the Tool, require-confirmation stores the request and runs nothing, deny does neither |
| ConversationRuns.TurnApplied | src/adaptive_agent/conversation.py:79-214 | what any turn does to its session: history grows by exactly the user message and the reply (by nothing if the turn raised); the pending request changes exactly as its own conditions on verdict, reply and answers say |
| ConversationRuns.InnerApplied | src/adaptive_agent/conversation.py:118-214 | behind the Input Rail the step never touches history; a pending request is dropped exactly when it is settled, and a request is stored exactly when the LLM wants a Tool that needs a Confirmation |
| ConversationRuns.NextSession | src/adaptive_agent/session/sqlite_store.py:94-116 | one message changes its own session by its turn, and any other session not at all unless the turn's sweep forgets it |
| ConversationRuns.ForgetsExactlyTheIdle | src/adaptive_agent/session/sqlite_store.py:110-116 | a turn forgets another session if and only if one of its sweeps comes later than the idle time-to-live after that session's last write |
| ConversationRuns.NextPendingOrGone | src/adaptive_agent/session/sqlite_store.py:76-116 | whatever the clock does, a turn's own sweep can lose the request it leaves but not change it |
| ConversationRuns.PendingIsIntercepted | src/adaptive_agent/conversation.py:97-114 | in any run a call is pending exactly when an earlier turn of the same session intercepted it and nothing has settled or swept it since |
| ConversationRuns.PendingWasIntercepted | src/adaptive_agent/conversation.py:97-214 | the safety half, with no condition on any clock: a pending call was intercepted by an earlier turn of the same session and is still open |
| ConversationRuns.TurnExecutes | src/adaptive_agent/conversation.py:133-202 | no turn runs two Tools; which call it runs, if and only if |
| ConversationRuns.ConfirmedExecution | src/adaptive_agent/conversation.py:79-214 | run-level safety: a Tool that needs a Confirmation runs if and only if a yes passes the Input Rail while a request for exactly that call, intercepted by an earlier turn of the same session, is still open |
| ConversationRuns.ExecutedWasIntercepted | src/adaptive_agent/conversation.py:79-214 | its only-if half needs no condition on any clock, and the call that runs is the one pending |
| ConversationRuns.OtherExecutions | src/adaptive_agent/conversation.py:190-214 | as long as one process serves one config, a denied Tool never runs, and an allowed one runs exactly when asked for first on a fresh turn |
| ConversationRuns.OnlyNudgesInBetween | src/adaptive_agent/conversation.py:118-152 | when external calls return, every message of the session between the interception and the yes was blocked by the Input Rail or was neither yes nor no |
| ConversationRuns.UsedUpExactlyWhenReturned | src/adaptive_agent/conversation.py:137-143 | after a confirmed execution the request is gone exactly when both the Tool call and the LLM continuation returned; otherwise the same call is still pending |
| ConversationRuns.OneExecutionPerRequest | src/adaptive_agent/conversation.py:118-214 | two confirmed executions of one session, the first of which returned, answer two different requests |
| ConversationRuns.RaisingContinuationRunsTwice | src/adaptive_agent/conversation.py:137-143 | the counterexample to at-most-once: for every session, call and configuration, a continuation that raises leaves the request open and a second yes runs the same call again |
| ConversationRuns.SessionIsAlone | src/adaptive_agent/session/sqlite_store.py:62-116 | in any interleaving and with any sweeps a session is what its own messages since it was last forgotten make it |
| ConversationRuns.Isolation | src/adaptive_agent/conversation.py:79-116 | with no sweep of the session, turn n of the interleaved run - writes, reply, executions, transcripts - and the session it starts from equal those of the run holding only that session's messages |
| ConversationRuns.IsolationInTime | src/adaptive_agent/conversation.py:79-116 | the same from a condition on the clock: no other session's turn sweeps later than the time-to-live after this session's last write |
| ConversationRuns.BlockedReachesNothing | src/adaptive_agent/conversation.py:91-102 | a message the Input Rail does not pass reaches neither the LLM nor a Tool and leaves the pending request alone |
| ConversationRuns.ReplyIsCleared | src/adaptive_agent/conversation.py:91-116 | every reply is the Input Rail's refusal of its message, or a draft the Output Rail let through, or the Output Rail's refusal of a draft |
| ConversationRuns.EveryTextIsCleared | src/adaptive_agent/conversation.py:91-116 | every assistant text in any history after any run, whatever the clocks do, is an Input Rail refusal or left through the Output Rail, for a message of that same session |
| ConversationRuns.HistoriesAreExchanges | src/adaptive_agent/conversation.py:100-115 | every stored history is whole exchanges, through confirmations, refusals, raised turns and sweeps |
| ConversationRuns.TurnSendsSendable | src/adaptive_agent/agent_core.py:53-104 | from such a history every message list a turn sends is a plain history ending in the user's turn, or that followed by one call and its own result |
| ConversationRuns.EveryTranscriptAccepted | src/adaptive_agent/conversation.py:133-203 | every message list any run hands a provider is accepted by both providers' rules |
| ConversationRuns.SlowWriteBreaksATranscript | src/adaptive_agent/session/sqlite_store.py:94-116 | with a Tool that needs a Confirmation, one sweeping write slower than the idle time-to-live between a turn's two appends leaves half an exchange, and the session's next transcript starts with an assistant turn, which both providers reject |
| ConversationRuns.AcceptedExactlyWhenPrompt | src/adaptive_agent/conversation.py:79-214 | under any config and clock, all transcripts of all runs are accepted if and only if no sweeping write is that slow or no Tool needs a Confirmation |
| Replies.ReplyExactly | src/adaptive_agent/conversation.py:37-57 | a reply is yes if and only if it is one of yes, y, yeah, yep, confirm, ok, okay, and no if and only if it is one of no, n, nope, cancel, each in any casing with nothing but blanks around it; never both |
| Replies.AnswerToARequest | src/adaptive_agent/conversation.py:118-152 | in those words: while a call waits a yes runs it, sends the history, the question, the call and the Tool's own answer to the LLM and says what the LLM makes of it; a no runs and sends nothing, drops the request and says the cancellation text; anything else runs nothing, keeps the request and says the nudge; the Output Rail has the last word on each text |
| Replies.FreshTurnSays | src/adaptive_agent/conversation.py:154-237 | while nothing waits: the LLM is sent history and question and its own text is said, unless it asks for a Tool and Tools are configured; then the first call is run and phrased, refused with the refusal text, or held with a prompt naming the first configured description, as the Tool Rail decides |
| Replies.BlockedTurnSays | src/adaptive_agent/conversation.py:88-102 | a message the Input Rail stops is answered with the rail's own text, one whose check raises or whose key has no colon not at all |
| Replies.NoCancels | src/adaptive_agent/conversation.py:145-147 | over runs, on any clock: a no that passes the Input Rail while a call waits executes nothing, sends nothing and leaves nothing pending |
| Replies.YesRuns | src/adaptive_agent/conversation.py:121-143 | over runs, on any clock: each of the seven yes words runs the waiting call and no other, and leaves nothing pending when both external calls return |
| Replies.AnythingElseAsksAgain | src/adaptive_agent/conversation.py:149-152 | over runs: any other text executes nothing, is answered with the nudge and, with prompt sweeps, leaves the request pending |
| Replies.ConfirmedExecutionInWords | src/adaptive_agent/conversation.py:79-214 | over runs, from the literal words alone: a Tool that needs a Confirmation runs if and only if one of the seven words passes the Input Rail while a request for exactly that call, stored by an earlier turn of the session, has met no no-word, no returned yes-word and no sweep |
| Restarts.SameWithoutRestarts | src/adaptive_agent/conversation.py:79-116 | a run without restarts is a run of one process |
| Restarts.PendingWasIntercepted | src/adaptive_agent/session/sqlite_store.py:1-5 | through any restarts and crashes, under any configs and clocks, a pending call was intercepted by an earlier turn of the same session and is still open |
| Restarts.ExecutesExactly | src/adaptive_agent/conversation.py:118-214 | a turn can run a call if and only if its message passes the Input Rail and either says yes while that call is pending, whatever the present config says of its Tool, or asks for it first on a fresh turn under a config that allows it |
| Restarts.ExecutedWasIntercepted | src/adaptive_agent/conversation.py:79-214 | run-level safety over restarts: a Tool the present config does not simply allow runs only on a yes to a request intercepted by an earlier turn of the same session and still open |
| Restarts.DeniedRunsExactly | src/adaptive_agent/conversation.py:118-143 | a Tool the present config denies runs if and only if a request for it is pending and the message says yes; that request was stored before a restart, when the Tool still needed a Confirmation |
| Restarts.DisabledToolStillRuns | src/adaptive_agent/conversation.py:118-143 | the failing input: request stored, Tool disabled, process restarted, yes |
| Restarts.ExchangesExactlyUnlessHalfStored | src/adaptive_agent/conversation.py:100-115 | a turn, cut short by a crash or not, leaves whole exchanges if and only if its process does not die between the two appends |
| Restarts.EveryTranscriptAccepted | src/adaptive_agent/conversation.py:133-203 | through any restarts, and crashes anywhere else, both providers accept every transcript |
| Restarts.CrashBreaksATranscript | src/adaptive_agent/conversation.py:114-115 | the failing input: a crash between the two appends makes the session's next transcript end in two user turns |
| ToolRail.FirstMatchDecides | src/adaptive_agent/rails/tool_rail.py:21-29 | the decision is that of the first config bearing the name, whatever follows it, and deny exactly when no config bears it |
| Messages.IndexCalls | src/adaptive_agent/llm/google_provider.py:107-121 | the nested loop builds the id-to-name index of all tool calls |
| Messages.NameIndexIsLastCall | src/adaptive_agent/llm/google_provider.py:114-121 | the index gives an id the name of the last call bearing it |
| Messages.ToGeminiContent | src/adaptive_agent/llm/google_provider.py:125-166 | one native content per message that carries it: role, text, calls in order or the answered call's content; a function response is named through the index |
| Messages.ToGeminiContents | src/adaptive_agent/llm/google_provider.py:107-122 | all contents, in order, over the one index, each carrying its message |
| Messages.ToAnthropicMessage | src/adaptive_agent/llm/anthropic_provider.py:53-88 | tool results become user turns, tool calls become tool-use blocks after the text; the message's text, calls and results are carried |
| Messages.ResponseNameIsCallName | src/adaptive_agent/llm/google_provider.py:114-145 | the name Gemini is given for a result is its call's name, never the empty default |
| Messages.GeminiTakesSendable | src/adaptive_agent/llm/google_provider.py:107-166 | user first and last, strictly alternating roles, each function call right after a real user turn, each response right after the call with its id and name |
| Messages.AnthropicTakesSendable | src/adaptive_agent/llm/anthropic_provider.py:53-88 | the same for Anthropic's form: no native tool role, user first and last, alternation, every tool result right after its tool use |
| Messages.GeminiFormsCarry | src/adaptive_agent/llm/google_provider.py:107-166 | content i says message i's text, makes its calls in order with id, name, arguments and signature, or answers its call with its content, under the name of the last call of that id |
| Messages.AnthropicFormsCarry | src/adaptive_agent/llm/anthropic_provider.py:53-88 | message i says its text, makes its calls in order with id, name and arguments, or answers its call with its content |
| Messages.GeminiLosesNothing | src/adaptive_agent/llm/google_provider.py:107-166 | two transcripts with equal Gemini contents are the same transcript |
| Messages.AnthropicLosesNothing | src/adaptive_agent/llm/anthropic_provider.py:53-88 | two transcripts with equal Anthropic messages differ at most in what Gemini attached to their calls |
| Messages.SendableIsBuilt | src/adaptive_agent/agent_core.py:53-104 | every transcript the runtime sends is one of which that holds |
| Sessions.InMemorySessionStore.AppendMessage | src/adaptive_agent/session/in_memory.py:20-21 | appends to this key's history and changes nothing else |
| Sessions.InMemorySessionStore.SetPendingConfirmation | src/adaptive_agent/session/in_memory.py:26-29 | sets this key's request and changes nothing else |
| Sessions.InMemorySessionStore.GetHistory | src/adaptive_agent/session/in_memory.py:17-18 | reads this key's history, empty when there is none |
| Sessions.SqliteSessionStore.AppendMessage | src/adaptive_agent/session/sqlite_store.py:62-67 | read-modify-write of one row, then the periodic sweep |
| Sessions.SqliteSessionStore.SetPendingConfirmation | src/adaptive_agent/session/sqlite_store.py:76-83 | read-modify-write of one row, then the periodic sweep |
| Sessions.SqliteSessionStore.GetHistory | src/adaptive_agent/session/sqlite_store.py:53-60 | the history of the row, empty when there is none; nothing is written |
| Sessions.SqliteSessionStore.GetPendingConfirmation | src/adaptive_agent/session/sqlite_store.py:69-74 | the request of the row, none when there is none; nothing is written |
| Sessions.SqliteSessionStore.MaybeSweep | src/adaptive_agent/session/sqlite_store.py:110-116 | on every 500th write, and only then, exactly the rows idle for longer than the time-to-live go |
| Sessions.StoredAgrees | src/adaptive_agent/session/sqlite_store.py:85-116 | one write anywhere keeps a live key in agreement: append never disturbs pending, set-pending never disturbs history, no live row is swept |
| Sessions.SqliteSimulatesInMemory | src/adaptive_agent/session/sqlite_store.py:53-116 | for any writes and sweeps on other keys, a key whose every operation comes within the idle time-to-live of its latest write reads exactly as from the in-memory store |
| Sessions.RunCountsWrites | src/adaptive_agent/session/sqlite_store.py:94-116 | the store's own write count numbers the writes of a run |
| Sessions.OtherRows | src/adaptive_agent/session/sqlite_store.py:94-116 | whatever the clock does, several writes of one session leave another session's row as it was, or drop it if and only if one of their sweeps comes later than the idle time-to-live after that row's last write |
| Sessions.OwnRowOrGone | src/adaptive_agent/session/sqlite_store.py:62-116 | whatever the clock does, the writing session's pending request is what its writes make it or gone, and its history holds old and appended messages only |
| Sessions.OwnWritesOnly | src/adaptive_agent/session/sqlite_store.py:62-116 | with prompt sweeps the writing session sees exactly its own writes |
| RateLimiting.RateLimiter.Allow | src/adaptive_agent/interface_layer/rate_limiter.py:42-57 | one call: prune, compare, append, stamp, count, sweep on every 500th; the two maps keep equal key sets |
| RateLimiting.RateLimiter.Sweep | src/adaptive_agent/interface_layer/rate_limiter.py:59-64 | the deleting loop removes exactly the keys last seen before the cutoff from both maps |
| RateLimiting.RecentTwice | src/adaptive_agent/interface_layer/rate_limiter.py:45-46 | pruning early and pruning again later is pruning once |
| RateLimiting.RepresentsAfterSweep | src/adaptive_agent/interface_layer/rate_limiter.py:59-64 | a key idle for longer than the window has no stamp left that counts |
| RateLimiting.SameAnswer | src/adaptive_agent/interface_layer/rate_limiter.py:42-52 | the pruned state and the unpruned log answer a call alike |
| RateLimiting.RunTracksLog | src/adaptive_agent/interface_layer/rate_limiter.py:42-64 | over any run with a clock that never goes back, accepted calls are those of the unpruned log, and the state keeps representing it |
| RateLimiting.LimiterRefinesLog | src/adaptive_agent/interface_layer/rate_limiter.py:42-64 | allow answers true exactly when the unpruned log holds fewer than the maximum of that key in (now-60, now]; equal key sets; no list exceeds the maximum |
| RateLimiting.ShortTtlForgetsABurst | src/adaptive_agent/interface_layer/rate_limiter.py:53-64 | with an idle time-to-live below the window some run makes the sweep drop a full burst and allow one call too many |
| RateLimiting.AgreesExactlyWhenTtlCoversWindow | src/adaptive_agent/interface_layer/rate_limiter.py:42-64 | the limiter agrees with the unpruned log on every run if and only if nothing is ever allowed or the idle time-to-live is at least 60 seconds |
| RateLimiting.KeysHeldExactly | src/adaptive_agent/interface_layer/rate_limiter.py:42-64 | over any run, a call notes its key, every 500th call drops exactly the keys last seen more than the time-to-live before it, and no other key comes or goes |
| RateLimiting.OneWindow | src/adaptive_agent/interface_layer/rate_limiter.py:45-51 | any window of 60 seconds, wherever it starts, holds at most the maximum |
| RateLimiting.IntervalBound | src/adaptive_agent/interface_layer/rate_limiter.py:42-64 | for every key and closed interval of length L at most max x (floor(L/60) + 1) calls are allowed |
| Dedupe.InMemoryDedupeStore.IsDuplicate | src/adaptive_agent/interface_layer/dedupe.py:30-37 | evict, look up, insert at the end when absent; the whole new dictionary |
| Dedupe.InMemoryDedupeStore.EvictExpired | src/adaptive_agent/interface_layer/dedupe.py:39-45 | the loop drops the longest expired front of the dictionary and stops at the first entry that is not expired |
| Dedupe.StaysUntilExpired | src/adaptive_agent/interface_layer/dedupe.py:30-45 | whatever the clock does, an accepted id stays until some reading exceeds its stamp by more than the time-to-live |
| Dedupe.FreshAgainOnlyAfterTtl | src/adaptive_agent/interface_layer/dedupe.py:30-45 | for arbitrary readings an id is reported fresh a second time only after some reading exceeds its stamp by more than the time-to-live |
| Dedupe.DuplicateExactlyWithinTtl | src/adaptive_agent/interface_layer/dedupe.py:30-45 | with a clock that never goes back the dictionary stays sorted with distinct ids, and the answer is duplicate if and only if the id was accepted at or after now minus the time-to-live |
| InterfaceLayer.InterfaceLayer.Process | src/adaptive_agent/interface_layer/service.py:26-45 | dedupe, then rate limit, then routing, then the runtime; response, effects and the joint state of all stores |
| InterfaceLayer.InterfaceLayer.Deliver | src/adaptive_agent/interface_layer/service.py:36-45 | the runtime of the business handles the message, and awaiting_confirmation says whether its session has a request now; every other business's store is untouched |
| InterfaceLayer.DuplicateDoesNothing | src/adaptive_agent/interface_layer/service.py:27-30 | a duplicate delivery changes neither the limiter nor any session store and has no effect |
| InterfaceLayer.EffectsNeedDelivery | src/adaptive_agent/interface_layer/service.py:26-45 | any effect or store change comes from a request that got past dedupe, rate limit and routing |
| InterfaceLayer.AtMostOncePerTtl | src/adaptive_agent/interface_layer/service.py:26-45 | within one process, one message id reaches a runtime twice only after some clock reading exceeds the first delivery's by more than the dedupe time-to-live, whatever the clocks do |
| InterfaceLayer.OneToolPerDelivery | src/adaptive_agent/interface_layer/service.py:36-45 | each delivery runs at most one Tool |
| InterfaceLayer.StoreIsConversationRun | src/adaptive_agent/interface_layer/service.py:36-45 | every business's store is that of a conversation run of exactly the messages that reached it |
| InterfaceLayer.EventsAreConversationSteps | src/adaptive_agent/interface_layer/service.py:36-45 | the effects of a request are the step of its business's own conversation run |
| InterfaceLayer.ConfirmedEndToEnd | src/adaptive_agent/interface_layer/service.py:26-45 | when a request runs a Tool that needs a Confirmation it says yes, and an earlier request of the same business and session, itself past dedupe and limiter, asked for exactly that call and ran nothing |
| InterfaceLayer.LimiterIsLimiterRun | src/adaptive_agent/interface_layer/service.py:27-34 | the limiter's state is its own run over the non-duplicate requests |
| InterfaceLayer.ReachingBound | src/adaptive_agent/interface_layer/service.py:32-39 | in any closed interval of length L at most max x (floor(L/60) + 1) requests of one rate-limit key reach a runtime |
| InterfaceLayer.StatusExactly | src/adaptive_agent/interface_layer/service.py:26-36 | over any run: duplicate if and only if seen before, rate limited if and only if new and refused by the limiter, unknown business if and only if admitted and served by nobody, ok or a raise if and only if it reaches a runtime; a refusal has no text and awaits nothing |
| InterfaceLayer.ResponseIsTheReply | src/adaptive_agent/interface_layer/service.py:39-45 | a request that reaches its runtime is answered ok with the reply of that business's own conversation run, or not at all when that turn raises |
| InterfaceLayer.AwaitingExactly | src/adaptive_agent/interface_layer/service.py:40-45 | awaiting_confirmation is reported if and only if just after this message some call of the business's own run is intercepted for this session and still open |
| ConfigPatch.CollectPatchKeys | src/adaptive_agent/business_config/writer.py:41-52 | the collecting recursion over the patch tree |
| ConfigPatch.DeepMerge | src/adaptive_agent/business_config/writer.py:55-62 | the merging recursion over both trees |
| ConfigPatch.ConfigFile.Update | src/adaptive_agent/business_config/writer.py:77-91 | fails with exactly the offending fields if and only if a leaf outside tools spells no editable field, else as unloadable or invalid if and only if the file does not load or the merge does not validate, else succeeds; then the file is the merge, otherwise it is unchanged; every non-editable leaf is kept if and only if the frame condition holds |
| ConfigPatch.MergeIsPathwise | src/adaptive_agent/business_config/writer.py:55-62 | at every path the merged tree is the patch's node where the patch decides and the base's elsewhere |
| ConfigPatch.SameNodesSameTree | src/adaptive_agent/business_config/writer.py:55-62 | the nodes at all paths determine a tree |
| ConfigPatch.MergeWithSelf | src/adaptive_agent/business_config/writer.py:55-62 | merging a tree with itself is the identity |
| ConfigPatch.PatchTwice | src/adaptive_agent/business_config/writer.py:55-62 | applying a patch twice is applying it once |
| ConfigPatch.LeafIsCollected | src/adaptive_agent/business_config/writer.py:41-52 | every leaf the patch sets is collected under its dotted path |
| ConfigPatch.CollectedExactly | src/adaptive_agent/business_config/writer.py:41-52 | the collected keys are exactly the dotted paths of the leaves the patch sets outside tools, and tools itself when it is set |
| ConfigPatch.PermittedExactly | src/adaptive_agent/business_config/writer.py:77-80 | a patch is permitted if and only if each leaf it sets outside tools spells an editable field |
| ConfigPatch.OrdinaryEditExactly | src/adaptive_agent/business_config/writer.py:22-33 | a patch each of whose values sits at one of the eight editable paths, or below tools, is permitted; without dotted keys no other is |
| ConfigPatch.DottedIsInjective | src/adaptive_agent/business_config/writer.py:44 | dot-free keys joined with dots can be told apart |
| ConfigPatch.PermittedLeafIsEditable | src/adaptive_agent/business_config/writer.py:22-33 | a leaf a permitted dot-free patch sets lies at or below an editable path |
| ConfigPatch.FrameExactly | src/adaptive_agent/business_config/writer.py:55-91 | any merge keeps every leaf outside the editable paths if and only if, there, the patch puts no mapping over a plain value and sets no value but the base's own |
| ConfigPatch.PermittedFrameExactly | src/adaptive_agent/business_config/writer.py:77-91 | for a permitted patch over a base without dotted keys: if and only if it buries no plain value and every value it sets lies at or below an editable path |
| ConfigPatch.DotFreeFrameExactly | src/adaptive_agent/business_config/writer.py:77-91 | for a permitted patch without dotted keys: if and only if it buries no plain value |
| ConfigPatch.FrameOfAnOrdinaryPatch | src/adaptive_agent/business_config/writer.py:77-91 | so it does without empty mappings and over a base whose llm and business_logic are mappings |
| ConfigPatch.EmptyMappingSlipsThrough | src/adaptive_agent/business_config/writer.py:50-60 | an empty mapping collects no key, is permitted, and buries an immutable value |
| ConfigPatch.DottedKeySlipsThrough | src/adaptive_agent/business_config/writer.py:44-50 | a key spelled like an editable path is permitted and sets another path |
| Entities.KeptTwice | src/adaptive_agent/entities/sqlite_repository.py:352-369 | a value a column has kept once is kept as it is, booleans through their integer encoding |
| Entities.KeptExactly | src/adaptive_agent/entities/sqlite_repository.py:352-369 | what every kind of value reads back as from every kind of column |
| Entities.CreatedIsSound | src/adaptive_agent/entities/sqlite_repository.py:105-160 | a new table is sound |
| Entities.AddedIsSound | src/adaptive_agent/entities/sqlite_repository.py:171-191 | adding a column keeps the table sound, every row null there |
| Entities.RenamedIsSound | src/adaptive_agent/entities/sqlite_repository.py:193-213 | renaming keeps it sound |
| Entities.ColumnDroppedIsSound | src/adaptive_agent/entities/sqlite_repository.py:215-226 | dropping keeps it sound |
| Entities.UpsertedIsSound | src/adaptive_agent/entities/sqlite_repository.py:249-282 | writing a row keeps it sound |
| Entities.StoredFieldsAreTheRow | src/adaptive_agent/entities/sqlite_repository.py:249-253 | a full-row write stores in every column what that column keeps of the row's value |
| Entities.AppliedIsSound | src/adaptive_agent/entities/sqlite_repository.py:105-291 | every operation keeps the catalog sound: distinct names, one table per link, menu columns present, every row exactly its table's columns |
| Entities.ReachableIsSound | src/adaptive_agent/entities/sqlite_repository.py:105-338 | every reachable catalog is sound |
| Entities.OtherTablesUntouched | src/adaptive_agent/entities/sqlite_repository.py:105-291 | an operation on one table leaves every other table as it was |
| Entities.AddThenDrop | src/adaptive_agent/entities/sqlite_repository.py:171-226 | adding a column and dropping it again restores every row and the definition |
| Entities.RenameThereAndBack | src/adaptive_agent/entities/sqlite_repository.py:193-213 | renaming a column and back restores every row and the definition |
| Entities.AlterationMoves | src/adaptive_agent/entities/sqlite_repository.py:171-226 | adding, renaming or dropping a column, when it goes through, moves the columns and every row alike: the new field is null, the renamed one keeps its value, the dropped one is gone, all else and every row id stay |
| Entities.IdsExactly | src/adaptive_agent/entities/sqlite_repository.py:253-276 | the id a row goes under: the next of the sequence, the given one when truthy, else the generated one; integer keys take integers alone |
| Entities.GeneratedIdIsNew | src/adaptive_agent/entities/sqlite_repository.py:256-267 | over any run in which its table lives, an AUTOINCREMENT id is never given twice, not even that of a row deleted since |
| Refusals.CreatedExactly | src/adaptive_agent/entities/sqlite_repository.py:132-144 | a new table is empty and refuses null in exactly the columns its definition requires |
| Refusals.AddedColumnTakesNull | src/adaptive_agent/entities/sqlite_repository.py:178-190 | in every reachable catalog adding a column, required or not, adds none that refuses null |
| Refusals.ReachableIsFilled | src/adaptive_agent/entities/sqlite_repository.py:105-282 | in every reachable catalog no row is null in a column that refuses null |
| Refusals.WriteRefusedExactly | src/adaptive_agent/entities/sqlite_repository.py:249-278 | a write is refused if and only if the table has no columns, the id or a value does not fit its column, or a column that refuses null is left without a value |
| Refusals.RequiredColumnIsNeverNull | src/adaptive_agent/entities/sqlite_repository.py:132-282 | over any run, from a table's creation on and while neither it nor the column is dropped or renamed, a column required then holds a value in every row, and a write that leaves it null is refused |
| Refusals.CreationTells | src/adaptive_agent/entities/sqlite_repository.py:106-143 | a creation is refused with an error that is true of the request, or no error is true of it and the empty table is added |
| Refusals.ErrorsTell | src/adaptive_agent/entities/sqlite_repository.py:105-311 | over any run each of the seven operations is refused with an error that is true of the request - unknown or existing table or column, invalid name, broken tool link, refused by SQLite - and goes through if and only if none is |
| EntityRepository.SqliteEntityRepository.ListTables | src/adaptive_agent/entities/sqlite_repository.py:97-103 | all table definitions, each once, in name order |
| EntityRepository.SqliteEntityRepository.CreateTable | src/adaptive_agent/entities/sqlite_repository.py:105-160 | both statements together are the catalog's creation, or an error and nothing changed |
| EntityRepository.SqliteEntityRepository.DropTable | src/adaptive_agent/entities/sqlite_repository.py:162-169 | removes the table and its metadata, or an error and nothing changed |
| EntityRepository.SqliteEntityRepository.AddColumn | src/adaptive_agent/entities/sqlite_repository.py:171-191 | ALTER TABLE plus metadata is the catalog's added column |
| EntityRepository.SqliteEntityRepository.RenameColumn | src/adaptive_agent/entities/sqlite_repository.py:193-213 | ALTER TABLE plus metadata is the catalog's rename |
| EntityRepository.SqliteEntityRepository.DropColumn | src/adaptive_agent/entities/sqlite_repository.py:215-226 | ALTER TABLE plus metadata is the catalog's dropped column |
| EntityRepository.SqliteEntityRepository.RowToDict | src/adaptive_agent/entities/sqlite_repository.py:360-369 | the loop decodes a physical row by column |
| EntityRepository.SqliteEntityRepository.ListRows | src/adaptive_agent/entities/sqlite_repository.py:228-235 | exactly the rows of the table, decoded |
| EntityRepository.SqliteEntityRepository.GetRow | src/adaptive_agent/entities/sqlite_repository.py:237-247 | the decoded row of the id, none when the column cannot hold the id or no row has it |
| EntityRepository.SqliteEntityRepository.UpsertRow | src/adaptive_agent/entities/sqlite_repository.py:249-282 | the catalog's upsert, AUTOINCREMENT and generated ids included, or an error and nothing changed |
| EntityRepository.SqliteEntityRepository.DeleteRow | src/adaptive_agent/entities/sqlite_repository.py:284-291 | the catalog's deletion; true exactly when the row was there |
| EntityRepository.AddRefines | src/adaptive_agent/entities/sqlite_repository.py:171-191 | the two-sided ALTER keeps metadata and physical columns in agreement and reads as the plain operation |
| EntityRepository.RenameRefines | src/adaptive_agent/entities/sqlite_repository.py:193-213 | likewise: every value is found under the new name |
| EntityRepository.DropRefines | src/adaptive_agent/entities/sqlite_repository.py:215-226 | likewise: exactly one field is forgotten |
| EntityRepository.WriteRefines | src/adaptive_agent/entities/sqlite_repository.py:249-276 | writing the metadata columns by name into the physical columns stores exactly the row's fields |
| EntityRepository.NotNullRefines | src/adaptive_agent/entities/sqlite_repository.py:137-146 | the physical NOT NULL columns refuse exactly the rows that leave a strict field null |
| EntityRepository.SelectRefines | src/adaptive_agent/entities/sqlite_repository.py:228-247 | selecting the metadata columns by name reads the whole physical row in order |
| EntityRepository.WithTableRefines | src/adaptive_agent/entities/sqlite_repository.py:293-311 | replacing one table and its metadata is one update of the map of maps |
| EntityRepository.CreateCheckIsError | src/adaptive_agent/entities/sqlite_repository.py:105-135 | the creation checks on metadata and physical tables are those on the catalog |
| CrudTools.ParseInvertsToolName | src/adaptive_agent/tools/entity_crud_provider.py:23-29 | parsing is the exact inverse of naming: verb and non-empty table come back if and only if the name was built from them |
| CrudTools.ToolNamesDisjoint | src/adaptive_agent/entities/crud_tools.py:27-32 | two verb-table pairs never share a Tool name |
| CrudTools.EntityCrudToolProvider.Call | src/adaptive_agent/tools/entity_crud_provider.py:38-62 | answer and catalog after any call, unknown and tool-linked tables refused |
| CrudTools.EntityCrudToolProvider.UpdateRow | src/adaptive_agent/tools/entity_crud_provider.py:70-77 | read, patch, full-row write |
| CrudTools.EntityCrudToolProvider.RemoveRow | src/adaptive_agent/tools/entity_crud_provider.py:79-84 | delete, or no such row |
| CrudTools.TargetExactly | src/adaptive_agent/tools/entity_crud_provider.py:38-54 | a name reaches a Tool if and only if it is that of a verb and a live table without a chat-facing Tool |
| CrudTools.AnswersAreTruthful | src/adaptive_agent/tools/entity_crud_provider.py:54-84 | whatever a call answers is so: rows listed are the rows there are, a row answered as stored is there with those fields and no other changed, a row answered as removed was there and is gone, an unknown one is not there, a refusal changes nothing |
| CrudTools.MissingExactly | src/adaptive_agent/tools/entity_crud_provider.py:70-84 | an update or delete lacks its id, finds no such row, or is done, each if and only if |
| CrudTools.UpdateChangesOnlyThePatch | src/adaptive_agent/tools/entity_crud_provider.py:70-77 | though stored as a full-row replace, an update changes exactly the supplied known columns of the one row |
| CrudTools.FalsyIdMakesANewRow | src/adaptive_agent/entities/sqlite_repository.py:270 | a falsy id that names a row makes a second row and leaves the named one alone |
| CrudTools.FalsyIdIsReachable | src/adaptive_agent/entities/sqlite_repository.py:249-282 | the failing input: a direct upsert under the text id 0 into a one-column table, then the number 0 as the id of an update |
| CrudTools.InPlaceExactlyWhenIdIsTruthy | src/adaptive_agent/tools/entity_crud_provider.py:70-77 | an update SQLite accepts stays on the rows there were if and only if its id is truthy |
| CrudTools.CreateAddsOneRow | src/adaptive_agent/tools/entity_crud_provider.py:54-57 | create never overwrites and adds exactly one row, which holds what each column keeps of its argument and null where there is none |
| CrudTools.DeleteRemovesOneRow | src/adaptive_agent/tools/entity_crud_provider.py:79-84 | delete removes exactly the row it names, or nothing |
| CrudTools.UpdateCallIsLocal | src/adaptive_agent/tools/entity_crud_provider.py:38-77 | through the provider an update call changes no other row, table, schema or id sequence, and if it changes anything it is the named row, patched in exactly the supplied known columns |
| AdminTables.EntitiesRouter.CreateTable | src/adaptive_agent/interfaces/admin/entities_router.py:95-136 | collision check, creation, extended tools list; an error before the creation changes nothing, a config update that fails after it leaves the table without Tools |
| AdminTables.EntitiesRouter.DeleteTable | src/adaptive_agent/interfaces/admin/entities_router.py:138-172 | the table and every Tool bearing one of its four names go; if the config update fails the Tools stay |
| AdminTables.FourTools | src/adaptive_agent/entities/crud_tools.py:58-90 | the four Tools by name and text, listing alone without a Confirmation, all enabled |
| AdminTables.SchemasExactly | src/adaptive_agent/entities/crud_tools.py:35-90 | their input schemas: creating asks for exactly the columns with their JSON types and demands the required ones, updating offers them and demands the id, deleting asks for the id alone, listing for nothing |
| AdminTables.CreateAnswerTells | src/adaptive_agent/interfaces/admin/entities_router.py:95-136 | a creation is refused before it touches anything with an error that is true of it, or adds the table and its Tools, or, its config update failing, the table alone |
| AdminTables.DeleteAnswerTells | src/adaptive_agent/interfaces/admin/entities_router.py:138-172 | a deletion is refused if and only if there is no such table; else the table goes and of the Tools exactly those bearing its names, which stay if and only if there are some and the config update fails |
| AdminTables.RemainingExactly | src/adaptive_agent/interfaces/admin/entities_router.py:160-162 | nothing is removed if and only if no Tool of the list bears one of the table's names |
| AdminTables.InStepExactlyWhenClean | src/adaptive_agent/interfaces/admin/entities_router.py:95-172 | one request keeps Tools and tables in step if and only if it is clean: its config update, where there is one, returned, and no hand-written Tool is taken with a tool-linked table |
| AdminTables.ToolsFollowTables | src/adaptive_agent/interfaces/admin/entities_router.py:95-172 | after any run of clean requests, refused ones and other repository operations included, the tools list is the initial list followed by the four Tools of each live plain table in creation order |
| AdminTables.LinkedDeleteExactly | src/adaptive_agent/interfaces/admin/entities_router.py:157-166 | deleting a tool-linked table keeps the tools list if and only if no hand-written Tool bears one of its four names |
| AdminTables.LinkedDeleteRemovesAHandWrittenTool | src/adaptive_agent/interfaces/admin/entities_router.py:157-166 | the failing input: a hand-written list_menu_items goes when the default menu table is deleted |
| AdminTables.RailOfGeneratedTools | src/adaptive_agent/entities/crud_tools.py:45-90 | after any run of clean requests the Tool Rail allows listing a live plain table, holds its writes for a Confirmation and denies the Tools of a table that is gone |
| AdminTables.RunHoldsKnownTools | src/adaptive_agent/interfaces/admin/entities_router.py:95-172 | after any admin operations every Tool of the list is an initial or a generated one |
| AdminTables.WritesAreNeverAllowed | src/adaptive_agent/entities/crud_tools.py:45-90 | in such a list no writing Tool of a table is let run without a Confirmation, unless an initial Tool bears one of its names |
| TableSafety.CallTouchesItsTable | src/adaptive_agent/tools/entity_crud_provider.py:38-84 | a Tool call changes one table at most: the plain one its name parses to, and not by listing it |
| TableSafety.HeldTablesChangeOnConfirmationOnly | src/adaptive_agent/conversation.py:79-214 | across rails and provider, for any tools list that lets no writing Tool of a table run without a Confirmation: over any conversation run a turn changes that table only on a yes that passes the Input Rail while a request for one of its writing Tools, intercepted earlier in the same session, is open - and then changes the tables by exactly the stored call |
| TableSafety.AdminListsHoldWrites | src/adaptive_agent/entities/crud_tools.py:45-90 | every tools list the admin routes make, by any operations, refused and half-done ones included, is such a list for a table none of whose names an initial Tool bears |
| TableSafety.TablesChangeOnConfirmationOnly | src/adaptive_agent/conversation.py:79-214 | so the first statement holds over any admin history, for every table none of whose four names an initial Tool bears |
| TableSafety.HeldTablesAcrossRestarts | src/adaptive_agent/conversation.py:118-143 | and across restarts, whatever config each process loads |
| Menu.EntityBackedMenuRepository.GetItem | src/adaptive_agent/entities/menu_repository_adapter.py:25-29 | the item of the row of that name; none without a row; a raise when the row is no menu item |
| Menu.EntityBackedMenuRepository.Seed | src/adaptive_agent/entities/menu_repository_adapter.py:35-37 | the loop of upserts stops at the first failure and keeps what it stored |
| Menu.EntityBackedMenuRepository.DeleteItem | src/adaptive_agent/entities/menu_repository_adapter.py:39-40 | the row of the name goes; true exactly when it was there |
| Menu.StoredItemReadsBack | src/adaptive_agent/entities/menu_repository_adapter.py:42-59 | an item written as a row has its four values in the columns of their names and reads back as the item, whatever extra columns the table has |
| Menu.LookupTells | src/adaptive_agent/entities/menu_repository_adapter.py:25-49 | a lookup answers that the table is unknown, that no row bears the name, the item whose four fields the row holds, or that the row holds none, and each is so |
| Menu.SeedsExactlyWhenNameIsAnId | src/adaptive_agent/entities/sqlite_repository.py:249-276 | a named item is stored if and only if the table's id column can hold its name |
| Menu.SeedsAnyListExactlyWhenUuid | src/adaptive_agent/entities/menu_repository_adapter.py:35-37 | every list of named items can be seeded if and only if the menu table is keyed by uuid |
| Menu.SeedOne | src/adaptive_agent/entities/menu_repository_adapter.py:35-37 | one item seeded into a uuid-keyed menu table replaces exactly the row of its name |
| Menu.SeedThenGet | src/adaptive_agent/entities/menu_repository_adapter.py:25-37 | after seeding a list get_item gives the last listed item per name, other names answer as before, and there is one row per seeded name |
| Menu.SeedTwice | src/adaptive_agent/entities/menu_repository_adapter.py:35-37 | seeding twice is seeding once |
| Menu.SeedingIsSeededMenu | src/adaptive_agent/entities/menu_repository_adapter.py:35-37 | the loop of upserts over a menu table is one overlay of it and raises nothing |
| Menu.MenuRefines | src/adaptive_agent/entities/menu_repository_adapter.py:25-59 | over any run of seeds and deletes on a catalog with a uuid-keyed menu table no call raises, every other table stays as it was, and get_item answers every name from the plain map from name to item |
| Menu.LinkedMenuTable | src/adaptive_agent/entities/sqlite_repository.py:313-338 | in every sound catalog at most one table is linked to the menu, it has the four columns with their types, and every row has their fields |
| Menu.ResolveOrCreateMenuTable | src/adaptive_agent/tools/registry.py:44-57 | returns the linked table and changes nothing when there is one; otherwise creates the default one |
| Menu.CreatedMenuTable | src/adaptive_agent/tools/registry.py:27-57 | after the creation menu_items is the one linked table, an empty menu keyed by uuid whose four fields refuse null |
| WhatsAppRegistry.BuildBusinessRegistry | src/adaptive_agent/interfaces/whatsapp/registry.py:27-79 | the nested loop over Businesses and adapters; a load that raises anything but the config error ends it without a registry |
| WhatsAppRegistry.FirstCandidateServes | src/adaptive_agent/interfaces/whatsapp/registry.py:35-79 | a phone id is served by the first candidate bearing it, in Business then adapter order, and is absent if and only if there is none |
| WhatsAppRegistry.ServedExactly | src/adaptive_agent/interfaces/whatsapp/registry.py:35-79 | a phone id is served if and only if an enabled adapter of kind whatsapp of an enabled Business bears it and its runtime can be built, and by the first such adapter, in Business then adapter order |
| WhatsAppRegistry.BrokenBusinessIsIsolated | src/adaptive_agent/interfaces/whatsapp/registry.py:35-79 | inserting or removing an invalid, disabled or unloadable Business anywhere leaves the result unchanged if and only if loading it raises nothing but the config error, or the scan fails without it as well |
| WhatsAppRegistry.UndecodableFileStopsTheScan | src/adaptive_agent/business_config/loader.py:16-27 | the failing input: one business.yaml that cannot be decoded leaves every Business without a runtime |

## Left out

- LLM, rail, Tool and MCP calls: their answers are arbitrary; what the LLM or the rail engine does is not modelled.
- Prompt assembly, context documents, the Data Rail (a pass-through) and the error types of failed calls.
- Conversation.ConversationRuntime.HandleMessage: does not record the customer visit, which nothing else here reads; only
  the failure on a session key without a colon is kept.
- InterfaceLayer.AtMostOncePerTtl: speaks of one process, because seen ids and limiter windows are kept in memory; a
  restart inside the time-to-live lets an id through again.
- Threads: turns of one runtime and the public methods of each store are atomic steps, clocks are read once per step.
- Two runtimes of one Business sharing one database file: each runtime has a store of its own.
- Replies.ReplyExactly: speaks of ASCII whitespace and letters only, because characters have no Unicode classes or case
  mapping here.
- Argument rendering and name quoting in prompts and descriptions are parameters.
- Thought signatures: packing and unpacking them is taken as the identity.
- Floating point: numbers and clock readings are reals; not-a-number, infinities and 64-bit integer overflow are absent.
- SQL text, commits and WAL: a statement is its effect on the tables, failed statements change nothing, and a crash falls
  between statements.
- SQLite's name equality, reserved names, number parsing and the identifier pattern are parameters of the engine.
- EntityRepository.SqliteEntityRepository.ListRows: gives the rows as a map, because the query asks for no order.
- The dictionaries iterated by loops whose order does not matter (sweep, key collection, merge) are visited in any order.
- HTTP, JWT, roles, audit log and confirmation tokens of the admin routes; loading the config there is taken to succeed.
- YAML, Pydantic validation and atomic file replacement: loading and validation are parameters, the file is a tree.
- WhatsApp payloads, signatures and outbound posts; the message length cap.
- The hotel's in-memory provider, the composite provider and Business provisioning.
- `EntityBackedMenuRepository.list_items`: the same conversion as `GetItem`, over all rows.
