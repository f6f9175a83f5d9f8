// The Interface Layer: dedupe, then rate limit, then business routing, then the conversation runtime
// (interface_layer/service.py).
module InterfaceLayer {
  import opened Common
  import opened Sessions
  import opened Conversation
  import opened ToolRail
  import Runs = ConversationRuns
  import Dedupe
  import Json
  import Messages
  import RateLimiting

  datatype Status = Ok | RateLimited | Duplicate | UnknownBusiness

  datatype Response = Response(status: Status, text: Option<string>, awaitingConfirmation: bool)

  // One inbound request with the two clock readings and the outside answers of its processing.
  datatype Arrival = Arrival(business: string, rateKey: string, messageId: string, message: Runs.Inbound,
                             dedupeNow: real, limiterNow: real)

  datatype Policy = Policy(dedupeTtl: real, max: int, idleTtl: real, worlds: map<string, Runs.World>)

  datatype Layer = Layer(seen: seq<Dedupe.Entry>, limiter: RateLimiting.Limiter, stores: map<string, Store>)

  // What became of one request; response None is a turn that raised.
  datatype Outcome = Outcome(layer: Layer, response: Option<Response>, events: seq<Event>)

  /* ---------- One request ---------- */

  function EntryOf(r: Arrival): Dedupe.Entry { Dedupe.Entry(r.messageId, r.dedupeNow) }

  function CallOf(r: Arrival): RateLimiting.Call { RateLimiting.Call(r.rateKey, r.limiterNow) }

  function Refused(status: Status): Option<Response> { Some(Response(status, None, false)) }

  function Processed(p: Policy, l: Layer, r: Arrival): Outcome
    requires p.worlds.Keys == l.stores.Keys
  {
    var seen := Dedupe.After(p.dedupeTtl, l.seen, EntryOf(r));
    if Dedupe.IsDup(p.dedupeTtl, l.seen, EntryOf(r)) then
      Outcome(l.(seen := seen), Refused(Duplicate), [])
    else
      var limiter := RateLimiting.After(p.max, p.idleTtl, l.limiter, CallOf(r));
      if !RateLimiting.Allows(p.max, l.limiter, CallOf(r)) then
        Outcome(l.(seen := seen, limiter := limiter), Refused(RateLimited), [])
      else if r.business !in l.stores then
        Outcome(l.(seen := seen, limiter := limiter), Refused(UnknownBusiness), [])
      else
        Delivered(p.worlds[r.business], l.(seen := seen, limiter := limiter), r)
  }

  // The request reaches the runtime of its business.
  function Delivered(w: Runs.World, l: Layer, r: Arrival): Outcome
    requires r.business in l.stores
  {
    var store := l.stores[r.business];
    var step := Runs.StepOn(w.cfg, View(store, r.message.key), r.message);
    var store' := Runs.After(w, store, r.message);
    Outcome(l.(stores := l.stores[r.business := store']),
            if step.reply == None then None
            else Some(Response(Ok, step.reply, View(store', r.message.key).pending.Some?)),
            step.events)
  }

  class InterfaceLayer {
    const businesses: map<string, ConversationRuntime>
    const limiter: RateLimiting.RateLimiter
    const dedupe: Dedupe.InMemoryDedupeStore

    constructor (businesses: map<string, ConversationRuntime>, limiter: RateLimiting.RateLimiter,
                 dedupe: Dedupe.InMemoryDedupeStore)
      ensures this.businesses == businesses && this.limiter == limiter && this.dedupe == dedupe
    {
      this.businesses, this.limiter, this.dedupe := businesses, limiter, dedupe;
    }

    ghost function Stores(): set<object> {
      set b | b in businesses :: businesses[b].sessionStore
    }

    ghost predicate Valid()
      reads limiter, dedupe
    {
      && limiter.Valid() && dedupe.Valid()
      && forall a, b :: a in businesses && b in businesses && a != b ==>
        businesses[a].sessionStore != businesses[b].sessionStore
    }

    ghost function Policies(): Policy {
      Policy(dedupe.ttlSeconds, limiter.maxPerMinute, limiter.idleTtlSeconds,
             map b | b in businesses ::
               Runs.World(businesses[b].cfg, businesses[b].sessionStore.idleTtlSeconds,
                          businesses[b].sessionStore.clock))
    }

    ghost function State(): Layer
      reads limiter, dedupe, Stores()
    {
      Layer(dedupe.seen, limiter.State(), map b | b in businesses :: businesses[b].sessionStore.State())
    }

    method Process(r: Arrival) returns (response: Option<Response>, events: seq<Event>)
      requires Valid()
      modifies limiter, dedupe, Stores()
      ensures Valid()
      ensures Outcome(State(), response, events) == Processed(Policies(), old(State()), r)
    {
      ghost var before := State();
      var duplicate := dedupe.IsDuplicate(r.messageId, r.dedupeNow);
      ghost var deduped := before.(seen := Dedupe.After(dedupe.ttlSeconds, before.seen, EntryOf(r)));
      assert State() == deduped by {
        assert State().stores == before.stores;
      }
      if duplicate {
        return Some(Response(Duplicate, None, false)), [];
      }
      var allowed := limiter.Allow(r.rateKey, r.limiterNow);
      ghost var limited := deduped.(
        limiter := RateLimiting.After(limiter.maxPerMinute, limiter.idleTtlSeconds, before.limiter, CallOf(r)));
      assert State() == limited by {
        assert State().stores == before.stores;
      }
      if !allowed {
        return Some(Response(RateLimited, None, false)), [];
      }
      if r.business !in businesses {
        return Some(Response(UnknownBusiness, None, false)), [];
      }
      response, events := Deliver(r);
    }

    method Deliver(r: Arrival) returns (response: Option<Response>, events: seq<Event>)
      requires Valid() && r.business in businesses
      modifies Stores()
      ensures Valid()
      ensures Outcome(State(), response, events) == Delivered(Policies().worlds[r.business], old(State()), r)
    {
      ghost var before := State();
      var runtime := businesses[r.business];
      var reply;
      reply, events := runtime.HandleMessage(r.message.key, r.message.text, r.message.answers, r.message.rendered);
      assert State() == before.(stores := before.stores[r.business := runtime.sessionStore.State()]) by {
        assert State().stores == before.stores[r.business := runtime.sessionStore.State()];
      }
      if reply == None {
        return None, events;
      }
      var pending := runtime.sessionStore.GetPendingConfirmation(r.message.key);
      return Some(Response(Ok, reply, pending.Some?)), events;
    }
  }

  /* ---------- Runs ---------- */

  function Start(p: Policy): Layer {
    Layer([], RateLimiting.FRESH, map b | b in p.worlds :: NOTHING)
  }

  function LayerAt(p: Policy, run: seq<Arrival>, n: nat): (l: Layer)
    requires n <= |run|
    ensures p.worlds.Keys == l.stores.Keys
  {
    if n == 0 then Start(p) else Processed(p, LayerAt(p, run, n - 1), run[n - 1]).layer
  }

  function EventsAt(p: Policy, run: seq<Arrival>, n: nat): seq<Event>
    requires n < |run|
  {
    Processed(p, LayerAt(p, run, n), run[n]).events
  }

  predicate Repeats(p: Policy, l: Layer, r: Arrival) {
    Dedupe.IsDup(p.dedupeTtl, l.seen, EntryOf(r))
  }

  // The request gets past dedupe, rate limit and routing.
  predicate GetsThrough(p: Policy, l: Layer, r: Arrival) {
    !Repeats(p, l, r) && RateLimiting.Allows(p.max, l.limiter, CallOf(r)) && r.business in p.worlds
  }

  predicate IsDuplicateAt(p: Policy, run: seq<Arrival>, n: nat)
    requires n < |run|
  {
    Repeats(p, LayerAt(p, run, n), run[n])
  }

  // Request `n` reaches the runtime of its business.
  predicate Reaches(p: Policy, run: seq<Arrival>, n: nat)
    requires n < |run|
  {
    GetsThrough(p, LayerAt(p, run, n), run[n])
  }

  // A duplicate delivery is answered at once: it touches neither the limiter nor any session, and does nothing.
  lemma DuplicateDoesNothing(p: Policy, run: seq<Arrival>, n: nat)
    requires n < |run| && IsDuplicateAt(p, run, n)
    ensures LayerAt(p, run, n + 1).limiter == LayerAt(p, run, n).limiter
    ensures LayerAt(p, run, n + 1).stores == LayerAt(p, run, n).stores
    ensures EventsAt(p, run, n) == []
    ensures LayerAt(p, run, n + 1).seen == Dedupe.Evicted(LayerAt(p, run, n).seen, run[n].dedupeNow - p.dedupeTtl)
  {
  }

  lemma EffectsNeedDelivery(p: Policy, run: seq<Arrival>, n: nat)
    requires n < |run| && (EventsAt(p, run, n) != [] || LayerAt(p, run, n + 1).stores != LayerAt(p, run, n).stores)
    ensures Reaches(p, run, n)
  {
  }

  function Entries(run: seq<Arrival>): seq<Dedupe.Entry> {
    seq(|run|, i requires 0 <= i < |run| => EntryOf(run[i]))
  }

  lemma SeenStep(p: Policy, l: Layer, r: Arrival)
    requires p.worlds.Keys == l.stores.Keys
    ensures Processed(p, l, r).layer.seen == Dedupe.After(p.dedupeTtl, l.seen, EntryOf(r))
  {
    hide Dedupe.After, RateLimiting.After, Runs.After, Runs.StepOn;
  }

  lemma {:induction false} SeenIsDedupeRun(p: Policy, run: seq<Arrival>, n: nat)
    requires n <= |run|
    ensures LayerAt(p, run, n).seen == Dedupe.Run(p.dedupeTtl, Entries(run)[..n])
  {
    hide Processed, Dedupe.After;
    if n > 0 {
      SeenIsDedupeRun(p, run, n - 1);
      SeenStep(p, LayerAt(p, run, n - 1), run[n - 1]);
      Dedupe.PrefixStep(p.dedupeTtl, Entries(run), n - 1);
    }
  }

  // Within one process, whose memory holds the ids seen: whatever the clocks do, one message id reaches a runtime a
  // second time - and only then can it write to a session, ask the LLM or run a Tool again - only after some reading
  // exceeds the first delivery's by more than the dedupe time-to-live.
  lemma AtMostOncePerTtl(p: Policy, run: seq<Arrival>, i: nat, j: nat)
    requires i < j < |run| && run[i].messageId == run[j].messageId
    requires Reaches(p, run, i) && Reaches(p, run, j)
    ensures exists k :: i < k <= j && run[k].dedupeNow - run[i].dedupeNow > p.dedupeTtl
  {
    SeenIsDedupeRun(p, run, i);
    SeenIsDedupeRun(p, run, j);
    Dedupe.FreshAgainOnlyAfterTtl(p.dedupeTtl, Entries(run), i, j);
    var k :| i < k <= j && Entries(run)[k].stamp - Entries(run)[i].stamp > p.dedupeTtl;
    assert run[k].dedupeNow - run[i].dedupeNow > p.dedupeTtl;
  }

  // ... and each delivery runs at most one Tool.
  lemma OneToolPerDelivery(p: Policy, run: seq<Arrival>, n: nat)
    requires n < |run|
    ensures Runs.OneExecution(EventsAt(p, run, n))
  {
    var l := LayerAt(p, run, n);
    if Reaches(p, run, n) {
      var w, m := p.worlds[run[n].business], run[n].message;
      var s := View(l.stores[run[n].business], m.key);
      Runs.TurnExecutes(w.cfg, s, m, Messages.ToolCall("", "", Json.Null, None));
      assert EventsAt(p, run, n) == Runs.StepOn(w.cfg, s, m).events;
    }
  }

  /* ---------- Every runtime sees a run of its own ---------- */

  // The messages that reached business `b` among the first `n` requests.
  function Delivery(p: Policy, run: seq<Arrival>, n: nat, b: string): seq<Runs.Inbound>
    requires n <= |run|
  {
    if n == 0 then []
    else
      var before := Delivery(p, run, n - 1, b);
      if run[n - 1].business == b && Reaches(p, run, n - 1) then before + [run[n - 1].message] else before
  }

  lemma DeliveryStep(p: Policy, run: seq<Arrival>, n: nat, b: string, mine: seq<Runs.Inbound>)
    requires n < |run| && b in p.worlds && mine == Delivery(p, run, n, b)
    requires StoreFollows(p, run, n, b)
    ensures StoreFollows(p, run, n + 1, b)
  {
    var l, r := LayerAt(p, run, n), run[n];
    StoreStep(p, l, r, b);
    if r.business == b && Reaches(p, run, n) {
      ConversationSnoc(p.worlds[b], mine, r.message);
      assert Delivery(p, run, n + 1, b) == mine + [r.message];
    } else {
      assert Delivery(p, run, n + 1, b) == mine;
    }
  }

  // The store of business `b` is that of a conversation run of the messages delivered to it.
  ghost predicate StoreFollows(p: Policy, run: seq<Arrival>, n: nat, b: string)
    requires n <= |run| && b in p.worlds
  {
    LayerAt(p, run, n).stores[b] == RunOf(p.worlds[b], Delivery(p, run, n, b))
  }

  lemma {:induction false} StoreIsConversationRun(p: Policy, run: seq<Arrival>, n: nat, b: string)
    requires n <= |run| && b in p.worlds
    ensures StoreFollows(p, run, n, b)
  {
    hide Delivered, RateLimiting.Allows, Dedupe.IsDup, RateLimiting.After, Runs.After;
    if n > 0 {
      StoreIsConversationRun(p, run, n - 1, b);
      DeliveryStep(p, run, n - 1, b, Delivery(p, run, n - 1, b));
    }
  }

  // The store after a whole conversation run.
  function RunOf(w: Runs.World, messages: seq<Runs.Inbound>): Store {
    Runs.StoreAt(w, messages, |messages|)
  }

  lemma ConversationSnoc(w: Runs.World, mine: seq<Runs.Inbound>, m: Runs.Inbound)
    ensures RunOf(w, mine + [m]) == Runs.After(w, RunOf(w, mine), m)
  {
    Runs.SameStart(w, mine, mine + [m], |mine|);
  }

  lemma StoreStep(p: Policy, l: Layer, r: Arrival, b: string)
    requires p.worlds.Keys == l.stores.Keys && b in p.worlds
    ensures b in Processed(p, l, r).layer.stores
    ensures Processed(p, l, r).layer.stores[b] ==
            if r.business == b && !Dedupe.IsDup(p.dedupeTtl, l.seen, EntryOf(r))
              && RateLimiting.Allows(p.max, l.limiter, CallOf(r))
            then Runs.After(p.worlds[b], l.stores[b], r.message) else l.stores[b]
  {
  }

  // What request `n` does to the outside world is the step of its business's conversation run, so
  // everything proved of conversation runs holds end to end.
  lemma EventsAreConversationSteps(p: Policy, run: seq<Arrival>, n: nat)
    requires n < |run| && Reaches(p, run, n)
    ensures var b := run[n].business; var mine := Delivery(p, run, n, b);
            EventsAt(p, run, n) == Runs.StepAt(p.worlds[b], mine + [run[n].message], |mine|).events
  {
    var b := run[n].business;
    var mine := Delivery(p, run, n, b);
    StoreIsConversationRun(p, run, n, b);
    Runs.SameStart(p.worlds[b], mine, mine + [run[n].message], |mine|);
  }

  /* ---------- What each request is answered ---------- */

  function ResponseAt(p: Policy, run: seq<Arrival>, n: nat): Option<Response>
    requires n < |run|
  {
    Processed(p, LayerAt(p, run, n), run[n]).response
  }

  predicate IsAnswered(p: Policy, run: seq<Arrival>, n: nat, status: Status)
    requires n < |run|
  {
    ResponseAt(p, run, n).Some? && ResponseAt(p, run, n).value.status == status
  }

  // Over any run: "duplicate" exactly for a request seen before, "rate limited" exactly for a new one the limiter
  // refuses, "unknown business" exactly for an admitted one nobody serves; a refusal carries no text and awaits
  // nothing, and only a request that reaches a runtime is answered "ok" or not at all.
  lemma StatusExactly(p: Policy, run: seq<Arrival>, n: nat)
    requires n < |run|
    ensures var r, admitted := run[n], RateLimiting.Allows(p.max, LayerAt(p, run, n).limiter, CallOf(run[n]));
            && (IsAnswered(p, run, n, Duplicate) <==> IsDuplicateAt(p, run, n))
            && (IsAnswered(p, run, n, RateLimited) <==> !IsDuplicateAt(p, run, n) && !admitted)
            && (IsAnswered(p, run, n, UnknownBusiness) <==>
                !IsDuplicateAt(p, run, n) && admitted && r.business !in p.worlds)
            && (IsAnswered(p, run, n, Ok) || ResponseAt(p, run, n) == None <==> Reaches(p, run, n))
    ensures !Reaches(p, run, n) ==>
              ResponseAt(p, run, n).Some? && ResponseAt(p, run, n).value.text == None
              && !ResponseAt(p, run, n).value.awaitingConfirmation
  {
    hide RateLimiting.After, Dedupe.After, Runs.After, Runs.StepOn;
  }

  // A request that reaches its runtime is answered what that business's own conversation run says there, or not at
  // all when the turn raised ...
  lemma ResponseIsTheReply(p: Policy, run: seq<Arrival>, n: nat)
    requires n < |run| && Reaches(p, run, n)
    ensures var b := run[n].business; var mine := Delivery(p, run, n, b);
            var said := Runs.StepAt(p.worlds[b], mine + [run[n].message], |mine|).reply;
            match ResponseAt(p, run, n)
            case None => said == None
            case Some(response) => response.status == Ok && response.text.Some? && response.text == said
  {
    hide RateLimiting.After, Dedupe.After, RateLimiting.Allows, Dedupe.IsDup, Runs.After, Runs.StepOn;
    var b := run[n].business;
    var mine := Delivery(p, run, n, b);
    StoreIsConversationRun(p, run, n, b);
    Runs.SameStart(p.worlds[b], mine, mine + [run[n].message], |mine|);
  }

  lemma AwaitingIsPending(p: Policy, l: Layer, r: Arrival, store: Store)
    requires p.worlds.Keys == l.stores.Keys && GetsThrough(p, l, r) && store == l.stores[r.business]
    ensures var response := Processed(p, l, r).response;
            response.Some? ==>
              response.value.awaitingConfirmation
              == View(Runs.After(p.worlds[r.business], store, r.message), r.message.key).pending.Some?
  {
    hide RateLimiting.After, Dedupe.After, Runs.After, Runs.StepOn;
  }

  // After the whole run some intercepted call of the session is still open.
  ghost predicate Awaits(w: Runs.World, run: seq<Runs.Inbound>, key: string) {
    exists call :: Runs.Intercepted(w, run, |run|, key, call)
  }

  lemma PendingExactlyWhenAwaits(w: Runs.World, run: seq<Runs.Inbound>, key: string)
    requires Prompt(w.ttl, w.clock)
    ensures Runs.SessionAt(w, run, |run|, key).pending.Some? <==> Awaits(w, run, key)
  {
    hide Runs.SessionAt;
    var pending := Runs.SessionAt(w, run, |run|, key).pending;
    if pending.Some? {
      Runs.PendingIsIntercepted(w, run, |run|, key, pending.value);
    } else if Awaits(w, run, key) {
      var call :| Runs.Intercepted(w, run, |run|, key, call);
      Runs.PendingIsIntercepted(w, run, |run|, key, call);
    }
  }

  // ... and reports a request awaiting its Confirmation exactly when one of the business's own run was intercepted for
  // this session and is still open just after this message.
  lemma AwaitingExactly(p: Policy, run: seq<Arrival>, n: nat)
    requires n < |run| && Reaches(p, run, n) && ResponseAt(p, run, n).Some?
    requires var w := p.worlds[run[n].business]; Prompt(w.ttl, w.clock)
    ensures var b, key := run[n].business, run[n].message.key; var mine := Delivery(p, run, n, b) + [run[n].message];
            ResponseAt(p, run, n).value.awaitingConfirmation <==> Awaits(p.worlds[b], mine, key)
  {
    hide RateLimiting.After, Dedupe.After, RateLimiting.Allows, Dedupe.IsDup, Runs.After, Runs.StepOn;
    var b, key := run[n].business, run[n].message.key;
    var w, mine := p.worlds[b], Delivery(p, run, n, b) + [run[n].message];
    StoreIsConversationRun(p, run, n, b);
    ConversationSnoc(w, Delivery(p, run, n, b), run[n].message);
    AwaitingIsPending(p, LayerAt(p, run, n), run[n], RunOf(w, Delivery(p, run, n, b)));
    PendingExactlyWhenAwaits(w, mine, key);
  }

  // Delivered message `j` came with request `i`, the messages before it with earlier requests.
  lemma {:induction false} DeliveredWith(p: Policy, run: seq<Arrival>, n: nat, b: string, j: nat) returns (i: nat)
    requires n <= |run| && j < |Delivery(p, run, n, b)|
    ensures i < n && Reaches(p, run, i) && run[i].business == b
    ensures |Delivery(p, run, i, b)| == j && Delivery(p, run, i, b) + [run[i].message]
            == Delivery(p, run, n, b)[..j + 1]
  {
    hide Processed;
    var before := Delivery(p, run, n - 1, b);
    if j < |before| {
      i := DeliveredWith(p, run, n - 1, b, j);
      assert Delivery(p, run, n, b)[..j + 1] == before[..j + 1];
    } else {
      i := n - 1;
    }
  }

  lemma InterceptionRunsNothing(w: Runs.World, run: seq<Runs.Inbound>, j: nat, key: string, call: Messages.ToolCall,
                                other: Messages.ToolCall)
    requires j < |run| && Runs.Intercepts(w, run, j, key, call)
    ensures Executed(other) !in Runs.StepAt(w, run, j).events
  {
    Runs.TurnExecutes(w.cfg, Runs.SessionAt(w, run, j, key), run[j], other);
  }

  // End to end: when a request runs a Tool that needs a Confirmation, it says "yes", and an earlier delivered
  // request of the same business and session asked for exactly that call and ran nothing.
  lemma ConfirmedEndToEnd(p: Policy, run: seq<Arrival>, n: nat, call: Messages.ToolCall) returns (i: nat)
    requires n < |run| && run[n].business in p.worlds && Executed(call) in EventsAt(p, run, n)
    requires Decide(call.name, p.worlds[run[n].business].cfg.tools) == RequireConfirmation
    ensures Reaches(p, run, n) && ParseReply(run[n].message.text) == Yes
    ensures i < n && Reaches(p, run, i) && run[i].business == run[n].business
            && run[i].message.key == run[n].message.key
    ensures Runs.Wants(p.worlds[run[n].business].cfg, run[i].message, call)
    ensures forall other :: Executed(other) !in EventsAt(p, run, i)
  {
    EffectsNeedDelivery(p, run, n);
    EventsAreConversationSteps(p, run, n);
    var b := run[n].business;
    var w, mine, message := p.worlds[b], Delivery(p, run, n, b), run[n].message;
    var j := Runs.Interception(w, mine + [message], |mine|, call);
    i := DeliveredWith(p, run, n, b, j);
    EarlierInterception(p, run, n, i, j, call);
  }

  lemma EarlierInterception(p: Policy, run: seq<Arrival>, n: nat, i: nat, j: nat, call: Messages.ToolCall)
    requires i < n < |run| && run[n].business in p.worlds && Reaches(p, run, i) && run[i].business == run[n].business
    requires var b := run[n].business; var mine := Delivery(p, run, n, b);
             && j < |mine| && Runs.Intercepts(p.worlds[b], mine + [run[n].message], j, run[n].message.key, call)
             && |Delivery(p, run, i, b)| == j && Delivery(p, run, i, b) + [run[i].message] == mine[..j + 1]
    ensures run[i].message.key == run[n].message.key && Runs.Wants(p.worlds[run[n].business].cfg, run[i].message, call)
    ensures forall other :: Executed(other) !in EventsAt(p, run, i)
  {
    var b := run[n].business;
    var w, own, all := p.worlds[b], Delivery(p, run, i, b) + [run[i].message],
      Delivery(p, run, n, b) + [run[n].message];
    assert forall k :: 0 <= k <= j ==> own[k] == all[k];
    Runs.SameStart(w, own, all, j);
    EventsAreConversationSteps(p, run, i);
    forall other ensures Executed(other) !in EventsAt(p, run, i) {
      InterceptionRunsNothing(w, all, j, run[n].message.key, call, other);
    }
  }

  /* ---------- How many requests reach the runtimes ---------- */

  // The calls the limiter sees: duplicates do not burn budget.
  function LimiterCalls(p: Policy, run: seq<Arrival>, n: nat): seq<RateLimiting.Call>
    requires n <= |run|
  {
    if n == 0 then []
    else
      var before := LimiterCalls(p, run, n - 1);
      if IsDuplicateAt(p, run, n - 1) then before else before + [CallOf(run[n - 1])]
  }

  function CountReaching(p: Policy, run: seq<Arrival>, n: nat, rateKey: string, lo: real, hi: real): nat
    requires n <= |run|
  {
    if n == 0 then 0
    else
      CountReaching(p, run, n - 1, rateKey, lo, hi)
      + if Reaches(p, run, n - 1) && run[n - 1].rateKey == rateKey && lo <= run[n - 1].limiterNow <= hi then 1 else 0
  }

  lemma LimiterStep(p: Policy, l: Layer, r: Arrival)
    requires p.worlds.Keys == l.stores.Keys
    ensures Processed(p, l, r).layer.limiter ==
            if Dedupe.IsDup(p.dedupeTtl, l.seen, EntryOf(r)) then l.limiter
            else RateLimiting.After(p.max, p.idleTtl, l.limiter, CallOf(r))
  {
  }

  lemma {:induction false} LimiterIsLimiterRun(p: Policy, run: seq<Arrival>, n: nat)
    requires n <= |run|
    ensures LayerAt(p, run, n).limiter == RateLimiting.Run(p.max, p.idleTtl, LimiterCalls(p, run, n))
  {
    hide Processed, RateLimiting.After, RateLimiting.Allows, Dedupe.IsDup;
    if n > 0 {
      LimiterIsLimiterRun(p, run, n - 1);
      var before := LimiterCalls(p, run, n - 1);
      RateLimiting.RunSnoc(p.max, p.idleTtl, before, CallOf(run[n - 1]), LayerAt(p, run, n - 1).limiter);
      LimiterStep(p, LayerAt(p, run, n - 1), run[n - 1]);
    }
  }

  lemma AcceptedGrows(p: Policy, before: seq<RateLimiting.Call>, call: RateLimiting.Call, s: RateLimiting.Limiter,
                      rateKey: string, lo: real, hi: real)
    requires s == RateLimiting.Run(p.max, p.idleTtl, before)
    ensures var log := RateLimiting.Accepted(p.max, p.idleTtl, before);
            RateLimiting.CountClosed(RateLimiting.Accepted(p.max, p.idleTtl, before + [call]), rateKey, lo, hi)
            == RateLimiting.CountClosed(log, rateKey, lo, hi)
               + if RateLimiting.Allows(p.max, s, call) && call.key == rateKey && lo <= call.now <= hi then 1 else 0
  {
    var log := RateLimiting.Accepted(p.max, p.idleTtl, before);
    RateLimiting.RunSnoc(p.max, p.idleTtl, before, call, s);
    assert (log + [call])[..|log|] == log;
  }

  // One more request for the limiter and for the count.
  lemma CountStep(p: Policy, run: seq<Arrival>, n: nat, rateKey: string, lo: real, hi: real, l: Layer)
    requires n < |run| && l == LayerAt(p, run, n)
    ensures CountReaching(p, run, n + 1, rateKey, lo, hi)
            == CountReaching(p, run, n, rateKey, lo, hi)
               + if GetsThrough(p, l, run[n]) && run[n].rateKey == rateKey && lo <= run[n].limiterNow <= hi then 1
                 else 0
    ensures LimiterCalls(p, run, n + 1)
            == if Repeats(p, l, run[n]) then LimiterCalls(p, run, n) else LimiterCalls(p, run, n) + [CallOf(run[n])]
  {
  }

  ghost predicate WithinAccepted(p: Policy, calls: seq<RateLimiting.Call>, count: nat, rateKey: string, lo: real,
                                 hi: real) {
    count <= RateLimiting.CountClosed(RateLimiting.Accepted(p.max, p.idleTtl, calls), rateKey, lo, hi)
  }

  lemma ReachingStep(p: Policy, l: Layer, r: Arrival, rateKey: string, lo: real, hi: real,
                     calls: seq<RateLimiting.Call>, count: nat)
    requires WithinAccepted(p, calls, count, rateKey, lo, hi)
    requires l.limiter == RateLimiting.Run(p.max, p.idleTtl, calls)
    ensures WithinAccepted(p, if Repeats(p, l, r) then calls else calls + [CallOf(r)],
                           count + if GetsThrough(p, l, r) && r.rateKey == rateKey && lo <= r.limiterNow <= hi then 1
                             else 0,
                           rateKey, lo, hi)
  {
    AcceptedGrows(p, calls, CallOf(r), l.limiter, rateKey, lo, hi);
  }

  ghost predicate ReachingFits(p: Policy, run: seq<Arrival>, n: nat, rateKey: string, lo: real, hi: real)
    requires n <= |run|
  {
    forall calls, count :: calls == LimiterCalls(p, run, n) && count == CountReaching(p, run, n, rateKey, lo, hi) ==>
      WithinAccepted(p, calls, count, rateKey, lo, hi)
  }

  lemma ReachingNext(p: Policy, run: seq<Arrival>, n: nat, rateKey: string, lo: real, hi: real)
    requires n < |run| && ReachingFits(p, run, n, rateKey, lo, hi)
    ensures ReachingFits(p, run, n + 1, rateKey, lo, hi)
  {
    LimiterIsLimiterRun(p, run, n);
    var l, calls, count := LayerAt(p, run, n), LimiterCalls(p, run, n), CountReaching(p, run, n, rateKey, lo, hi);
    CountStep(p, run, n, rateKey, lo, hi, l);
    assert WithinAccepted(p, calls, count, rateKey, lo, hi);
    ReachingStep(p, l, run[n], rateKey, lo, hi, calls, count);
  }

  lemma {:induction false} ReachingIsAccepted(p: Policy, run: seq<Arrival>, n: nat, rateKey: string, lo: real, hi: real)
    requires n <= |run|
    ensures ReachingFits(p, run, n, rateKey, lo, hi)
  {
    hide LayerAt, Repeats;
    if n > 0 {
      ReachingIsAccepted(p, run, n - 1, rateKey, lo, hi);
      ReachingNext(p, run, n - 1, rateKey, lo, hi);
    }
  }

  ghost predicate LimiterClockAdvances(run: seq<Arrival>) {
    forall i, j :: 0 <= i < j < |run| ==> run[i].limiterNow <= run[j].limiterNow
  }

  lemma SortedStep(p: Policy, run: seq<Arrival>, n: nat, calls: seq<RateLimiting.Call>)
    requires n < |run| && LimiterClockAdvances(run) && calls == LimiterCalls(p, run, n)
    requires RateLimiting.Sorted(calls) && RateLimiting.NoLaterThan(calls, run[n].limiterNow)
    ensures RateLimiting.Sorted(LimiterCalls(p, run, n + 1))
    ensures n + 1 < |run| ==> RateLimiting.NoLaterThan(LimiterCalls(p, run, n + 1), run[n + 1].limiterNow)
  {
    RateLimiting.SortedSnoc(calls, CallOf(run[n]));
    assert n + 1 < |run| ==> run[n].limiterNow <= run[n + 1].limiterNow;
  }

  lemma {:induction false} LimiterCallsAreSorted(p: Policy, run: seq<Arrival>, n: nat)
    requires n <= |run| && LimiterClockAdvances(run)
    ensures RateLimiting.Sorted(LimiterCalls(p, run, n))
    ensures n < |run| ==> RateLimiting.NoLaterThan(LimiterCalls(p, run, n), run[n].limiterNow)
  {
    hide Processed;
    if n > 0 {
      LimiterCallsAreSorted(p, run, n - 1);
      SortedStep(p, run, n - 1, LimiterCalls(p, run, n - 1));
    }
  }

  lemma AcceptedBound(p: Policy, calls: seq<RateLimiting.Call>, rateKey: string, start: real, length: real, count: nat)
    requires RateLimiting.Sorted(calls) && p.max >= 0 && p.idleTtl >= 60.0 && length >= 0.0
    requires WithinAccepted(p, calls, count, rateKey, start, start + length)
    ensures count <= p.max * ((length / 60.0).Floor + 1)
  {
    RateLimiting.IntervalBound(p.max, p.idleTtl, calls, rateKey, start, length);
  }

  // In any closed interval of `length` seconds at most max * (floor(length / 60) + 1) requests of one
  // rate-limit key reach a runtime.
  lemma ReachingBound(p: Policy, run: seq<Arrival>, rateKey: string, start: real, length: real)
    requires LimiterClockAdvances(run) && p.max >= 0 && p.idleTtl >= 60.0 && length >= 0.0
    ensures CountReaching(p, run, |run|, rateKey, start, start + length)
            <= p.max * ((length / 60.0).Floor + 1)
  {
    hide RateLimiting.Accepted, RateLimiting.CountClosed;
    LimiterCallsAreSorted(p, run, |run|);
    ReachingIsAccepted(p, run, |run|, rateKey, start, start + length);
    var calls, count := LimiterCalls(p, run, |run|), CountReaching(p, run, |run|, rateKey, start, start + length);
    assert WithinAccepted(p, calls, count, rateKey, start, start + length);
    AcceptedBound(p, calls, rateKey, start, length, count);
  }
}
