// Sliding-window rate limiting per key, with an idle sweep every 500 calls
// (interface_layer/rate_limiter.py), and the unpruned log it has to agree with.
module RateLimiting {
  const SWEEP_INTERVAL: nat := 500
  const WINDOW_SECONDS: real := 60.0

  // The three mutable fields of the limiter.
  datatype Limiter = Limiter(timestamps: map<string, seq<real>>, lastSeen: map<string, real>, callCount: nat)

  datatype Call = Call(key: string, now: real)

  const FRESH := Limiter(map[], map[], 0)

  /* ---------- One call ---------- */

  // The stamps later than `start`, in order.
  function Recent(stamps: seq<real>, start: real): seq<real> {
    if stamps == [] then []
    else (if stamps[0] > start then [stamps[0]] else []) + Recent(stamps[1..], start)
  }

  function StaleKeys(lastSeen: map<string, real>, cutoff: real): set<string> {
    set key | key in lastSeen && lastSeen[key] < cutoff
  }

  function Swept(s: Limiter, cutoff: real): Limiter {
    var stale := StaleKeys(s.lastSeen, cutoff);
    s.(timestamps := s.timestamps - stale, lastSeen := s.lastSeen - stale)
  }

  function Kept(s: Limiter, call: Call): seq<real> {
    if call.key in s.timestamps then Recent(s.timestamps[call.key], call.now - WINDOW_SECONDS) else []
  }

  predicate Allows(max: int, s: Limiter, call: Call) {
    |Kept(s, call)| < max
  }

  // The state after a call, before any sweep.
  function Noted(max: int, s: Limiter, call: Call): Limiter {
    var kept := Kept(s, call);
    Limiter(s.timestamps[call.key := if |kept| < max then kept + [call.now] else kept],
            s.lastSeen[call.key := call.now], s.callCount + 1)
  }

  function After(max: int, idleTtl: real, s: Limiter, call: Call): Limiter {
    var s' := Noted(max, s, call);
    if s'.callCount % SWEEP_INTERVAL == 0 then Swept(s', call.now - idleTtl) else s'
  }

  class RateLimiter {
    const maxPerMinute: int
    const idleTtlSeconds: real
    var timestamps: map<string, seq<real>>
    var lastSeen: map<string, real>
    var callCount: nat

    constructor (maxPerMinute: int, idleTtlSeconds: real)
      ensures this.maxPerMinute == maxPerMinute && this.idleTtlSeconds == idleTtlSeconds
      ensures State() == FRESH
    {
      this.maxPerMinute, this.idleTtlSeconds := maxPerMinute, idleTtlSeconds;
      timestamps, lastSeen, callCount := map[], map[], 0;
    }

    function State(): Limiter
      reads this
    {
      Limiter(timestamps, lastSeen, callCount)
    }

    predicate Valid()
      reads this
    {
      timestamps.Keys == lastSeen.Keys
    }

    method Allow(key: string, now: real) returns (allowed: bool)
      requires Valid()
      modifies this
      ensures Valid()
      ensures allowed == Allows(maxPerMinute, old(State()), Call(key, now))
      ensures State() == After(maxPerMinute, idleTtlSeconds, old(State()), Call(key, now))
    {
      var windowStart := now - WINDOW_SECONDS;
      var stamps := if key in timestamps then Recent(timestamps[key], windowStart) else [];
      allowed := |stamps| < maxPerMinute;
      if allowed {
        stamps := stamps + [now];
      }
      timestamps := timestamps[key := stamps];
      lastSeen := lastSeen[key := now];
      callCount := callCount + 1;
      if callCount % SWEEP_INTERVAL == 0 {
        Sweep(now);
      }
    }

    method Sweep(now: real)
      requires Valid()
      modifies this`timestamps, this`lastSeen
      ensures Valid()
      ensures State() == Swept(old(State()), now - idleTtlSeconds)
    {
      var cutoff := now - idleTtlSeconds;
      var stale := set key | key in lastSeen && lastSeen[key] < cutoff;
      var left := stale;
      while left != {}
        invariant left <= stale
        invariant timestamps == old(timestamps) - (stale - left)
        invariant lastSeen == old(lastSeen) - (stale - left)
        decreases |left|
      {
        var key :| key in left;
        assert key in timestamps && key in lastSeen;
        timestamps := timestamps - {key};
        lastSeen := lastSeen - {key};
        left := left - {key};
      }
    }
  }

  /* ---------- Runs ---------- */

  function Run(max: int, idleTtl: real, calls: seq<Call>): Limiter {
    if calls == [] then FRESH
    else After(max, idleTtl, Run(max, idleTtl, calls[..|calls| - 1]), calls[|calls| - 1])
  }

  function Logged(max: int, s: Limiter, log: seq<Call>, call: Call): seq<Call> {
    if Allows(max, s, call) then log + [call] else log
  }

  // The calls the limiter answered true.
  function Accepted(max: int, idleTtl: real, calls: seq<Call>): seq<Call> {
    if calls == [] then []
    else
      var before, call := calls[..|calls| - 1], calls[|calls| - 1];
      Logged(max, Run(max, idleTtl, before), Accepted(max, idleTtl, before), call)
  }

  // The stamps of one key, in order.
  function Stamps(log: seq<Call>, key: string): seq<real> {
    if log == [] then []
    else
      var last := log[|log| - 1];
      Stamps(log[..|log| - 1], key) + (if last.key == key then [last.now] else [])
  }

  // How many logged calls of `key` fall in the half-open window (lo, hi].
  function CountIn(log: seq<Call>, key: string, lo: real, hi: real): nat {
    if log == [] then 0
    else
      var last := log[|log| - 1];
      CountIn(log[..|log| - 1], key, lo, hi) + (if last.key == key && lo < last.now <= hi then 1 else 0)
  }

  // The reference: a call is allowed when the unpruned log holds fewer than `max` calls
  // of its key in the last window.
  predicate Admits(max: int, log: seq<Call>, call: Call) {
    CountIn(log, call.key, call.now - 60.0, call.now) < max
  }

  function Extended(max: int, log: seq<Call>, call: Call): seq<Call> {
    if Admits(max, log, call) then log + [call] else log
  }

  function Log(max: int, calls: seq<Call>): seq<Call> {
    if calls == [] then []
    else
      var log, call := Log(max, calls[..|calls| - 1]), calls[|calls| - 1];
      Extended(max, log, call)
  }

  // The clock never goes back.
  predicate Sorted(calls: seq<Call>) {
    forall i, j :: 0 <= i < j < |calls| ==> calls[i].now <= calls[j].now
  }

  /* ---------- The limiter agrees with the log ---------- */

  lemma {:induction false} RecentAppend(s: seq<real>, t: real, start: real)
    ensures Recent(s + [t], start) == Recent(s, start) + (if t > start then [t] else [])
  {
    if s == [] {
      assert s + [t] == [t];
    } else {
      RecentAppend(s[1..], t, start);
      assert (s + [t])[1..] == s[1..] + [t];
    }
  }

  lemma {:induction false} RecentTwice(s: seq<real>, early: real, late: real)
    requires early <= late
    ensures Recent(Recent(s, early), late) == Recent(s, late)
  {
    if s != [] {
      RecentTwice(s[1..], early, late);
      if s[0] > early {
        assert ([s[0]] + Recent(s[1..], early))[1..] == Recent(s[1..], early);
      } else {
        assert [] + Recent(s[1..], early) == Recent(s[1..], early);
      }
    }
  }

  lemma {:induction false} CountIsRecent(log: seq<Call>, key: string, lo: real, hi: real)
    requires forall i :: 0 <= i < |log| ==> log[i].now <= hi
    ensures CountIn(log, key, lo, hi) == |Recent(Stamps(log, key), lo)|
  {
    if log != [] {
      var before, last := log[..|log| - 1], log[|log| - 1];
      CountIsRecent(before, key, lo, hi);
      if last.key == key {
        RecentAppend(Stamps(before, key), last.now, lo);
      } else {
        assert Stamps(log, key) == Stamps(before, key);
      }
    }
  }

  lemma StampsAppend(log: seq<Call>, call: Call, key: string)
    ensures Stamps(log + [call], key) == Stamps(log, key) + (if call.key == key then [call.now] else [])
  {
    assert (log + [call])[..|log|] == log;
  }

  // What the pruned state says about the log: a key it still holds has exactly the stamps
  // of the window before its last call, a key it has dropped has no stamp left in the window.
  ghost predicate Tells(max: int, s: Limiter, log: seq<Call>, now: real, key: string)
    requires s.timestamps.Keys == s.lastSeen.Keys
  {
    if key in s.timestamps then
      && s.lastSeen[key] <= now
      && s.timestamps[key] == Recent(Stamps(log, key), s.lastSeen[key] - WINDOW_SECONDS)
      && |s.timestamps[key]| <= (if max < 0 then 0 else max)
    else
      Recent(Stamps(log, key), now - WINDOW_SECONDS) == []
  }

  ghost predicate Represents(max: int, s: Limiter, log: seq<Call>, now: real) {
    && s.timestamps.Keys == s.lastSeen.Keys
    && forall key :: Tells(max, s, log, now, key)
  }

  // No logged call of a held key is later than its last-seen stamp.
  ghost predicate SeenLast(s: Limiter, log: seq<Call>) {
    forall i :: 0 <= i < |log| && log[i].key in s.lastSeen ==> log[i].now <= s.lastSeen[log[i].key]
  }

  ghost predicate NoLaterThan(log: seq<Call>, now: real) {
    forall i :: 0 <= i < |log| ==> log[i].now <= now
  }

  lemma StampsStayRecent(max: int, s: Limiter, log: seq<Call>, t: real, call: Call)
    requires Represents(max, s, log, t) && t <= call.now
    ensures Kept(s, call) == Recent(Stamps(log, call.key), call.now - WINDOW_SECONDS)
  {
    assert Tells(max, s, log, t, call.key);
    if call.key in s.timestamps {
      RecentTwice(Stamps(log, call.key), s.lastSeen[call.key] - WINDOW_SECONDS, call.now - WINDOW_SECONDS);
    } else {
      RecentTwice(Stamps(log, call.key), t - WINDOW_SECONDS, call.now - WINDOW_SECONDS);
    }
  }

  lemma {:induction false} RecentShrinks(s: seq<real>, start: real)
    ensures |Recent(s, start)| <= |s|
  {
    if s != [] { RecentShrinks(s[1..], start); }
  }

  lemma TellsOwnKey(max: int, s: Limiter, log: seq<Call>, t: real, call: Call)
    requires Represents(max, s, log, t) && t <= call.now
    ensures Tells(max, Noted(max, s, call), Logged(max, s, log, call), call.now, call.key)
  {
    StampsStayRecent(max, s, log, t, call);
    StampsAppend(log, call, call.key);
    RecentAppend(Stamps(log, call.key), call.now, call.now - WINDOW_SECONDS);
    assert Tells(max, s, log, t, call.key);
    if call.key in s.timestamps {
      RecentShrinks(s.timestamps[call.key], call.now - WINDOW_SECONDS);
    }
  }

  lemma OtherStampsStay(max: int, s: Limiter, log: seq<Call>, call: Call, key: string)
    requires key != call.key
    ensures Stamps(Logged(max, s, log, call), key) == Stamps(log, key)
  {
    StampsAppend(log, call, key);
    assert Stamps(log, key) + [] == Stamps(log, key);
  }

  lemma TellsOtherKey(max: int, s: Limiter, log: seq<Call>, t: real, call: Call, key: string)
    requires Represents(max, s, log, t) && t <= call.now && key != call.key
    ensures Tells(max, Noted(max, s, call), Logged(max, s, log, call), call.now, key)
  {
    hide Kept;
    OtherStampsStay(max, s, log, call, key);
    assert Tells(max, s, log, t, key);
    if key !in s.timestamps {
      RecentTwice(Stamps(log, key), t - WINDOW_SECONDS, call.now - WINDOW_SECONDS);
    }
  }

  lemma RepresentsWithoutSweep(max: int, s: Limiter, log: seq<Call>, t: real, call: Call)
    requires Represents(max, s, log, t) && t <= call.now
    ensures Represents(max, Noted(max, s, call), Logged(max, s, log, call), call.now)
  {
    var s', log' := Noted(max, s, call), Logged(max, s, log, call);
    forall key
      ensures Tells(max, s', log', call.now, key)
    {
      if key == call.key {
        TellsOwnKey(max, s, log, t, call);
      } else {
        TellsOtherKey(max, s, log, t, call, key);
      }
    }
  }

  // Dropping a key idle for longer than the window loses no stamp that still counts.
  lemma RepresentsAfterSweep(max: int, s: Limiter, log: seq<Call>, now: real, idleTtl: real)
    requires Represents(max, s, log, now) && SeenLast(s, log) && idleTtl >= WINDOW_SECONDS
    ensures Represents(max, Swept(s, now - idleTtl), log, now)
    ensures SeenLast(Swept(s, now - idleTtl), log)
  {
    var s' := Swept(s, now - idleTtl);
    forall key
      ensures Tells(max, s', log, now, key)
    {
      assert Tells(max, s, log, now, key);
      if key in s.timestamps && key !in s'.timestamps {
        StampsBounded(log, key, s.lastSeen[key]);
        NothingRecent(Stamps(log, key), now - WINDOW_SECONDS);
      }
    }
  }

  lemma {:induction false} StampsBounded(log: seq<Call>, key: string, hi: real)
    requires forall i :: 0 <= i < |log| && log[i].key == key ==> log[i].now <= hi
    ensures forall i :: 0 <= i < |Stamps(log, key)| ==> Stamps(log, key)[i] <= hi
  {
    if log != [] { StampsBounded(log[..|log| - 1], key, hi); }
  }

  lemma {:induction false} NothingRecent(s: seq<real>, start: real)
    requires forall i :: 0 <= i < |s| ==> s[i] <= start
    ensures Recent(s, start) == []
  {
    if s != [] { NothingRecent(s[1..], start); }
  }

  lemma SeenLastStep(max: int, s: Limiter, log: seq<Call>, t: real, call: Call)
    requires SeenLast(s, log) && NoLaterThan(log, t) && t <= call.now
    ensures SeenLast(Noted(max, s, call), Logged(max, s, log, call))
    ensures NoLaterThan(Logged(max, s, log, call), call.now)
  {
  }

  ghost predicate Tracks(max: int, s: Limiter, log: seq<Call>, t: real) {
    Represents(max, s, log, t) && SeenLast(s, log) && NoLaterThan(log, t)
  }

  lemma SameAnswer(max: int, s: Limiter, log: seq<Call>, t: real, call: Call)
    requires Tracks(max, s, log, t) && t <= call.now
    ensures Allows(max, s, call) <==> Admits(max, log, call)
  {
    StampsStayRecent(max, s, log, t, call);
    CountIsRecent(log, call.key, call.now - WINDOW_SECONDS, call.now);
  }

  lemma TracksStep(max: int, idleTtl: real, s: Limiter, log: seq<Call>, t: real, call: Call)
    requires Tracks(max, s, log, t) && t <= call.now && idleTtl >= WINDOW_SECONDS
    ensures Tracks(max, After(max, idleTtl, s, call), Logged(max, s, log, call), call.now)
  {
    RepresentsWithoutSweep(max, s, log, t, call);
    SeenLastStep(max, s, log, t, call);
    if (s.callCount + 1) % SWEEP_INTERVAL == 0 {
      RepresentsAfterSweep(max, Noted(max, s, call), Logged(max, s, log, call), call.now, idleTtl);
    }
  }

  // The reading of the latest call, or `first` when there is none yet.
  function Latest(calls: seq<Call>, first: real): real {
    if calls == [] then first else calls[|calls| - 1].now
  }

  lemma {:induction false} RunTracksLog(max: int, idleTtl: real, calls: seq<Call>, first: real)
    requires Sorted(calls) && idleTtl >= WINDOW_SECONDS
    ensures Accepted(max, idleTtl, calls) == Log(max, calls)
    ensures Tracks(max, Run(max, idleTtl, calls), Log(max, calls), Latest(calls, first))
  {
    if calls == [] {
      assert forall key :: Tells(max, FRESH, [], first, key);
    } else {
      var before, call := calls[..|calls| - 1], calls[|calls| - 1];
      var s, log := Run(max, idleTtl, before), Log(max, before);
      RunTracksLog(max, idleTtl, before, call.now);
      SameAnswer(max, s, log, Latest(before, call.now), call);
      TracksStep(max, idleTtl, s, log, Latest(before, call.now), call);
      UnfoldLast(max, idleTtl, calls, before, call, s, log);
    }
  }

  lemma UnfoldLast(max: int, idleTtl: real, calls: seq<Call>, before: seq<Call>, call: Call, s: Limiter, log: seq<Call>)
    requires calls != [] && before == calls[..|calls| - 1] && call == calls[|calls| - 1]
    requires s == Run(max, idleTtl, before) && log == Log(max, before)
    ensures Run(max, idleTtl, calls) == After(max, idleTtl, s, call)
    ensures Log(max, calls) == Extended(max, log, call)
    ensures Accepted(max, idleTtl, calls) == Logged(max, s, Accepted(max, idleTtl, before), call)
  {
  }

  // Filtering and the 500-call sweep are unobservable, and no list exceeds the maximum.
  lemma LimiterRefinesLog(max: int, idleTtl: real, calls: seq<Call>, call: Call)
    requires Sorted(calls + [call]) && idleTtl >= 60.0
    ensures Allows(max, Run(max, idleTtl, calls), call) <==> Admits(max, Log(max, calls), call)
    ensures var s := Run(max, idleTtl, calls);
            && s.timestamps.Keys == s.lastSeen.Keys
            && forall key :: key in s.timestamps ==> |s.timestamps[key]| <= if max < 0 then 0 else max
  {
    var all := calls + [call];
    assert all[..|calls|] == calls;
    assert Sorted(calls) && Latest(calls, call.now) <= call.now by {
      assert all[|calls|] == call;
      assert forall i, j :: 0 <= i < j < |all| ==> all[i].now <= all[j].now;
      assert forall i :: 0 <= i < |calls| ==> calls[i] == all[i];
    }
    var s := Run(max, idleTtl, calls);
    RunTracksLog(max, idleTtl, calls, call.now);
    SameAnswer(max, s, Log(max, calls), Latest(calls, call.now), call);
    forall key | key in s.timestamps
      ensures |s.timestamps[key]| <= if max < 0 then 0 else max
    {
      assert Tells(max, s, Log(max, calls), Latest(calls, call.now), key);
    }
  }

  /* ---------- Exactly when the sweep is unobservable ---------- */

  function Times(call: Call, n: nat): seq<Call> {
    seq(n, _ => call)
  }

  predicate AllAt(calls: seq<Call>, t: real) {
    forall i :: 0 <= i < |calls| ==> calls[i].now == t
  }

  lemma {:induction false} RunCounts(max: int, idleTtl: real, calls: seq<Call>, t: real)
    ensures var s := Run(max, idleTtl, calls); s.callCount == |calls| && s.timestamps.Keys == s.lastSeen.Keys
    ensures var s := Run(max, idleTtl, calls); AllAt(calls, t) ==>
            forall key :: key in s.lastSeen ==> s.lastSeen[key] == t
  {
    if calls != [] { RunCounts(max, idleTtl, calls[..|calls| - 1], t); }
  }

  lemma {:induction false} BurstIsLogged(max: nat, key: string, t: real, n: nat)
    requires n <= max
    ensures Log(max, Times(Call(key, t), n)) == Times(Call(key, t), n)
    ensures CountIn(Times(Call(key, t), n), key, t - WINDOW_SECONDS, t) == n
  {
    if n > 0 {
      BurstIsLogged(max, key, t, n - 1);
      assert Times(Call(key, t), n)[..n - 1] == Times(Call(key, t), n - 1);
    }
  }

  lemma {:induction false} OthersLeaveCount(max: int, calls: seq<Call>, more: seq<Call>, key: string, lo: real,
                                            hi: real)
    requires forall i :: 0 <= i < |more| ==> more[i].key != key
    ensures CountIn(Log(max, calls + more), key, lo, hi) == CountIn(Log(max, calls), key, lo, hi)
  {
    if more == [] {
      assert calls + more == calls;
    } else {
      var rest := more[..|more| - 1];
      OthersLeaveCount(max, calls, rest, key, lo, hi);
      assert (calls + more)[..|calls + more| - 1] == calls + rest;
      var log, call := Log(max, calls + rest), more[|more| - 1];
      assert (calls + more)[|calls + more| - 1] == call && call.key != key;
      assert (log + [call])[..|log|] == log;
    }
  }

  lemma {:induction false} BurstCount(key: string, t: real, n: nat, lo: real, hi: real)
    requires lo < t <= hi
    ensures CountIn(Times(Call(key, t), n), key, lo, hi) == n
  {
    if n > 0 {
      BurstCount(key, t, n - 1, lo, hi);
      assert Times(Call(key, t), n)[..n - 1] == Times(Call(key, t), n - 1);
    }
  }

  // A full burst of key `k`, then calls of `j` up to the next sweep, all at time zero.
  function Quiet(max: nat, k: string, j: string): (calls: seq<Call>)
    ensures |calls| == SWEEP_INTERVAL * (max + 1) - 1
    ensures forall i :: 0 <= i < |calls| ==> calls[i].now == 0.0
  {
    Times(Call(k, 0.0), max) + Times(Call(j, 0.0), SWEEP_INTERVAL * (max + 1) - 1 - max)
  }

  lemma SweepDropsIdleKey(max: int, idleTtl: real, s: Limiter, k: string, call: Call)
    requires s.timestamps.Keys == s.lastSeen.Keys && (s.callCount + 1) % SWEEP_INTERVAL == 0
    requires k != call.key && (k in s.lastSeen ==> s.lastSeen[k] < call.now - idleTtl)
    ensures k !in After(max, idleTtl, s, call).timestamps
  {
    var s' := Noted(max, s, call);
    assert k in s'.lastSeen ==> k in StaleKeys(s'.lastSeen, call.now - idleTtl);
  }

  lemma SweepDropsBurst(max: nat, idleTtl: real, t: real, k: string, j: string)
    requires 0.0 <= t && idleTtl < t && k != j
    ensures k !in Run(max, idleTtl, Quiet(max, k, j) + [Call(j, t)]).timestamps
  {
    var quiet := Quiet(max, k, j);
    RunCounts(max, idleTtl, quiet, 0.0);
    SweepDropsIdleKey(max, idleTtl, Run(max, idleTtl, quiet), k, Call(j, t));
    RunSnoc(max, idleTtl, quiet, Call(j, t), Run(max, idleTtl, quiet));
  }

  lemma BurstStaysLogged(max: nat, t: real, k: string, j: string)
    requires 0.0 <= t < WINDOW_SECONDS && k != j
    ensures CountIn(Log(max, Quiet(max, k, j) + [Call(j, t)]), k, t - WINDOW_SECONDS, t) == max
  {
    var burst, rest := Times(Call(k, 0.0), max), Times(Call(j, 0.0), SWEEP_INTERVAL * (max + 1) - 1 - max);
    BurstIsLogged(max, k, 0.0, max);
    BurstCount(k, 0.0, max, t - WINDOW_SECONDS, t);
    OthersLeaveCount(max, burst, rest + [Call(j, t)], k, t - WINDOW_SECONDS, t);
    assert Quiet(max, k, j) + [Call(j, t)] == burst + (rest + [Call(j, t)]);
  }

  lemma LogSnoc(max: int, before: seq<Call>, call: Call, log: seq<Call>)
    requires log == Log(max, before) && !Admits(max, log, call)
    ensures Log(max, before + [call]) == log
  {
    assert (before + [call])[..|before|] == before;
  }

  lemma RunSnoc(max: int, idleTtl: real, before: seq<Call>, call: Call, s: Limiter)
    requires s == Run(max, idleTtl, before)
    ensures Run(max, idleTtl, before + [call]) == After(max, idleTtl, s, call)
    ensures Accepted(max, idleTtl, before + [call]) == Logged(max, s, Accepted(max, idleTtl, before), call)
  {
    assert (before + [call])[..|before|] == before;
  }

  // A burst the state has dropped and the log still holds: a call the two answer differently.
  lemma ForgottenBurst(max: nat, idleTtl: real, before: seq<Call>, call: Call, s: Limiter, log: seq<Call>)
    returns (calls: seq<Call>)
    requires Sorted(before) && NoLaterThan(before, call.now)
    requires s == Run(max, idleTtl, before) && log == Log(max, before)
    requires Allows(max, s, call) && !Admits(max, log, call)
    ensures Sorted(calls) && Accepted(max, idleTtl, calls) != Log(max, calls)
  {
    if Accepted(max, idleTtl, before) == log {
      AnswersDiffer(max, idleTtl, before, call, s, log);
      SortedSnoc(before, call);
      calls := before + [call];
    } else {
      calls := before;
    }
  }

  lemma SortedSnoc(before: seq<Call>, call: Call)
    requires Sorted(before) && NoLaterThan(before, call.now)
    ensures Sorted(before + [call])
  {
  }

  lemma AnswersDiffer(max: int, idleTtl: real, before: seq<Call>, call: Call, s: Limiter, log: seq<Call>)
    requires s == Run(max, idleTtl, before) && log == Log(max, before) == Accepted(max, idleTtl, before)
    requires Allows(max, s, call) && !Admits(max, log, call)
    ensures Accepted(max, idleTtl, before + [call]) != Log(max, before + [call])
  {
    LogSnoc(max, before, call, log);
    RunSnoc(max, idleTtl, before, call, s);
    assert |log + [call]| == |log| + 1;
  }

  lemma QuietIsSorted(max: nat, k: string, j: string, t: real)
    requires 0.0 <= t
    ensures Sorted(Quiet(max, k, j) + [Call(j, t)]) && NoLaterThan(Quiet(max, k, j) + [Call(j, t)], t)
  {
  }

  // With a shorter time-to-live some run lets a key exceed its maximum inside one window.
  lemma ShortTtlForgetsABurst(max: nat, idleTtl: real, k: string, j: string) returns (calls: seq<Call>)
    requires max >= 1 && idleTtl < 60.0 && k != j
    ensures Sorted(calls) && Accepted(max, idleTtl, calls) != Log(max, calls)
  {
    var t := if idleTtl < 0.0 then 0.0 else (idleTtl + WINDOW_SECONDS) / 2.0;
    var before := Quiet(max, k, j) + [Call(j, t)];
    QuietIsSorted(max, k, j, t);
    SweepDropsBurst(max, idleTtl, t, k, j);
    BurstStaysLogged(max, t, k, j);
    var s, log := Run(max, idleTtl, before), Log(max, before);
    assert Allows(max, s, Call(k, t)) && !Admits(max, log, Call(k, t));
    calls := ForgottenBurst(max, idleTtl, before, Call(k, t), s, log);
  }

  // After any run, one more call notes its key, and every 500th call drops the keys not seen for the time-to-live
  // before it; no other key comes or goes.
  lemma KeysHeldExactly(max: int, idleTtl: real, calls: seq<Call>, call: Call, key: string)
    ensures var s, s' := Run(max, idleTtl, calls), Run(max, idleTtl, calls + [call]);
            && (key in s'.timestamps <==> key in s'.lastSeen)
            && (key in s'.lastSeen <==>
                (key in s.lastSeen || key == call.key)
                && ((|calls| + 1) % 500 == 0 ==>
                      (if key == call.key then call.now else s.lastSeen[key]) >= call.now - idleTtl))
            && (key in s'.lastSeen ==> s'.lastSeen[key] == if key == call.key then call.now else s.lastSeen[key])
  {
    var s := Run(max, idleTtl, calls);
    RunSnoc(max, idleTtl, calls, call, s);
    RunCounts(max, idleTtl, calls, 0.0);
  }

  // The limiter agrees with the unpruned log on every run exactly when the idle time-to-live
  // covers the window (or nothing is ever allowed).
  lemma AgreesExactlyWhenTtlCoversWindow(max: int, idleTtl: real)
    ensures (forall calls: seq<Call> :: Sorted(calls) ==> Accepted(max, idleTtl, calls) == Log(max, calls))
            <==> (max <= 0 || idleTtl >= 60.0)
  {
    if 0 < max && idleTtl < WINDOW_SECONDS {
      assert |""| != |"x"|;
      var calls := ShortTtlForgetsABurst(max, idleTtl, "", "x");
    } else {
      forall calls: seq<Call> | Sorted(calls)
        ensures Accepted(max, idleTtl, calls) == Log(max, calls)
      {
        if max <= 0 {
          NothingAllowed(max, idleTtl, calls);
        } else {
          RunTracksLog(max, idleTtl, calls, 0.0);
        }
      }
    }
  }

  lemma {:induction false} NothingAllowed(max: int, idleTtl: real, calls: seq<Call>)
    requires max <= 0
    ensures Accepted(max, idleTtl, calls) == Log(max, calls) == []
  {
    if calls != [] { NothingAllowed(max, idleTtl, calls[..|calls| - 1]); }
  }

  /* ---------- How many calls any interval can hold ---------- */

  // Calls of `key` in the half-open window [lo, hi).
  function CountFrom(log: seq<Call>, key: string, lo: real, hi: real): nat {
    if log == [] then 0
    else
      var last := log[|log| - 1];
      CountFrom(log[..|log| - 1], key, lo, hi) + (if last.key == key && lo <= last.now < hi then 1 else 0)
  }

  // Calls of `key` in the closed interval [lo, hi].
  function CountClosed(log: seq<Call>, key: string, lo: real, hi: real): nat {
    if log == [] then 0
    else
      var last := log[|log| - 1];
      CountClosed(log[..|log| - 1], key, lo, hi) + (if last.key == key && lo <= last.now <= hi then 1 else 0)
  }

  lemma {:induction false} WindowInsideLastMinute(log: seq<Call>, key: string, lo: real, now: real)
    requires forall i :: 0 <= i < |log| ==> log[i].now <= now
    requires now < lo + WINDOW_SECONDS
    ensures CountFrom(log, key, lo, lo + WINDOW_SECONDS) <= CountIn(log, key, now - WINDOW_SECONDS, now)
  {
    if log != [] { WindowInsideLastMinute(log[..|log| - 1], key, lo, now); }
  }

  lemma {:induction false} LogOnlyHoldsPastCalls(max: int, calls: seq<Call>, now: real)
    requires NoLaterThan(calls, now)
    ensures NoLaterThan(Log(max, calls), now)
  {
    if calls != [] {
      LogOnlyHoldsPastCalls(max, calls[..|calls| - 1], now);
    }
  }

  lemma {:induction false} OneWindow(max: nat, calls: seq<Call>, key: string, lo: real)
    requires Sorted(calls)
    ensures CountFrom(Log(max, calls), key, lo, lo + 60.0) <= max
  {
    if calls != [] {
      var before, call := calls[..|calls| - 1], calls[|calls| - 1];
      var log := Log(max, before);
      OneWindow(max, before, key, lo);
      LogOnlyHoldsPastCalls(max, before, call.now);
      assert (log + [call])[..|log|] == log;
      assert NoLaterThan(log, call.now);
      if call.key == key && lo <= call.now < lo + WINDOW_SECONDS {
        WindowInsideLastMinute(log, key, lo, call.now);
      }
    }
  }

  lemma {:induction false} CountSplits(log: seq<Call>, key: string, lo: real, mid: real, hi: real)
    requires lo <= mid <= hi
    ensures CountFrom(log, key, lo, hi) == CountFrom(log, key, lo, mid) + CountFrom(log, key, mid, hi)
  {
    if log != [] { CountSplits(log[..|log| - 1], key, lo, mid, hi); }
  }

  lemma {:induction false} ManyWindows(max: nat, calls: seq<Call>, key: string, lo: real, n: nat)
    requires Sorted(calls)
    ensures CountFrom(Log(max, calls), key, lo, lo + WINDOW_SECONDS * (n as real)) <= max * n
  {
    var log := Log(max, calls);
    if n == 0 {
      EmptyWindow(log, key, lo);
    } else {
      var mid := lo + WINDOW_SECONDS * ((n - 1) as real);
      ManyWindows(max, calls, key, lo, n - 1);
      OneWindow(max, calls, key, mid);
      CountSplits(log, key, lo, mid, mid + WINDOW_SECONDS);
      assert mid + WINDOW_SECONDS == lo + WINDOW_SECONDS * (n as real);
      assert max * n == max * (n - 1) + max;
    }
  }

  lemma {:induction false} EmptyWindow(log: seq<Call>, key: string, lo: real)
    ensures CountFrom(log, key, lo, lo) == 0
  {
    if log != [] { EmptyWindow(log[..|log| - 1], key, lo); }
  }

  lemma {:induction false} ClosedInsideHalfOpen(log: seq<Call>, key: string, lo: real, hi: real, hi': real)
    requires hi < hi'
    ensures CountClosed(log, key, lo, hi) <= CountFrom(log, key, lo, hi')
  {
    if log != [] { ClosedInsideHalfOpen(log[..|log| - 1], key, lo, hi, hi'); }
  }

  // Enough windows to cover a closed interval of `length`.
  lemma WindowsCover(length: real) returns (n: nat)
    requires length >= 0.0
    ensures n == (length / WINDOW_SECONDS).Floor + 1 && length < WINDOW_SECONDS * (n as real)
  {
    n := (length / WINDOW_SECONDS).Floor + 1;
  }

  // For every key and every closed interval of `length` seconds, wherever it starts,
  // at most max * (floor(length / 60) + 1) calls are answered true.
  lemma IntervalBound(max: nat, idleTtl: real, calls: seq<Call>, key: string, start: real, length: real)
    requires Sorted(calls) && idleTtl >= 60.0 && length >= 0.0
    ensures CountClosed(Accepted(max, idleTtl, calls), key, start, start + length)
            <= max * ((length / 60.0).Floor + 1)
  {
    var n := WindowsCover(length);
    RunTracksLog(max, idleTtl, calls, 0.0);
    LogIntervalBound(max, calls, Log(max, calls), key, start, length, n);
  }

  lemma LogIntervalBound(max: nat, calls: seq<Call>, log: seq<Call>, key: string, start: real, length: real, n: nat)
    requires Sorted(calls) && log == Log(max, calls) && length < WINDOW_SECONDS * (n as real)
    ensures CountClosed(log, key, start, start + length) <= max * n
  {
    ManyWindows(max, calls, key, start, n);
    ClosedInsideHalfOpen(log, key, start, start + length, start + WINDOW_SECONDS * (n as real));
  }
}
