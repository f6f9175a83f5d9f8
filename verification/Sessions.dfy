// The Session Store: conversation history and the pending Confirmation Request of each session
// (session/in_memory.py, session/sqlite_store.py).
module Sessions {
  import opened Common
  import opened Messages

  const SWEEP_INTERVAL: nat := 500

  datatype Session = Session(history: seq<Message>, pending: Option<ToolCall>)

  const EMPTY := Session([], None)

  datatype Write = Append(message: Message) | SetPending(request: Option<ToolCall>)

  function Applied(s: Session, w: Write): Session {
    match w
    case Append(message) => s.(history := s.history + [message])
    case SetPending(request) => s.(pending := request)
  }

  /* ---------- In memory ---------- */

  class InMemorySessionStore {
    var history: map<string, seq<Message>>
    var pending: map<string, Option<ToolCall>>

    constructor ()
      ensures forall key :: SessionOf(key) == EMPTY
    {
      history, pending := map[], map[];
    }

    ghost function SessionOf(key: string): Session
      reads this
    {
      Session(if key in history then history[key] else [], if key in pending then pending[key] else None)
    }

    method GetHistory(key: string) returns (h: seq<Message>)
      ensures h == SessionOf(key).history
    {
      h := if key in history then history[key] else [];
    }

    method GetPendingConfirmation(key: string) returns (request: Option<ToolCall>)
      ensures request == SessionOf(key).pending
    {
      request := if key in pending then pending[key] else None;
    }

    method AppendMessage(key: string, role: Role, content: string)
      modifies this`history
      ensures SessionOf(key) == Applied(old(SessionOf(key)), Append(Text(role, content)))
      ensures forall other :: other != key ==> SessionOf(other) == old(SessionOf(other))
    {
      if key !in history {
        history := history[key := []];
      }
      history := history[key := history[key] + [Text(role, content)]];
    }

    method SetPendingConfirmation(key: string, request: Option<ToolCall>)
      modifies this`pending
      ensures SessionOf(key) == Applied(old(SessionOf(key)), SetPending(request))
      ensures forall other :: other != key ==> SessionOf(other) == old(SessionOf(other))
    {
      pending := pending[key := request];
    }
  }

  /* ---------- SQLite rows ---------- */

  datatype Row = Row(session: Session, lastActive: real)

  // The clock readings of one write: one for the row, one for the sweep it may trigger.
  datatype Tick = Tick(now: real, sweepNow: real)

  datatype Store = Store(rows: map<string, Row>, writeCount: nat)

  const NOTHING := Store(map[], 0)

  function View(s: Store, key: string): Session {
    if key in s.rows then s.rows[key].session else EMPTY
  }

  function Swept(rows: map<string, Row>, cutoff: real): map<string, Row> {
    map key | key in rows && !(rows[key].lastActive < cutoff) :: rows[key]
  }

  // Write number `s.writeCount`, taken at `tick`.
  function Stored(ttl: real, tick: Tick, s: Store, key: string, w: Write): Store {
    var rows := s.rows[key := Row(Applied(View(s, key), w), tick.now)];
    Store(if (s.writeCount + 1) % SWEEP_INTERVAL == 0 then Swept(rows, tick.sweepNow - ttl) else rows, s.writeCount + 1)
  }

  class SqliteSessionStore {
    const idleTtlSeconds: real
    const clock: nat -> Tick
    var rows: map<string, Row>
    var writeCount: nat

    constructor (idleTtlSeconds: real, clock: nat -> Tick)
      ensures this.idleTtlSeconds == idleTtlSeconds && this.clock == clock
      ensures State() == NOTHING
    {
      this.idleTtlSeconds, this.clock := idleTtlSeconds, clock;
      rows, writeCount := map[], 0;
    }

    function State(): Store
      reads this
    {
      Store(rows, writeCount)
    }

    method GetHistory(key: string) returns (h: seq<Message>)
      ensures h == View(State(), key).history
    {
      if key !in rows {
        return [];
      }
      return rows[key].session.history;
    }

    method GetPendingConfirmation(key: string) returns (request: Option<ToolCall>)
      ensures request == View(State(), key).pending
    {
      var session := GetRow(key);
      return session.pending;
    }

    method AppendMessage(key: string, role: Role, content: string)
      modifies this
      ensures State() == Stored(idleTtlSeconds, clock(old(writeCount)), old(State()), key, Append(Text(role, content)))
    {
      var session := GetRow(key);
      Upsert(key, session.history + [Text(role, content)], session.pending);
      MaybeSweep();
    }

    method SetPendingConfirmation(key: string, request: Option<ToolCall>)
      modifies this
      ensures State() == Stored(idleTtlSeconds, clock(old(writeCount)), old(State()), key, SetPending(request))
    {
      var session := GetRow(key);
      Upsert(key, session.history, request);
      MaybeSweep();
    }

    method GetRow(key: string) returns (session: Session)
      ensures session == View(State(), key)
    {
      session := if key in rows then rows[key].session else Session([], None);
    }

    method Upsert(key: string, history: seq<Message>, pending: Option<ToolCall>)
      modifies this`rows
      ensures rows == old(rows)[key := Row(Session(history, pending), clock(writeCount).now)]
    {
      rows := rows[key := Row(Session(history, pending), clock(writeCount).now)];
    }

    method MaybeSweep()
      modifies this
      ensures writeCount == old(writeCount) + 1
      ensures rows == if writeCount % SWEEP_INTERVAL == 0
                      then Swept(old(rows), clock(old(writeCount)).sweepNow - idleTtlSeconds) else old(rows)
    {
      var tick := clock(writeCount);
      writeCount := writeCount + 1;
      if writeCount % SWEEP_INTERVAL != 0 {
        return;
      }
      var cutoff := tick.sweepNow - idleTtlSeconds;
      rows := map key | key in rows && !(rows[key].lastActive < cutoff) :: rows[key];
    }
  }

  /* ---------- Runs of writes ---------- */

  datatype Op = Op(key: string, write: Write)

  function Run(ttl: real, clock: nat -> Tick, ops: seq<Op>): Store {
    if ops == [] then NOTHING
    else
      var n := |ops| - 1;
      var before := Run(ttl, clock, ops[..n]);
      Stored(ttl, clock(before.writeCount), before, ops[n].key, ops[n].write)
  }

  // The same writes on the in-memory store, seen from one key.
  function InMemory(ops: seq<Op>, key: string): Session {
    if ops == [] then EMPTY
    else
      var n := |ops| - 1;
      var before := InMemory(ops[..n], key);
      if ops[n].key == key then Applied(before, ops[n].write) else before
  }

  // The clock never goes back.
  ghost predicate Advances(clock: nat -> Tick) {
    && (forall n: nat :: clock(n).now <= clock(n).sweepNow)
    && (forall m: nat, n: nat :: m < n ==> clock(m).sweepNow <= clock(n).now)
  }

  // When `key` was last written.
  function LastWrite(clock: nat -> Tick, ops: seq<Op>, key: string): Option<real> {
    if ops == [] then None
    else
      var n := |ops| - 1;
      if ops[n].key == key then Some(clock(n).now) else LastWrite(clock, ops[..n], key)
  }

  predicate InTime(ttl: real, last: Option<real>, t: real) {
    last.Some? ==> t - last.value <= ttl
  }

  // Every write of `key` came within the time-to-live of the one before it.
  predicate KeptAlive(ttl: real, clock: nat -> Tick, ops: seq<Op>, key: string) {
    ops == [] ||
    var n := |ops| - 1;
    && KeptAlive(ttl, clock, ops[..n], key)
    && (ops[n].key == key ==> InTime(ttl, LastWrite(clock, ops[..n], key), clock(n).now))
  }

  // The store's own write count numbers the writes of a run, so write `n` reads clock `n`.
  lemma {:induction false} RunCountsWrites(ttl: real, clock: nat -> Tick, ops: seq<Op>)
    ensures Run(ttl, clock, ops).writeCount == |ops|
  {
    if ops != [] { RunCountsWrites(ttl, clock, ops[..|ops| - 1]); }
  }

  ghost predicate Agrees(s: Store, memory: Session, last: Option<real>, key: string) {
    && View(s, key) == memory
    && (last.Some? ==> key in s.rows && s.rows[key].lastActive == last.value)
  }

  lemma StoredAgrees(ttl: real, tick: Tick, s: Store, memory: Session, last: Option<real>, key: string, op: Op, t: real)
    requires Agrees(s, memory, last, key) && tick.sweepNow <= t
    requires InTime(ttl, if op.key == key then Some(tick.now) else last, t)
    requires last == None && op.key != key ==> key !in s.rows
    ensures Agrees(Stored(ttl, tick, s, op.key, op.write),
                   if op.key == key then Applied(memory, op.write) else memory,
                   if op.key == key then Some(tick.now) else last, key)
  {
  }

  lemma {:induction false} UnwrittenHasNoRow(ttl: real, clock: nat -> Tick, ops: seq<Op>, key: string)
    requires LastWrite(clock, ops, key) == None
    ensures key !in Run(ttl, clock, ops).rows && InMemory(ops, key) == EMPTY
  {
    if ops != [] { UnwrittenHasNoRow(ttl, clock, ops[..|ops| - 1], key); }
  }

  // At any time `t` after the run, the SQLite store and the in-memory store hold the same history and
  // the same pending request for a key whose every operation, this read included, comes within
  // the idle time-to-live of its latest write - whatever writes and sweeps happen on other keys.
  lemma {:induction false} SqliteSimulatesInMemory(ttl: real, clock: nat -> Tick, ops: seq<Op>, key: string, t: real)
    requires Advances(clock) && KeptAlive(ttl, clock, ops, key)
    requires ops != [] ==> clock(|ops| - 1).sweepNow <= t
    requires InTime(ttl, LastWrite(clock, ops, key), t)
    ensures Agrees(Run(ttl, clock, ops), InMemory(ops, key), LastWrite(clock, ops, key), key)
  {
    if ops != [] {
      var n := |ops| - 1;
      var before, op, tick := ops[..n], ops[n], clock(n);
      if n > 0 { assert clock(n - 1).sweepNow <= tick.now; }
      assert tick.now <= tick.sweepNow <= t;
      RunCountsWrites(ttl, clock, before);
      SqliteSimulatesInMemory(ttl, clock, before, key, tick.now);
      if LastWrite(clock, before, key) == None {
        UnwrittenHasNoRow(ttl, clock, before, key);
      }
      StoredAgrees(ttl, tick, Run(ttl, clock, before), InMemory(before, key), LastWrite(clock, before, key), key, op,
                   t);
    }
  }

  /* ---------- Several writes by one session ---------- */

  // The write that triggers a sweep: every 500th.
  predicate Sweeps(n: nat) {
    (n + 1) % 500 == 0
  }

  // No sweeping write takes longer than the idle time-to-live from its row to its sweep.
  ghost predicate Prompt(ttl: real, clock: nat -> Tick) {
    forall n: nat :: Sweeps(n) ==> clock(n).sweepNow - clock(n).now <= ttl
  }

  function AppliedAll(s: Session, ws: seq<Write>): Session {
    if ws == [] then s else Applied(AppliedAll(s, ws[..|ws| - 1]), ws[|ws| - 1])
  }

  function StoredAll(ttl: real, clock: nat -> Tick, s: Store, key: string, ws: seq<Write>): Store {
    if ws == [] then s
    else
      var before := StoredAll(ttl, clock, s, key, ws[..|ws| - 1]);
      Stored(ttl, clock(before.writeCount), before, key, ws[|ws| - 1])
  }

  // Some sweep of the writes numbered from `lo` to `hi` finds a row last active at `lastActive` idle for too long.
  ghost predicate SweptBetween(ttl: real, clock: nat -> Tick, lo: nat, hi: nat, lastActive: real) {
    exists n :: lo <= n < hi && Sweeps(n) && lastActive < clock(n).sweepNow - ttl
  }

  lemma SweptOneFurther(ttl: real, clock: nat -> Tick, lo: nat, hi: nat, lastActive: real)
    requires lo <= hi
    ensures SweptBetween(ttl, clock, lo, hi + 1, lastActive)
            <==> SweptBetween(ttl, clock, lo, hi, lastActive) || (Sweeps(hi) && lastActive < clock(hi).sweepNow - ttl)
  {
  }

  lemma {:induction false} WritesAreCounted(ttl: real, clock: nat -> Tick, s: Store, key: string, ws: seq<Write>)
    ensures StoredAll(ttl, clock, s, key, ws).writeCount == s.writeCount + |ws|
  {
    if ws != [] { WritesAreCounted(ttl, clock, s, key, ws[..|ws| - 1]); }
  }

  ghost predicate OtherRowsFollow(ttl: real, clock: nat -> Tick, s: Store, key: string, s': Store, other: string) {
    && (other in s'.rows <==>
        other in s.rows && !SweptBetween(ttl, clock, s.writeCount, s'.writeCount, s.rows[other].lastActive))
    && (other in s'.rows ==> s'.rows[other] == s.rows[other])
  }

  lemma OtherRowStep(ttl: real, clock: nat -> Tick, s: Store, key: string, before: Store, w: Write, other: string)
    requires other != key && s.writeCount <= before.writeCount && OtherRowsFollow(ttl, clock, s, key, before, other)
    ensures OtherRowsFollow(ttl, clock, s, key, Stored(ttl, clock(before.writeCount), before, key, w), other)
  {
    if other in s.rows {
      SweptOneFurther(ttl, clock, s.writeCount, before.writeCount, s.rows[other].lastActive);
    }
  }

  // Whatever the clock does, the writes of one session leave another session's row as it was, or drop it -
  // exactly when one of their sweeps comes later than the idle time-to-live after that row's last write.
  lemma {:induction false} OtherRows(ttl: real, clock: nat -> Tick, s: Store, key: string, ws: seq<Write>,
                                     other: string)
    requires other != key
    ensures OtherRowsFollow(ttl, clock, s, key, StoredAll(ttl, clock, s, key, ws), other)
  {
    if ws != [] {
      var before := StoredAll(ttl, clock, s, key, ws[..|ws| - 1]);
      OtherRows(ttl, clock, s, key, ws[..|ws| - 1], other);
      WritesAreCounted(ttl, clock, s, key, ws[..|ws| - 1]);
      OtherRowStep(ttl, clock, s, key, before, ws[|ws| - 1], other);
    }
  }

  // Whatever the clock does, a session's own sweep can lose its pending request but not change it, and its
  // history holds old messages and appended ones only.
  lemma {:induction false} OwnRowOrGone(ttl: real, clock: nat -> Tick, s: Store, key: string, ws: seq<Write>)
    ensures var s' := View(StoredAll(ttl, clock, s, key, ws), key);
            && (s'.pending == None || s'.pending == AppliedAll(View(s, key), ws).pending)
            && (forall m :: m in s'.history ==> m in View(s, key).history || Append(m) in ws)
  {
    if ws != [] {
      var n := |ws| - 1;
      OwnRowOrGone(ttl, clock, s, key, ws[..n]);
      assert ws[n] in ws && forall w :: w in ws[..n] ==> w in ws;
    }
  }

  // The sweeping writes numbered from `lo` to `hi` are prompt.
  ghost predicate PromptBetween(ttl: real, clock: nat -> Tick, lo: nat, hi: nat) {
    forall n: nat :: lo <= n < hi && Sweeps(n) ==> clock(n).sweepNow - clock(n).now <= ttl
  }

  // Appending never disturbs the pending request and setting it never disturbs the history: the
  // writing session sees exactly its own writes.
  lemma {:induction false} OwnWritesOnly(ttl: real, clock: nat -> Tick, s: Store, key: string, ws: seq<Write>)
    requires PromptBetween(ttl, clock, s.writeCount, s.writeCount + |ws|)
    ensures var s' := StoredAll(ttl, clock, s, key, ws);
            View(s', key) == AppliedAll(View(s, key), ws) && (ws != [] ==> key in s'.rows)
  {
    if ws != [] {
      var before := StoredAll(ttl, clock, s, key, ws[..|ws| - 1]);
      OwnWritesOnly(ttl, clock, s, key, ws[..|ws| - 1]);
      WritesAreCounted(ttl, clock, s, key, ws[..|ws| - 1]);
      assert Sweeps(before.writeCount) ==> clock(before.writeCount).sweepNow - clock(before.writeCount).now <= ttl;
    }
  }
}
