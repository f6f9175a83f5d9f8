// What a conversation can do to an owner's tables: the rails of conversation.py, the generated Tools of
// entities/crud_tools.py and their provider together.
module TableSafety {
  import opened Common
  import Json
  import opened Messages
  import opened Conversation
  import opened ConversationRuns
  import opened CrudTools
  import opened ToolRail
  import Admin = AdminTables
  import Restarts
  import SqlEngine
  import opened Entities

  // How a Tool call reaches the provider: its arguments as fields, and the id generated in each turn.
  datatype Provider = Provider(sql: SqlEngine.Sqlite, decoded: Json.Json -> Fields, newId: nat -> string)

  function Performed(p: Provider, cat: Catalog, call: ToolCall, turn: nat): Catalog {
    AfterCall(p.sql, cat, call.name, p.decoded(call.arguments), p.newId(turn))
  }

  // The tables after the effects of one turn.
  function AfterEvents(p: Provider, cat: Catalog, events: seq<Event>, turn: nat): Catalog {
    if events == [] then cat
    else
      var before := AfterEvents(p, cat, events[..|events| - 1], turn);
      match events[|events| - 1]
      case Asked(_) => before
      case Executed(call) => Performed(p, before, call, turn)
  }

  // The tables a conversation run has made of `cat`.
  function TablesAt(w: World, p: Provider, cat: Catalog, run: seq<Inbound>, n: nat): Catalog
    requires n <= |run|
  {
    if n == 0 then cat else AfterEvents(p, TablesAt(w, p, cat, run, n - 1), StepAt(w, run, n - 1).events, n - 1)
  }

  lemma {:induction false} WithoutExecution(p: Provider, cat: Catalog, events: seq<Event>, turn: nat)
    requires forall i :: 0 <= i < |events| ==> events[i].Asked?
    ensures AfterEvents(p, cat, events, turn) == cat
  {
    if events != [] { WithoutExecution(p, cat, events[..|events| - 1], turn); }
  }

  lemma {:induction false} OnlyExecution(p: Provider, cat: Catalog, events: seq<Event>, turn: nat, i: nat)
    requires OneExecution(events) && i < |events| && events[i].Executed?
    ensures AfterEvents(p, cat, events, turn) == Performed(p, cat, events[i].call, turn)
  {
    var n := |events| - 1;
    if i == n {
      WithoutExecution(p, cat, events[..n], turn);
    } else {
      OnlyExecution(p, cat, events[..n], turn, i);
    }
  }

  // A call changes one table at most: the plain one its name parses to, and not by listing it.
  lemma CallTouchesItsTable(sql: SqlEngine.Sqlite, cat: Catalog, name: string, arguments: Fields, newId: string,
                            table: string)
    requires table in cat
    requires var cat' := AfterCall(sql, cat, name, arguments, newId); table !in cat' || cat'[table] != cat[table]
    ensures ParseToolName(name).Some? && ParseToolName(name).value.table == table
            && ParseToolName(name).value.verb != List
  {
    hide ParseToolName, Upserted, UpsertError, RowDeleted;
  }

  // The tables as the next turn finds them, or changed by the one Tool call of this one.
  lemma ChangeIsAnExecution(w: World, p: Provider, cat: Catalog, run: seq<Inbound>, n: nat) returns (call: ToolCall)
    requires n < |run| && TablesAt(w, p, cat, run, n + 1) != TablesAt(w, p, cat, run, n)
    ensures Executes(w, run, n, call)
    ensures TablesAt(w, p, cat, run, n + 1) == Performed(p, TablesAt(w, p, cat, run, n), call, n)
  {
    hide StepAt, AfterCall;
    var events, now := StepAt(w, run, n).events, TablesAt(w, p, cat, run, n);
    if forall i :: 0 <= i < |events| ==> events[i].Asked? {
      WithoutExecution(p, now, events, n);
      assert false;
    }
    var i :| 0 <= i < |events| && events[i].Executed?;
    call := events[i].call;
    OneExecutionAt(w, run, n, call);
    OnlyExecution(p, now, events, n, i);
  }

  lemma OneExecutionAt(w: World, run: seq<Inbound>, n: nat, call: ToolCall)
    requires n < |run|
    ensures OneExecution(StepAt(w, run, n).events)
  {
    TurnExecutes(w.cfg, SessionAt(w, run, n, run[n].key), run[n], call);
  }

  // The Tool Rail lets no writing Tool of the table run without a Confirmation.
  predicate HoldsWrites(tools: seq<ToolConfig>, table: string) {
    && Decide(ToolName(Create, table), tools) != Allow
    && Decide(ToolName(Update, table), tools) != Allow
    && Decide(ToolName(Delete, table), tools) != Allow
  }

  // Whatever the LLM answers and the clocks do, and however the tools list came about, if it holds the table's
  // writes then a turn changes that table only on a "yes" that passes the Input Rail while a request for one of
  // its writing Tools, intercepted by an earlier turn of the same session, is open - and then changes the tables
  // by exactly the stored call.
  lemma HeldTablesChangeOnConfirmationOnly(w: World, p: Provider, cat: Catalog, run: seq<Inbound>, n: nat,
                                           table: string)
    returns (call: ToolCall, verb: Verb)
    requires HoldsWrites(w.cfg.tools, table)
    requires n < |run| && table in TablesAt(w, p, cat, run, n)
    requires var now, next := TablesAt(w, p, cat, run, n), TablesAt(w, p, cat, run, n + 1);
             table !in next || next[table] != now[table]
    ensures Passes(w.cfg, run[n]) && ParseReply(run[n].text) == Yes && Intercepted(w, run, n, run[n].key, call)
    ensures SessionAt(w, run, n, run[n].key).pending == Some(call) && call.name == ToolName(verb, table) && verb != List
    ensures TablesAt(w, p, cat, run, n + 1) == Performed(p, TablesAt(w, p, cat, run, n), call, n)
  {
    call := ChangeIsAnExecution(w, p, cat, run, n);
    hide TablesAt, StepAt, Executes, Intercepted, Passes, Decide, SessionAt;
    CallTouchesItsTable(p.sql, TablesAt(w, p, cat, run, n), call.name, p.decoded(call.arguments), p.newId(n), table);
    verb := ParseToolName(call.name).value.verb;
    ParseInvertsToolName(call.name, verb, table);
    assert Decide(call.name, w.cfg.tools) != Allow;
    if Decide(call.name, w.cfg.tools) != RequireConfirmation {
      OtherExecutions(w, run, n, call);
      assert false;
    }
    ExecutedWasIntercepted(w, run, n, call);
  }

  // Such is every tools list the admin routes make, by any operations, refused and half-done ones included, of
  // initial Tools none of which bears a name of the table.
  lemma AdminListsHoldWrites(sql: SqlEngine.Sqlite, quoted: string -> string, initial: seq<ToolConfig>,
                             ops: seq<Admin.AdminOp>, table: string)
    requires !Admin.OwnsATool(initial, table)
    ensures HoldsWrites(Admin.Run(sql, quoted, initial, ops).tools, table)
  {
    var tools := Admin.Run(sql, quoted, initial, ops).tools;
    Admin.RunHoldsKnownTools(sql, quoted, initial, ops);
    Admin.WritesAreNeverAllowed(quoted, initial, tools, table, Create);
    Admin.WritesAreNeverAllowed(quoted, initial, tools, table, Update);
    Admin.WritesAreNeverAllowed(quoted, initial, tools, table, Delete);
  }

  // So over any admin history whatever, the tables of owners whose initial Tools take none of their names change
  // on a Confirmation only.
  lemma TablesChangeOnConfirmationOnly(w: World, p: Provider, cat: Catalog, run: seq<Inbound>, n: nat, table: string,
                                       quoted: string -> string, initial: seq<ToolConfig>, ops: seq<Admin.AdminOp>)
    returns (call: ToolCall, verb: Verb)
    requires !Admin.OwnsATool(initial, table) && w.cfg.tools == Admin.Run(p.sql, quoted, initial, ops).tools
    requires n < |run| && table in TablesAt(w, p, cat, run, n)
    requires var now, next := TablesAt(w, p, cat, run, n), TablesAt(w, p, cat, run, n + 1);
             table !in next || next[table] != now[table]
    ensures Passes(w.cfg, run[n]) && ParseReply(run[n].text) == Yes && Intercepted(w, run, n, run[n].key, call)
    ensures SessionAt(w, run, n, run[n].key).pending == Some(call) && call.name == ToolName(verb, table) && verb != List
    ensures TablesAt(w, p, cat, run, n + 1) == Performed(p, TablesAt(w, p, cat, run, n), call, n)
  {
    AdminListsHoldWrites(p.sql, quoted, initial, ops, table);
    call, verb := HeldTablesChangeOnConfirmationOnly(w, p, cat, run, n, table);
  }

  // It holds across restarts too, whatever config each process loads: a call that changes a table whose writes the
  // present tools list holds runs only on a "yes" to the request that stored it.
  lemma HeldTablesAcrossRestarts(w: World, p: Provider, run: seq<Restarts.Happening>, n: nat, cat: Catalog,
                                 table: string,
                                 call: ToolCall)
    requires n < |run| && HoldsWrites(Restarts.ConfigAt(w, run, n).tools, table)
    requires Restarts.MayExecute(w, run, n, call) && table in cat
    requires var next := Performed(p, cat, call, n); table !in next || next[table] != cat[table]
    ensures Passes(Restarts.ConfigAt(w, run, n), run[n].m) && ParseReply(run[n].m.text) == Yes
    ensures Restarts.KeptAt(w, run, n, run[n].m.key).pending == Some(call)
            && Restarts.Intercepted(w, run, n, run[n].m.key, call)
  {
    hide Restarts.Intercepted, Restarts.KeptAt, Restarts.ProcessAt, Passes, ParseReply, Decide;
    CallTouchesItsTable(p.sql, cat, call.name, p.decoded(call.arguments), p.newId(n), table);
    var verb := ParseToolName(call.name).value.verb;
    ParseInvertsToolName(call.name, verb, table);
    assert Decide(call.name, Restarts.ConfigAt(w, run, n).tools) != Allow;
    Restarts.ExecutedWasIntercepted(w, run, n, call);
  }
}
