// The four generated Tools of an owner's table: their names, and what calling them does
// (entities/crud_tools.py, tools/entity_crud_provider.py).
module CrudTools {
  import opened Common
  import opened SqlEngine
  import opened Entities
  import opened EntityRepository

  datatype Verb = List | Create | Update | Delete

  function VerbText(v: Verb): string {
    match v
    case List => "list"
    case Create => "create"
    case Update => "update"
    case Delete => "delete"
  }

  function ToolName(v: Verb, table: string): string { VerbText(v) + "_" + table }

  function VerbOf(text: string): Option<Verb> {
    if text == "list" then Some(List)
    else if text == "create" then Some(Create)
    else if text == "update" then Some(Update)
    else if text == "delete" then Some(Delete)
    else None
  }

  // The position of the first underscore, or the length.
  function FirstUnderscore(s: string): (n: nat)
    ensures n <= |s| && '_' !in s[..n] && (n < |s| ==> s[n] == '_')
  {
    if s == "" || s[0] == '_' then 0
    else
      var n := FirstUnderscore(s[1..]);
      assert s[..n + 1] == [s[0]] + s[1..][..n];
      n + 1
  }

  lemma {:induction false} FirstUnderscoreIs(s: string, k: nat)
    requires k < |s| && '_' !in s[..k] && s[k] == '_'
    ensures FirstUnderscore(s) == k
  {
    if k > 0 {
      assert s[..k] == [s[0]] + s[1..][..k - 1];
      FirstUnderscoreIs(s[1..], k - 1);
    }
  }

  datatype Parsed = Parsed(verb: Verb, table: string)

  function ParseToolName(name: string): Option<Parsed> {
    var n := FirstUnderscore(name);
    if n == |name| then None
    else
      var verb, table := VerbOf(name[..n]), name[n + 1..];
      if verb == None || table == "" then None else Some(Parsed(verb.value, table))
  }

  lemma VerbsAreWords(v: Verb)
    ensures '_' !in VerbText(v) && VerbOf(VerbText(v)) == Some(v)
  {
    assert |"list"| == 4 && |"create"| == 6;
    assert "create"[0] != "update"[0] && "create"[0] != "delete"[0] && "update"[0] != "delete"[0];
  }

  // A generated name parses back to its verb and table, and nothing else parses to them.
  lemma ParseInvertsToolName(name: string, v: Verb, table: string)
    ensures ParseToolName(name) == Some(Parsed(v, table)) <==> table != "" && name == ToolName(v, table)
  {
    VerbsAreWords(v);
    var n := FirstUnderscore(name);
    if name == ToolName(v, table) {
      var k := |VerbText(v)|;
      assert name[..k] == VerbText(v) && name[k] == '_' && name[k + 1..] == table;
      FirstUnderscoreIs(name, k);
    }
    if ParseToolName(name) == Some(Parsed(v, table)) {
      VerbOfIsText(name[..n], v);
      assert name == name[..n] + "_" + name[n + 1..];
    }
  }

  lemma VerbOfIsText(text: string, v: Verb)
    requires VerbOf(text) == Some(v)
    ensures text == VerbText(v)
  {
  }

  // Tools of different tables, or for different verbs, never share a name.
  lemma ToolNamesDisjoint(v: Verb, t: string, v': Verb, t': string)
    requires ToolName(v, t) == ToolName(v', t')
    ensures v == v' && t == t'
  {
    var name := ToolName(v, t);
    VerbsAreWords(v);
    VerbsAreWords(v');
    assert name[..|VerbText(v)|] == VerbText(v) && name[..|VerbText(v')|] == VerbText(v');
    FirstUnderscoreIs(name, |VerbText(v)|);
    FirstUnderscoreIs(name, |VerbText(v')|);
    assert name[|VerbText(v)| + 1..] == t && name[|VerbText(v')| + 1..] == t';
  }

  /* ---------- Calling a Tool ---------- */

  datatype CallError = UnknownTool | MissingId | Refused(error: Error)

  datatype Answer = Rows(rows: map<RowId, Fields>) | Stored(id: RowId, fields: Fields) | NoSuchRow | Done

  // The table a Tool name belongs to: a live one with no chat-facing Tool of its own.
  function Target(cat: Catalog, name: string): Option<Parsed> {
    var parsed := ParseToolName(name);
    if parsed.Some? && parsed.value.table in cat && cat[parsed.value.table].def.toolLinked == None then parsed else None
  }

  function WithoutId(arguments: Fields): Fields { arguments - {"id"} }

  // The full row an update writes: the existing one, overwritten by the supplied fields, under the given id.
  function Patched(existing: Fields, arguments: Fields, id: Value): Fields {
    (existing + WithoutId(arguments))["id" := id]
  }

  function Existing(sql: Sqlite, e: Entity, id: Value): Option<Fields> {
    var key := LookupId(sql, e, id);
    if key.Some? && key.value in e.rows then Some(e.rows[key.value]) else None
  }

  // The catalog after a call of each verb; a refused write changes nothing.
  function OrUnchanged(cat: Catalog, outcome: Result<Catalog, Error>): Catalog {
    if outcome.Success? then outcome.value else cat
  }

  function AfterUpdate(sql: Sqlite, cat: Catalog, table: string, arguments: Fields, newId: string): Catalog
    requires table in cat
  {
    if "id" !in arguments then cat else AfterPatch(sql, cat, table, arguments["id"], arguments, newId)
  }

  function AfterRemove(sql: Sqlite, cat: Catalog, table: string, arguments: Fields): Catalog
    requires table in cat
  {
    if "id" in arguments then OrUnchanged(cat, OnDeleteRow(sql, cat, table, arguments["id"])) else cat
  }

  function AfterPatch(sql: Sqlite, cat: Catalog, table: string, id: Value, arguments: Fields, newId: string): Catalog
    requires table in cat
  {
    var existing := Existing(sql, cat[table], id);
    if existing == None then cat
    else OrUnchanged(cat, OnUpsert(sql, cat, table, Patched(existing.value, arguments, id), newId))
  }

  function AfterVerb(sql: Sqlite, cat: Catalog, verb: Verb, table: string, arguments: Fields, newId: string): Catalog
    requires table in cat
  {
    match verb
    case List => cat
    case Create => OrUnchanged(cat, OnUpsert(sql, cat, table, WithoutId(arguments), newId))
    case Update => AfterUpdate(sql, cat, table, arguments, newId)
    case Delete => AfterRemove(sql, cat, table, arguments)
  }

  function AfterCall(sql: Sqlite, cat: Catalog, name: string, arguments: Fields, newId: string): Catalog {
    var target := Target(cat, name);
    if target == None then cat else AfterVerb(sql, cat, target.value.verb, target.value.table, arguments, newId)
  }

  // What each call answers.
  function WriteAnswer(sql: Sqlite, cat: Catalog, table: string, row: Fields, newId: string): Result<Answer, CallError>
    requires table in cat
  {
    var e := cat[table];
    var error := UpsertError(sql, e, row, newId);
    if error.Some? then Failure(Refused(error.value))
    else Success(Stored(UpsertId(sql, e, row, newId).value, StoredFields(sql, e.def.columns, row).value))
  }

  function UpdateAnswer(sql: Sqlite, cat: Catalog, table: string, arguments: Fields,
                        newId: string): Result<Answer, CallError>
    requires table in cat
  {
    if "id" !in arguments then Failure(MissingId) else PatchAnswer(sql, cat, table, arguments["id"], arguments, newId)
  }

  function PatchAnswer(sql: Sqlite, cat: Catalog, table: string, id: Value, arguments: Fields,
                       newId: string): Result<Answer, CallError>
    requires table in cat
  {
    var existing := Existing(sql, cat[table], id);
    if id.Structure? then Failure(Refused(SqlRefused))
    else if existing == None then Success(NoSuchRow)
    else WriteAnswer(sql, cat, table, Patched(existing.value, arguments, id), newId)
  }

  function DeleteAnswer(sql: Sqlite, cat: Catalog, table: string, arguments: Fields): Result<Answer, CallError>
    requires table in cat
  {
    if "id" !in arguments then Failure(MissingId)
    else if arguments["id"].Structure? then Failure(Refused(SqlRefused))
    else if Existing(sql, cat[table], arguments["id"]) == None then Success(NoSuchRow)
    else Success(Done)
  }

  function AnswerOf(sql: Sqlite, cat: Catalog, verb: Verb, table: string, arguments: Fields,
                    newId: string): Result<Answer, CallError>
    requires table in cat
  {
    match verb
    case List => Success(Rows(cat[table].rows))
    case Create => WriteAnswer(sql, cat, table, WithoutId(arguments), newId)
    case Update => UpdateAnswer(sql, cat, table, arguments, newId)
    case Delete => DeleteAnswer(sql, cat, table, arguments)
  }

  predicate FirstNamed(tables: seq<TableDef>, table: string, found: Option<TableDef>) {
    if found.Some? then found.value in tables && found.value.tableName == table
    else forall i :: 0 <= i < |tables| ==> tables[i].tableName != table
  }

  method TableNamed(tables: seq<TableDef>, table: string) returns (found: Option<TableDef>)
    ensures FirstNamed(tables, table, found)
  {
    for i := 0 to |tables|
      invariant forall j :: 0 <= j < i ==> tables[j].tableName != table
    {
      if tables[i].tableName == table {
        return Some(tables[i]);
      }
    }
    return None;
  }

  lemma FoundIsListed(cat: Catalog, tables: seq<TableDef>, table: string, found: Option<TableDef>)
    requires ListsInOrder(cat, tables) && FirstNamed(tables, table, found)
    ensures found == if table in cat then Some(cat[table].def) else None
  {
    if found.Some? {
      var i :| 0 <= i < |tables| && tables[i] == found.value;
      assert tables[i] == cat[table].def;
    }
  }

  class EntityCrudToolProvider {
    const repository: SqliteEntityRepository

    constructor (repository: SqliteEntityRepository)
      ensures this.repository == repository
    {
      this.repository := repository;
    }

    method Call(name: string, arguments: Fields, newId: string) returns (result: Result<Answer, CallError>)
      requires repository.Valid()
      modifies repository
      ensures repository.Valid()
      ensures repository.View() == AfterCall(repository.sql, old(repository.View()), name, arguments, newId)
      ensures var target := Target(old(repository.View()), name);
              result == if target == None then Failure(UnknownTool)
                        else AnswerOf(repository.sql, old(repository.View()), target.value.verb, target.value.table,
                                      arguments, newId)
    {
      var target := FindTarget(name);
      if target == None {
        return Failure(UnknownTool);
      }
      result := Perform(target.value.verb, target.value.table, arguments, newId);
    }

    method FindTarget(name: string) returns (target: Option<Parsed>)
      requires repository.Valid()
      ensures target == Target(repository.View(), name)
    {
      var parsed := ParseToolName(name);
      if parsed == None {
        return None;
      }
      var table := FindTable(parsed.value.table);
      if table == None || table.value.toolLinked.Some? {
        return None;
      }
      return parsed;
    }

    method FindTable(table: string) returns (found: Option<TableDef>)
      requires repository.Valid()
      ensures found == if table in repository.View() then Some(repository.View()[table].def) else None
    {
      var tables := repository.ListTables();
      found := TableNamed(tables, table);
      FoundIsListed(repository.View(), tables, table, found);
    }

    method Perform(verb: Verb, table: string, arguments: Fields, newId: string)
      returns (result: Result<Answer, CallError>)
      requires repository.Valid() && table in repository.View()
      modifies repository
      ensures repository.Valid()
      ensures repository.View() == AfterVerb(repository.sql, old(repository.View()), verb, table, arguments, newId)
      ensures result == AnswerOf(repository.sql, old(repository.View()), verb, table, arguments, newId)
    {
      match verb {
        case List =>
          var rows := repository.ListRows(table);
          return Success(Rows(rows.value));
        case Create =>
          result := WriteRow(table, WithoutId(arguments), newId);
        case Update =>
          result := UpdateRow(table, arguments, newId);
        case Delete =>
          result := RemoveRow(table, arguments);
      }
    }

    method WriteRow(table: string, row: Fields, newId: string) returns (result: Result<Answer, CallError>)
      requires repository.Valid() && table in repository.View()
      modifies repository
      ensures repository.Valid()
      ensures repository.View()
              == OrUnchanged(old(repository.View()), OnUpsert(repository.sql, old(repository.View()), table, row,
                                                              newId))
      ensures result == WriteAnswer(repository.sql, old(repository.View()), table, row, newId)
    {
      var stored := repository.UpsertRow(table, row, newId);
      if stored.Failure? {
        return Failure(Refused(stored.error));
      }
      return Success(Stored(stored.value.0, stored.value.1));
    }

    method UpdateRow(table: string, arguments: Fields, newId: string) returns (result: Result<Answer, CallError>)
      requires repository.Valid() && table in repository.View()
      modifies repository
      ensures repository.Valid()
      ensures repository.View() == AfterUpdate(repository.sql, old(repository.View()), table, arguments, newId)
      ensures result == UpdateAnswer(repository.sql, old(repository.View()), table, arguments, newId)
    {
      if "id" !in arguments {
        return Failure(MissingId);
      }
      result := PatchRow(table, arguments["id"], arguments, newId);
    }

    method PatchRow(table: string, id: Value, arguments: Fields, newId: string)
      returns (result: Result<Answer, CallError>)
      requires repository.Valid() && table in repository.View()
      modifies repository
      ensures repository.Valid()
      ensures repository.View() == AfterPatch(repository.sql, old(repository.View()), table, id, arguments, newId)
      ensures result == PatchAnswer(repository.sql, old(repository.View()), table, id, arguments, newId)
    {
      hide SqliteEntityRepository.View, SqliteEntityRepository.Valid;
      var existing := FindRow(table, id);
      if existing.Failure? {
        return Failure(Refused(existing.error));
      }
      if existing.value == None {
        return Success(NoSuchRow);
      }
      result := WriteRow(table, Patched(existing.value.value, arguments, id), newId);
    }

    method FindRow(table: string, id: Value) returns (result: Result<Option<Fields>, Error>)
      requires repository.Valid() && table in repository.View()
      ensures result == if id.Structure? then Failure(SqlRefused)
              else Success(Existing(repository.sql, repository.View()[table], id))
    {
      result := repository.GetRow(table, id);
    }

    method RemoveRow(table: string, arguments: Fields) returns (result: Result<Answer, CallError>)
      requires repository.Valid() && table in repository.View()
      modifies repository
      ensures repository.Valid()
      ensures repository.View() == AfterRemove(repository.sql, old(repository.View()), table, arguments)
      ensures result == DeleteAnswer(repository.sql, old(repository.View()), table, arguments)
    {
      hide SqliteEntityRepository.View, SqliteEntityRepository.Valid;
      if "id" !in arguments {
        return Failure(MissingId);
      }
      var removed := repository.DeleteRow(table, arguments["id"]);
      if removed.Failure? {
        return Failure(Refused(removed.error));
      }
      return Success(if removed.value then Done else NoSuchRow);
    }
  }

  /* ---------- What a call is answered ---------- */

  // A row of the table bears the id the arguments name.
  predicate RowIsThere(sql: Sqlite, e: Entity, arguments: Fields) {
    && "id" in arguments
    && LookupId(sql, e, arguments["id"]).Some? && LookupId(sql, e, arguments["id"]).value in e.rows
  }

  predicate NamesARow(verb: Verb) { verb == Update || verb == Delete }

  // The answer against the rows before and after the call.
  ghost predicate Truthful(sql: Sqlite, e: Entity, e': Entity, verb: Verb, arguments: Fields,
                           answer: Result<Answer, CallError>) {
    match answer
    case Success(Rows(rows)) => verb == List && rows == e.rows && e' == e
    case Success(NoSuchRow) => NamesARow(verb) && "id" in arguments && !RowIsThere(sql, e, arguments) && e' == e
    case Success(Done) => verb == Delete && RowIsThere(sql, e, arguments) && !RowIsThere(sql, e', arguments)
    case Success(Stored(id, fields)) =>
      && (verb == Create || (verb == Update && RowIsThere(sql, e, arguments)))
      && id in e'.rows && e'.rows[id] == fields && e'.rows - {id} == e.rows - {id}
    case Failure(MissingId) => NamesARow(verb) && "id" !in arguments && e' == e
    case Failure(Refused(_)) => verb != List && e' == e
    case Failure(UnknownTool) => false
  }

  // A call reaches exactly the Tools of live tables that have no chat-facing Tool of their own.
  lemma TargetExactly(cat: Catalog, name: string, v: Verb, table: string)
    ensures Target(cat, name) == Some(Parsed(v, table)) <==>
            table != "" && name == ToolName(v, table) && table in cat && cat[table].def.toolLinked == None
  {
    ParseInvertsToolName(name, v, table);
  }

  // Whatever a call answers is so: the rows listed are the rows there are, the row answered as stored is there with
  // those fields, a row answered as removed was there and is gone, and a row answered as unknown is not there.
  lemma AnswersAreTruthful(sql: Sqlite, cat: Catalog, verb: Verb, table: string, arguments: Fields, newId: string)
    requires table in cat
    ensures var cat' := AfterVerb(sql, cat, verb, table, arguments, newId);
            && cat'.Keys == cat.Keys && (forall other :: other in cat && other != table ==> cat'[other] == cat[other])
            && Truthful(sql, cat[table], cat'[table], verb, arguments,
                        AnswerOf(sql, cat, verb, table, arguments, newId))
  {
    match verb {
      case List =>
      case Create => WriteIsTruthful(sql, cat, table, WithoutId(arguments), newId);
      case Update =>
        if RowIsThere(sql, cat[table], arguments) {
          var existing := Existing(sql, cat[table], arguments["id"]);
          WriteIsTruthful(sql, cat, table, Patched(existing.value, arguments, arguments["id"]), newId);
        }
      case Delete =>
    }
  }

  lemma WriteIsTruthful(sql: Sqlite, cat: Catalog, table: string, row: Fields, newId: string)
    requires table in cat
    ensures var cat' := OrUnchanged(cat, OnUpsert(sql, cat, table, row, newId));
            var answer := WriteAnswer(sql, cat, table, row, newId);
            && cat'.Keys == cat.Keys && (forall other :: other in cat && other != table ==> cat'[other] == cat[other])
            && match answer
               case Success(Stored(id, fields)) =>
                 id in cat'[table].rows && cat'[table].rows[id] == fields
                 && cat'[table].rows - {id} == cat[table].rows - {id}
               case Failure(Refused(_)) => cat' == cat
               case _ => false
  {
  }

  // A call that names a row is refused for want of an id exactly when it has none, and, SQLite taking the id, is
  // answered "no such row" exactly when no row bears it.
  lemma MissingExactly(sql: Sqlite, cat: Catalog, verb: Verb, table: string, arguments: Fields, newId: string)
    requires table in cat && NamesARow(verb)
    ensures var answer := AnswerOf(sql, cat, verb, table, arguments, newId);
            && (answer == Failure(MissingId) <==> "id" !in arguments)
            && (answer == Success(NoSuchRow) <==>
                "id" in arguments && !arguments["id"].Structure? && !RowIsThere(sql, cat[table], arguments))
            && (answer == Success(Done) <==>
                verb == Delete && "id" in arguments && !arguments["id"].Structure?
                && RowIsThere(sql, cat[table], arguments))
  {
  }

  /* ---------- What the generated Tools do to a table ---------- */

  // Exactly the supplied known columns of one row change.
  ghost predicate OnlyPatched(sql: Sqlite, columns: seq<ColumnDef>, before: Fields, patch: Fields, after: Fields) {
    && after.Keys == before.Keys
    && forall i :: 0 <= i < |columns| ==>
         && columns[i].name in before
         && if columns[i].name in patch then Kept(sql, columns[i].ctype, patch[columns[i].name])
           == Some(after[columns[i].name])
            else after[columns[i].name] == before[columns[i].name]
  }

  lemma PatchedFields(sql: Sqlite, columns: seq<ColumnDef>, before: Fields, arguments: Fields, id: Value, after: Fields)
    requires SoundColumns(sql, columns) && SoundRow(sql, columns, before)
    requires StoredFields(sql, columns, Patched(before, arguments, id)) == Some(after)
    ensures OnlyPatched(sql, columns, before, WithoutId(arguments), after)
  {
    var row, patch := Patched(before, arguments, id), WithoutId(arguments);
    StoredFieldsAreSound(sql, columns, row);
    forall name ensures name in after <==> name in before {
      assert (name in after <==> HasColumn(columns, name)) && (name in before <==> HasColumn(columns, name));
    }
    forall i | 0 <= i < |columns|
      ensures columns[i].name in before
      ensures if columns[i].name in patch then Kept(sql, columns[i].ctype, patch[columns[i].name])
              == Some(after[columns[i].name])
              else after[columns[i].name] == before[columns[i].name]
    {
      StoredFieldsAreTheRow(sql, columns, row, i);
      assert KeptAsIs(sql, columns[i], before);
      assert columns[i].name != "id";
    }
  }

  // The update Tool writes a whole row, yet changes exactly the supplied known columns of that one row: every
  // other field, row, the schema and the id sequence stay, provided the id it is given is truthy.
  lemma UpdateChangesOnlyThePatch(sql: Sqlite, e: Entity, arguments: Fields, id: Value, newId: string)
    requires SoundEntity(sql, e) && Existing(sql, e, id).Some? && Truthy(id)
    requires UpsertError(sql, e, Patched(Existing(sql, e, id).value, arguments, id), newId) == None
    ensures var key := LookupId(sql, e, id).value;
            var e' := Upserted(sql, e, Patched(e.rows[key], arguments, id), newId);
            && e' == e.(rows := e.rows[key := e'.rows[key]])
            && OnlyPatched(sql, e.def.columns, e.rows[key], WithoutId(arguments), e'.rows[key])
  {
    var key := LookupId(sql, e, id).value;
    var row := Patched(e.rows[key], arguments, id);
    assert SoundId(e.def.idType, e.lastId, key);
    assert UpsertId(sql, e, row, newId) == Some(key);
    PatchedFields(sql, e.def.columns, e.rows[key], arguments, id, StoredFields(sql, e.def.columns, row).value);
  }

  // A falsy id that still names a row - the number 0 against the text id "0" - makes a second row instead.
  lemma FalsyIdMakesANewRow(sql: Sqlite, e: Entity, arguments: Fields, id: Value, newId: string)
    requires SoundEntity(sql, e) && e.def.idType == Uuid && Existing(sql, e, id).Some? && !Truthy(id)
    requires sql.parseNumber(newId) == None && TextId(newId) !in e.rows
    requires UpsertError(sql, e, Patched(Existing(sql, e, id).value, arguments, id), newId) == None
    ensures var key := LookupId(sql, e, id).value;
            var e' := Upserted(sql, e, Patched(e.rows[key], arguments, id), newId);
            e'.rows == e.rows[TextId(newId) := e'.rows[TextId(newId)]] && e'.rows[key] == e.rows[key]
              && |e'.rows| == |e.rows| + 1
  {
    hide KeptAsIs, Kept;
    var key := LookupId(sql, e, id).value;
    assert UpsertId(sql, e, Patched(e.rows[key], arguments, id), newId) == Some(TextId(newId));
  }

  const NOTES := TableDef("notes", "Notes", [ColumnDef("note", TextColumn, false)], Uuid, None)

  lemma StoresAnyNote(sql: Sqlite, row: Fields)
    requires Get(row, "note") == Null
    ensures StoredFields(sql, NOTES.columns, row) == Some(map["note" := Null])
  {
    var columns := NOTES.columns;
    assert columns[..0] == [];
  }

  // Such a row can be stored: a direct upsert under the text id "0", in a table of the simplest shape.
  lemma FalsyIdIsReachable(sql: Sqlite, arguments: Fields, newId: string)
    requires CreateError(sql, map[], NOTES) == None && sql.numberText(Number(0.0)) == "0" && "note" !in arguments
    ensures var cat := After(sql, [CreateTable(NOTES), UpsertRow("notes", map["id" := Text("0")], newId)]);
            && "notes" in cat && SoundEntity(sql, cat["notes"]) && cat["notes"].def.idType == Uuid
            && Existing(sql, cat["notes"], Number(0.0)).Some? && !Truthy(Number(0.0))
            && UpsertError(sql, cat["notes"], Patched(Existing(sql, cat["notes"], Number(0.0)).value, arguments,
                                                      Number(0.0)), newId) == None
  {
    hide CreateError, UpsertError, Upserted, SoundEntity, Existing, Patched;
    var ops := [CreateTable(NOTES), UpsertRow("notes", map["id" := Text("0")], newId)];
    ReachableIsSound(sql, ops);
    ZeroIsStored(sql, newId);
    NotesAfter(sql, map["id" := Text("0")], newId, WithZero());
    ZeroIsFound(sql, arguments, newId);
  }

  // The table with the one row "0".
  function WithZero(): Entity {
    Created(NOTES).(rows := map[TextId("0") := map["note" := Null]])
  }

  lemma ZeroIsStored(sql: Sqlite, newId: string)
    ensures UpsertError(sql, Created(NOTES), map["id" := Text("0")], newId) == None
    ensures Upserted(sql, Created(NOTES), map["id" := Text("0")], newId) == WithZero()
  {
    var row := map["id" := Text("0")];
    StoresAnyNote(sql, row);
    assert UpsertId(sql, Created(NOTES), row, newId) == Some(TextId("0"));
  }

  lemma ZeroIsFound(sql: Sqlite, arguments: Fields, newId: string)
    requires sql.numberText(Number(0.0)) == "0" && "note" !in arguments
    ensures Existing(sql, WithZero(), Number(0.0)) == Some(map["note" := Null])
    ensures UpsertError(sql, WithZero(), Patched(map["note" := Null], arguments, Number(0.0)), newId) == None
  {
    StoresAnyNote(sql, Patched(map["note" := Null], arguments, Number(0.0)));
  }

  lemma NotesAfter(sql: Sqlite, row: Fields, newId: string, e: Entity)
    requires CreateError(sql, map[], NOTES) == None && UpsertError(sql, Created(NOTES), row, newId) == None
    requires e == Upserted(sql, Created(NOTES), row, newId)
    ensures After(sql, [CreateTable(NOTES), UpsertRow("notes", row, newId)]) == map["notes" := e]
  {
    hide CreateError, UpsertError, Upserted, Created;
    var ops := [CreateTable(NOTES), UpsertRow("notes", row, newId)];
    assert ops[..1] == [CreateTable(NOTES)] && ops[..1][..0] == [];
    assert After(sql, ops[..1]) == map["notes" := Created(NOTES)];
  }

  // An update that SQLite accepts stays on the rows there were exactly when its id is truthy.
  lemma InPlaceExactlyWhenIdIsTruthy(sql: Sqlite, e: Entity, arguments: Fields, id: Value, newId: string, e': Entity)
    requires SoundEntity(sql, e) && Existing(sql, e, id).Some?
    requires sql.parseNumber(newId) == None && TextId(newId) !in e.rows
    requires UpsertError(sql, e, Patched(Existing(sql, e, id).value, arguments, id), newId) == None
    requires e' == Upserted(sql, e, Patched(Existing(sql, e, id).value, arguments, id), newId)
    ensures e'.rows.Keys == e.rows.Keys <==> Truthy(id)
  {
    hide StoredFields;
    if Truthy(id) {
      UpdateChangesOnlyThePatch(sql, e, arguments, id, newId);
    } else if e.def.idType == Uuid {
      FalsyIdMakesANewRow(sql, e, arguments, id, newId);
    }
  }

  // The row has what each column keeps of its argument, null where there is none.
  ghost predicate HoldsArguments(sql: Sqlite, columns: seq<ColumnDef>, arguments: Fields, row: Fields) {
    && (forall name :: name in row <==> HasColumn(columns, name))
    && forall i :: 0 <= i < |columns| ==>
         && columns[i].name in row
         && Some(row[columns[i].name])
            == Kept(sql, columns[i].ctype, if columns[i].name in arguments then arguments[columns[i].name] else Null)
  }

  lemma CreatedRowHoldsArguments(sql: Sqlite, e: Entity, arguments: Fields)
    requires SoundEntity(sql, e) && StoredFields(sql, e.def.columns, WithoutId(arguments)).Some?
    ensures HoldsArguments(sql, e.def.columns, arguments, StoredFields(sql, e.def.columns, WithoutId(arguments)).value)
  {
    hide KeptAsIs, Kept;
    var columns := e.def.columns;
    StoredFieldsAreSound(sql, columns, WithoutId(arguments));
    forall i | 0 <= i < |columns|
      ensures columns[i].name != "id" && columns[i].name in StoredFields(sql, columns, WithoutId(arguments)).value
      ensures Kept(sql, columns[i].ctype, Get(WithoutId(arguments), columns[i].name))
              == Some(StoredFields(sql, columns, WithoutId(arguments)).value[columns[i].name])
    {
      StoredFieldsAreTheRow(sql, columns, WithoutId(arguments), i);
    }
  }

  // The create Tool never overwrites: it adds exactly one row. An AUTOINCREMENT table picks an unused id by
  // itself; otherwise the generated id is unused.
  lemma CreateAddsOneRow(sql: Sqlite, e: Entity, arguments: Fields, newId: string)
    requires SoundEntity(sql, e) && UpsertError(sql, e, WithoutId(arguments), newId) == None
    requires e.def.idType == Uuid ==> TextId(newId) !in e.rows
    ensures var id := UpsertId(sql, e, WithoutId(arguments), newId).value;
            var e' := Upserted(sql, e, WithoutId(arguments), newId);
            && id !in e.rows && e'.rows - {id} == e.rows && id in e'.rows
            && HoldsArguments(sql, e.def.columns, arguments, e'.rows[id])
  {
    hide HasColumn, KeptAsIs;
    CreatedRowHoldsArguments(sql, e, arguments);
    var id := UpsertId(sql, e, WithoutId(arguments), newId).value;
    assert id in e.rows ==> SoundId(e.def.idType, e.lastId, id);
  }

  // The delete Tool removes exactly the one row it names, or nothing.
  lemma DeleteRemovesOneRow(sql: Sqlite, e: Entity, id: Value)
    ensures var e' := RowDeleted(sql, e, id);
            && (Existing(sql, e, id) == None ==> e' == e)
            && (Existing(sql, e, id).Some? ==> LookupId(sql, e, id).value !in e'.rows && |e'.rows| == |e.rows| - 1
                                               && e'.rows == e.rows - {LookupId(sql, e, id).value})
  {
    var key := LookupId(sql, e, id);
    if key.Some? && key.value !in e.rows {
      assert e.rows - {key.value} == e.rows;
    }
    if key.Some? && key.value in e.rows {
      assert (e.rows - {key.value}).Keys == e.rows.Keys - {key.value};
    }
  }

  // The row the arguments name holds the supplied known columns, and its old values elsewhere.
  ghost predicate RowPatched(sql: Sqlite, e: Entity, e': Entity, arguments: Fields)
    requires "id" in arguments
  {
    var key := LookupId(sql, e, arguments["id"]);
    && key.Some? && key.value in e.rows && key.value in e'.rows
    && OnlyPatched(sql, e.def.columns, e.rows[key.value], WithoutId(arguments), e'.rows[key.value])
  }

  // Through the provider: an update call leaves every other table and every other row alone, and if it changes
  // anything, it patches the row it names.
  lemma UpdateCallIsLocal(sql: Sqlite, cat: Catalog, table: string, arguments: Fields, newId: string)
    requires SoundCatalog(sql, cat) && table in cat && table != "" && cat[table].def.toolLinked == None
    requires "id" in arguments && Truthy(arguments["id"])
    ensures var cat' := AfterCall(sql, cat, ToolName(Update, table), arguments, newId);
            && cat'.Keys == cat.Keys
            && (forall other :: other in cat && other != table ==> cat'[other] == cat[other])
            && OneRowChanged(cat[table], cat'[table], LookupId(sql, cat[table], arguments["id"]))
            && (cat' != cat ==> RowPatched(sql, cat[table], cat'[table], arguments))
  {
    ParseInvertsToolName(ToolName(Update, table), Update, table);
    UpdateIsLocal(sql, cat, table, arguments, newId);
  }

  // Everything but the row `key` is the same.
  ghost predicate OneRowChanged(e: Entity, e': Entity, key: Option<RowId>) {
    && e'.def == e.def && e'.strict == e.strict && e'.lastId == e.lastId && e'.rows.Keys == e.rows.Keys
    && forall id :: id in e.rows && Some(id) != key ==> e'.rows[id] == e.rows[id]
  }

  lemma UpdateIsLocal(sql: Sqlite, cat: Catalog, table: string, arguments: Fields, newId: string)
    requires SoundCatalog(sql, cat) && table in cat
    requires "id" in arguments && Truthy(arguments["id"])
    ensures var cat' := AfterUpdate(sql, cat, table, arguments, newId);
            && cat'.Keys == cat.Keys
            && (forall other :: other in cat && other != table ==> cat'[other] == cat[other])
            && OneRowChanged(cat[table], cat'[table], LookupId(sql, cat[table], arguments["id"]))
            && (cat' != cat ==> RowPatched(sql, cat[table], cat'[table], arguments))
  {
    var e, id := cat[table], arguments["id"];
    var existing := Existing(sql, e, id);
    assert SoundEntity(sql, e);
    if existing.Some? {
      var row := Patched(existing.value, arguments, id);
      PatchIsLocal(sql, e, arguments, newId, row);
      UpsertIsLocal(sql, cat, table, row, newId);
    }
  }

  lemma PatchIsLocal(sql: Sqlite, e: Entity, arguments: Fields, newId: string, row: Fields)
    requires SoundEntity(sql, e) && "id" in arguments && Existing(sql, e, arguments["id"]).Some?
             && Truthy(arguments["id"])
    requires row == Patched(Existing(sql, e, arguments["id"]).value, arguments, arguments["id"])
    ensures UpsertError(sql, e, row, newId) == None ==>
              var e' := Upserted(sql, e, row, newId);
              OneRowChanged(e, e', LookupId(sql, e, arguments["id"])) && RowPatched(sql, e, e', arguments)
  {
    hide SoundRow;
    var id := arguments["id"];
    if UpsertError(sql, e, row, newId) == None {
      UpdateChangesOnlyThePatch(sql, e, arguments, id, newId);
    }
  }

  lemma UpsertIsLocal(sql: Sqlite, cat: Catalog, table: string, row: Fields, newId: string)
    requires table in cat
    ensures var cat' := OrUnchanged(cat, OnUpsert(sql, cat, table, row, newId));
            && cat'.Keys == cat.Keys
            && (forall other :: other in cat && other != table ==> cat'[other] == cat[other])
            && cat'[table] == if UpsertError(sql, cat[table], row, newId) == None then
              Upserted(sql, cat[table], row, newId) else cat[table]
  {
  }
}
