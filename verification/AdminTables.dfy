// The admin routes that create and delete tables, keeping the Business Config's Tools in step
// (interfaces/admin/entities_router.py, entities/crud_tools.py).
module AdminTables {
  import opened Common
  import J = Json
  import opened ToolRail
  import SqlEngine
  import opened Entities
  import opened EntityRepository
  import opened CrudTools
  import Menu
  import Refusals

  /* ---------- The generated Tools ---------- */

  function JsonType(c: ColumnType): J.Json {
    J.Str(match c case TextColumn => "string" case NumberColumn => "number" case BooleanColumn => "boolean")
  }

  // `quoted` is how a name is quoted inside a description.
  function ColumnProperties(quoted: string -> string, columns: seq<ColumnDef>): map<string, J.Json> {
    if columns == [] then map[]
    else
      var c := columns[|columns| - 1];
      ColumnProperties(quoted, columns[..|columns| - 1])[c.name :=
        J.Mapping(map["type" := JsonType(c.ctype), "description" := J.Str("The row's " + quoted(c.name) + " value.")])]
  }

  function RequiredNames(columns: seq<ColumnDef>): seq<J.Json> {
    if columns == [] then []
    else RequiredNames(columns[..|columns| - 1])
         + if columns[|columns| - 1].required then [J.Str(columns[|columns| - 1].name)] else []
  }

  function IdProperty(): map<string, J.Json> {
    map["id" := J.Mapping(map["type" := J.Str("string"), "description" := J.Str("The row's id.")])]
  }

  function Schema(properties: map<string, J.Json>, required: seq<J.Json>): J.Json {
    J.Mapping(map["type" := J.Str("object"), "properties" := J.Mapping(properties), "required" := J.List(required)])
  }

  function SchemaOf(quoted: string -> string, v: Verb, columns: seq<ColumnDef>): J.Json {
    match v
    case List => J.Mapping(map["type" := J.Str("object"), "properties" := J.Mapping(map[])])
    case Create => Schema(ColumnProperties(quoted, columns), RequiredNames(columns))
    case Update => Schema(IdProperty() + ColumnProperties(quoted, columns), [J.Str("id")])
    case Delete => Schema(IdProperty(), [J.Str("id")])
  }

  function DescriptionOf(v: Verb, table: string): string {
    match v
    case List => "List every row in the " + table + " table."
    case Create => "Add a new row to the " + table + " table."
    case Update => "Update an existing row in the " + table + " table by id. "
                   + "Only the fields provided are changed; the rest keep their current value."
    case Delete => "Delete a row from the " + table + " table by id."
  }

  function GeneratedTool(quoted: string -> string, def: TableDef, v: Verb): ToolConfig {
    ToolConfig(ToolName(v, def.tableName), DescriptionOf(v, quoted(def.displayName)), SchemaOf(quoted, v, def.columns),
               None, v != List, true)
  }

  const VERBS := [List, Create, Update, Delete]

  function GeneratedTools(quoted: string -> string, def: TableDef): seq<ToolConfig> {
    seq(4, i requires 0 <= i < 4 => GeneratedTool(quoted, def, VERBS[i]))
  }

  // `name` is one of the four Tool names of `table`.
  predicate IsCrudName(table: string, name: string) {
    exists i :: 0 <= i < 4 && name == ToolName(VERBS[i], table)
  }

  predicate HasTool(tools: seq<ToolConfig>, name: string) {
    exists i :: 0 <= i < |tools| && tools[i].name == name
  }

  predicate OwnsATool(tools: seq<ToolConfig>, table: string) {
    exists i :: 0 <= i < |tools| && IsCrudName(table, tools[i].name)
  }

  function Remaining(tools: seq<ToolConfig>, table: string): seq<ToolConfig> {
    if tools == [] then []
    else (if IsCrudName(table, tools[0].name) then [] else [tools[0]]) + Remaining(tools[1..], table)
  }

  /* ---------- The routes ---------- */

  datatype Admin = Admin(cat: Catalog, tools: seq<ToolConfig>)

  datatype RouteError = ToolCollision | Rejected(error: Error) | NoSuchTable | ConfigNotSaved

  // Tables and tools after a request, and the error it answers, if any.
  datatype Routed = Routed(st: Admin, error: Option<RouteError>)

  function NewTools(quoted: string -> string, def: TableDef): seq<ToolConfig> {
    if def.toolLinked == None then GeneratedTools(quoted, def) else []
  }

  predicate Collides(tools: seq<ToolConfig>, more: seq<ToolConfig>) {
    exists i :: 0 <= i < |more| && HasTool(tools, more[i].name)
  }

  // The tables are already changed when the config is: an update that fails leaves the tools behind.
  function Saved(cat: Catalog, before: seq<ToolConfig>, after: seq<ToolConfig>, saved: bool): Routed {
    if before == after || saved then Routed(Admin(cat, after), None)
      else Routed(Admin(cat, before), Some(ConfigNotSaved))
  }

  predicate Creates(sql: SqlEngine.Sqlite, quoted: string -> string, st: Admin, def: TableDef) {
    !Collides(st.tools, NewTools(quoted, def)) && OnCreate(sql, st.cat, def).Success?
  }

  function AfterCreate(sql: SqlEngine.Sqlite, quoted: string -> string, st: Admin, def: TableDef, saved: bool): Routed {
    if Collides(st.tools, NewTools(quoted, def)) then Routed(st, Some(ToolCollision))
    else
      match OnCreate(sql, st.cat, def)
      case Failure(e) => Routed(st, Some(Rejected(e)))
      case Success(cat) => Saved(cat, st.tools, st.tools + NewTools(quoted, def), saved)
  }

  function AfterDelete(st: Admin, table: string, saved: bool): Routed {
    if table !in st.cat then Routed(st, Some(NoSuchTable))
    else Saved(st.cat - {table}, st.tools, Remaining(st.tools, table), saved)
  }

  class EntitiesRouter {
    const repository: SqliteEntityRepository
    const quoted: string -> string
    var tools: seq<ToolConfig>

    constructor (repository: SqliteEntityRepository, quoted: string -> string, tools: seq<ToolConfig>)
      ensures this.repository == repository && this.quoted == quoted && this.tools == tools
    {
      this.repository, this.quoted, this.tools := repository, quoted, tools;
    }

    ghost function State(): Admin
      requires repository.Valid()
      reads this, repository
    {
      Admin(repository.View(), tools)
    }

    ghost predicate Follows<T>(outcome: Routed, result: Result<T, RouteError>)
      requires repository.Valid()
      reads this, repository
    {
      State() == outcome.st && outcome.error == if result.Failure? then Some(result.error) else None
    }

    // `saved` says whether the config update, if there is one, returns.
    method CreateTable(def: TableDef, saved: bool) returns (result: Result<TableDef, RouteError>)
      requires repository.Valid()
      modifies this, repository
      ensures repository.Valid()
      ensures Follows(AfterCreate(repository.sql, quoted, old(State()), def, saved), result)
    {
      hide SqliteEntityRepository.View, SqliteEntityRepository.Valid;
      var generated := if def.toolLinked == None then GeneratedTools(quoted, def) else [];
      if Collides(tools, generated) {
        return Failure(ToolCollision);
      }
      var created := repository.CreateTable(def);
      if created.Failure? {
        return Failure(Rejected(created.error));
      }
      if generated != [] {
        assert |tools + generated| > |tools|;
        if !saved {
          return Failure(ConfigNotSaved);
        }
        tools := tools + generated;
      }
      return Success(def);
    }

    // The confirmed request.
    method DeleteTable(table: string, saved: bool) returns (result: Result<(), RouteError>)
      requires repository.Valid()
      modifies this, repository
      ensures repository.Valid()
      ensures Follows(AfterDelete(old(State()), table, saved), result)
    {
      hide SqliteEntityRepository.View, SqliteEntityRepository.Valid;
      var tables := repository.ListTables();
      if !exists i :: 0 <= i < |tables| && tables[i].tableName == table {
        return Failure(NoSuchTable);
      }
      var dropped := repository.DropTable(table);
      assert dropped.Success? && repository.View() == old(repository.View()) - {table};
      result := RemoveTools(table, saved);
    }

    method RemoveTools(table: string, saved: bool) returns (result: Result<(), RouteError>)
      modifies this`tools
      ensures var remaining := Remaining(old(tools), table);
              if remaining == old(tools) || saved then result == Success(()) && tools == remaining
              else result == Failure(ConfigNotSaved) && tools == old(tools)
    {
      var remaining := Remaining(tools, table);
      if |remaining| != |tools| {
        if !saved {
          return Failure(ConfigNotSaved);
        }
        tools := remaining;
      } else {
        RemainingSameLength(tools, table);
      }
      return Success(());
    }
  }

  lemma {:induction false} RemainingShorter(tools: seq<ToolConfig>, table: string)
    ensures |Remaining(tools, table)| <= |tools|
  {
    if tools != [] { RemainingShorter(tools[1..], table); }
  }

  lemma {:induction false} RemainingSameLength(tools: seq<ToolConfig>, table: string)
    requires |Remaining(tools, table)| == |tools|
    ensures Remaining(tools, table) == tools
  {
    if tools != [] {
      RemainingShorter(tools[1..], table);
      RemainingSameLength(tools[1..], table);
    }
  }

  /* ---------- What the generated Tools ask for ---------- */

  // The four Tools by name: only listing needs no Confirmation, and all run here and are enabled.
  lemma FourTools(quoted: string -> string, def: TableDef)
    ensures var tools := GeneratedTools(quoted, def);
            && |tools| == 4
            && tools[0].name == "list_" + def.tableName && !tools[0].requiresConfirmation
            && tools[1].name == "create_" + def.tableName && tools[1].requiresConfirmation
            && tools[2].name == "update_" + def.tableName && tools[2].requiresConfirmation
            && tools[3].name == "delete_" + def.tableName && tools[3].requiresConfirmation
            && (forall i :: 0 <= i < 4 ==> tools[i].enabled && tools[i].mcpEndpoint == None)
            && tools[0].description == "List every row in the " + quoted(def.displayName) + " table."
            && tools[1].description == "Add a new row to the " + quoted(def.displayName) + " table."
            && tools[3].description == "Delete a row from the " + quoted(def.displayName) + " table by id."
  {
    assert "list" + "_" == "list_" && "create" + "_" == "create_" && "update" + "_" == "update_";
    assert "delete" + "_" == "delete_";
  }

  predicate DistinctColumns(columns: seq<ColumnDef>) {
    forall i, j :: 0 <= i < j < |columns| ==> columns[i].name != columns[j].name
  }

  // A property of the JSON type the column's values have.
  predicate IsTyped(property: J.Json, ctype: ColumnType) {
    && property.Mapping? && "type" in property.fields
    && property.fields["type"] == match ctype
                                  case TextColumn => J.Str("string")
                                  case NumberColumn => J.Str("number")
                                  case BooleanColumn => J.Str("boolean")
  }

  // Exactly the columns are described, each with its type.
  ghost predicate DescribesColumns(properties: map<string, J.Json>, columns: seq<ColumnDef>) {
    && (forall name :: name in properties <==> HasColumn(columns, name))
    && forall i :: 0 <= i < |columns| ==>
         columns[i].name in properties && IsTyped(properties[columns[i].name], columns[i].ctype)
  }

  // The columns, and the row's id as text.
  ghost predicate DescribesRow(properties: map<string, J.Json>, columns: seq<ColumnDef>) {
    && "id" in properties && IsTyped(properties["id"], TextColumn)
    && DescribesColumns(properties - {"id"}, columns)
  }

  ghost predicate ListsRequired(names: seq<J.Json>, columns: seq<ColumnDef>) {
    && (forall i :: 0 <= i < |names| ==> names[i].Str?)
    && forall name :: J.Str(name) in names <==> Refusals.IsRequired(columns, name)
  }

  predicate IsSchema(schema: J.Json, properties: map<string, J.Json>, required: seq<J.Json>) {
    && schema.Mapping? && "type" in schema.fields && schema.fields["type"] == J.Str("object")
    && "properties" in schema.fields && schema.fields["properties"] == J.Mapping(properties)
    && (required != [] ==> "required" in schema.fields)
    && ("required" in schema.fields ==> schema.fields["required"] == J.List(required))
  }

  lemma DescribesOneMore(properties: map<string, J.Json>, columns: seq<ColumnDef>, c: ColumnDef, property: J.Json)
    requires DescribesColumns(properties, columns) && !HasColumn(columns, c.name) && IsTyped(property, c.ctype)
    ensures DescribesColumns(properties[c.name := property], columns + [c])
  {
    hide IsTyped;
    forall name ensures HasColumn(columns + [c], name) <==> HasColumn(columns, name) || name == c.name {
      HasColumnAfter(columns, c, name);
    }
    forall i | 0 <= i < |columns| ensures columns[i].name != c.name { }
  }

  lemma PropertyIsTyped(ctype: ColumnType, description: string)
    ensures IsTyped(J.Mapping(map["type" := JsonType(ctype), "description" := J.Str(description)]), ctype)
  {
    assert "type"[0] != "description"[0];
  }

  lemma {:induction false} PropertiesDescribe(quoted: string -> string, columns: seq<ColumnDef>)
    requires DistinctColumns(columns)
    ensures DescribesColumns(ColumnProperties(quoted, columns), columns)
  {
    hide IsTyped, DescribesColumns, JsonType;
    if columns == [] {
      NothingToDescribe();
    } else {
      var before, c := columns[..|columns| - 1], columns[|columns| - 1];
      PropertiesDescribe(quoted, before);
      PropertyIsTyped(c.ctype, "The row's " + quoted(c.name) + " value.");
      assert columns == before + [c];
      DescribesOneMore(ColumnProperties(quoted, before), before, c, ColumnProperties(quoted, columns)[c.name]);
    }
  }

  lemma NothingToDescribe()
    ensures DescribesColumns(map[], [])
  {
  }

  lemma {:induction false} RequiredAreListed(columns: seq<ColumnDef>)
    ensures ListsRequired(RequiredNames(columns), columns)
  {
    if columns != [] {
      var before, c := columns[..|columns| - 1], columns[|columns| - 1];
      RequiredAreListed(before);
      forall name
        ensures Refusals.IsRequired(columns, name) <==>
                Refusals.IsRequired(before, name) || (c.name == name && c.required)
      {
        assert forall i :: 0 <= i < |before| ==> before[i] == columns[i];
        assert columns[|columns| - 1] == c;
      }
    }
  }

  // The input schemas: nothing to list; every column, the required ones demanded, to create; the id demanded and every
  // column offered to update; the id alone to delete.
  lemma SchemasExactly(quoted: string -> string, def: TableDef)
    returns (properties: map<string, J.Json>, required: seq<J.Json>, row: map<string, J.Json>, id: map<string, J.Json>)
    requires DistinctColumns(def.columns) && !HasColumn(def.columns, "id")
    ensures DescribesColumns(properties, def.columns) && ListsRequired(required, def.columns)
    ensures DescribesRow(row, def.columns) && DescribesRow(id, [])
    ensures var tools := GeneratedTools(quoted, def);
            && |tools| == 4
            && IsSchema(tools[0].inputSchema, map[], [])
            && IsSchema(tools[1].inputSchema, properties, required)
            && IsSchema(tools[2].inputSchema, row, [J.Str("id")])
            && IsSchema(tools[3].inputSchema, id, [J.Str("id")])
  {
    hide IsSchema, DescribesColumns, ListsRequired, HasColumn, IsTyped;
    properties, required := ColumnProperties(quoted, def.columns), RequiredNames(def.columns);
    row, id := IdProperty() + properties, IdProperty();
    PropertiesDescribe(quoted, def.columns);
    RequiredAreListed(def.columns);
    DescribesWithId(properties, def.columns);
    NothingToDescribe();
    DescribesWithId(map[], []);
    assert IdProperty() + map[] == IdProperty();
    SchemaIs(properties, required);
    SchemaIs(row, [J.Str("id")]);
    SchemaIs(id, [J.Str("id")]);
    ListSchemaIs();
  }

  lemma DescribesWithId(properties: map<string, J.Json>, columns: seq<ColumnDef>)
    requires DescribesColumns(properties, columns) && !HasColumn(columns, "id")
    ensures DescribesRow(IdProperty() + properties, columns)
  {
    hide IsTyped;
    assert "id" !in properties;
    assert IdProperty() + properties - {"id"} == properties;
    PropertyIsTyped(TextColumn, "The row's id.");
  }

  lemma SchemaIs(properties: map<string, J.Json>, required: seq<J.Json>)
    ensures IsSchema(Schema(properties, required), properties, required)
  {
    assert "type"[0] != "properties"[0] && "type"[0] != "required"[0] && "properties"[0] != "required"[0];
  }

  lemma ListSchemaIs()
    ensures IsSchema(J.Mapping(map["type" := J.Str("object"), "properties" := J.Mapping(map[])]), map[], [])
  {
    assert "type"[0] != "properties"[0] && "type"[0] != "required"[0] && "properties"[0] != "required"[0];
  }

  /* ---------- What the routes answer ---------- */

  // A creation is refused before it touches anything, with a reason that is true of it - or its Tools were not saved,
  // and then the table is there without them.
  lemma CreateAnswerTells(sql: SqlEngine.Sqlite, quoted: string -> string, st: Admin, def: TableDef, saved: bool)
    ensures var routed := AfterCreate(sql, quoted, st, def, saved);
            match routed.error
            case Some(ToolCollision) => routed.st == st && def.toolLinked == None && OwnsATool(st.tools, def.tableName)
            case Some(Rejected(error)) => routed.st == st && Refusals.TellsCreate(sql, st.cat, def, error)
            case Some(ConfigNotSaved) =>
              !saved && def.toolLinked == None && routed.st == Admin(st.cat[def.tableName := Created(def)], st.tools)
            case Some(NoSuchTable) => false
            case None =>
              && (forall error :: !Refusals.TellsCreate(sql, st.cat, def, error))
              && routed.st.cat == st.cat[def.tableName := Created(def)]
              && (def.toolLinked.Some? ==> routed.st.tools == st.tools)
              && (def.toolLinked == None ==>
                    saved && !OwnsATool(st.tools, def.tableName)
                    && routed.st.tools == st.tools + GeneratedTools(quoted, def))
  {
    Refusals.CreationTells(sql, st.cat, def);
    CollidesExactly(quoted, st.tools, def);
    assert st.tools + [] == st.tools;
    assert |GeneratedTools(quoted, def)| == 4;
  }

  lemma CollidesExactly(quoted: string -> string, tools: seq<ToolConfig>, def: TableDef)
    ensures Collides(tools, GeneratedTools(quoted, def)) <==> OwnsATool(tools, def.tableName)
  {
    assert tools + [] == tools;
    OwnedToolCollides(quoted, tools, [], def);
    if Collides(tools, GeneratedTools(quoted, def)) {
      var k :| 0 <= k < 4 && HasTool(tools, GeneratedTools(quoted, def)[k].name);
      OwnTools(quoted, def, def.tableName, k);
      var i :| 0 <= i < |tools| && tools[i].name == GeneratedTools(quoted, def)[k].name;
      assert IsCrudName(def.tableName, tools[i].name);
    }
  }

  // A deletion is refused exactly for want of the table. The table goes either way; its Tools stay exactly when there
  // are some and the config was not saved.
  lemma DeleteAnswerTells(st: Admin, table: string, saved: bool)
    ensures var routed := AfterDelete(st, table, saved);
            match routed.error
            case Some(NoSuchTable) => table !in st.cat && routed.st == st
            case Some(ConfigNotSaved) =>
              table in st.cat && !saved && OwnsATool(st.tools, table) && routed.st == Admin(st.cat - {table}, st.tools)
            case Some(_) => false
            case None =>
              && table in st.cat && (saved || !OwnsATool(st.tools, table))
              && routed.st == Admin(st.cat - {table}, Remaining(st.tools, table))
              && forall tool :: tool in routed.st.tools <==> tool in st.tools && !IsCrudName(table, tool.name)
  {
    RemainingExactly(st.tools, table);
    forall tool ensures tool in Remaining(st.tools, table) <==> tool in st.tools && !IsCrudName(table, tool.name) {
      RemainingHolds(st.tools, table, tool);
    }
  }

  lemma {:induction false} RemainingHolds(tools: seq<ToolConfig>, table: string, tool: ToolConfig)
    ensures tool in Remaining(tools, table) <==> tool in tools && !IsCrudName(table, tool.name)
  {
    if tools != [] { RemainingHolds(tools[1..], table, tool); }
  }

  /* ---------- Removing Tools by table ---------- */

  lemma {:induction false} RemainingConcat(a: seq<ToolConfig>, b: seq<ToolConfig>, table: string)
    ensures Remaining(a + b, table) == Remaining(a, table) + Remaining(b, table)
  {
    if a == [] {
      assert a + b == b;
    } else {
      assert (a + b)[1..] == a[1..] + b;
      RemainingConcat(a[1..], b, table);
    }
  }

  // Nothing is removed exactly when the table owns no Tool of the list.
  lemma {:induction false} RemainingExactly(tools: seq<ToolConfig>, table: string)
    ensures Remaining(tools, table) == tools <==> !OwnsATool(tools, table)
  {
    if tools != [] {
      RemainingExactly(tools[1..], table);
      RemainingShorter(tools[1..], table);
      assert forall i :: 0 <= i < |tools| - 1 ==> tools[1..][i] == tools[i + 1];
      if OwnsATool(tools[1..], table) {
        var i :| 0 <= i < |tools| - 1 && IsCrudName(table, tools[1..][i].name);
        assert IsCrudName(table, tools[i + 1].name);
      }
      if Remaining(tools, table) == tools {
        assert |Remaining(tools, table)| == |tools|;
        assert !IsCrudName(table, tools[0].name);
        assert Remaining(tools, table)[1..] == Remaining(tools[1..], table);
      }
    }
  }

  lemma OwnTools(quoted: string -> string, def: TableDef, table: string, i: nat)
    requires i < 4
    ensures IsCrudName(table, GeneratedTools(quoted, def)[i].name) <==> table == def.tableName
  {
    if table == def.tableName {
      assert GeneratedTools(quoted, def)[i].name == ToolName(VERBS[i], table);
    }
    if k :| 0 <= k < 4 && GeneratedTools(quoted, def)[i].name == ToolName(VERBS[k], table) {
      ToolNamesDisjoint(VERBS[i], def.tableName, VERBS[k], table);
    }
  }

  lemma {:induction false} AllRemoved(tools: seq<ToolConfig>, table: string)
    requires forall i :: 0 <= i < |tools| ==> IsCrudName(table, tools[i].name)
    ensures Remaining(tools, table) == []
  {
    if tools != [] { AllRemoved(tools[1..], table); }
  }

  lemma RemainingOfOne(quoted: string -> string, def: TableDef, table: string)
    ensures Remaining(GeneratedTools(quoted, def), table) == if table == def.tableName then []
            else GeneratedTools(quoted, def)
  {
    var generated := GeneratedTools(quoted, def);
    forall i: nat | i < 4 ensures IsCrudName(table, generated[i].name) <==> table == def.tableName {
      OwnTools(quoted, def, table, i);
    }
    if table == def.tableName {
      AllRemoved(generated, table);
    } else {
      RemainingExactly(generated, table);
    }
  }

  /* ---------- Runs of admin operations ---------- */

  datatype AdminOp =
    | AddTable(def: TableDef, saved: bool)
    | RemoveTable(table: string, saved: bool)
    | Alter(op: Op)

  // Any repository operation other than creating or dropping a table.
  predicate IsAlteration(op: Op) { !op.CreateTable? && !op.DropTable? }

  function AfterOp(sql: SqlEngine.Sqlite, quoted: string -> string, st: Admin, op: AdminOp): Admin {
    match op
    case AddTable(def, saved) => AfterCreate(sql, quoted, st, def, saved).st
    case RemoveTable(table, saved) => AfterDelete(st, table, saved).st
    case Alter(change) =>
      if IsAlteration(change) && Applied(sql, st.cat, change).Success? then
        st.(cat := Applied(sql, st.cat, change).value) else st
  }

  function Run(sql: SqlEngine.Sqlite, quoted: string -> string, initial: seq<ToolConfig>, ops: seq<AdminOp>): Admin {
    if ops == [] then Admin(map[], initial)
    else AfterOp(sql, quoted, Run(sql, quoted, initial, ops[..|ops| - 1]), ops[|ops| - 1])
  }

  function NotNamed(defs: seq<TableDef>, table: string): seq<TableDef> {
    if defs == [] then []
    else (if defs[0].tableName == table then [] else [defs[0]]) + NotNamed(defs[1..], table)
  }

  // The live plain tables, as created, in creation order.
  function LiveAfter(sql: SqlEngine.Sqlite, quoted: string -> string, st: Admin, live: seq<TableDef>,
                     op: AdminOp): seq<TableDef> {
    match op
    case AddTable(def, _) => if Creates(sql, quoted, st, def) && def.toolLinked == None then live + [def] else live
    case RemoveTable(table, _) => if table in st.cat then NotNamed(live, table) else live
    case Alter(_) => live
  }

  function Live(sql: SqlEngine.Sqlite, quoted: string -> string, initial: seq<ToolConfig>,
                ops: seq<AdminOp>): seq<TableDef> {
    if ops == [] then []
    else
      var n := |ops| - 1;
      LiveAfter(sql, quoted, Run(sql, quoted, initial, ops[..n]), Live(sql, quoted, initial, ops[..n]), ops[n])
  }

  function ToolsOf(quoted: string -> string, live: seq<TableDef>): seq<ToolConfig> {
    if live == [] then [] else GeneratedTools(quoted, live[0]) + ToolsOf(quoted, live[1..])
  }

  lemma {:induction false} ToolsOfAppend(quoted: string -> string, live: seq<TableDef>, def: TableDef)
    ensures ToolsOf(quoted, live + [def]) == ToolsOf(quoted, live) + GeneratedTools(quoted, def)
  {
    if live == [] {
      assert live + [def] == [def];
      assert ToolsOf(quoted, [def]) == GeneratedTools(quoted, def) + ToolsOf(quoted, []);
    } else {
      assert (live + [def])[1..] == live[1..] + [def];
      ToolsOfAppend(quoted, live[1..], def);
    }
  }

  lemma {:induction false} RemainingOfLive(quoted: string -> string, live: seq<TableDef>, table: string)
    ensures Remaining(ToolsOf(quoted, live), table) == ToolsOf(quoted, NotNamed(live, table))
  {
    if live != [] {
      RemainingConcat(GeneratedTools(quoted, live[0]), ToolsOf(quoted, live[1..]), table);
      RemainingOfOne(quoted, live[0], table);
      RemainingOfLive(quoted, live[1..], table);
      if live[0].tableName != table {
        assert ([live[0]] + NotNamed(live[1..], table))[1..] == NotNamed(live[1..], table);
      } else {
        assert [] + NotNamed(live[1..], table) == NotNamed(live[1..], table);
      }
    }
  }

  predicate IsLive(live: seq<TableDef>, table: string) {
    exists i :: 0 <= i < |live| && live[i].tableName == table
  }

  lemma IsLiveFirst(live: seq<TableDef>, name: string)
    requires live != []
    ensures IsLive(live, name) <==> live[0].tableName == name || IsLive(live[1..], name)
  {
    var rest := live[1..];
    if i :| 0 <= i < |live| && live[i].tableName == name && i > 0 { assert rest[i - 1].tableName == name; }
    if i :| 0 <= i < |rest| && rest[i].tableName == name { assert live[i + 1].tableName == name; }
  }

  lemma {:induction false} NotNamedIsLive(live: seq<TableDef>, table: string, name: string)
    ensures IsLive(NotNamed(live, table), name) <==> IsLive(live, name) && name != table
  {
    if live != [] {
      var left := NotNamed(live[1..], table);
      NotNamedIsLive(live[1..], table, name);
      IsLiveFirst(live, name);
      if live[0].tableName == table {
        assert NotNamed(live, table) == left;
      } else {
        assert ([live[0]] + left)[1..] == left;
        IsLiveFirst([live[0]] + left, name);
      }
    }
  }

  // The tools list is the initial one followed by the Tools of the live plain tables, which are exactly the
  // catalog's plain tables, and the initial list holds none of their Tool names.
  ghost predicate InStep(quoted: string -> string, initial: seq<ToolConfig>, st: Admin, live: seq<TableDef>) {
    && st.tools == initial + ToolsOf(quoted, live)
    && LiveTables(initial, st.cat, live)
  }

  lemma IsLiveAppend(live: seq<TableDef>, def: TableDef, name: string)
    ensures IsLive(live + [def], name) <==> IsLive(live, name) || name == def.tableName
  {
    var all := live + [def];
    assert all[|live|] == def;
    if i :| 0 <= i < |live| && live[i].tableName == name { assert all[i].tableName == name; }
  }

  lemma OwnedToolCollides(quoted: string -> string, tools: seq<ToolConfig>, more: seq<ToolConfig>, def: TableDef)
    ensures OwnsATool(tools, def.tableName) ==> Collides(tools + more, GeneratedTools(quoted, def))
  {
    var generated := GeneratedTools(quoted, def);
    if i :| 0 <= i < |tools| && IsCrudName(def.tableName, tools[i].name) {
      var k :| 0 <= k < 4 && tools[i].name == ToolName(VERBS[k], def.tableName);
      assert (tools + more)[i] == tools[i] && generated[k].name == tools[i].name;
      assert HasTool(tools + more, generated[k].name);
    }
  }

  // Created with its config update: still in step. Created without it: the new Tools are missing.
  lemma CreateKeepsStep(sql: SqlEngine.Sqlite, quoted: string -> string, initial: seq<ToolConfig>, st: Admin,
                        live: seq<TableDef>, def: TableDef, saved: bool)
    requires InStep(quoted, initial, st, live) && Creates(sql, quoted, st, def)
    ensures InStep(quoted, initial, AfterCreate(sql, quoted, st, def, saved).st,
                   if def.toolLinked == None then live + [def] else live)
            <==> saved || def.toolLinked.Some?
  {
    hide OwnsATool;
    var st', live' := AfterCreate(sql, quoted, st, def, saved).st, live + [def];
    var tools := initial + ToolsOf(quoted, live);
    assert def.tableName !in st.cat;
    if def.toolLinked == None {
      OwnedToolCollides(quoted, initial, ToolsOf(quoted, live), def);
      ToolsOfAppend(quoted, live, def);
      assert initial + ToolsOf(quoted, live') == tools + GeneratedTools(quoted, def);
      assert |tools + GeneratedTools(quoted, def)| == |tools| + 4;
      CreatedIsLive(initial, st.cat, st'.cat, live, def);
    } else {
      assert tools + [] == tools;
    }
  }

  ghost predicate LiveTables(initial: seq<ToolConfig>, cat: Catalog, live: seq<TableDef>) {
    && (forall name :: IsLive(live, name) <==> name in cat && cat[name].def.toolLinked == None)
    && (forall name :: IsLive(live, name) ==> !OwnsATool(initial, name))
  }

  lemma CreatedIsLive(initial: seq<ToolConfig>, cat: Catalog, cat': Catalog, live: seq<TableDef>, def: TableDef)
    requires LiveTables(initial, cat, live) && def.toolLinked == None && !OwnsATool(initial, def.tableName)
    requires cat' == cat[def.tableName := Created(def)]
    ensures LiveTables(initial, cat', live + [def])
  {
    hide OwnsATool, IsLive;
    forall name
      ensures IsLive(live + [def], name) <==> name in cat' && cat'[name].def.toolLinked == None
      ensures IsLive(live + [def], name) ==> !OwnsATool(initial, name)
    {
      IsLiveAppend(live, def, name);
    }
  }

  // When deleting a table keeps tables and tools in step: a plain one with its config update, a tool-linked one
  // if no Tool of the initial list bears a name of its own - or none is taken away.
  predicate CleanDelete(initial: seq<ToolConfig>, st: Admin, table: string, saved: bool)
    requires table in st.cat
  {
    if st.cat[table].def.toolLinked == None then saved else !OwnsATool(initial, table) || !saved
  }

  lemma DeleteKeepsStep(quoted: string -> string, initial: seq<ToolConfig>, st: Admin, live: seq<TableDef>,
                        table: string, saved: bool)
    requires InStep(quoted, initial, st, live) && table in st.cat
    ensures InStep(quoted, initial, AfterDelete(st, table, saved).st, NotNamed(live, table))
            <==> CleanDelete(initial, st, table, saved)
  {
    var tools, live' := ToolsOf(quoted, live), NotNamed(live, table);
    RemainingConcat(initial, tools, table);
    RemainingExactly(initial, table);
    RemainingOfLive(quoted, live, table);
    RemainingExactly(tools, table);
    LiveOwnsATool(quoted, live, table);
    if !IsLive(live, table) { NotLiveUnchanged(live, table); }
    DeletedIsNotLive(initial, st.cat, live, table);
    LeftCancels(initial, tools, ToolsOf(quoted, live'));
    RightCancels(Remaining(initial, table), initial, tools);
    assert IsLive(live, table) <==> st.cat[table].def.toolLinked == None;
    assert IsLive(live, table) ==> Remaining(initial, table) == initial;
  }

  lemma LeftCancels<T>(a: seq<T>, b: seq<T>, c: seq<T>)
    ensures a + b == a + c <==> b == c
  {
    assert (a + b)[|a|..] == b && (a + c)[|a|..] == c;
  }

  lemma RightCancels<T>(a: seq<T>, b: seq<T>, c: seq<T>)
    ensures a + c == b + c <==> a == b
  {
    if a + c == b + c {
      assert |a| == |b|;
      assert (a + c)[..|a|] == a && (b + c)[..|b|] == b;
    }
  }

  lemma DeletedIsNotLive(initial: seq<ToolConfig>, cat: Catalog, live: seq<TableDef>, table: string)
    requires LiveTables(initial, cat, live)
    ensures LiveTables(initial, cat - {table}, NotNamed(live, table))
  {
    hide OwnsATool, IsLive;
    forall name
      ensures IsLive(NotNamed(live, table), name) <==>
              name in cat - {table} && (cat - {table})[name].def.toolLinked == None
      ensures IsLive(NotNamed(live, table), name) ==> !OwnsATool(initial, name)
    {
      NotNamedIsLive(live, table, name);
    }
  }

  lemma {:induction false} LiveOwnsATool(quoted: string -> string, live: seq<TableDef>, table: string)
    ensures OwnsATool(ToolsOf(quoted, live), table) <==> IsLive(live, table)
  {
    RemainingOfLive(quoted, live, table);
    RemainingExactly(ToolsOf(quoted, live), table);
    if IsLive(live, table) {
      FewerWithout(quoted, live, table);
    } else {
      NotLiveUnchanged(live, table);
    }
  }

  lemma {:induction false} FewerWithout(quoted: string -> string, live: seq<TableDef>, table: string)
    ensures |ToolsOf(quoted, NotNamed(live, table))| <= |ToolsOf(quoted, live)|
    ensures IsLive(live, table) ==> |ToolsOf(quoted, NotNamed(live, table))| < |ToolsOf(quoted, live)|
  {
    if live != [] {
      var rest := NotNamed(live[1..], table);
      FewerWithout(quoted, live[1..], table);
      IsLiveFirst(live, table);
      if live[0].tableName == table {
        assert NotNamed(live, table) == [] + rest == rest;
      } else {
        assert NotNamed(live, table) == [live[0]] + rest && ([live[0]] + rest)[1..] == rest;
      }
    }
  }

  lemma AlterKeepsTables(sql: SqlEngine.Sqlite, cat: Catalog, op: Op, name: string)
    requires IsAlteration(op) && Applied(sql, cat, op).Success?
    ensures var cat' := Applied(sql, cat, op).value;
            (name in cat' <==> name in cat) && (name in cat ==> cat'[name].def.toolLinked == cat[name].def.toolLinked)
  {
  }

  // The operations that keep tables and tools in step, as told from the request and what it finds.
  predicate CleanOp(sql: SqlEngine.Sqlite, quoted: string -> string, initial: seq<ToolConfig>, st: Admin, op: AdminOp) {
    match op
    case AddTable(def, saved) => Creates(sql, quoted, st, def) ==> saved || def.toolLinked.Some?
    case RemoveTable(table, saved) => table in st.cat ==> CleanDelete(initial, st, table, saved)
    case Alter(_) => true
  }

  predicate CleanRun(sql: SqlEngine.Sqlite, quoted: string -> string, initial: seq<ToolConfig>, ops: seq<AdminOp>) {
    ops == [] ||
    var n := |ops| - 1;
    CleanRun(sql, quoted, initial, ops[..n]) && CleanOp(sql, quoted, initial, Run(sql, quoted, initial, ops[..n]),
                                                        ops[n])
  }

  lemma AlterKeepsStep(sql: SqlEngine.Sqlite, quoted: string -> string, initial: seq<ToolConfig>, st: Admin,
                       live: seq<TableDef>, change: Op)
    requires InStep(quoted, initial, st, live) && IsAlteration(change) && Applied(sql, st.cat, change).Success?
    ensures InStep(quoted, initial, st.(cat := Applied(sql, st.cat, change).value), live)
  {
    var cat := Applied(sql, st.cat, change).value;
    hide Applied, IsAlteration, ToolsOf, IsLive, OwnsATool;
    forall name ensures IsLive(live, name) <==> name in cat && cat[name].def.toolLinked == None {
      AlterKeepsTables(sql, st.cat, change, name);
    }
  }

  // One operation keeps the Tools in step with the tables exactly when it is clean.
  lemma InStepExactlyWhenClean(sql: SqlEngine.Sqlite, quoted: string -> string, initial: seq<ToolConfig>, st: Admin,
                               live: seq<TableDef>, op: AdminOp)
    requires InStep(quoted, initial, st, live)
    ensures InStep(quoted, initial, AfterOp(sql, quoted, st, op), LiveAfter(sql, quoted, st, live, op))
            <==> CleanOp(sql, quoted, initial, st, op)
  {
    hide InStep, CleanDelete, Applied, NotNamed;
    match op {
      case AddTable(def, saved) =>
        if Creates(sql, quoted, st, def) { CreateKeepsStep(sql, quoted, initial, st, live, def, saved); }
      case RemoveTable(table, saved) =>
        if table in st.cat { DeleteKeepsStep(quoted, initial, st, live, table, saved); }
      case Alter(change) =>
        if IsAlteration(change) && Applied(sql, st.cat, change).Success? {
          AlterKeepsStep(sql, quoted, initial, st, live, change);
        }
    }
  }

  // After any run of table creations and deletions, and any other repository operations, failed ones included,
  // the tools list is the initial list followed by the four Tools of each live plain table in creation order.
  lemma {:induction false} ToolsFollowTables(sql: SqlEngine.Sqlite, quoted: string -> string, initial: seq<ToolConfig>,
                                             ops: seq<AdminOp>)
    requires CleanRun(sql, quoted, initial, ops)
    ensures InStep(quoted, initial, Run(sql, quoted, initial, ops), Live(sql, quoted, initial, ops))
  {
    if ops != [] {
      var n := |ops| - 1;
      ToolsFollowTables(sql, quoted, initial, ops[..n]);
      InStepExactlyWhenClean(sql, quoted, initial, Run(sql, quoted, initial, ops[..n]),
                             Live(sql, quoted, initial, ops[..n]), ops[n]);
    }
  }

  // Deleting a tool-linked table, which never had generated Tools, keeps the tools list exactly when no
  // hand-written Tool bears one of its four names.
  lemma LinkedDeleteExactly(quoted: string -> string, initial: seq<ToolConfig>, st: Admin, live: seq<TableDef>,
                            table: string)
    requires InStep(quoted, initial, st, live) && table in st.cat && st.cat[table].def.toolLinked.Some?
    ensures AfterDelete(st, table, true).st.tools == st.tools <==> !OwnsATool(initial, table)
  {
    RemainingConcat(initial, ToolsOf(quoted, live), table);
    RemainingOfLive(quoted, live, table);
    NotLiveUnchanged(live, table);
    RemainingExactly(initial, table);
    RemainingShorter(initial, table);
    if AfterDelete(st, table, true).st.tools == st.tools {
      assert Remaining(initial, table) == st.tools[..|Remaining(initial, table)|];
      assert |Remaining(initial, table)| == |initial|;
      RemainingSameLength(initial, table);
    }
  }

  lemma CreatesTheMenuTable(sql: SqlEngine.Sqlite, quoted: string -> string, tool: ToolConfig)
    requires CreateError(sql, map[], Menu.DEFAULT_MENU_TABLE) == None
    ensures AfterCreate(sql, quoted, Admin(map[], [tool]), Menu.DEFAULT_MENU_TABLE, true).st
            == Admin(map["menu_items" := Created(Menu.DEFAULT_MENU_TABLE)], [tool])
  {
    hide CreateError;
    assert [tool] + [] == [tool];
  }

  // A hand-written Tool bearing a name of the menu table goes when that table is deleted.
  lemma LinkedDeleteRemovesAHandWrittenTool(sql: SqlEngine.Sqlite, quoted: string -> string, tool: ToolConfig)
    requires CreateError(sql, map[], Menu.DEFAULT_MENU_TABLE) == None && tool.name == ToolName(List, "menu_items")
    ensures Run(sql, quoted, [tool], [AddTable(Menu.DEFAULT_MENU_TABLE, true)]).tools == [tool]
    ensures Run(sql, quoted, [tool], [AddTable(Menu.DEFAULT_MENU_TABLE, true), RemoveTable("menu_items", true)]).tools
            == []
  {
    var ops := [AddTable(Menu.DEFAULT_MENU_TABLE, true), RemoveTable("menu_items", true)];
    assert ops[..1] == [AddTable(Menu.DEFAULT_MENU_TABLE, true)] && ops[..1][..0] == [];
    var st := Admin(map["menu_items" := Created(Menu.DEFAULT_MENU_TABLE)], [tool]);
    CreatesTheMenuTable(sql, quoted, tool);
    assert Run(sql, quoted, [tool], ops[..1]) == st;
    assert tool.name == ToolName(VERBS[0], "menu_items");
    AllRemoved([tool], "menu_items");
    assert AfterDelete(st, "menu_items", true).st.tools == [];
  }

  lemma {:induction false} NotLiveUnchanged(live: seq<TableDef>, table: string)
    requires !IsLive(live, table)
    ensures NotNamed(live, table) == live
  {
    if live != [] {
      IsLiveFirst(live, table);
      NotLiveUnchanged(live[1..], table);
    }
  }

  /* ---------- What the Tool Rail makes of the generated Tools ---------- */

  lemma HasToolFirst(tools: seq<ToolConfig>, name: string)
    requires tools != []
    ensures HasTool(tools, name) <==> tools[0].name == name || HasTool(tools[1..], name)
  {
    var rest := tools[1..];
    if i :| 0 <= i < |tools| && tools[i].name == name && i > 0 { assert rest[i - 1].name == name; }
    if i :| 0 <= i < |rest| && rest[i].name == name { assert tools[i + 1].name == name; }
  }

  lemma {:induction false} DecideSkips(name: string, a: seq<ToolConfig>, b: seq<ToolConfig>)
    requires !HasTool(a, name)
    ensures Decide(name, a + b) == Decide(name, b)
  {
    if a == [] {
      assert a + b == b;
    } else {
      HasToolFirst(a, name);
      assert (a + b)[1..] == a[1..] + b;
      DecideSkips(name, a[1..], b);
    }
  }

  function Position(v: Verb): (k: nat)
    ensures k < 4 && VERBS[k] == v
  {
    match v case List => 0 case Create => 1 case Update => 2 case Delete => 3
  }

  lemma EarlierToolsDiffer(quoted: string -> string, def: TableDef, v: Verb)
    ensures !HasTool(GeneratedTools(quoted, def)[..Position(v)], ToolName(v, def.tableName))
  {
    hide DescriptionOf;
    forall i | 0 <= i < Position(v) ensures GeneratedTools(quoted, def)[i].name != ToolName(v, def.tableName) {
      if ToolName(VERBS[i], def.tableName) == ToolName(v, def.tableName) {
        ToolNamesDisjoint(VERBS[i], def.tableName, v, def.tableName);
      }
    }
  }

  lemma SplitAt<T>(s: seq<T>, k: nat, rest: seq<T>)
    requires k <= |s|
    ensures s + rest == s[..k] + (s[k..] + rest)
  {
  }

  lemma DecideOwn(quoted: string -> string, def: TableDef, v: Verb, rest: seq<ToolConfig>)
    ensures Decide(ToolName(v, def.tableName), GeneratedTools(quoted, def) + rest) == if v == List then Allow
            else RequireConfirmation
  {
    var generated, k := GeneratedTools(quoted, def), Position(v);
    var tail := generated[k..] + rest;
    EarlierToolsDiffer(quoted, def, v);
    DecideSkips(ToolName(v, def.tableName), generated[..k], tail);
    SplitAt(generated, k, rest);
    assert tail[0] == GeneratedTool(quoted, def, v);
  }

  lemma {:induction false} DecideLive(quoted: string -> string, live: seq<TableDef>, table: string, v: Verb)
    ensures Decide(ToolName(v, table), ToolsOf(quoted, live))
            == if !IsLive(live, table) then Deny else if v == List then Allow else RequireConfirmation
  {
    var name := ToolName(v, table);
    if live != [] {
      var generated := GeneratedTools(quoted, live[0]);
      if live[0].tableName == table {
        assert IsLive(live, table);
        DecideOwn(quoted, live[0], v, ToolsOf(quoted, live[1..]));
      } else {
        forall i: nat | i < 4 ensures generated[i].name != name {
          OwnTools(quoted, live[0], table, i);
          assert VERBS[Position(v)] == v;
        }
        DecideSkips(name, generated, ToolsOf(quoted, live[1..]));
        DecideLive(quoted, live[1..], table, v);
        IsLiveFirst(live, table);
      }
    }
  }

  // The Tools a config can hold after any admin operations: initial ones and generated ones.
  predicate Generated(quoted: string -> string, tool: ToolConfig, def: TableDef, v: Verb) {
    tool == GeneratedTool(quoted, def, v)
  }

  ghost predicate Known(quoted: string -> string, initial: seq<ToolConfig>, tool: ToolConfig) {
    tool in initial || exists def, v :: Generated(quoted, tool, def, v)
  }

  ghost predicate AllKnown(quoted: string -> string, initial: seq<ToolConfig>, tools: seq<ToolConfig>) {
    forall tool :: tool in tools ==> Known(quoted, initial, tool)
  }

  lemma {:induction false} RemainingIsSome(tools: seq<ToolConfig>, table: string)
    ensures forall tool :: tool in Remaining(tools, table) ==> tool in tools
  {
    if tools != [] { RemainingIsSome(tools[1..], table); }
  }

  lemma AddedAreKnown(quoted: string -> string, initial: seq<ToolConfig>, tools: seq<ToolConfig>, def: TableDef)
    requires AllKnown(quoted, initial, tools)
    ensures AllKnown(quoted, initial, tools + NewTools(quoted, def))
  {
    forall tool | tool in NewTools(quoted, def) ensures Known(quoted, initial, tool) {
      var i :| 0 <= i < 4 && tool == GeneratedTools(quoted, def)[i];
      assert Generated(quoted, tool, def, VERBS[i]);
    }
  }

  lemma {:induction false} RunHoldsKnownTools(sql: SqlEngine.Sqlite, quoted: string -> string, initial: seq<ToolConfig>,
                                              ops: seq<AdminOp>)
    ensures AllKnown(quoted, initial, Run(sql, quoted, initial, ops).tools)
  {
    hide Known, GeneratedTools, Creates, Applied;
    if ops == [] {
      assert forall tool :: tool in initial ==> Known(quoted, initial, tool) by { InitialIsKnown(quoted, initial); }
    } else {
      var st, op := Run(sql, quoted, initial, ops[..|ops| - 1]), ops[|ops| - 1];
      RunHoldsKnownTools(sql, quoted, initial, ops[..|ops| - 1]);
      match op {
        case AddTable(def, _) => AddedAreKnown(quoted, initial, st.tools, def);
        case RemoveTable(table, _) => RemainingIsSome(st.tools, table);
        case Alter(_) =>
      }
    }
  }

  lemma InitialIsKnown(quoted: string -> string, initial: seq<ToolConfig>)
    ensures forall tool :: tool in initial ==> Known(quoted, initial, tool)
  {
  }

  // No known Tool bearing a writing name of the table is let run without a Confirmation.
  lemma {:induction false} WritesAreNeverAllowed(quoted: string -> string, initial: seq<ToolConfig>,
                                                 tools: seq<ToolConfig>, table: string, v: Verb)
    requires AllKnown(quoted, initial, tools) && !OwnsATool(initial, table) && v != List
    ensures Decide(ToolName(v, table), tools) != Allow
  {
    if tools != [] {
      var tool := tools[0];
      assert Known(quoted, initial, tool);
      if tool.name == ToolName(v, table) {
        NotAnInitialTool(initial, tool, table, v);
        var def, v' :| Generated(quoted, tool, def, v');
        ToolNamesDisjoint(v', def.tableName, v, table);
      } else {
        WritesAreNeverAllowed(quoted, initial, tools[1..], table, v);
      }
    }
  }

  lemma NotAnInitialTool(initial: seq<ToolConfig>, tool: ToolConfig, table: string, v: Verb)
    requires !OwnsATool(initial, table) && tool.name == ToolName(v, table)
    ensures tool !in initial
  {
    assert VERBS[Position(v)] == v;
    assert IsCrudName(table, tool.name);
  }

  // In every reachable state the Tool Rail lets a live plain table be listed, holds every write to it for a
  // Confirmation, and denies the Tools of a table that is gone.
  lemma RailOfGeneratedTools(sql: SqlEngine.Sqlite, quoted: string -> string, initial: seq<ToolConfig>,
                             ops: seq<AdminOp>, table: string, v: Verb)
    requires CleanRun(sql, quoted, initial, ops) && !OwnsATool(initial, table)
    ensures var st := Run(sql, quoted, initial, ops);
            Decide(ToolName(v, table), st.tools)
            == if table !in st.cat || st.cat[table].def.toolLinked.Some? then Deny else if v == List then Allow
              else RequireConfirmation
  {
    ToolsFollowTables(sql, quoted, initial, ops);
    var live := Live(sql, quoted, initial, ops);
    assert !HasTool(initial, ToolName(v, table)) by {
      assert VERBS[Position(v)] == v;
      assert IsCrudName(table, ToolName(v, table));
      assert forall i :: 0 <= i < |initial| ==> !IsCrudName(table, initial[i].name);
    }
    DecideSkips(ToolName(v, table), initial, ToolsOf(quoted, live));
    DecideLive(quoted, live, table, v);
    assert IsLive(live, table) <==>
           table in Run(sql, quoted, initial, ops).cat && Run(sql, quoted, initial, ops).cat[table].def.toolLinked
           == None;
  }
}
