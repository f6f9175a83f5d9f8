// Owner-defined tables as a plain map from table to map from row id to fields: what every repository
// operation means (entities/base.py, entities/sqlite_repository.py), and what every reachable state keeps.
module Entities {
  import opened Common
  import opened SqlEngine

  datatype ColumnType = TextColumn | NumberColumn | BooleanColumn

  datatype IdType = Uuid | AutoIncrement

  datatype ColumnDef = ColumnDef(name: string, ctype: ColumnType, required: bool)

  datatype TableDef = TableDef(tableName: string, displayName: string, columns: seq<ColumnDef>, idType: IdType,
                               toolLinked: Option<string>)

  // A field by column name.
  type Fields = map<string, Value>

  // `strict` are the columns that refuse NULL.
  datatype Entity = Entity(def: TableDef, strict: set<string>, rows: map<RowId, Fields>, lastId: nat)

  type Catalog = map<string, Entity>

  datatype Error =
    | InvalidConfig
    | InvalidToolLink
    | TableExists
    | UnknownTable
    | UnknownColumn
    | ColumnExists
    | SqlRefused

  /* ---------- Values in columns ---------- */

  function SqlTypeOf(c: ColumnType): SqlType {
    match c
    case TextColumn => TEXT
    case NumberColumn => REAL
    case BooleanColumn => INTEGER
  }

  function ToSql(c: ColumnType, v: Value): Value {
    if v == Null then Null
    else if c == BooleanColumn then Number(if Truthy(v) then 1.0 else 0.0)
    else v
  }

  function Decoded(c: ColumnType, cell: Cell): Value {
    match cell
    case NullCell => Null
    case TextCell(s) => if c == BooleanColumn then Truth(s != "") else Text(s)
    case NumberCell(r) => if c == BooleanColumn then Truth(r != 0.0) else Number(r)
  }

  // What a value reads back as once stored; None when it cannot be stored.
  function Kept(sql: Sqlite, c: ColumnType, v: Value): Option<Value> {
    match Converted(sql, SqlTypeOf(c), ToSql(c, v))
    case None => None
    case Some(cell) => Some(Decoded(c, cell))
  }

  // Storing what was read back changes nothing: booleans survive their integer encoding, and a value
  // the column converted stays converted.
  lemma KeptTwice(sql: Sqlite, c: ColumnType, v: Value)
    requires Kept(sql, c, v).Some?
    ensures Kept(sql, c, Kept(sql, c, v).value) == Kept(sql, c, v)
    ensures c == BooleanColumn && v != Null ==> Kept(sql, c, v) == Some(Truth(Truthy(v)))
    ensures Kept(sql, c, v).value == Null <==> v == Null
  {
  }

  // What reads back: values of the column's own type as they were; numbers and booleans in a text column as text,
  // numeric text and booleans in a number column as numbers, anything in a boolean column as its truth; structures only
  // there.
  lemma KeptExactly(sql: Sqlite, s: string, r: real, b: bool)
    ensures Kept(sql, TextColumn, Text(s)) == Some(Text(s))
    ensures Kept(sql, TextColumn, Number(r)) == Some(Text(sql.numberText(Number(r))))
    ensures Kept(sql, TextColumn, Truth(b)) == Some(Text(sql.numberText(Truth(b))))
    ensures Kept(sql, TextColumn, Structure(b)) == Kept(sql, NumberColumn, Structure(b)) == None
    ensures Kept(sql, NumberColumn, Number(r)) == Some(Number(r))
    ensures Kept(sql, NumberColumn, Truth(b)) == Some(Number(if b then 1.0 else 0.0))
    ensures Kept(sql, NumberColumn, Text(s))
            == Some(if sql.parseNumber(s).Some? then Number(sql.parseNumber(s).value) else Text(s))
    ensures Kept(sql, BooleanColumn, Truth(b)) == Kept(sql, BooleanColumn, Structure(b)) == Some(Truth(b))
    ensures Kept(sql, BooleanColumn, Number(r)) == Some(Truth(r != 0.0))
    ensures Kept(sql, BooleanColumn, Text(s)) == Some(Truth(s != ""))
    ensures forall c :: Kept(sql, c, Null) == Some(Null)
  {
  }

  function Get(row: Fields, name: string): Value { if name in row then row[name] else Null }

  // The fields a full-row write stores.
  function StoredFields(sql: Sqlite, columns: seq<ColumnDef>, row: Fields): Option<Fields> {
    if columns == [] then Some(map[])
    else
      var c := columns[|columns| - 1];
      var before, value := StoredFields(sql, columns[..|columns| - 1], row), Kept(sql, c.ctype, Get(row, c.name));
      if before == None || value == None then None else Some(before.value[c.name := value.value])
  }

  /* ---------- Names and links ---------- */

  predicate HasColumn(columns: seq<ColumnDef>, name: string) {
    exists i :: 0 <= i < |columns| && columns[i].name == name
  }

  function Physical(c: ColumnDef): Column {
    Column(c.name, SqlTypeOf(c.ctype), c.required)
  }

  function PhysicalColumns(columns: seq<ColumnDef>): seq<Column> {
    seq(|columns|, i requires 0 <= i < |columns| => Physical(columns[i]))
  }

  // The columns a chat-facing Tool needs of the table behind it.
  function RequiredColumns(tool: string): map<string, ColumnType> {
    if tool == "sqlite_menu" then
      map["name" := TextColumn, "category" := TextColumn, "price" := NumberColumn, "stock_quantity" := NumberColumn]
    else map[]
  }

  predicate Provides(columns: seq<ColumnDef>, name: string, ctype: ColumnType) {
    exists i :: 0 <= i < |columns| && columns[i].name == name && columns[i].ctype == ctype
                && forall j :: i < j < |columns| ==> columns[j].name != name
  }

  predicate ProvidesAll(columns: seq<ColumnDef>, required: map<string, ColumnType>) {
    forall name :: name in required ==> Provides(columns, name, required[name])
  }

  predicate MeetsLink(link: Option<string>, columns: seq<ColumnDef>) {
    link.Some? ==> ProvidesAll(columns, RequiredColumns(link.value))
  }

  predicate ClaimedIn(cat: Catalog, link: string) {
    exists name :: name in cat && cat[name].def.toolLinked == Some(link)
  }

  predicate IsLinkedColumn(def: TableDef, name: string) {
    def.toolLinked.Some? && name in RequiredColumns(def.toolLinked.value)
  }

  /* ---------- The operations ---------- */

  datatype Op =
    | CreateTable(def: TableDef)
    | DropTable(table: string)
    | AddColumn(table: string, column: ColumnDef)
    | RenameColumn(table: string, oldName: string, newName: string)
    | DropColumn(table: string, name: string)
    | UpsertRow(table: string, row: Fields, newId: string)
    | DeleteRow(table: string, id: Value)

  predicate ValidNames(sql: Sqlite, columns: seq<ColumnDef>) {
    forall i :: 0 <= i < |columns| ==> sql.validIdentifier(columns[i].name)
  }

  function CreateError(sql: Sqlite, cat: Catalog, def: TableDef): Option<Error> {
    if !sql.validIdentifier(def.tableName) || !ValidNames(sql, def.columns) then Some(InvalidConfig)
    else if HasColumn(def.columns, "id") then Some(InvalidConfig)
    else if !MeetsLink(def.toolLinked, def.columns) then Some(InvalidToolLink)
    else if def.toolLinked.Some? && ClaimedIn(cat, def.toolLinked.value) then Some(InvalidToolLink)
    else if def.tableName in cat then Some(TableExists)
    else if !AcceptsTable(sql, cat, def) then Some(SqlRefused)
    else None
  }

  predicate AcceptsTable(sql: Sqlite, cat: Catalog, def: TableDef) {
    && !sql.refusesTable(sql.ident(def.tableName))
    && (forall name :: name in cat ==> sql.ident(name) != sql.ident(def.tableName))
    && AcceptsColumns(sql, PhysicalColumns(def.columns))
  }

  function Created(def: TableDef): Entity {
    Entity(def, set c | c in def.columns && c.required :: c.name, map[], 0)
  }

  function AddError(sql: Sqlite, e: Entity, c: ColumnDef): Option<Error> {
    if !sql.validIdentifier(c.name) then Some(InvalidConfig)
    else if c.name == "id" || HasColumn(e.def.columns, c.name) then Some(ColumnExists)
    else if !AcceptsName(sql, PhysicalColumns(e.def.columns), c.name) then Some(SqlRefused)
    else None
  }

  // Every row gains a null field.
  function Added(e: Entity, c: ColumnDef): Entity {
    e.(def := e.def.(columns := e.def.columns + [c]), rows := map id | id in e.rows :: e.rows[id][c.name := Null])
  }

  // The position of a column by name.
  function IndexOf(columns: seq<ColumnDef>, name: string): (i: nat)
    requires HasColumn(columns, name)
    ensures i < |columns| && columns[i].name == name
  {
    if columns[|columns| - 1].name == name then |columns| - 1 else IndexOf(columns[..|columns| - 1], name)
  }

  function RenameError(sql: Sqlite, e: Entity, oldName: string, newName: string): Option<Error> {
    if !sql.validIdentifier(newName) then Some(InvalidConfig)
    else if !HasColumn(e.def.columns, oldName) then Some(UnknownColumn)
    else if newName != oldName && HasColumn(e.def.columns, newName) then Some(ColumnExists)
    else if IsLinkedColumn(e.def, oldName) then Some(InvalidToolLink)
    else if !AcceptsName(sql, PhysicalColumns(Without(e.def.columns, IndexOf(e.def.columns, oldName))), newName) then
      Some(SqlRefused)
    else None
  }

  function RenamedFields(row: Fields, oldName: string, newName: string): Fields {
    (row - {oldName})[newName := Get(row, oldName)]
  }

  // Every row keeps the value under the new name.
  function Renamed(e: Entity, oldName: string, newName: string): Entity
    requires HasColumn(e.def.columns, oldName)
  {
    var i := IndexOf(e.def.columns, oldName);
    e.(def := e.def.(columns := e.def.columns[i := e.def.columns[i].(name := newName)]),
       strict := if oldName in e.strict then e.strict - {oldName} + {newName} else e.strict,
       rows := map id | id in e.rows :: RenamedFields(e.rows[id], oldName, newName))
  }

  function DropColumnError(e: Entity, name: string): Option<Error> {
    if !HasColumn(e.def.columns, name) then Some(UnknownColumn)
    else if IsLinkedColumn(e.def, name) then Some(InvalidToolLink)
    else None
  }

  // Every row forgets exactly that field.
  function ColumnDropped(e: Entity, name: string): Entity
    requires HasColumn(e.def.columns, name)
  {
    e.(def := e.def.(columns := Without(e.def.columns, IndexOf(e.def.columns, name))),
       strict := e.strict - {name},
       rows := map id | id in e.rows :: e.rows[id] - {name})
  }

  predicate GeneratesId(e: Entity, row: Fields) {
    Get(row, "id") == Null && e.def.idType == AutoIncrement
  }

  // The id a row is stored under; None when SQLite refuses it.
  function UpsertId(sql: Sqlite, e: Entity, row: Fields, newId: string): Option<RowId> {
    if GeneratesId(e, row) then Some(IntId(e.lastId + 1))
    else
      IdOf(sql, e.def.idType == AutoIncrement, if Truthy(Get(row, "id")) then Get(row, "id") else Text(newId))
  }

  function UpsertError(sql: Sqlite, e: Entity, row: Fields, newId: string): Option<Error> {
    var fields := StoredFields(sql, e.def.columns, row);
    if e.def.columns == [] || UpsertId(sql, e, row, newId) == None || fields == None then Some(SqlRefused)
    else if exists name :: name in e.strict && Get(fields.value, name) == Null then Some(SqlRefused)
    else None
  }

  function Upserted(sql: Sqlite, e: Entity, row: Fields, newId: string): Entity
    requires UpsertError(sql, e, row, newId) == None
  {
    var id := UpsertId(sql, e, row, newId).value;
    e.(rows := e.rows[id := StoredFields(sql, e.def.columns, row).value],
       lastId := if id.IntId? && id.n > e.lastId then id.n else e.lastId)
  }

  // Looking up an id the column cannot hold finds nothing.
  function LookupId(sql: Sqlite, e: Entity, id: Value): Option<RowId> {
    IdOf(sql, e.def.idType == AutoIncrement, id)
  }

  function RowDeleted(sql: Sqlite, e: Entity, id: Value): Entity {
    var key := LookupId(sql, e, id);
    if key == None then e else e.(rows := e.rows - {key.value})
  }

  function OnCreate(sql: Sqlite, cat: Catalog, def: TableDef): Result<Catalog, Error> {
    var error := CreateError(sql, cat, def);
    if error.Some? then Failure(error.value) else Success(cat[def.tableName := Created(def)])
  }

  function OnDrop(cat: Catalog, table: string): Result<Catalog, Error> {
    if table !in cat then Failure(UnknownTable) else Success(cat - {table})
  }

  function OnAdd(sql: Sqlite, cat: Catalog, table: string, c: ColumnDef): Result<Catalog, Error> {
    if table !in cat then Failure(UnknownTable)
    else
      var error := AddError(sql, cat[table], c);
      if error.Some? then Failure(error.value) else Success(cat[table := Added(cat[table], c)])
  }

  function OnRename(sql: Sqlite, cat: Catalog, table: string, oldName: string,
                    newName: string): Result<Catalog, Error> {
    if table !in cat then Failure(UnknownTable)
    else
      var error := RenameError(sql, cat[table], oldName, newName);
      if error.Some? then Failure(error.value) else Success(cat[table := Renamed(cat[table], oldName, newName)])
  }

  function OnDropColumn(cat: Catalog, table: string, name: string): Result<Catalog, Error> {
    if table !in cat then Failure(UnknownTable)
    else
      var error := DropColumnError(cat[table], name);
      if error.Some? then Failure(error.value) else Success(cat[table := ColumnDropped(cat[table], name)])
  }

  function OnUpsert(sql: Sqlite, cat: Catalog, table: string, row: Fields, newId: string): Result<Catalog, Error> {
    if table !in cat then Failure(UnknownTable)
    else
      var error := UpsertError(sql, cat[table], row, newId);
      if error.Some? then Failure(error.value) else Success(cat[table := Upserted(sql, cat[table], row, newId)])
  }

  function OnDeleteRow(sql: Sqlite, cat: Catalog, table: string, id: Value): Result<Catalog, Error> {
    if table !in cat then Failure(UnknownTable)
    else if id.Structure? then Failure(SqlRefused)
    else Success(cat[table := RowDeleted(sql, cat[table], id)])
  }

  function Applied(sql: Sqlite, cat: Catalog, op: Op): Result<Catalog, Error> {
    match op
    case CreateTable(def) => OnCreate(sql, cat, def)
    case DropTable(table) => OnDrop(cat, table)
    case AddColumn(table, c) => OnAdd(sql, cat, table, c)
    case RenameColumn(table, oldName, newName) => OnRename(sql, cat, table, oldName, newName)
    case DropColumn(table, name) => OnDropColumn(cat, table, name)
    case UpsertRow(table, row, newId) => OnUpsert(sql, cat, table, row, newId)
    case DeleteRow(table, id) => OnDeleteRow(sql, cat, table, id)
  }

  /* ---------- What every reachable catalog keeps ---------- */

  predicate SoundColumns(sql: Sqlite, columns: seq<ColumnDef>) {
    && (forall i :: 0 <= i < |columns| ==>
        sql.validIdentifier(columns[i].name) && sql.ident(columns[i].name) != sql.ident("id"))
    && (forall i, j :: 0 <= i < j < |columns| ==> sql.ident(columns[i].name) != sql.ident(columns[j].name))
  }

  // A row has exactly the table's columns, each holding a value the column keeps as it is.
  ghost predicate SoundRow(sql: Sqlite, columns: seq<ColumnDef>, row: Fields) {
    && (forall name :: name in row <==> HasColumn(columns, name))
    && forall i :: 0 <= i < |columns| ==> KeptAsIs(sql, columns[i], row)
  }

  predicate KeptAsIs(sql: Sqlite, c: ColumnDef, row: Fields) {
    c.name in row && Kept(sql, c.ctype, row[c.name]) == Some(row[c.name])
  }

  predicate SoundId(idType: IdType, lastId: nat, id: RowId) {
    match id
    case TextId(_) => idType == Uuid
    case IntId(n) => idType == AutoIncrement && n <= lastId
  }

  ghost predicate SoundEntity(sql: Sqlite, e: Entity) {
    && SoundColumns(sql, e.def.columns)
    && MeetsLink(e.def.toolLinked, e.def.columns)
    && (forall id :: id in e.rows ==> SoundRow(sql, e.def.columns, e.rows[id]) && SoundId(e.def.idType, e.lastId, id))
  }

  predicate SameLink(a: TableDef, b: TableDef) {
    a.toolLinked.Some? && a.toolLinked == b.toolLinked
  }

  ghost predicate SoundCatalog(sql: Sqlite, cat: Catalog) {
    && (forall name :: name in cat ==>
        cat[name].def.tableName == name && sql.validIdentifier(name) && SoundEntity(sql, cat[name]))
    && (forall a, b :: a in cat && b in cat && a != b ==> sql.ident(a) != sql.ident(b))
    && (forall a, b :: a in cat && b in cat && SameLink(cat[a].def, cat[b].def) ==> a == b)
  }

  function Skip(i: nat, j: nat): nat { if j < i then j else j + 1 }

  lemma WithoutAt<T>(s: seq<T>, i: nat)
    requires i < |s|
    ensures |Without(s, i)| == |s| - 1 && forall j :: 0 <= j < |s| - 1 ==> Without(s, i)[j] == s[Skip(i, j)]
  {
  }

  lemma WithoutHas<T>(s: seq<T>, i: nat, k: nat)
    requires i < |s| && k < |s| && k != i
    ensures var j := if k < i then k else k - 1; j < |Without(s, i)| && Without(s, i)[j] == s[k] && Skip(i, j) == k
  {
  }

  lemma SoundWithout(sql: Sqlite, columns: seq<ColumnDef>, i: nat)
    requires i < |columns| && SoundColumns(sql, columns)
    ensures SoundColumns(sql, Without(columns, i))
  {
    WithoutAt(columns, i);
  }

  lemma HasColumnWithout(sql: Sqlite, columns: seq<ColumnDef>, i: nat, name: string)
    requires i < |columns| && SoundColumns(sql, columns)
    ensures HasColumn(Without(columns, i), name) <==> HasColumn(columns, name) && name != columns[i].name
  {
    WithoutAt(columns, i);
    if k :| 0 <= k < |columns| && columns[k].name == name && k != i {
      WithoutHas(columns, i, k);
    }
    if j :| 0 <= j < |columns| - 1 && Without(columns, i)[j].name == name {
      assert columns[Skip(i, j)].name == name && Skip(i, j) != i;
    }
  }

  lemma HasColumnAfter(columns: seq<ColumnDef>, c: ColumnDef, name: string)
    ensures HasColumn(columns + [c], name) <==> HasColumn(columns, name) || name == c.name
  {
    var columns' := columns + [c];
    assert columns'[|columns|] == c;
    if i :| 0 <= i < |columns| && columns[i].name == name {
      assert columns'[i].name == name;
    }
  }

  lemma HasColumnRenamed(sql: Sqlite, columns: seq<ColumnDef>, i: nat, c: ColumnDef, name: string)
    requires i < |columns| && SoundColumns(sql, columns)
    ensures HasColumn(columns[i := c], name) <==>
            name == c.name || (HasColumn(columns, name) && name != columns[i].name)
  {
    var columns' := columns[i := c];
    assert columns'[i] == c;
    if k :| 0 <= k < |columns| && columns[k].name == name && k != i {
      assert columns'[k].name == name;
    }
  }

  lemma CreatedIsSound(sql: Sqlite, cat: Catalog, def: TableDef)
    requires CreateError(sql, cat, def) == None
    ensures SoundEntity(sql, Created(def))
  {
    var columns := PhysicalColumns(def.columns);
    forall i | 0 <= i < |def.columns|
      ensures sql.ident(def.columns[i].name) != sql.ident("id")
      ensures forall j :: 0 <= j < i ==> sql.ident(def.columns[j].name) != sql.ident(def.columns[i].name)
    {
      assert AcceptsName(sql, columns[..i], columns[i].name);
      forall j | 0 <= j < i ensures sql.ident(def.columns[j].name) != sql.ident(def.columns[i].name) {
        assert columns[..i][j] == columns[j];
      }
    }
  }

  lemma AcceptedIsDistinct(sql: Sqlite, columns: seq<ColumnDef>, name: string)
    requires AcceptsName(sql, PhysicalColumns(columns), name)
    ensures forall i :: 0 <= i < |columns| ==> sql.ident(columns[i].name) != sql.ident(name)
  {
    forall i | 0 <= i < |columns| ensures sql.ident(columns[i].name) != sql.ident(name) {
      assert PhysicalColumns(columns)[i].name == columns[i].name;
    }
  }

  /* Adding a column */

  lemma AddedRow(sql: Sqlite, columns: seq<ColumnDef>, c: ColumnDef, row: Fields, v: Value)
    requires SoundRow(sql, columns, row) && !HasColumn(columns, c.name) && Kept(sql, c.ctype, v) == Some(v)
    ensures SoundRow(sql, columns + [c], row[c.name := v])
  {
    var columns', row' := columns + [c], row[c.name := v];
    forall name ensures name in row' <==> HasColumn(columns', name) {
      HasColumnAfter(columns, c, name);
    }
    forall i | 0 <= i < |columns'| ensures KeptAsIs(sql, columns'[i], row') {
      if i < |columns| {
        assert KeptAsIs(sql, columns[i], row) && columns[i].name != c.name;
      }
    }
  }

  lemma AddedLink(columns: seq<ColumnDef>, c: ColumnDef, required: map<string, ColumnType>)
    requires ProvidesAll(columns, required) && !HasColumn(columns, c.name)
    ensures ProvidesAll(columns + [c], required)
  {
    forall name | name in required ensures Provides(columns + [c], name, required[name]) {
      var i :| 0 <= i < |columns| && columns[i].name == name && columns[i].ctype == required[name]
               && forall j :: i < j < |columns| ==> columns[j].name != name;
      assert (columns + [c])[i] == columns[i];
    }
  }

  lemma AddedIsSound(sql: Sqlite, e: Entity, c: ColumnDef)
    requires SoundEntity(sql, e) && AddError(sql, e, c) == None
    ensures SoundEntity(sql, Added(e, c))
  {
    AcceptedIsDistinct(sql, e.def.columns, c.name);
    forall id | id in e.rows
      ensures SoundRow(sql, e.def.columns + [c], e.rows[id][c.name := Null])
    {
      AddedRow(sql, e.def.columns, c, e.rows[id], Null);
    }
    if e.def.toolLinked.Some? {
      AddedLink(e.def.columns, c, RequiredColumns(e.def.toolLinked.value));
    }
  }

  /* Dropping a column */

  lemma DroppedRow(sql: Sqlite, columns: seq<ColumnDef>, i: nat, row: Fields)
    requires SoundColumns(sql, columns) && i < |columns| && SoundRow(sql, columns, row)
    ensures SoundRow(sql, Without(columns, i), row - {columns[i].name})
  {
    var less, row' := Without(columns, i), row - {columns[i].name};
    WithoutAt(columns, i);
    forall name ensures name in row' <==> HasColumn(less, name) {
      HasColumnWithout(sql, columns, i, name);
    }
    forall j | 0 <= j < |less| ensures KeptAsIs(sql, less[j], row') {
      assert KeptAsIs(sql, columns[Skip(i, j)], row);
    }
  }

  lemma DroppedLink(sql: Sqlite, columns: seq<ColumnDef>, i: nat, required: map<string, ColumnType>)
    requires SoundColumns(sql, columns) && i < |columns| && ProvidesAll(columns, required)
             && columns[i].name !in required
    ensures ProvidesAll(Without(columns, i), required)
  {
    SoundWithout(sql, columns, i);
    forall name | name in required ensures Provides(Without(columns, i), name, required[name]) {
      var k :| 0 <= k < |columns| && columns[k].name == name && columns[k].ctype == required[name];
      WithoutHas(columns, i, k);
      SoundProvides(sql, Without(columns, i), if k < i then k else k - 1);
    }
  }

  // Names are distinct, so having a column is providing it.
  lemma SoundProvides(sql: Sqlite, columns: seq<ColumnDef>, i: nat)
    requires SoundColumns(sql, columns) && i < |columns|
    ensures Provides(columns, columns[i].name, columns[i].ctype)
  {
  }

  lemma ColumnDroppedIsSound(sql: Sqlite, e: Entity, name: string)
    requires SoundEntity(sql, e) && DropColumnError(e, name) == None
    ensures SoundEntity(sql, ColumnDropped(e, name))
  {
    var columns, i := e.def.columns, IndexOf(e.def.columns, name);
    SoundWithout(sql, columns, i);
    forall id | id in e.rows
      ensures SoundRow(sql, Without(columns, i), e.rows[id] - {name})
    {
      DroppedRow(sql, columns, i, e.rows[id]);
    }
    if e.def.toolLinked.Some? {
      DroppedLink(sql, columns, i, RequiredColumns(e.def.toolLinked.value));
    }
  }

  /* Renaming a column */

  lemma RenamedColumns(sql: Sqlite, columns: seq<ColumnDef>, i: nat, newName: string)
    requires SoundColumns(sql, columns) && i < |columns| && sql.validIdentifier(newName)
    requires AcceptsName(sql, PhysicalColumns(Without(columns, i)), newName)
    ensures SoundColumns(sql, columns[i := columns[i].(name := newName)])
    ensures forall j :: 0 <= j < |columns| && j != i ==> columns[j].name != newName
  {
    var less := Without(columns, i);
    AcceptedIsDistinct(sql, less, newName);
    forall j | 0 <= j < |columns| && j != i
      ensures sql.ident(columns[j].name) != sql.ident(newName)
    {
      WithoutHas(columns, i, j);
    }
  }

  lemma RenamedRow(sql: Sqlite, columns: seq<ColumnDef>, i: nat, newName: string, row: Fields)
    requires SoundColumns(sql, columns) && i < |columns| && SoundRow(sql, columns, row)
    requires forall j :: 0 <= j < |columns| && j != i ==> columns[j].name != newName
    ensures SoundRow(sql, columns[i := columns[i].(name := newName)], RenamedFields(row, columns[i].name, newName))
  {
    var c, oldName := columns[i].(name := newName), columns[i].name;
    var columns', row' := columns[i := c], RenamedFields(row, oldName, newName);
    forall name ensures name in row' <==> HasColumn(columns', name) {
      HasColumnRenamed(sql, columns, i, c, name);
    }
    assert KeptAsIs(sql, columns[i], row);
    forall j | 0 <= j < |columns'| ensures KeptAsIs(sql, columns'[j], row') {
      assert KeptAsIs(sql, columns[j], row);
      if j != i { assert columns[j].name != oldName; }
    }
  }

  lemma RenamedLink(sql: Sqlite, columns: seq<ColumnDef>, i: nat, c: ColumnDef, required: map<string, ColumnType>)
    requires i < |columns| && SoundColumns(sql, columns[i := c])
    requires ProvidesAll(columns, required) && columns[i].name !in required
    ensures ProvidesAll(columns[i := c], required)
  {
    forall name | name in required ensures Provides(columns[i := c], name, required[name]) {
      var k :| 0 <= k < |columns| && columns[k].name == name && columns[k].ctype == required[name];
      assert columns[i := c][k] == columns[k];
      SoundProvides(sql, columns[i := c], k);
    }
  }

  lemma RenamedIsSound(sql: Sqlite, e: Entity, oldName: string, newName: string)
    requires SoundEntity(sql, e) && RenameError(sql, e, oldName, newName) == None
    ensures SoundEntity(sql, Renamed(e, oldName, newName))
  {
    var columns, i := e.def.columns, IndexOf(e.def.columns, oldName);
    RenamedColumns(sql, columns, i, newName);
    forall id | id in e.rows
      ensures SoundRow(sql, columns[i := columns[i].(name := newName)], RenamedFields(e.rows[id], oldName, newName))
    {
      RenamedRow(sql, columns, i, newName, e.rows[id]);
    }
    if e.def.toolLinked.Some? {
      RenamedLink(sql, columns, i, columns[i].(name := newName), RequiredColumns(e.def.toolLinked.value));
    }
  }

  /* Writing a row */

  lemma LastNameIsNew(sql: Sqlite, columns: seq<ColumnDef>)
    requires SoundColumns(sql, columns) && columns != []
    ensures !HasColumn(columns[..|columns| - 1], columns[|columns| - 1].name)
  {
    var n := |columns| - 1;
    forall i | 0 <= i < n ensures columns[..n][i].name != columns[n].name {
      assert sql.ident(columns[i].name) != sql.ident(columns[n].name);
    }
  }

  lemma {:induction false} StoredFieldsAreSound(sql: Sqlite, columns: seq<ColumnDef>, row: Fields)
    requires SoundColumns(sql, columns) && StoredFields(sql, columns, row).Some?
    ensures SoundRow(sql, columns, StoredFields(sql, columns, row).value)
  {
    if columns != [] {
      var n := |columns| - 1;
      var before, c := columns[..n], columns[n];
      StoredFieldsAreSound(sql, before, row);
      KeptTwice(sql, c.ctype, Get(row, c.name));
      assert columns == before + [c];
      LastNameIsNew(sql, columns);
      AddedRow(sql, before, c, StoredFields(sql, before, row).value, Kept(sql, c.ctype, Get(row, c.name)).value);
    }
  }

  // A full-row write stores, in every column, what the column keeps of the row's value there.
  lemma {:induction false} StoredFieldsAreTheRow(sql: Sqlite, columns: seq<ColumnDef>, row: Fields, i: nat)
    requires SoundColumns(sql, columns) && StoredFields(sql, columns, row).Some? && i < |columns|
    ensures columns[i].name in StoredFields(sql, columns, row).value
    ensures Kept(sql, columns[i].ctype, Get(row, columns[i].name))
            == Some(StoredFields(sql, columns, row).value[columns[i].name])
  {
    var n := |columns| - 1;
    if i < n {
      assert columns[..n][i] == columns[i] && columns[i].name != columns[n].name;
      StoredFieldsAreTheRow(sql, columns[..n], row, i);
    }
  }

  lemma UpsertedIsSound(sql: Sqlite, e: Entity, row: Fields, newId: string)
    requires SoundEntity(sql, e) && UpsertError(sql, e, row, newId) == None
    ensures SoundEntity(sql, Upserted(sql, e, row, newId))
  {
    StoredFieldsAreSound(sql, e.def.columns, row);
    UpsertIdFits(sql, e, row, newId);
    var e', stored := Upserted(sql, e, row, newId), UpsertId(sql, e, row, newId).value;
    forall id | id in e'.rows
      ensures SoundRow(sql, e'.def.columns, e'.rows[id]) && SoundId(e'.def.idType, e'.lastId, id)
    {
      if id != stored {
        assert SoundId(e.def.idType, e.lastId, id);
      }
    }
  }

  lemma UpsertIdFits(sql: Sqlite, e: Entity, row: Fields, newId: string)
    requires UpsertError(sql, e, row, newId) == None
    ensures var e' := Upserted(sql, e, row, newId);
            e'.lastId >= e.lastId && SoundId(e.def.idType, e'.lastId, UpsertId(sql, e, row, newId).value)
  {
  }

  lemma ChangedTableIsSound(sql: Sqlite, cat: Catalog, table: string, e: Entity)
    requires SoundCatalog(sql, cat) && table in cat && SoundEntity(sql, e)
    requires e.def.tableName == table && e.def.toolLinked == cat[table].def.toolLinked
    ensures SoundCatalog(sql, cat[table := e])
  {
  }

  lemma NewTableIsSound(sql: Sqlite, cat: Catalog, def: TableDef)
    requires SoundCatalog(sql, cat) && CreateError(sql, cat, def) == None
    ensures SoundCatalog(sql, cat[def.tableName := Created(def)])
  {
    CreatedIsSound(sql, cat, def);
    if def.toolLinked.Some? {
      assert !ClaimedIn(cat, def.toolLinked.value);
    }
  }

  // Every operation keeps every reachable state sound: each tool link is claimed by at most one table, a linked
  // table keeps its required columns with their types, and every row has exactly its table's columns.
  lemma AppliedIsSound(sql: Sqlite, cat: Catalog, op: Op)
    requires SoundCatalog(sql, cat) && Applied(sql, cat, op).Success?
    ensures SoundCatalog(sql, Applied(sql, cat, op).value)
  {
    match op {
      case CreateTable(def) =>
        NewTableIsSound(sql, cat, def);
      case AddColumn(table, c) =>
        AddedIsSound(sql, cat[table], c);
        ChangedTableIsSound(sql, cat, table, Added(cat[table], c));
      case RenameColumn(table, oldName, newName) =>
        RenamedIsSound(sql, cat[table], oldName, newName);
        ChangedTableIsSound(sql, cat, table, Renamed(cat[table], oldName, newName));
      case DropColumn(table, name) =>
        ColumnDroppedIsSound(sql, cat[table], name);
        ChangedTableIsSound(sql, cat, table, ColumnDropped(cat[table], name));
      case UpsertRow(table, row, newId) =>
        UpsertedIsSound(sql, cat[table], row, newId);
        ChangedTableIsSound(sql, cat, table, Upserted(sql, cat[table], row, newId));
      case DropTable(_) =>
      case DeleteRow(table, id) =>
        ChangedTableIsSound(sql, cat, table, RowDeleted(sql, cat[table], id));
    }
  }

  /* ---------- Runs ---------- */

  // The catalog after a run of operations; a failed one changes nothing.
  function After(sql: Sqlite, ops: seq<Op>): Catalog {
    if ops == [] then map[]
    else
      var before := After(sql, ops[..|ops| - 1]);
      var result := Applied(sql, before, ops[|ops| - 1]);
      if result.Success? then result.value else before
  }

  lemma {:induction false} ReachableIsSound(sql: Sqlite, ops: seq<Op>)
    ensures SoundCatalog(sql, After(sql, ops))
  {
    if ops != [] {
      ReachableIsSound(sql, ops[..|ops| - 1]);
      var before, op := After(sql, ops[..|ops| - 1]), ops[|ops| - 1];
      if Applied(sql, before, op).Success? { AppliedIsSound(sql, before, op); }
    }
  }

  // An operation on one table leaves every other table untouched.
  lemma OtherTablesUntouched(sql: Sqlite, cat: Catalog, op: Op, other: string)
    requires Applied(sql, cat, op).Success?
    requires other != if op.CreateTable? then op.def.tableName else op.table
    ensures var cat' := Applied(sql, cat, op).value;
            (other in cat' <==> other in cat) && (other in cat ==> cat'[other] == cat[other])
  {
  }

  lemma SameRows(a: map<RowId, Fields>, b: map<RowId, Fields>)
    requires a.Keys == b.Keys && forall id :: id in a ==> a[id] == b[id]
    ensures a == b
  {
  }

  // Dropping a column just added, and renaming a column back, restore every row.
  lemma AddThenDrop(sql: Sqlite, e: Entity, c: ColumnDef)
    requires SoundEntity(sql, e) && AddError(sql, e, c) == None && !IsLinkedColumn(e.def, c.name)
    ensures DropColumnError(Added(e, c), c.name) == None
    ensures ColumnDropped(Added(e, c), c.name).rows == e.rows && ColumnDropped(Added(e, c), c.name).def == e.def
  {
    AddThenDropColumns(e.def.columns, c);
    forall id | id in e.rows
      ensures c.name !in e.rows[id]
    {
      assert SoundRow(sql, e.def.columns, e.rows[id]);
    }
    AddThenDropRows(e.rows, c.name);
  }

  lemma AddThenDropRows(rows: map<RowId, Fields>, name: string)
    requires forall id :: id in rows ==> name !in rows[id]
    ensures var added := map id | id in rows :: rows[id][name := Null];
            (map id | id in added :: added[id] - {name}) == rows
  {
    forall id | id in rows
      ensures rows[id][name := Null] - {name} == rows[id]
    {
    }
  }

  lemma AddThenDropColumns(columns: seq<ColumnDef>, c: ColumnDef)
    requires !HasColumn(columns, c.name)
    ensures HasColumn(columns + [c], c.name)
    ensures Without(columns + [c], IndexOf(columns + [c], c.name)) == columns
  {
    var columns' := columns + [c];
    assert columns'[|columns|] == c;
    assert Without(columns', |columns|) == columns;
  }

  lemma RenameBackRow(sql: Sqlite, columns: seq<ColumnDef>, row: Fields, oldName: string, newName: string)
    requires SoundRow(sql, columns, row) && HasColumn(columns, oldName)
             && (newName == oldName || !HasColumn(columns, newName))
    ensures RenamedFields(RenamedFields(row, oldName, newName), newName, oldName) == row
  {
    assert oldName in row && (newName == oldName || newName !in row);
  }

  lemma RenameThereAndBack(sql: Sqlite, e: Entity, oldName: string, newName: string)
    requires SoundEntity(sql, e) && RenameError(sql, e, oldName, newName) == None
    ensures HasColumn(Renamed(e, oldName, newName).def.columns, newName)
    ensures Renamed(Renamed(e, oldName, newName), newName, oldName).rows == e.rows
    ensures Renamed(Renamed(e, oldName, newName), newName, oldName).def == e.def
  {
    var columns, i := e.def.columns, IndexOf(e.def.columns, oldName);
    RenameBackColumns(sql, columns, i, oldName, newName);
    forall id | id in e.rows
      ensures RenamedFields(RenamedFields(e.rows[id], oldName, newName), newName, oldName) == e.rows[id]
    {
      RenameBackRow(sql, columns, e.rows[id], oldName, newName);
    }
    SameRows(Renamed(Renamed(e, oldName, newName), newName, oldName).rows, e.rows);
  }

  lemma RenameBackColumns(sql: Sqlite, columns: seq<ColumnDef>, i: nat, oldName: string, newName: string)
    requires SoundColumns(sql, columns) && i < |columns| && columns[i].name == oldName && sql.validIdentifier(newName)
    requires AcceptsName(sql, PhysicalColumns(Without(columns, i)), newName)
    ensures var columns' := columns[i := columns[i].(name := newName)];
            HasColumn(columns', newName) && IndexOf(columns', newName) == i
              && columns'[i := columns'[i].(name := oldName)] == columns
  {
    RenamedColumns(sql, columns, i, newName);
    var columns' := columns[i := columns[i].(name := newName)];
    assert columns'[i].name == newName;
    var k := IndexOf(columns', newName);
    assert k == i;
  }

  // How the fields of a row move under an alteration: the added one is null, the renamed one keeps its value, the
  // dropped one is gone, and every other stays.
  predicate FieldsMoved(op: Op, row: Fields, row': Fields)
    requires op.AddColumn? || op.RenameColumn? || op.DropColumn?
  {
    match op
    case AddColumn(_, c) =>
      row'.Keys == row.Keys + {c.name} && row'[c.name] == Null && forall name :: name in row ==> row'[name] == row[name]
    case RenameColumn(_, oldName, newName) =>
      && oldName in row && row'.Keys == row.Keys - {oldName} + {newName} && row'[newName] == row[oldName]
      && forall name :: name in row && name != oldName ==> row'[name] == row[name]
    case DropColumn(_, dropped) =>
      && dropped in row && row'.Keys == row.Keys - {dropped}
      && forall name :: name in row && name != dropped ==> row'[name] == row[name]
  }

  // The same columns in the same order, but for the one added at the end, renamed in its place or dropped.
  predicate ColumnsMoved(op: Op, columns: seq<ColumnDef>, columns': seq<ColumnDef>)
    requires op.AddColumn? || op.RenameColumn? || op.DropColumn?
  {
    match op
    case AddColumn(_, c) => columns' == columns + [c]
    case RenameColumn(_, oldName, newName) =>
      && |columns'| == |columns|
      && forall i :: 0 <= i < |columns| ==>
           columns'[i] == if columns[i].name == oldName then columns[i].(name := newName) else columns[i]
    case DropColumn(_, dropped) =>
      exists i :: 0 <= i < |columns| && columns[i].name == dropped && columns' == columns[..i] + columns[i + 1..]
  }

  lemma AddedMoves(sql: Sqlite, columns: seq<ColumnDef>, row: Fields, op: Op)
    requires op.AddColumn? && SoundRow(sql, columns, row) && !HasColumn(columns, op.column.name)
    ensures FieldsMoved(op, row, row[op.column.name := Null])
  {
  }

  lemma RenamedMoves(sql: Sqlite, columns: seq<ColumnDef>, row: Fields, op: Op)
    requires op.RenameColumn? && SoundRow(sql, columns, row) && HasColumn(columns, op.oldName)
    requires op.newName == op.oldName || !HasColumn(columns, op.newName)
    ensures FieldsMoved(op, row, RenamedFields(row, op.oldName, op.newName))
  {
    assert op.oldName in row && (op.newName == op.oldName || op.newName !in row);
  }

  lemma RenamedColumnsMove(sql: Sqlite, columns: seq<ColumnDef>, op: Op)
    requires op.RenameColumn? && SoundColumns(sql, columns) && HasColumn(columns, op.oldName)
    ensures var i := IndexOf(columns, op.oldName);
            ColumnsMoved(op, columns, columns[i := columns[i].(name := op.newName)])
  {
  }

  // An alteration that goes through alters its one table, and there the columns and every row alike; no row comes,
  // goes or changes its id.
  lemma AlterationMoves(sql: Sqlite, cat: Catalog, op: Op, table: string)
    requires SoundCatalog(sql, cat) && Applied(sql, cat, op).Success?
    requires (op.AddColumn? || op.RenameColumn? || op.DropColumn?) && op.table == table
    ensures var cat' := Applied(sql, cat, op).value;
            && table in cat && cat' == cat[table := cat'[table]]
            && ColumnsMoved(op, cat[table].def.columns, cat'[table].def.columns)
            && cat'[table].def == cat[table].def.(columns := cat'[table].def.columns)
            && cat'[table].lastId == cat[table].lastId && cat'[table].rows.Keys == cat[table].rows.Keys
            && forall id :: id in cat[table].rows ==> FieldsMoved(op, cat[table].rows[id], cat'[table].rows[id])
  {
    hide SoundRow, SoundColumns, FieldsMoved, HasColumn, AcceptsName, RenamedFields, MeetsLink, SoundId;
    var e := cat[table];
    forall id | id in e.rows ensures FieldsMoved(op, e.rows[id], Applied(sql, cat, op).value[table].rows[id]) {
      match op {
        case AddColumn(_, c) => AddedMoves(sql, e.def.columns, e.rows[id], op);
        case RenameColumn(_, _, _) => RenamedMoves(sql, e.def.columns, e.rows[id], op);
        case DropColumn(_, name) => DroppedMoves(sql, e.def.columns, e.rows[id], op);
      }
    }
    if op.RenameColumn? { RenamedColumnsMove(sql, e.def.columns, op); }
  }

  lemma DroppedMoves(sql: Sqlite, columns: seq<ColumnDef>, row: Fields, op: Op)
    requires op.DropColumn? && SoundRow(sql, columns, row) && HasColumn(columns, op.name)
    ensures FieldsMoved(op, row, row - {op.name})
  {
  }

  /* ---------- Row ids ---------- */

  // The id a row goes under: the next number of the sequence when an AUTOINCREMENT table is given none, the id it is
  // given when that is truthy, else the generated one; a text key holds any text, an integer key integers alone.
  lemma IdsExactly(sql: Sqlite, e: Entity, row: Fields, newId: string, n: int)
    ensures var id := if "id" in row then row["id"] else Null;
            UpsertId(sql, e, row, newId)
            == if id == Null && e.def.idType == AutoIncrement then Some(IntId(e.lastId + 1))
               else LookupId(sql, e, if Truthy(id) then id else Text(newId))
    ensures e.def.idType == Uuid ==> LookupId(sql, e, Text(newId)) == Some(TextId(newId))
    ensures e.def.idType == AutoIncrement ==>
              LookupId(sql, e, Number(n as real)) == Some(IntId(n))
              && (sql.parseNumber(newId) == None ==> LookupId(sql, e, Text(newId)) == None)
              && (sql.parseNumber(newId) == Some(n as real) ==> LookupId(sql, e, Text(newId)) == Some(IntId(n)))
  {
  }

  ghost predicate SequenceKept(cat: Catalog, cat': Catalog, table: string) {
    table in cat && table in cat' && cat[table].def.idType == cat'[table].def.idType
    && cat[table].lastId <= cat'[table].lastId
  }

  lemma SequenceStep(sql: Sqlite, cat: Catalog, op: Op, table: string)
    requires Applied(sql, cat, op).Success? && table in cat && op != DropTable(table)
    ensures SequenceKept(cat, Applied(sql, cat, op).value, table)
  {
  }

  lemma {:induction false} SequenceGrows(sql: Sqlite, ops: seq<Op>, k: nat, n: nat, table: string)
    requires k <= n <= |ops| && table in After(sql, ops[..k])
    requires forall j :: k <= j < n ==> ops[j] != DropTable(table)
    ensures SequenceKept(After(sql, ops[..k]), After(sql, ops[..n]), table)
  {
    hide Applied;
    if k < n {
      SequenceGrows(sql, ops, k, n - 1, table);
      assert ops[..n][..n - 1] == ops[..n - 1];
      var before := After(sql, ops[..n - 1]);
      if Applied(sql, before, ops[n - 1]).Success? { SequenceStep(sql, before, ops[n - 1], table); }
    }
  }

  // While its table lives, an AUTOINCREMENT id is never given twice, not even that of a row deleted since.
  lemma GeneratedIdIsNew(sql: Sqlite, ops: seq<Op>, k: nat, n: nat, table: string, row: Fields, newId: string)
    requires k <= n <= |ops| && table in After(sql, ops[..k])
    requires forall j :: k <= j < n ==> ops[j] != DropTable(table)
    requires After(sql, ops[..k])[table].def.idType == AutoIncrement && Get(row, "id") == Null
    ensures table in After(sql, ops[..n])
    ensures var id := UpsertId(sql, After(sql, ops[..n])[table], row, newId);
            id.Some? && id.value !in After(sql, ops[..k])[table].rows
  {
    SequenceGrows(sql, ops, k, n, table);
    ReachableIsSound(sql, ops[..k]);
    var before, now := After(sql, ops[..k])[table], After(sql, ops[..n])[table];
    assert forall id :: id in before.rows ==> SoundId(before.def.idType, before.lastId, id);
  }
}
