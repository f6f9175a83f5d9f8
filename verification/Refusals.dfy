// What the repository refuses, and what no table therefore ever holds: each error tells the truth about the request,
// and a column required when its table was created is never null (entities/sqlite_repository.py).
module Refusals {
  import opened Common
  import opened SqlEngine
  import opened Entities

  predicate IsRequired(columns: seq<ColumnDef>, name: string) {
    exists i :: 0 <= i < |columns| && columns[i].name == name && columns[i].required
  }

  // A new table is empty and refuses null exactly in its required columns.
  lemma CreatedExactly(def: TableDef, name: string)
    ensures name in Created(def).strict <==> IsRequired(def.columns, name)
    ensures Created(def).rows == map[] && Created(def).lastId == 0 && Created(def).def == def
  {
    if i :| 0 <= i < |def.columns| && def.columns[i].name == name && def.columns[i].required {
      assert def.columns[i] in def.columns;
    }
  }

  predicate LeavesNull(row: Fields, name: string) { name !in row || row[name] == Null }

  lemma {:induction false} StoredExactly(sql: Sqlite, columns: seq<ColumnDef>, row: Fields)
    ensures StoredFields(sql, columns, row).Some? <==>
            forall i :: 0 <= i < |columns| ==> Kept(sql, columns[i].ctype, Get(row, columns[i].name)).Some?
  {
    if columns != [] {
      var before := columns[..|columns| - 1];
      StoredExactly(sql, before, row);
      assert forall i :: 0 <= i < |before| ==> before[i] == columns[i];
    }
  }

  // SQLite refuses a write: the table has no columns, the id or a value does not fit, or a column that refuses null is
  // left without a value.
  predicate RefusesWrite(sql: Sqlite, e: Entity, row: Fields, newId: string) {
    || e.def.columns == []
    || UpsertId(sql, e, row, newId) == None
    || (exists i :: 0 <= i < |e.def.columns|
                    && Kept(sql, e.def.columns[i].ctype, Get(row, e.def.columns[i].name)) == None)
    || exists name :: name in e.strict && LeavesNull(row, name)
  }

  lemma WriteRefusedExactly(sql: Sqlite, e: Entity, row: Fields, newId: string)
    requires SoundColumns(sql, e.def.columns) && forall name :: name in e.strict ==> HasColumn(e.def.columns, name)
    ensures UpsertError(sql, e, row, newId) == if RefusesWrite(sql, e, row, newId) then Some(SqlRefused) else None
  {
    hide UpsertId, Kept, SoundColumns;
    var columns, fields := e.def.columns, StoredFields(sql, e.def.columns, row);
    StoredExactly(sql, columns, row);
    if fields.Some? {
      forall name | name in e.strict
        ensures Get(fields.value, name) == Null <==> LeavesNull(row, name)
      {
        StoredNull(sql, e, row, IndexOf(columns, name), fields.value);
      }
    }
  }

  lemma StoredNull(sql: Sqlite, e: Entity, row: Fields, i: nat, fields: Fields)
    requires SoundColumns(sql, e.def.columns) && i < |e.def.columns|
    requires StoredFields(sql, e.def.columns, row) == Some(fields)
    ensures Get(fields, e.def.columns[i].name) == Null <==> LeavesNull(row, e.def.columns[i].name)
  {
    var c := e.def.columns[i];
    StoredFieldsAreTheRow(sql, e.def.columns, row, i);
    KeptTwice(sql, c.ctype, Get(row, c.name));
  }

  /* ---------- What every reachable table keeps ---------- */

  predicate IsFilled(row: Fields, name: string) { name in row && row[name] != Null }

  // The columns that refuse null are columns of the table, and no row is null there.
  predicate Filled(e: Entity) {
    && (forall name :: name in e.strict ==> HasColumn(e.def.columns, name))
    && forall id, name :: id in e.rows && name in e.strict ==> IsFilled(e.rows[id], name)
  }

  lemma CreatedIsFilled(def: TableDef)
    ensures Filled(Created(def))
  {
    forall name | name in Created(def).strict ensures HasColumn(def.columns, name) {
      CreatedExactly(def, name);
    }
  }

  lemma AddedIsFilled(sql: Sqlite, e: Entity, c: ColumnDef)
    requires Filled(e) && AddError(sql, e, c) == None
    ensures Filled(Added(e, c)) && Added(e, c).strict == e.strict && c.name !in e.strict
  {
    forall name | name in e.strict ensures HasColumn(e.def.columns + [c], name) {
      HasColumnAfter(e.def.columns, c, name);
    }
    forall id, name | id in e.rows && name in e.strict ensures IsFilled(e.rows[id][c.name := Null], name) {
      assert IsFilled(e.rows[id], name);
    }
  }

  lemma RenamedRowIsFilled(row: Fields, strict: set<string>, oldName: string, newName: string, name: string)
    requires (forall n :: n in strict ==> IsFilled(row, n)) && (oldName !in strict ==> newName !in strict)
    requires name in if oldName in strict then strict - {oldName} + {newName} else strict
    ensures IsFilled(RenamedFields(row, oldName, newName), name)
  {
    assert name in strict ==> IsFilled(row, name);
    assert oldName in strict ==> IsFilled(row, oldName);
  }

  lemma RenamedIsFilled(sql: Sqlite, e: Entity, oldName: string, newName: string)
    requires SoundEntity(sql, e) && Filled(e) && RenameError(sql, e, oldName, newName) == None
    ensures Filled(Renamed(e, oldName, newName))
    ensures forall name :: name in e.strict && name != oldName ==> name in Renamed(e, oldName, newName).strict
  {
    hide RenamedFields, IsFilled, SoundColumns, AcceptsName;
    var e', i := Renamed(e, oldName, newName), IndexOf(e.def.columns, oldName);
    forall name | name in e'.strict ensures HasColumn(e'.def.columns, name) {
      HasColumnRenamed(sql, e.def.columns, i, e.def.columns[i].(name := newName), name);
    }
    forall id, name | id in e.rows && name in e'.strict
      ensures IsFilled(RenamedFields(e.rows[id], oldName, newName), name)
    {
      RenamedRowIsFilled(e.rows[id], e.strict, oldName, newName, name);
    }
  }

  lemma ColumnDroppedIsFilled(sql: Sqlite, e: Entity, dropped: string)
    requires SoundEntity(sql, e) && Filled(e) && DropColumnError(e, dropped) == None
    ensures Filled(ColumnDropped(e, dropped))
  {
    var e', i := ColumnDropped(e, dropped), IndexOf(e.def.columns, dropped);
    forall name | name in e'.strict ensures HasColumn(e'.def.columns, name) {
      HasColumnWithout(sql, e.def.columns, i, name);
    }
    forall id, name | id in e.rows && name in e'.strict ensures IsFilled(e.rows[id] - {dropped}, name) {
      assert IsFilled(e.rows[id], name);
    }
  }

  lemma UpsertedIsFilled(sql: Sqlite, e: Entity, row: Fields, newId: string)
    requires SoundEntity(sql, e) && Filled(e) && UpsertError(sql, e, row, newId) == None
    ensures Filled(Upserted(sql, e, row, newId))
  {
    var fields := StoredFields(sql, e.def.columns, row).value;
    forall name | name in e.strict ensures IsFilled(fields, name) {
      assert Get(fields, name) != Null;
    }
  }

  ghost predicate AllFilled(cat: Catalog) {
    forall table :: table in cat ==> Filled(cat[table])
  }

  lemma AppliedIsFilled(sql: Sqlite, cat: Catalog, op: Op)
    requires SoundCatalog(sql, cat) && AllFilled(cat) && Applied(sql, cat, op).Success?
    ensures AllFilled(Applied(sql, cat, op).value)
  {
    hide SoundEntity, StoredFields, AcceptsTable, AcceptsName, MeetsLink, HasColumn, IsFilled;
    match op {
      case CreateTable(def) =>
        CreatedIsFilled(def);
      case AddColumn(table, c) => AddedIsFilled(sql, cat[table], c);
      case RenameColumn(table, oldName, newName) => RenamedIsFilled(sql, cat[table], oldName, newName);
      case DropColumn(table, name) => ColumnDroppedIsFilled(sql, cat[table], name);
      case UpsertRow(table, row, newId) => UpsertedIsFilled(sql, cat[table], row, newId);
      case DropTable(_) =>
      case DeleteRow(_, _) =>
    }
  }

  lemma {:induction false} ReachableIsFilled(sql: Sqlite, ops: seq<Op>)
    ensures AllFilled(After(sql, ops))
  {
    if ops != [] {
      var before, op := After(sql, ops[..|ops| - 1]), ops[|ops| - 1];
      ReachableIsFilled(sql, ops[..|ops| - 1]);
      ReachableIsSound(sql, ops[..|ops| - 1]);
      if Applied(sql, before, op).Success? { AppliedIsFilled(sql, before, op); }
    }
  }

  // A column added later never refuses null, whatever its definition says.
  lemma AddedColumnTakesNull(sql: Sqlite, ops: seq<Op>, table: string, c: ColumnDef)
    requires table in After(sql, ops) && AddError(sql, After(sql, ops)[table], c) == None
    ensures var e := After(sql, ops)[table]; Added(e, c).strict == e.strict && c.name !in e.strict
  {
    ReachableIsFilled(sql, ops);
    AddedIsFilled(sql, After(sql, ops)[table], c);
  }

  /* ---------- A required column over a run ---------- */

  // The operation drops the table, or renames or drops the column.
  predicate Retires(op: Op, table: string, name: string) {
    match op
    case DropTable(t) => t == table
    case RenameColumn(t, oldName, _) => t == table && oldName == name
    case DropColumn(t, dropped) => t == table && dropped == name
    case _ => false
  }

  // Operation `k` created the table with a required column `name`, and up to `n` nothing retired it.
  ghost predicate RequiredSince(sql: Sqlite, ops: seq<Op>, k: nat, n: nat, table: string, name: string)
    requires k < n <= |ops|
  {
    && ops[k].CreateTable? && ops[k].def.tableName == table && IsRequired(ops[k].def.columns, name)
    && Applied(sql, After(sql, ops[..k]), ops[k]).Success?
    && forall j :: k < j < n ==> !Retires(ops[j], table, name)
  }

  ghost predicate IsStrict(cat: Catalog, table: string, name: string) {
    table in cat && name in cat[table].strict
  }

  lemma StrictStep(sql: Sqlite, cat: Catalog, op: Op, table: string, name: string)
    requires SoundCatalog(sql, cat) && AllFilled(cat) && Applied(sql, cat, op).Success?
    requires IsStrict(cat, table, name) && !Retires(op, table, name)
    ensures IsStrict(Applied(sql, cat, op).value, table, name)
  {
    hide SoundEntity, Filled, StoredFields, AcceptsTable, AcceptsName, MeetsLink, HasColumn;
    if op.RenameColumn? && op.table == table { RenamedIsFilled(sql, cat[table], op.oldName, op.newName); }
  }

  lemma CreatesStrict(sql: Sqlite, cat: Catalog, def: TableDef, name: string)
    requires Applied(sql, cat, CreateTable(def)).Success? && IsRequired(def.columns, name)
    ensures IsStrict(Applied(sql, cat, CreateTable(def)).value, def.tableName, name)
  {
    CreatedExactly(def, name);
  }

  lemma {:induction false} StaysStrict(sql: Sqlite, ops: seq<Op>, k: nat, n: nat, table: string, name: string)
    requires k < n <= |ops| && RequiredSince(sql, ops, k, n, table, name)
    ensures IsStrict(After(sql, ops[..n]), table, name)
  {
    hide Applied, SoundCatalog, AllFilled;
    var before, op := After(sql, ops[..n - 1]), ops[n - 1];
    assert ops[..n][..n - 1] == ops[..n - 1];
    if n - 1 == k {
      CreatesStrict(sql, before, op.def, name);
    } else {
      StaysStrict(sql, ops, k, n - 1, table, name);
      ReachableIsSound(sql, ops[..n - 1]);
      ReachableIsFilled(sql, ops[..n - 1]);
      if Applied(sql, before, op).Success? { StrictStep(sql, before, op, table, name); }
    }
  }

  // From the creation of its table on, as long as it is neither renamed nor dropped with its column or table, a
  // required column holds a value in every row, and a write that leaves it null is refused.
  lemma RequiredColumnIsNeverNull(sql: Sqlite, ops: seq<Op>, k: nat, n: nat, table: string, name: string)
    requires k < n <= |ops| && RequiredSince(sql, ops, k, n, table, name)
    ensures var cat := After(sql, ops[..n]);
            && table in cat
            && (forall id :: id in cat[table].rows ==> IsFilled(cat[table].rows[id], name))
            && forall row, newId :: LeavesNull(row, name) ==>
              Applied(sql, cat, UpsertRow(table, row, newId)) == Failure(SqlRefused)
  {
    StaysStrict(sql, ops, k, n, table, name);
    ReachableIsFilled(sql, ops[..n]);
    ReachableIsSound(sql, ops[..n]);
    var e := After(sql, ops[..n])[table];
    forall row, newId | LeavesNull(row, name) ensures UpsertError(sql, e, row, newId) == Some(SqlRefused) {
      WriteRefusedExactly(sql, e, row, newId);
    }
  }

  /* ---------- What each error says ---------- */

  // SQLite takes no second column that it reads as the same name, nor one it reserves.
  predicate RefusesName(sql: Sqlite, columns: seq<ColumnDef>, except: string, name: string) {
    || sql.refusesColumn(sql.ident(name)) || sql.ident(name) == sql.ident("id")
    || exists i :: 0 <= i < |columns| && columns[i].name != except && sql.ident(columns[i].name) == sql.ident(name)
  }

  predicate RefusesColumns(sql: Sqlite, columns: seq<ColumnDef>) {
    || (exists i :: 0 <= i < |columns| && (sql.refusesColumn(sql.ident(columns[i].name))
                                           || sql.ident(columns[i].name) == sql.ident("id")))
    || exists i, j :: 0 <= i < j < |columns| && sql.ident(columns[i].name) == sql.ident(columns[j].name)
  }

  predicate RefusesTable(sql: Sqlite, cat: Catalog, def: TableDef) {
    || sql.refusesTable(sql.ident(def.tableName))
    || (exists table :: table in cat && sql.ident(table) == sql.ident(def.tableName))
    || RefusesColumns(sql, def.columns)
  }

  // The error is true of a request to create `def`.
  predicate TellsCreate(sql: Sqlite, cat: Catalog, def: TableDef, error: Error) {
    match error
    case InvalidConfig =>
      || !sql.validIdentifier(def.tableName)
      || exists i :: 0 <= i < |def.columns| && (!sql.validIdentifier(def.columns[i].name)
                                                || def.columns[i].name == "id")
    case InvalidToolLink =>
      && def.toolLinked.Some?
      && (!ProvidesAll(def.columns, RequiredColumns(def.toolLinked.value)) || ClaimedIn(cat, def.toolLinked.value))
    case TableExists => def.tableName in cat
    case SqlRefused => RefusesTable(sql, cat, def)
    case _ => false
  }

  // The error is true of a request on the table `e`.
  predicate TellsOn(sql: Sqlite, e: Entity, op: Op, error: Error) {
    match op
    case AddColumn(_, c) =>
      || (error == InvalidConfig && !sql.validIdentifier(c.name))
      || (error == ColumnExists && (c.name == "id" || HasColumn(e.def.columns, c.name)))
      || (error == SqlRefused && RefusesName(sql, e.def.columns, "id", c.name))
    case RenameColumn(_, oldName, newName) =>
      || (error == InvalidConfig && !sql.validIdentifier(newName))
      || (error == UnknownColumn && !HasColumn(e.def.columns, oldName))
      || (error == ColumnExists && newName != oldName && HasColumn(e.def.columns, newName))
      || (error == InvalidToolLink && IsLinkedColumn(e.def, oldName))
      || (error == SqlRefused && RefusesName(sql, e.def.columns, oldName, newName))
    case DropColumn(_, name) =>
      || (error == UnknownColumn && !HasColumn(e.def.columns, name))
      || (error == InvalidToolLink && IsLinkedColumn(e.def, name))
    case UpsertRow(_, row, newId) => error == SqlRefused && RefusesWrite(sql, e, row, newId)
    case DeleteRow(_, id) => error == SqlRefused && id.Structure?
    case _ => false
  }

  predicate Tells(sql: Sqlite, cat: Catalog, op: Op, error: Error) {
    if op.CreateTable? then TellsCreate(sql, cat, op.def, error)
    else if op.table !in cat then error == UnknownTable
    else TellsOn(sql, cat[op.table], op, error)
  }

  lemma ColumnsAcceptedExactly(sql: Sqlite, columns: seq<ColumnDef>)
    ensures AcceptsColumns(sql, PhysicalColumns(columns)) <==> !RefusesColumns(sql, columns)
  {
    var physical := PhysicalColumns(columns);
    forall i | 0 <= i < |columns|
      ensures AcceptsName(sql, physical[..i], physical[i].name) <==>
              && !sql.refusesColumn(sql.ident(columns[i].name)) && sql.ident(columns[i].name) != sql.ident("id")
              && forall j :: 0 <= j < i ==> sql.ident(columns[j].name) != sql.ident(columns[i].name)
    {
      assert forall j :: 0 <= j < i ==> physical[..i][j].name == columns[j].name;
    }
  }

  // SoundColumns makes names distinct, so leaving out the column at its position leaves out its name.
  lemma NameRefusedExactly(sql: Sqlite, columns: seq<ColumnDef>, i: nat, name: string)
    requires SoundColumns(sql, columns) && i < |columns|
    ensures AcceptsName(sql, PhysicalColumns(Without(columns, i)), name)
            <==> !RefusesName(sql, columns, columns[i].name, name)
  {
    var less := Without(columns, i);
    WithoutAt(columns, i);
    forall j | 0 <= j < |columns| && columns[j].name != columns[i].name
      ensures exists k :: 0 <= k < |less| && less[k] == columns[j]
    {
      WithoutHas(columns, i, j);
    }
    forall k | 0 <= k < |less| ensures PhysicalColumns(less)[k].name == less[k].name
      && less[k].name != columns[i].name {
    }
  }

  lemma AlterationTells(sql: Sqlite, e: Entity, op: Op)
    requires SoundEntity(sql, e) && Filled(e)
    requires op.AddColumn? || op.RenameColumn? || op.DropColumn?
    ensures var error := match op
                         case AddColumn(_, c) => AddError(sql, e, c)
                         case RenameColumn(_, oldName, newName) => RenameError(sql, e, oldName, newName)
                         case _ => DropColumnError(e, op.name);
            if error.Some? then TellsOn(sql, e, op, error.value) else forall other :: !TellsOn(sql, e, op, other)
  {
    match op {
      case AddColumn(_, c) =>
        AddedNameRefused(sql, e.def.columns, c.name);
      case RenameColumn(_, oldName, newName) =>
        if HasColumn(e.def.columns, oldName) {
          NameRefusedExactly(sql, e.def.columns, IndexOf(e.def.columns, oldName), newName);
        }
      case _ =>
    }
  }

  lemma AddedNameRefused(sql: Sqlite, columns: seq<ColumnDef>, name: string)
    requires SoundColumns(sql, columns)
    ensures AcceptsName(sql, PhysicalColumns(columns), name) <==> !RefusesName(sql, columns, "id", name)
  {
    assert forall i :: 0 <= i < |columns| ==> PhysicalColumns(columns)[i].name == columns[i].name;
  }

  lemma CreationTells(sql: Sqlite, cat: Catalog, def: TableDef)
    ensures match OnCreate(sql, cat, def)
            case Failure(error) => TellsCreate(sql, cat, def, error)
            case Success(cat') =>
              cat' == cat[def.tableName := Created(def)] && forall error :: !TellsCreate(sql, cat, def, error)
  {
    ColumnsAcceptedExactly(sql, def.columns);
  }

  // An operation is refused with an error that is true of it, and goes through exactly when none is.
  lemma ErrorsTell(sql: Sqlite, ops: seq<Op>, op: Op)
    ensures var cat := After(sql, ops);
            match Applied(sql, cat, op)
            case Failure(error) => Tells(sql, cat, op, error)
            case Success(_) => forall error :: !Tells(sql, cat, op, error)
  {
    var cat := After(sql, ops);
    ReachableIsSound(sql, ops);
    ReachableIsFilled(sql, ops);
    match op {
      case CreateTable(def) =>
        CreationTells(sql, cat, def);
      case UpsertRow(table, row, newId) =>
        if table in cat { WriteRefusedExactly(sql, cat[table], row, newId); }
      case DropTable(_) =>
      case DeleteRow(_, _) =>
      case _ =>
        if op.table in cat { AlterationTells(sql, cat[op.table], op); }
    }
  }
}
