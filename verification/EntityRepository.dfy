// The SQLite entity repository: a metadata record and a physical table side by side
// (entities/sqlite_repository.py), refining the plain catalog of Entities.
module EntityRepository {
  import opened Common
  import opened SqlEngine
  import opened Entities

  /* ---------- The metadata record and the physical table agree ---------- */

  // The metadata columns are the physical non-id columns in name, order and type.
  ghost predicate Agrees(def: TableDef, t: Table) {
    && |t.columns| == |def.columns|
    && (forall i :: 0 <= i < |def.columns| ==>
          t.columns[i].name == def.columns[i].name && t.columns[i].sqlType == SqlTypeOf(def.columns[i].ctype))
    && t.autoIncrement == (def.idType == AutoIncrement)
    && (forall id :: id in t.rows ==> |t.rows[id]| == |t.columns|)
  }

  function DecodedRow(columns: seq<ColumnDef>, cells: seq<Cell>): Fields
    requires |cells| == |columns|
  {
    if columns == [] then map[]
    else
      var n := |columns| - 1;
      DecodedRow(columns[..n], cells[..n])[columns[n].name := Decoded(columns[n].ctype, cells[n])]
  }

  ghost function Strict(def: TableDef, t: Table): set<string>
    requires |t.columns| == |def.columns|
  {
    set i | 0 <= i < |def.columns| && t.columns[i].notNull :: def.columns[i].name
  }

  ghost function EntityOf(def: TableDef, t: Table): Entity
    requires Agrees(def, t)
  {
    Entity(def, Strict(def, t), map id | id in t.rows :: DecodedRow(def.columns, t.rows[id]), t.lastId)
  }

  lemma {:induction false} DecodedHas(columns: seq<ColumnDef>, cells: seq<Cell>, name: string)
    requires |cells| == |columns|
    ensures name in DecodedRow(columns, cells) <==> HasColumn(columns, name)
  {
    if columns != [] {
      var n := |columns| - 1;
      DecodedHas(columns[..n], cells[..n], name);
      assert columns == columns[..n] + [columns[n]];
      HasColumnAfter(columns[..n], columns[n], name);
    }
  }

  lemma {:induction false} DecodedAt(sql: Sqlite, columns: seq<ColumnDef>, cells: seq<Cell>, i: nat)
    requires |cells| == |columns| && SoundColumns(sql, columns) && i < |columns|
    ensures columns[i].name in DecodedRow(columns, cells)
    ensures DecodedRow(columns, cells)[columns[i].name] == Decoded(columns[i].ctype, cells[i])
  {
    var n := |columns| - 1;
    if i < n {
      assert columns[i].name != columns[n].name && columns[..n][i] == columns[i] && cells[..n][i] == cells[i];
      DecodedAt(sql, columns[..n], cells[..n], i);
    }
  }

  /* ---------- ALTER TABLE refines the catalog operation ---------- */

  lemma AddRefines(sql: Sqlite, def: TableDef, t: Table, c: ColumnDef)
    requires Agrees(def, t)
    ensures var def', t' := def.(columns := def.columns + [c]),
            WithColumn(t, Column(c.name, SqlTypeOf(c.ctype), false));
            Agrees(def', t') && (!HasColumn(def.columns, c.name) ==> EntityOf(def', t') == Added(EntityOf(def, t), c))
  {
    forall id | id in t.rows
      ensures DecodedRow(def.columns + [c], t.rows[id] + [NullCell])
              == DecodedRow(def.columns, t.rows[id])[c.name := Null]
    {
      AddedRow(def.columns, t.rows[id], c);
    }
    AddedStrict(def, t, c);
    AddedAgrees(def, t, c);
    var def', t' := def.(columns := def.columns + [c]), WithColumn(t, Column(c.name, SqlTypeOf(c.ctype), false));
    SameRows(EntityOf(def', t').rows, Added(EntityOf(def, t), c).rows);
  }

  lemma AddedAgrees(def: TableDef, t: Table, c: ColumnDef)
    requires Agrees(def, t)
    ensures Agrees(def.(columns := def.columns + [c]), WithColumn(t, Column(c.name, SqlTypeOf(c.ctype), false)))
  {
  }

  lemma AddedRow(columns: seq<ColumnDef>, cells: seq<Cell>, c: ColumnDef)
    requires |cells| == |columns|
    ensures DecodedRow(columns + [c], cells + [NullCell]) == DecodedRow(columns, cells)[c.name := Null]
  {
    assert (columns + [c])[..|columns|] == columns;
    assert (cells + [NullCell])[..|cells|] == cells;
  }

  lemma AddedStrict(def: TableDef, t: Table, c: ColumnDef)
    requires |t.columns| == |def.columns|
    ensures var def', t' := def.(columns := def.columns + [c]),
            WithColumn(t, Column(c.name, SqlTypeOf(c.ctype), false));
            Strict(def', t') == Strict(def, t)
  {
    var def', t' := def.(columns := def.columns + [c]), WithColumn(t, Column(c.name, SqlTypeOf(c.ctype), false));
    forall name | name in Strict(def', t') ensures name in Strict(def, t) {
      var i :| 0 <= i < |def'.columns| && t'.columns[i].notNull && def'.columns[i].name == name;
      assert i < |def.columns| && t.columns[i].notNull && def.columns[i].name == name;
    }
    forall name | name in Strict(def, t) ensures name in Strict(def', t') {
      var i :| 0 <= i < |def.columns| && t.columns[i].notNull && def.columns[i].name == name;
      assert t'.columns[i].notNull && def'.columns[i].name == name;
    }
  }

  lemma RenamedRowRefines(sql: Sqlite, columns: seq<ColumnDef>, cells: seq<Cell>, i: nat, newName: string)
    requires |cells| == |columns| && i < |columns| && SoundColumns(sql, columns)
    requires SoundColumns(sql, columns[i := columns[i].(name := newName)])
    ensures DecodedRow(columns[i := columns[i].(name := newName)], cells)
            == RenamedFields(DecodedRow(columns, cells), columns[i].name, newName)
  {
    var c := columns[i].(name := newName);
    var columns' := columns[i := c];
    var row, row' := DecodedRow(columns, cells), DecodedRow(columns', cells);
    var renamed := RenamedFields(row, columns[i].name, newName);
    DecodedAt(sql, columns, cells, i);
    DecodedAt(sql, columns', cells, i);
    forall name
      ensures name in row' <==> name in renamed
      ensures name in row' ==> row'[name] == renamed[name]
    {
      DecodedHas(columns, cells, name);
      DecodedHas(columns', cells, name);
      HasColumnRenamed(sql, columns, i, c, name);
      if name in row' && name != newName {
        var k :| 0 <= k < |columns'| && columns'[k].name == name;
        assert columns[k] == columns'[k];
        DecodedAt(sql, columns, cells, k);
        DecodedAt(sql, columns', cells, k);
      }
    }
    assert row' == renamed;
  }

  lemma RenameRefines(sql: Sqlite, def: TableDef, t: Table, i: nat, newName: string)
    requires Agrees(def, t) && i < |def.columns| && SoundColumns(sql, def.columns)
    requires SoundColumns(sql, def.columns[i := def.columns[i].(name := newName)])
    requires IndexOf(def.columns, def.columns[i].name) == i
    ensures var def', t' := def.(columns := def.columns[i := def.columns[i].(name := newName)]),
            WithName(t, i, newName);
            Agrees(def', t') && EntityOf(def', t') == Renamed(EntityOf(def, t), def.columns[i].name, newName)
  {
    var def', t' := def.(columns := def.columns[i := def.columns[i].(name := newName)]), WithName(t, i, newName);
    forall id | id in t.rows
      ensures DecodedRow(def'.columns, t.rows[id])
              == RenamedFields(DecodedRow(def.columns, t.rows[id]), def.columns[i].name, newName)
    {
      RenamedRowRefines(sql, def.columns, t.rows[id], i, newName);
    }
    RenamedStrict(sql, def, t, i, newName);
  }

  lemma RenamedStrict(sql: Sqlite, def: TableDef, t: Table, i: nat, newName: string)
    requires Agrees(def, t) && i < |def.columns| && SoundColumns(sql, def.columns)
    ensures var def', t' := def.(columns := def.columns[i := def.columns[i].(name := newName)]),
            WithName(t, i, newName);
            var oldName := def.columns[i].name;
            Strict(def', t') == if oldName in Strict(def, t) then Strict(def, t) - {oldName} + {newName}
              else Strict(def, t)
  {
    var def', t' := def.(columns := def.columns[i := def.columns[i].(name := newName)]), WithName(t, i, newName);
    forall k | 0 <= k < |def.columns|
      ensures t'.columns[k].notNull == t.columns[k].notNull
      ensures def'.columns[k].name == if k == i then newName else def.columns[k].name
      ensures k != i ==> def.columns[k].name != def.columns[i].name
    {
    }
    assert def.columns[i].name in Strict(def, t) <==> t.columns[i].notNull;
    forall name | name in Strict(def, t) && name != def.columns[i].name ensures name in Strict(def', t') {
      var k :| 0 <= k < |def.columns| && t.columns[k].notNull && def.columns[k].name == name;
      assert t'.columns[k].notNull && def'.columns[k].name == name;
    }
    if t.columns[i].notNull {
      assert t'.columns[i].notNull && def'.columns[i].name == newName;
    }
  }

  lemma DroppedRowRefines(sql: Sqlite, columns: seq<ColumnDef>, cells: seq<Cell>, i: nat)
    requires |cells| == |columns| && i < |columns| && SoundColumns(sql, columns)
    ensures DecodedRow(Without(columns, i), Without(cells, i)) == DecodedRow(columns, cells) - {columns[i].name}
  {
    var less := Without(columns, i);
    var row, row' := DecodedRow(columns, cells), DecodedRow(less, Without(cells, i));
    SoundWithout(sql, columns, i);
    WithoutAt(columns, i);
    WithoutAt(cells, i);
    forall name
      ensures name in row' <==> name in row && name != columns[i].name
      ensures name in row' ==> row'[name] == row[name]
    {
      DecodedHas(columns, cells, name);
      DecodedHas(less, Without(cells, i), name);
      HasColumnWithout(sql, columns, i, name);
      if name in row' {
        var j :| 0 <= j < |less| && less[j].name == name;
        DecodedAt(sql, less, Without(cells, i), j);
        DecodedAt(sql, columns, cells, Skip(i, j));
      }
    }
    assert row' == row - {columns[i].name};
  }

  lemma DropRefines(sql: Sqlite, def: TableDef, t: Table, i: nat)
    requires Agrees(def, t) && i < |def.columns| && SoundColumns(sql, def.columns)
    requires IndexOf(def.columns, def.columns[i].name) == i
    ensures var def', t' := def.(columns := Without(def.columns, i)), WithoutColumn(t, i);
            Agrees(def', t') && EntityOf(def', t') == ColumnDropped(EntityOf(def, t), def.columns[i].name)
  {
    var def', t' := def.(columns := Without(def.columns, i)), WithoutColumn(t, i);
    DroppedAgrees(def, t, i);
    forall id | id in t.rows
      ensures DecodedRow(def'.columns, t'.rows[id]) == DecodedRow(def.columns, t.rows[id]) - {def.columns[i].name}
    {
      DroppedRowRefines(sql, def.columns, t.rows[id], i);
    }
    DroppedStrict(sql, def, t, i);
    SameRows(EntityOf(def', t').rows, ColumnDropped(EntityOf(def, t), def.columns[i].name).rows);
  }

  lemma DroppedAgrees(def: TableDef, t: Table, i: nat)
    requires Agrees(def, t) && i < |def.columns|
    ensures Agrees(def.(columns := Without(def.columns, i)), WithoutColumn(t, i))
  {
    WithoutAt(def.columns, i);
    WithoutAt(t.columns, i);
  }

  lemma DroppedStrict(sql: Sqlite, def: TableDef, t: Table, i: nat)
    requires |t.columns| == |def.columns| && i < |def.columns| && SoundColumns(sql, def.columns)
    ensures Strict(def.(columns := Without(def.columns, i)), WithoutColumn(t, i))
            == Strict(def, t) - {def.columns[i].name}
  {
    var def', t' := def.(columns := Without(def.columns, i)), WithoutColumn(t, i);
    WithoutAt(def.columns, i);
    WithoutAt(t.columns, i);
    forall name | name in Strict(def', t') ensures name in Strict(def, t) && name != def.columns[i].name {
      var j :| 0 <= j < |def'.columns| && t'.columns[j].notNull && def'.columns[j].name == name;
      assert def.columns[Skip(i, j)].name == name && t.columns[Skip(i, j)].notNull;
    }
    forall name | name in Strict(def, t) && name != def.columns[i].name ensures name in Strict(def', t') {
      var k :| 0 <= k < |def.columns| && t.columns[k].notNull && def.columns[k].name == name;
      WithoutHas(def.columns, i, k);
      WithoutHas(t.columns, i, k);
    }
  }

  /* ---------- Writing a row refines the catalog operation ---------- */

  function ColumnNames(columns: seq<ColumnDef>): seq<string> {
    seq(|columns|, i requires 0 <= i < |columns| => columns[i].name)
  }

  function SqlValues(columns: seq<ColumnDef>, row: Fields): seq<Value> {
    seq(|columns|, i requires 0 <= i < |columns| => ToSql(columns[i].ctype, Get(row, columns[i].name)))
  }

  function CellFor(sql: Sqlite, c: ColumnDef, row: Fields): Option<Cell> {
    Converted(sql, SqlTypeOf(c.ctype), ToSql(c.ctype, Get(row, c.name)))
  }

  // Every metadata name means the physical column at the same position.
  lemma NamesResolve(sql: Sqlite, def: TableDef, t: Table, i: nat)
    requires Agrees(def, t) && SoundColumns(sql, def.columns) && i < |def.columns|
    ensures Resolve(sql, t.columns, def.columns[i].name) == Some(i)
  {
    forall a, b | 0 <= a < b < |t.columns| ensures sql.ident(t.columns[a].name) != sql.ident(t.columns[b].name) {
      assert t.columns[a].name == def.columns[a].name && t.columns[b].name == def.columns[b].name;
    }
    ResolveUnique(sql, t.columns, def.columns[i].name, i);
  }

  predicate CellsFor(sql: Sqlite, columns: seq<ColumnDef>, row: Fields, cells: seq<Cell>, n: nat)
    requires n <= |columns| == |cells|
  {
    forall i :: 0 <= i < n ==> CellFor(sql, columns[i], row) == Some(cells[i])
  }

  lemma {:induction false} WrittenIsInOrder(sql: Sqlite, def: TableDef, t: Table, row: Fields, n: nat)
    requires Agrees(def, t) && SoundColumns(sql, def.columns) && n <= |def.columns|
    ensures var cells := Written(sql, t.columns, ColumnNames(def.columns), SqlValues(def.columns, row), n);
            && (cells == None <==> exists i :: 0 <= i < n && CellFor(sql, def.columns[i], row) == None)
            && (cells.Some? ==> CellsFor(sql, def.columns, row, cells.value, n))
  {
    hide SoundColumns, ToSql, Get, Resolve;
    if n > 0 {
      var before := Written(sql, t.columns, ColumnNames(def.columns), SqlValues(def.columns, row), n - 1);
      var cells := Written(sql, t.columns, ColumnNames(def.columns), SqlValues(def.columns, row), n);
      WrittenIsInOrder(sql, def, t, row, n - 1);
      NamesResolve(sql, def, t, n - 1);
      WrittenNext(sql, t.columns, def.columns, row, n - 1, before);
      OneMoreInOrder(sql, def.columns, row, n - 1, before, cells);
    }
  }

  lemma OneMoreInOrder(sql: Sqlite, columns: seq<ColumnDef>, row: Fields, n: nat, before: Option<seq<Cell>>,
                       cells: Option<seq<Cell>>)
    requires n < |columns| && (before.Some? ==> |before.value| == |columns|)
    requires before == None <==> exists i :: 0 <= i < n && CellFor(sql, columns[i], row) == None
    requires before.Some? ==> CellsFor(sql, columns, row, before.value, n)
    requires cells == if before == None || CellFor(sql, columns[n], row) == None then None
                      else Some(before.value[n := CellFor(sql, columns[n], row).value])
    ensures cells == None <==> exists i :: 0 <= i < n + 1 && CellFor(sql, columns[i], row) == None
    ensures cells.Some? ==> CellsFor(sql, columns, row, cells.value, n + 1)
  {
  }

  lemma WrittenNext(sql: Sqlite, physical: seq<Column>, columns: seq<ColumnDef>, row: Fields, n: nat,
                    before: Option<seq<Cell>>)
    requires |physical| == |columns| && n < |columns| && physical[n].sqlType == SqlTypeOf(columns[n].ctype)
    requires before == Written(sql, physical, ColumnNames(columns), SqlValues(columns, row), n)
    requires Resolve(sql, physical, columns[n].name) == Some(n)
    ensures var cell := CellFor(sql, columns[n], row);
            Written(sql, physical, ColumnNames(columns), SqlValues(columns, row), n + 1)
            == if before == None || cell == None then None else Some(before.value[n := cell.value])
  {
  }

  lemma {:induction false} StoredIsDecoded(sql: Sqlite, columns: seq<ColumnDef>, row: Fields, cells: seq<Cell>)
    requires |cells| == |columns| && CellsFor(sql, columns, row, cells, |columns|)
    ensures StoredFields(sql, columns, row) == Some(DecodedRow(columns, cells))
  {
    if columns != [] {
      var n := |columns| - 1;
      assert forall i :: 0 <= i < n ==> columns[..n][i] == columns[i] && cells[..n][i] == cells[i];
      assert CellsFor(sql, columns[..n], row, cells[..n], n);
      StoredIsDecoded(sql, columns[..n], row, cells[..n]);
      assert CellFor(sql, columns[n], row) == Some(cells[n]);
    }
  }

  lemma {:induction false} StoredFails(sql: Sqlite, columns: seq<ColumnDef>, row: Fields, i: nat)
    requires i < |columns| && CellFor(sql, columns[i], row) == None
    ensures StoredFields(sql, columns, row) == None
  {
    var n := |columns| - 1;
    if i < n {
      assert columns[..n][i] == columns[i];
      StoredFails(sql, columns[..n], row, i);
    }
  }

  // Writing the metadata columns by name stores exactly the fields of a full-row write.
  lemma WriteRefines(sql: Sqlite, def: TableDef, t: Table, row: Fields)
    requires Agrees(def, t) && SoundColumns(sql, def.columns)
    ensures var cells := Written(sql, t.columns, ColumnNames(def.columns), SqlValues(def.columns, row), |def.columns|);
            StoredFields(sql, def.columns, row) == if cells == None then None
              else Some(DecodedRow(def.columns, cells.value))
  {
    WrittenIsInOrder(sql, def, t, row, |def.columns|);
    var cells := Written(sql, t.columns, ColumnNames(def.columns), SqlValues(def.columns, row), |def.columns|);
    if cells == None {
      var i :| 0 <= i < |def.columns| && CellFor(sql, def.columns[i], row) == None;
      StoredFails(sql, def.columns, row, i);
    } else {
      StoredIsDecoded(sql, def.columns, row, cells.value);
    }
  }

  lemma NotNullRefines(sql: Sqlite, def: TableDef, t: Table, cells: seq<Cell>, row: Fields)
    requires |t.columns| == |def.columns| == |cells| && SoundColumns(sql, def.columns)
             && row == DecodedRow(def.columns, cells)
    ensures BreaksNotNull(t.columns, cells) <==> exists name :: name in Strict(def, t) && Get(row, name) == Null
  {
    if BreaksNotNull(t.columns, cells) {
      var i :| 0 <= i < |t.columns| && t.columns[i].notNull && cells[i] == NullCell;
      DecodedAt(sql, def.columns, cells, i);
      var name := def.columns[i].name;
      assert name in Strict(def, t) && Get(row, name) == Null;
    }
    if name :| name in Strict(def, t) && Get(row, name) == Null {
      var i :| 0 <= i < |def.columns| && t.columns[i].notNull && def.columns[i].name == name;
      DecodedAt(sql, def.columns, cells, i);
      assert cells[i] == NullCell;
    }
  }

  // Selecting the metadata columns by name reads the whole row in order.
  lemma SelectRefines(sql: Sqlite, def: TableDef, t: Table, cells: seq<Cell>)
    requires Agrees(def, t) && SoundColumns(sql, def.columns) && |cells| == |t.columns|
    ensures Resolvable(sql, t.columns, ColumnNames(def.columns))
    ensures Selected(sql, t.columns, cells, ColumnNames(def.columns)) == cells
  {
    forall i | 0 <= i < |def.columns| ensures Resolve(sql, t.columns, ColumnNames(def.columns)[i]) == Some(i) {
      NamesResolve(sql, def, t, i);
    }
  }

  /* ---------- The whole database ---------- */

  datatype Database = Database(meta: map<string, TableDef>, tables: map<string, Table>)

  ghost function Idents(sql: Sqlite, meta: map<string, TableDef>): set<string> {
    set name | name in meta :: sql.ident(name)
  }

  ghost predicate Linked(sql: Sqlite, db: Database) {
    && db.tables.Keys == Idents(sql, db.meta)
    && (forall name :: name in db.meta ==>
        sql.ident(name) in db.tables && Agrees(db.meta[name], db.tables[sql.ident(name)]))
    && (forall a, b :: a in db.meta && b in db.meta && a != b ==> sql.ident(a) != sql.ident(b))
  }

  // The plain map of maps a database stands for.
  ghost function ViewOf(sql: Sqlite, db: Database): Catalog
    requires Linked(sql, db)
  {
    map name | name in db.meta :: EntityOf(db.meta[name], db.tables[sql.ident(name)])
  }

  function WithTable(sql: Sqlite, db: Database, name: string, def: TableDef, t: Table): Database {
    Database(db.meta[name := def], db.tables[sql.ident(name) := t])
  }

  lemma IdentsWith(sql: Sqlite, meta: map<string, TableDef>, name: string, def: TableDef)
    ensures Idents(sql, meta[name := def]) == Idents(sql, meta) + {sql.ident(name)}
  {
    var meta' := meta[name := def];
    forall n | n in meta ensures sql.ident(n) in Idents(sql, meta') { assert n in meta'; }
    assert name in meta';
  }

  lemma IdentsWithout(sql: Sqlite, meta: map<string, TableDef>, name: string)
    requires name in meta && forall other :: other in meta && other != name ==> sql.ident(other) != sql.ident(name)
    ensures Idents(sql, meta - {name}) == Idents(sql, meta) - {sql.ident(name)}
  {
    var meta' := meta - {name};
    forall n | n in meta && n != name ensures sql.ident(n) in Idents(sql, meta') { assert n in meta'; }
  }

  lemma WithTableLinks(sql: Sqlite, db: Database, name: string, def: TableDef, t: Table)
    requires Linked(sql, db) && Agrees(def, t)
    requires forall other :: other in db.meta && other != name ==> sql.ident(other) != sql.ident(name)
    ensures Linked(sql, WithTable(sql, db, name, def, t))
  {
    hide Agrees, Idents;
    var db' := WithTable(sql, db, name, def, t);
    IdentsWith(sql, db.meta, name, def);
    forall n | n in db'.meta ensures sql.ident(n) in db'.tables && Agrees(db'.meta[n], db'.tables[sql.ident(n)]) {
      if n != name { assert Agrees(db.meta[n], db.tables[sql.ident(n)]); }
    }
    forall a, b | a in db'.meta && b in db'.meta && a != b ensures sql.ident(a) != sql.ident(b) { }
  }

  lemma WithTableRefines(sql: Sqlite, db: Database, name: string, def: TableDef, t: Table)
    requires Linked(sql, db) && Agrees(def, t)
    requires forall other :: other in db.meta && other != name ==> sql.ident(other) != sql.ident(name)
    ensures Linked(sql, WithTable(sql, db, name, def, t))
    ensures ViewOf(sql, WithTable(sql, db, name, def, t)) == ViewOf(sql, db)[name := EntityOf(def, t)]
  {
    WithTableLinks(sql, db, name, def, t);
    WithTableViews(sql, db, WithTable(sql, db, name, def, t), name, def, t);
  }

  lemma WithTableViews(sql: Sqlite, db: Database, db': Database, name: string, def: TableDef, t: Table)
    requires Linked(sql, db) && Linked(sql, db') && Agrees(def, t)
    requires db'.meta == db.meta[name := def] && sql.ident(name) in db'.tables && db'.tables[sql.ident(name)] == t
    requires forall n :: n in db.meta && n != name ==>
             sql.ident(n) in db'.tables && db'.tables[sql.ident(n)] == db.tables[sql.ident(n)]
    ensures ViewOf(sql, db') == ViewOf(sql, db)[name := EntityOf(def, t)]
  {
    var view, view' := ViewOf(sql, db)[name := EntityOf(def, t)], ViewOf(sql, db');
    ViewKeys(sql, db);
    ViewKeys(sql, db');
    forall n | n in view' ensures view'[n] == view[n] {
      if n != name { OtherTableViews(sql, db, db', n); }
    }
    SameCatalogs(view', view);
  }

  lemma ViewKeys(sql: Sqlite, db: Database)
    requires Linked(sql, db)
    ensures ViewOf(sql, db).Keys == db.meta.Keys
  {
  }

  lemma SameCatalogs(a: Catalog, b: Catalog)
    requires a.Keys == b.Keys && forall name :: name in a ==> a[name] == b[name]
    ensures a == b
  {
  }

  lemma OtherTableViews(sql: Sqlite, db: Database, db': Database, name: string)
    requires Linked(sql, db) && Linked(sql, db') && name in db.meta && name in db'.meta
    requires db'.meta[name] == db.meta[name] && db'.tables[sql.ident(name)] == db.tables[sql.ident(name)]
    ensures ViewOf(sql, db')[name] == ViewOf(sql, db)[name]
  {
  }

  lemma WithoutTableRefines(sql: Sqlite, db: Database, name: string)
    requires Linked(sql, db) && name in db.meta
    ensures var db' := Database(db.meta - {name}, db.tables - {sql.ident(name)});
            Linked(sql, db') && ViewOf(sql, db') == ViewOf(sql, db) - {name}
  {
    var db' := Database(db.meta - {name}, db.tables - {sql.ident(name)});
    IdentsWithout(sql, db.meta, name);
    forall n | n in db'.meta ensures sql.ident(n) in db'.tables && Agrees(db'.meta[n], db'.tables[sql.ident(n)]) {
      assert sql.ident(n) != sql.ident(name);
    }
    assert Linked(sql, db');
    var view, view' := ViewOf(sql, db) - {name}, ViewOf(sql, db');
    ViewKeys(sql, db);
    ViewKeys(sql, db');
    forall n | n in view' ensures view'[n] == view[n] {
      OtherTableViews(sql, db, db', n);
    }
    SameCatalogs(view', view);
  }

  lemma SameNames(sql: Sqlite, a: seq<Column>, b: seq<Column>, name: string)
    requires |a| == |b| && forall i :: 0 <= i < |a| ==> a[i].name == b[i].name
    ensures AcceptsName(sql, a, name) <==> AcceptsName(sql, b, name)
  {
  }

  // The renamed and the remaining metadata columns as the comprehensions compute them.
  function RenameIn(columns: seq<ColumnDef>, oldName: string, newName: string): seq<ColumnDef> {
    seq(|columns|, i requires 0 <= i < |columns| => if columns[i].name == oldName then columns[i].(name := newName)
        else columns[i])
  }

  function OthersOf(columns: seq<ColumnDef>, name: string): seq<ColumnDef> {
    if columns == [] then []
    else if columns[0].name == name then OthersOf(columns[1..], name)
    else [columns[0]] + OthersOf(columns[1..], name)
  }

  lemma {:induction false} OthersWithoutMatch(columns: seq<ColumnDef>, name: string)
    requires !HasColumn(columns, name)
    ensures OthersOf(columns, name) == columns
  {
    if columns != [] {
      assert columns[0].name != name;
      assert forall i :: 0 <= i < |columns| - 1 ==> columns[1..][i] == columns[i + 1];
      OthersWithoutMatch(columns[1..], name);
    }
  }

  lemma {:induction false} OthersIsWithout(columns: seq<ColumnDef>, i: nat)
    requires i < |columns| && forall j :: 0 <= j < |columns| && j != i ==> columns[j].name != columns[i].name
    ensures OthersOf(columns, columns[i].name) == Without(columns, i)
  {
    assert forall j :: 0 <= j < |columns| - 1 ==> columns[1..][j] == columns[j + 1];
    if i == 0 {
      OthersWithoutMatch(columns[1..], columns[0].name);
    } else {
      OthersIsWithout(columns[1..], i - 1);
      assert Without(columns, i) == [columns[0]] + Without(columns[1..], i - 1);
    }
  }

  /* ---------- Each statement pair refines its operation ---------- */

  ghost predicate Sound(sql: Sqlite, db: Database) {
    Linked(sql, db) && SoundCatalog(sql, ViewOf(sql, db))
  }

  // The database after an operation stands for the catalog after it.
  ghost predicate Realizes(sql: Sqlite, outcome: Result<Catalog, Error>, db': Database) {
    outcome.Success? && Sound(sql, db') && ViewOf(sql, db') == outcome.value
  }

  lemma ChangedTableRealizes(sql: Sqlite, db: Database, table: string, def: TableDef, t: Table, op: Op)
    requires Sound(sql, db) && table in db.meta && Agrees(def, t)
    requires Applied(sql, ViewOf(sql, db), op) == Success(ViewOf(sql, db)[table := EntityOf(def, t)])
    ensures Realizes(sql, Applied(sql, ViewOf(sql, db), op), WithTable(sql, db, table, def, t))
  {
    WithTableRefines(sql, db, table, def, t);
    AppliedIsSound(sql, ViewOf(sql, db), op);
  }

  function NewTable(def: TableDef): Table {
    Table(def.idType == AutoIncrement, PhysicalColumns(def.columns), map[], 0)
  }

  lemma NewTableIsCreated(def: TableDef)
    ensures Agrees(def, NewTable(def)) && EntityOf(def, NewTable(def)) == Created(def)
  {
    CreatedStrict(def);
    assert EntityOf(def, NewTable(def)).rows == map[];
  }

  lemma CreateRealizes(sql: Sqlite, db: Database, def: TableDef)
    requires Sound(sql, db) && CreateError(sql, ViewOf(sql, db), def) == None
    ensures Realizes(sql, OnCreate(sql, ViewOf(sql, db), def), WithTable(sql, db, def.tableName, def, NewTable(def)))
  {
    var cat := ViewOf(sql, db);
    NewTableIsCreated(def);
    assert AcceptsTable(sql, cat, def);
    forall other | other in db.meta ensures sql.ident(other) != sql.ident(def.tableName) {
      assert other in cat;
    }
    WithTableRefines(sql, db, def.tableName, def, NewTable(def));
    NewTableIsSound(sql, cat, def);
    AppliedCreate(sql, cat, def);
  }

  lemma AppliedCreate(sql: Sqlite, cat: Catalog, def: TableDef)
    requires CreateError(sql, cat, def) == None
    ensures OnCreate(sql, cat, def) == Success(cat[def.tableName := Created(def)])
  {
  }

  predicate LinkClaimed(db: Database, link: string) {
    exists name :: name in db.meta && db.meta[name].toolLinked == Some(link)
  }

  // The checks of table creation as the repository makes them, on metadata and physical tables.
  function CreateCheck(sql: Sqlite, db: Database, def: TableDef): Option<Error> {
    if !sql.validIdentifier(def.tableName) || !ValidNames(sql, def.columns) then Some(InvalidConfig)
    else if HasColumn(def.columns, "id") then Some(InvalidConfig)
    else if def.toolLinked.Some? && !MeetsLink(def.toolLinked, def.columns) then Some(InvalidToolLink)
    else if def.toolLinked.Some? && LinkClaimed(db, def.toolLinked.value) then Some(InvalidToolLink)
    else if def.tableName in db.meta then Some(TableExists)
    else if sql.refusesTable(sql.ident(def.tableName)) || sql.ident(def.tableName) in db.tables
            || !AcceptsColumns(sql, PhysicalColumns(def.columns)) then Some(SqlRefused)
    else None
  }

  lemma CreateCheckIsError(sql: Sqlite, db: Database, def: TableDef)
    requires Linked(sql, db)
    ensures CreateCheck(sql, db, def) == CreateError(sql, ViewOf(sql, db), def)
  {
    TakenExactly(sql, db, def.tableName);
    if def.toolLinked.Some? {
      ClaimedExactly(sql, db, def.toolLinked.value);
    }
  }

  lemma ClaimedExactly(sql: Sqlite, db: Database, link: string)
    requires Linked(sql, db)
    ensures LinkClaimed(db, link) <==> ClaimedIn(ViewOf(sql, db), link)
  {
    var cat := ViewOf(sql, db);
    if name :| name in db.meta && db.meta[name].toolLinked == Some(link) {
      assert name in cat && cat[name].def.toolLinked == Some(link);
    }
    if name :| name in cat && cat[name].def.toolLinked == Some(link) {
      assert name in db.meta && db.meta[name].toolLinked == Some(link);
    }
  }

  // A physical table of that name exists exactly when some table of the catalog has an equal name.
  lemma TakenExactly(sql: Sqlite, db: Database, name: string)
    requires Linked(sql, db)
    ensures sql.ident(name) in db.tables <==>
            !forall other :: other in ViewOf(sql, db) ==> sql.ident(other) != sql.ident(name)
  {
    if sql.ident(name) in db.tables {
      var other :| other in db.meta && sql.ident(other) == sql.ident(name);
      assert other in ViewOf(sql, db);
    }
  }

  lemma AddRealizes(sql: Sqlite, db: Database, table: string, c: ColumnDef)
    requires Sound(sql, db) && table in db.meta
    requires AddError(sql, EntityOf(db.meta[table], db.tables[sql.ident(table)]), c) == None
    ensures var def, t := db.meta[table], db.tables[sql.ident(table)];
            Realizes(sql, OnAdd(sql, ViewOf(sql, db), table, c),
                     WithTable(sql, db, table, def.(columns := def.columns + [c]),
                               WithColumn(t, Column(c.name, SqlTypeOf(c.ctype), false))))
  {
    var def, t := db.meta[table], db.tables[sql.ident(table)];
    AddRefines(sql, def, t, c);
    ChangedTableRealizes(sql, db, table, def.(columns := def.columns + [c]),
                         WithColumn(t, Column(c.name, SqlTypeOf(c.ctype), false)), Op.AddColumn(table, c));
  }

  lemma RenamedTable(sql: Sqlite, def: TableDef, t: Table, oldName: string, newName: string, i: nat)
    requires Agrees(def, t) && SoundColumns(sql, def.columns)
    requires RenameError(sql, EntityOf(def, t), oldName, newName) == None && i == IndexOf(def.columns, oldName)
    ensures var def', t' := def.(columns := RenameIn(def.columns, oldName, newName)), WithName(t, i, newName);
            Agrees(def', t') && EntityOf(def', t') == Renamed(EntityOf(def, t), oldName, newName)
  {
    RenameInIsUpdate(sql, def.columns, i, newName);
    RenamedColumns(sql, def.columns, i, newName);
    RenameRefines(sql, def, t, i, newName);
  }

  lemma AppliedRename(sql: Sqlite, cat: Catalog, table: string, oldName: string, newName: string)
    requires table in cat && RenameError(sql, cat[table], oldName, newName) == None
    ensures Applied(sql, cat, Op.RenameColumn(table, oldName, newName)) == OnRename(sql, cat, table, oldName, newName)
            == Success(cat[table := Renamed(cat[table], oldName, newName)])
  {
  }

  lemma AppliedDropColumn(sql: Sqlite, cat: Catalog, table: string, name: string)
    requires table in cat && DropColumnError(cat[table], name) == None
    ensures Applied(sql, cat, Op.DropColumn(table, name)) == OnDropColumn(cat, table, name)
            == Success(cat[table := ColumnDropped(cat[table], name)])
  {
  }

  lemma RenameRealizes(sql: Sqlite, db: Database, table: string, oldName: string, newName: string)
    requires Sound(sql, db) && table in db.meta
    requires RenameError(sql, EntityOf(db.meta[table], db.tables[sql.ident(table)]), oldName, newName) == None
    ensures var def, t := db.meta[table], db.tables[sql.ident(table)];
            var i := IndexOf(def.columns, oldName);
            && Resolve(sql, t.columns, oldName) == Some(i)
            && Realizes(sql, OnRename(sql, ViewOf(sql, db), table, oldName, newName),
                        WithTable(sql, db, table, def.(columns := RenameIn(def.columns, oldName, newName)),
                                  WithName(t, i, newName)))
  {
    var def, t := db.meta[table], db.tables[sql.ident(table)];
    assert SoundEntity(sql, ViewOf(sql, db)[table]);
    var i := IndexOf(def.columns, oldName);
    NamesResolve(sql, def, t, i);
    RenamedTable(sql, def, t, oldName, newName, i);
    AppliedRename(sql, ViewOf(sql, db), table, oldName, newName);
    ChangedTableRealizes(sql, db, table, def.(columns := RenameIn(def.columns, oldName, newName)),
                         WithName(t, i, newName),
                         Op.RenameColumn(table, oldName, newName));
  }

  lemma RenameInIsUpdate(sql: Sqlite, columns: seq<ColumnDef>, i: nat, newName: string)
    requires SoundColumns(sql, columns) && i < |columns|
    ensures RenameIn(columns, columns[i].name, newName) == columns[i := columns[i].(name := newName)]
  {
  }

  lemma DroppedTable(sql: Sqlite, def: TableDef, t: Table, name: string, i: nat)
    requires Agrees(def, t) && SoundColumns(sql, def.columns) && HasColumn(def.columns, name)
             && i == IndexOf(def.columns, name)
    ensures var def', t' := def.(columns := OthersOf(def.columns, name)), WithoutColumn(t, i);
            Agrees(def', t') && EntityOf(def', t') == ColumnDropped(EntityOf(def, t), name)
  {
    forall j | 0 <= j < |def.columns| && j != i ensures def.columns[j].name != def.columns[i].name { }
    OthersIsWithout(def.columns, i);
    DropRefines(sql, def, t, i);
  }

  lemma DropColumnRealizes(sql: Sqlite, db: Database, table: string, name: string)
    requires Sound(sql, db) && table in db.meta
    requires DropColumnError(EntityOf(db.meta[table], db.tables[sql.ident(table)]), name) == None
    ensures var def, t := db.meta[table], db.tables[sql.ident(table)];
            var i := IndexOf(def.columns, name);
            && Resolve(sql, t.columns, name) == Some(i)
            && Realizes(sql, OnDropColumn(ViewOf(sql, db), table, name),
                        WithTable(sql, db, table, def.(columns := OthersOf(def.columns, name)), WithoutColumn(t, i)))
  {
    var def, t := db.meta[table], db.tables[sql.ident(table)];
    assert SoundEntity(sql, ViewOf(sql, db)[table]);
    var i := IndexOf(def.columns, name);
    NamesResolve(sql, def, t, i);
    DroppedTable(sql, def, t, name, i);
    AppliedDropColumn(sql, ViewOf(sql, db), table, name);
    ChangedTableRealizes(sql, db, table, def.(columns := OthersOf(def.columns, name)), WithoutColumn(t, i),
                         Op.DropColumn(table, name));
  }

  function WithRow(t: Table, id: RowId, cells: seq<Cell>): Table {
    t.(rows := t.rows[id := cells], lastId := if id.IntId? && id.n > t.lastId then id.n else t.lastId)
  }

  lemma WithRowAgrees(def: TableDef, t: Table, id: RowId, cells: seq<Cell>)
    requires Agrees(def, t) && |cells| == |t.columns|
    ensures Agrees(def, WithRow(t, id, cells)) && Strict(def, WithRow(t, id, cells)) == Strict(def, t)
  {
  }

  lemma DecodedRowsWith(columns: seq<ColumnDef>, rows: map<RowId, seq<Cell>>, id: RowId, cells: seq<Cell>)
    requires |cells| == |columns| && forall i :: i in rows ==> |rows[i]| == |columns|
    ensures var rows' := rows[id := cells];
            (map i | i in rows' :: DecodedRow(columns, rows'[i]))
            == (map i | i in rows :: DecodedRow(columns, rows[i]))[id := DecodedRow(columns, cells)]
  {
  }

  lemma WithRowRefines(def: TableDef, t: Table, id: RowId, cells: seq<Cell>)
    requires Agrees(def, t) && |cells| == |t.columns|
    ensures Agrees(def, WithRow(t, id, cells))
    ensures EntityOf(def, WithRow(t, id, cells)).rows == EntityOf(def, t).rows[id := DecodedRow(def.columns, cells)]
    ensures EntityOf(def, WithRow(t, id, cells)).strict == EntityOf(def, t).strict
  {
    WithRowAgrees(def, t, id, cells);
    hide Agrees, Strict;
    DecodedRowsWith(def.columns, t.rows, id, cells);
  }

  lemma UpsertChecks(sql: Sqlite, def: TableDef, t: Table, row: Fields, newId: string, id: Option<RowId>,
                     cells: Option<seq<Cell>>)
    requires Agrees(def, t) && SoundColumns(sql, def.columns)
    requires id == UpsertId(sql, EntityOf(def, t), row, newId)
    requires cells == Written(sql, t.columns, ColumnNames(def.columns), SqlValues(def.columns, row), |def.columns|)
    ensures UpsertError(sql, EntityOf(def, t), row, newId)
            == if def.columns == [] || id == None || cells == None || BreaksNotNull(t.columns, cells.value) then
              Some(SqlRefused) else None
    ensures cells.Some? ==> StoredFields(sql, def.columns, row) == Some(DecodedRow(def.columns, cells.value))
  {
    WriteRefines(sql, def, t, row);
    if cells.Some? {
      NotNullRefines(sql, def, t, cells.value, DecodedRow(def.columns, cells.value));
    }
  }

  lemma UpsertRealizes(sql: Sqlite, db: Database, table: string, row: Fields, newId: string, id: RowId,
                       cells: seq<Cell>)
    requires Sound(sql, db) && table in db.meta
    requires var def, t := db.meta[table], db.tables[sql.ident(table)];
             && |cells| == |def.columns|
             && UpsertError(sql, EntityOf(def, t), row, newId) == None
             && UpsertId(sql, EntityOf(def, t), row, newId) == Some(id)
             && StoredFields(sql, def.columns, row) == Some(DecodedRow(def.columns, cells))
    ensures var def, t := db.meta[table], db.tables[sql.ident(table)];
            Realizes(sql, OnUpsert(sql, ViewOf(sql, db), table, row, newId),
                     WithTable(sql, db, table, def, WithRow(t, id, cells)))
  {
    hide SoundCatalog, Idents, MeetsLink;
    var def, t := db.meta[table], db.tables[sql.ident(table)];
    var e := EntityOf(def, t);
    WithRowRefines(def, t, id, cells);
    assert EntityOf(def, WithRow(t, id, cells)) == Upserted(sql, e, row, newId);
    assert ViewOf(sql, db)[table] == e;
    ChangedTableRealizes(sql, db, table, def, WithRow(t, id, cells), Op.UpsertRow(table, row, newId));
  }

  function WithoutRow(t: Table, id: RowId): Table {
    t.(rows := t.rows - {id})
  }

  lemma WithoutRowRefines(def: TableDef, t: Table, id: RowId)
    requires Agrees(def, t)
    ensures Agrees(def, WithoutRow(t, id))
    ensures EntityOf(def, WithoutRow(t, id)) == EntityOf(def, t).(rows := EntityOf(def, t).rows - {id})
  {
    assert EntityOf(def, WithoutRow(t, id)).rows == EntityOf(def, t).rows - {id};
  }

  lemma DeletedRowIs(sql: Sqlite, def: TableDef, t: Table, id: Value, key: RowId)
    requires Agrees(def, t) && IdOf(sql, t.autoIncrement, id) == Some(key)
    ensures RowDeleted(sql, EntityOf(def, t), id) == EntityOf(def, WithoutRow(t, key))
  {
    WithoutRowRefines(def, t, key);
  }

  lemma DeleteRealizes(sql: Sqlite, db: Database, table: string, id: Value, key: RowId)
    requires Sound(sql, db) && table in db.meta && !id.Structure?
    requires IdOf(sql, db.tables[sql.ident(table)].autoIncrement, id) == Some(key)
    ensures var def, t := db.meta[table], db.tables[sql.ident(table)];
            Realizes(sql, OnDeleteRow(sql, ViewOf(sql, db), table, id),
                     WithTable(sql, db, table, def, WithoutRow(t, key)))
  {
    hide WithTable, Realizes;
    var def, t := db.meta[table], db.tables[sql.ident(table)];
    assert ViewOf(sql, db)[table] == EntityOf(def, t);
    DeletedRowIs(sql, def, t, id, key);
    hide EntityOf, RowDeleted, WithoutRow, IdOf;
    ChangedTableRealizes(sql, db, table, def, WithoutRow(t, key), Op.DeleteRow(table, id));
  }

  lemma DeleteMisses(sql: Sqlite, cat: Catalog, table: string, id: Value)
    requires table in cat && !id.Structure?
    requires var key := LookupId(sql, cat[table], id); key == None || key.value !in cat[table].rows
    ensures OnDeleteRow(sql, cat, table, id) == Success(cat)
  {
    assert RowDeleted(sql, cat[table], id).rows == cat[table].rows;
    assert cat[table := cat[table]] == cat;
  }

  ghost function RowsOf(def: TableDef, t: Table, ids: set<RowId>): map<RowId, Fields>
    requires Agrees(def, t) && ids <= t.rows.Keys
  {
    map id | id in ids :: DecodedRow(def.columns, t.rows[id])
  }

  lemma RowsOfStep(def: TableDef, t: Table, ids: set<RowId>, id: RowId)
    requires Agrees(def, t) && ids <= t.rows.Keys && id in t.rows
    ensures RowsOf(def, t, ids + {id}) == RowsOf(def, t, ids)[id := DecodedRow(def.columns, t.rows[id])]
  {
  }

  lemma RowsOfAll(def: TableDef, t: Table)
    requires Agrees(def, t)
    ensures RowsOf(def, t, t.rows.Keys) == EntityOf(def, t).rows
  {
  }

  lemma ViewAt(sql: Sqlite, db: Database, name: string)
    requires Linked(sql, db) && name in db.meta
    ensures name in ViewOf(sql, db) && ViewOf(sql, db)[name] == EntityOf(db.meta[name], db.tables[sql.ident(name)])
  {
  }

  lemma EntitySound(sql: Sqlite, db: Database, name: string)
    requires Sound(sql, db) && name in db.meta
    ensures SoundColumns(sql, db.meta[name].columns)
  {
    assert SoundEntity(sql, ViewOf(sql, db)[name]);
  }

  /* ---------- Listings in name order ---------- */

  // The byte order of names.
  predicate Below(a: string, b: string) {
    b != "" && (a == "" || a[0] < b[0] || (a[0] == b[0] && Below(a[1..], b[1..])))
  }

  lemma {:induction false} BelowIsTotal(a: string, b: string)
    ensures Below(a, b) || Below(b, a) || a == b
  {
    if a != "" && b != "" && a[0] == b[0] {
      BelowIsTotal(a[1..], b[1..]);
      if a[1..] == b[1..] { assert a == [a[0]] + a[1..] == b; }
    }
  }

  lemma {:induction false} BelowIsTransitive(a: string, b: string, c: string)
    requires Below(a, b) && Below(b, c)
    ensures Below(a, c)
  {
    if a != "" && a[0] == b[0] == c[0] { BelowIsTransitive(a[1..], b[1..], c[1..]); }
  }

  predicate IsLeast(names: set<string>, least: string) {
    forall other :: other in names && other != least ==> Below(least, other)
  }

  lemma {:induction false} HasLeast(names: set<string>)
    requires names != {}
    ensures exists least :: least in names && IsLeast(names, least)
    decreases |names|
  {
    var name :| name in names;
    var rest := names - {name};
    if rest == {} {
      assert forall other :: other in names ==> other in rest || other == name;
      assert IsLeast(names, name);
    } else {
      HasLeast(rest);
      var least :| least in rest && IsLeast(rest, least);
      var winner := if Below(name, least) then name else least;
      forall other | other in names && other != winner ensures Below(winner, other) {
        BelowIsTotal(name, least);
        if winner == name && other != least { BelowIsTransitive(name, least, other); }
      }
      assert winner in names && IsLeast(names, winner);
    }
  }

  // The definitions of `names`, each once, in order.
  ghost predicate Lists(meta: map<string, TableDef>, names: set<string>, defs: seq<TableDef>) {
    && (forall i :: 0 <= i < |defs| ==> defs[i].tableName in names && defs[i].tableName in meta
                                        && meta[defs[i].tableName] == defs[i])
    && (forall name :: name in names ==> exists i :: 0 <= i < |defs| && defs[i].tableName == name)
    && (forall i, j :: 0 <= i < j < |defs| ==> Below(defs[i].tableName, defs[j].tableName))
  }

  ghost predicate ListsInOrder(cat: Catalog, defs: seq<TableDef>) {
    Lists(map name | name in cat :: cat[name].def, cat.Keys, defs)
  }

  lemma TablesAreNamed(sql: Sqlite, db: Database)
    requires Sound(sql, db)
    ensures forall name :: name in db.meta ==> db.meta[name].tableName == name
  {
    forall name | name in db.meta ensures db.meta[name].tableName == name {
      assert ViewOf(sql, db)[name].def == db.meta[name];
    }
  }

  method InNameOrder(meta: map<string, TableDef>) returns (defs: seq<TableDef>)
    requires forall name :: name in meta ==> meta[name].tableName == name
    ensures Lists(meta, meta.Keys, defs)
  {
    defs := [];
    ghost var done: set<string> := {};
    var left := meta.Keys;
    while left != {}
      invariant Listing(meta, done, left, defs)
      decreases |left|
    {
      HasLeast(left);
      var name :| name in left && IsLeast(left, name);
      OneMoreListed(meta, done, left, defs, name);
      defs := defs + [meta[name]];
      done, left := done + {name}, left - {name};
    }
    assert done == meta.Keys;
  }

  // The tables `done` are listed, those `left` come later in the order.
  ghost predicate Listing(meta: map<string, TableDef>, done: set<string>, left: set<string>, defs: seq<TableDef>) {
    && done !! left && done + left == meta.Keys && Lists(meta, done, defs)
    && forall i, name :: 0 <= i < |defs| && name in left ==> Below(defs[i].tableName, name)
  }

  lemma OneMoreListed(meta: map<string, TableDef>, names: set<string>, left: set<string>, defs: seq<TableDef>,
                      name: string)
    requires Listing(meta, names, left, defs) && name in left && IsLeast(left, name) && meta[name].tableName == name
    ensures Listing(meta, names + {name}, left - {name}, defs + [meta[name]])
  {
    var defs' := defs + [meta[name]];
    assert defs'[|defs|].tableName == name;
    forall other | other in names ensures exists i :: 0 <= i < |defs'| && defs'[i].tableName == other {
      var i :| 0 <= i < |defs| && defs[i].tableName == other;
      assert defs'[i].tableName == other;
    }
  }

  lemma ListedInOrder(sql: Sqlite, db: Database, defs: seq<TableDef>)
    requires Sound(sql, db) && Lists(db.meta, db.meta.Keys, defs)
    ensures ListsInOrder(ViewOf(sql, db), defs)
  {
    hide SoundEntity;
    var cat := ViewOf(sql, db);
    ViewKeys(sql, db);
    assert (map name | name in cat :: cat[name].def) == db.meta;
  }

  /* ---------- The repository ---------- */

  class SqliteEntityRepository {
    const sql: Sqlite
    var meta: map<string, TableDef>
    var tables: map<string, Table>

    constructor (sql: Sqlite)
      ensures this.sql == sql && Valid() && View() == map[]
    {
      this.sql := sql;
      meta, tables := map[], map[];
    }

    ghost function State(): Database
      reads this
    {
      Database(meta, tables)
    }

    ghost predicate Valid()
      reads this
    {
      Sound(sql, State())
    }

    ghost function View(): Catalog
      requires Valid()
      reads this
    {
      ViewOf(sql, State())
    }

    // The state after an operation, and its failure, are those of the catalog.
    ghost predicate Follows<T>(before: Catalog, outcome: Result<Catalog, Error>, result: Result<T, Error>)
      requires Valid()
      reads this
    {
      match outcome
      case Success(cat) => result.Success? && View() == cat
      case Failure(e) => result.Failure? && result.error == e && View() == before
    }

    method RequireTable(table: string) returns (result: Result<TableDef, Error>)
      requires Valid()
      ensures result == if table in View() then Success(View()[table].def) else Failure(UnknownTable)
    {
      if table !in meta {
        return Failure(UnknownTable);
      }
      return Success(meta[table]);
    }

    // By name, as the query orders them.
    method ListTables() returns (defs: seq<TableDef>)
      requires Valid()
      ensures ListsInOrder(View(), defs)
    {
      TablesAreNamed(sql, State());
      defs := InNameOrder(meta);
      ListedInOrder(sql, State(), defs);
    }

    method CreateTable(def: TableDef) returns (result: Result<(), Error>)
      requires Valid()
      modifies this
      ensures Valid() && Follows(old(View()), OnCreate(sql, old(View()), def), result)
    {
      CreateCheckIsError(sql, State(), def);
      if !sql.validIdentifier(def.tableName) || !ValidNames(sql, def.columns) {
        return Failure(InvalidConfig);
      }
      if HasColumn(def.columns, "id") {
        return Failure(InvalidConfig);
      }
      if def.toolLinked.Some? {
        if !MeetsLink(def.toolLinked, def.columns) {
          return Failure(InvalidToolLink);
        }
        if LinkClaimed(Database(meta, tables), def.toolLinked.value) {
          return Failure(InvalidToolLink);
        }
      }
      if def.tableName in meta {
        return Failure(TableExists);
      }
      if sql.refusesTable(sql.ident(def.tableName)) || sql.ident(def.tableName) in tables
         || !AcceptsColumns(sql, PhysicalColumns(def.columns)) {
        return Failure(SqlRefused);
      }
      CreateRealizes(sql, State(), def);
      tables := tables[sql.ident(def.tableName) := NewTable(def)];
      meta := meta[def.tableName := def];
      return Success(());
    }

    method DropTable(table: string) returns (result: Result<(), Error>)
      requires Valid()
      modifies this
      ensures Valid() && Follows(old(View()), OnDrop(old(View()), table), result)
    {
      var found := RequireTable(table);
      if found.Failure? {
        return Failure(found.error);
      }
      AppliedIsSound(sql, View(), Op.DropTable(table));
      WithoutTableRefines(sql, State(), table);
      tables := tables - {sql.ident(found.value.tableName)};
      meta := meta - {found.value.tableName};
      return Success(());
    }

    method AddColumn(table: string, column: ColumnDef) returns (result: Result<TableDef, Error>)
      requires Valid()
      modifies this
      ensures Valid() && Follows(old(View()), OnAdd(sql, old(View()), table, column), result)
      ensures result.Success? ==> View()[table].def == result.value
    {
      var found := RequireTable(table);
      if found.Failure? {
        return Failure(found.error);
      }
      var def := found.value;
      if !sql.validIdentifier(column.name) {
        return Failure(InvalidConfig);
      }
      if column.name == "id" || HasColumn(def.columns, column.name) {
        return Failure(ColumnExists);
      }
      var t := tables[sql.ident(table)];
      SameNames(sql, t.columns, PhysicalColumns(def.columns), column.name);
      if !AcceptsName(sql, t.columns, column.name) {
        return Failure(SqlRefused);
      }
      var def' := def.(columns := def.columns + [column]);
      AddRealizes(sql, State(), table, column);
      AlterTable(table, def', WithColumn(t, Column(column.name, SqlTypeOf(column.ctype), false)));
      return Success(def');
    }

    method RenameColumn(table: string, columnName: string, newName: string) returns (result: Result<TableDef, Error>)
      requires Valid()
      modifies this
      ensures Valid() && Follows(old(View()), OnRename(sql, old(View()), table, columnName, newName), result)
      ensures result.Success? ==> View()[table].def == result.value
    {
      var found := RequireTable(table);
      if found.Failure? {
        return Failure(found.error);
      }
      var def := found.value;
      if !sql.validIdentifier(newName) {
        return Failure(InvalidConfig);
      }
      if !HasColumn(def.columns, columnName) {
        return Failure(UnknownColumn);
      }
      if newName != columnName && HasColumn(def.columns, newName) {
        return Failure(ColumnExists);
      }
      if IsLinkedColumn(def, columnName) {
        return Failure(InvalidToolLink);
      }
      result := ExecuteRename(table, def, columnName, newName);
    }

    method ExecuteRename(table: string, def: TableDef, columnName: string, newName: string)
      returns (result: Result<TableDef, Error>)
      requires Valid() && table in meta && def == meta[table] && HasColumn(def.columns, columnName)
      requires RenameError(sql, View()[table], columnName, newName) in {None, Some(SqlRefused)}
      modifies this
      ensures Valid() && Follows(old(View()), OnRename(sql, old(View()), table, columnName, newName), result)
      ensures result.Success? ==> View()[table].def == result.value
    {
      var t := tables[sql.ident(table)];
      ghost var i := IndexOf(def.columns, columnName);
      NamesResolve(sql, def, t, i);
      var at := Resolve(sql, t.columns, columnName).value;
      RenameAccepts(sql, def, t, i, newName);
      if !AcceptsName(sql, Without(t.columns, at), newName) {
        return Failure(SqlRefused);
      }
      var def' := def.(columns := RenameIn(def.columns, columnName, newName));
      RenameRealizes(sql, State(), table, columnName, newName);
      AlterTable(table, def', WithName(t, at, newName));
      return Success(def');
    }

    method DropColumn(table: string, columnName: string) returns (result: Result<TableDef, Error>)
      requires Valid()
      modifies this
      ensures Valid() && Follows(old(View()), OnDropColumn(old(View()), table, columnName), result)
      ensures result.Success? ==> View()[table].def == result.value
    {
      var found := RequireTable(table);
      if found.Failure? {
        return Failure(found.error);
      }
      var def := found.value;
      if !HasColumn(def.columns, columnName) {
        return Failure(UnknownColumn);
      }
      if IsLinkedColumn(def, columnName) {
        return Failure(InvalidToolLink);
      }
      var t := tables[sql.ident(table)];
      DropColumnRealizes(sql, State(), table, columnName);
      var at := Resolve(sql, t.columns, columnName).value;
      var def' := def.(columns := OthersOf(def.columns, columnName));
      AlterTable(table, def', WithoutColumn(t, at));
      return Success(def');
    }

    method RowToDict(columns: seq<ColumnDef>, cells: seq<Cell>) returns (row: Fields)
      requires |cells| == |columns|
      ensures row == DecodedRow(columns, cells)
    {
      row := map[];
      for i := 0 to |columns|
        invariant row == DecodedRow(columns[..i], cells[..i])
      {
        var value := Decoded(columns[i].ctype, cells[i]);
        row := row[columns[i].name := value];
        assert columns[..i + 1][..i] == columns[..i] && cells[..i + 1][..i] == cells[..i];
      }
      assert columns[..|columns|] == columns && cells[..|cells|] == cells;
    }

    method GetRow(table: string, id: Value) returns (result: Result<Option<Fields>, Error>)
      requires Valid()
      ensures table !in View() ==> result == Failure(UnknownTable)
      ensures table in View() ==>
                var e := View()[table]; var key := LookupId(sql, e, id);
                result == if id.Structure? then Failure(SqlRefused)
                          else Success(if key.Some? && key.value in e.rows then Some(e.rows[key.value]) else None)
    {
      var found := RequireTable(table);
      if found.Failure? {
        return Failure(found.error);
      }
      if id.Structure? {
        return Failure(SqlRefused);
      }
      var def, t := found.value, tables[sql.ident(table)];
      var key := IdOf(sql, t.autoIncrement, id);
      if key == None || key.value !in t.rows {
        return Success(None);
      }
      SelectRefines(sql, def, t, t.rows[key.value]);
      var row := RowToDict(def.columns, Selected(sql, t.columns, t.rows[key.value], ColumnNames(def.columns)));
      return Success(Some(row));
    }

    method ListRows(table: string) returns (result: Result<map<RowId, Fields>, Error>)
      requires Valid()
      ensures result == if table in View() then Success(View()[table].rows) else Failure(UnknownTable)
    {
      var found := RequireTable(table);
      if found.Failure? {
        return Failure(found.error);
      }
      var def, t := found.value, tables[sql.ident(table)];
      var rows := map[];
      var left := t.rows.Keys;
      while left != {}
        invariant left <= t.rows.Keys
        invariant rows == RowsOf(def, t, t.rows.Keys - left)
        decreases |left|
      {
        var id :| id in left;
        RowsOfStep(def, t, t.rows.Keys - left, id);
        assert t.rows.Keys - (left - {id}) == t.rows.Keys - left + {id};
        SelectRefines(sql, def, t, t.rows[id]);
        var row := RowToDict(def.columns, Selected(sql, t.columns, t.rows[id], ColumnNames(def.columns)));
        rows := rows[id := row];
        left := left - {id};
      }
      assert t.rows.Keys - left == t.rows.Keys;
      RowsOfAll(def, t);
      return Success(rows);
    }

    method UpsertRow(table: string, row: Fields, newId: string) returns (result: Result<(RowId, Fields), Error>)
      requires Valid()
      modifies this
      ensures Valid() && Follows(old(View()), OnUpsert(sql, old(View()), table, row, newId), result)
      ensures result.Success? ==>
                && Some(result.value.0) == UpsertId(sql, old(View())[table], row, newId)
                && Some(result.value.1) == StoredFields(sql, old(View())[table].def.columns, row)
    {
      hide IdOf, Kept, Decoded;
      var found := RequireTable(table);
      if found.Failure? {
        return Failure(found.error);
      }
      ViewAt(sql, State(), table);
      ghost var e := View()[table];
      result := ExecuteUpsert(table, row, newId);
      assert result.Success? ==> Some(result.value.0) == UpsertId(sql, e, row, newId);
    }

    method ExecuteUpsert(table: string, row: Fields, newId: string) returns (result: Result<(RowId, Fields), Error>)
      requires Valid() && table in meta
      modifies this`tables
      ensures Valid()
      ensures var e := EntityOf(old(meta[table]), old(tables[sql.ident(table)]));
              match UpsertError(sql, e, row, newId)
              case Some(error) => result == Failure(error) && State() == old(State())
              case None =>
                && Realizes(sql, OnUpsert(sql, ViewOf(sql, old(State())), table, row, newId), State())
                && result.Success? && Some(result.value.0) == UpsertId(sql, e, row, newId)
                && Some(result.value.1) == StoredFields(sql, e.def.columns, row)
    {
      hide Strict, SoundCatalog, Idents;
      var def, t := meta[table], tables[sql.ident(table)];
      EntitySound(sql, State(), table);
      var id := AssignId(def, t, row, newId);
      var cells := Written(sql, t.columns, ColumnNames(def.columns), SqlValues(def.columns, row), |def.columns|);
      UpsertChecks(sql, def, t, row, newId, id, cells);
      if def.columns == [] || id == None || cells == None || BreaksNotNull(t.columns, cells.value) {
        return Failure(SqlRefused);
      }
      var stored := RowToDict(def.columns, cells.value);
      UpsertRealizes(sql, State(), table, row, newId, id.value, cells.value);
      PutTable(table, WithRow(t, id.value, cells.value));
      return Success((id.value, stored));
    }

    method AssignId(def: TableDef, t: Table, row: Fields, newId: string) returns (id: Option<RowId>)
      requires Agrees(def, t)
      ensures id == UpsertId(sql, EntityOf(def, t), row, newId)
    {
      var provided := Get(row, "id");
      if provided == Null && def.idType == AutoIncrement {
        return Some(IntId(t.lastId + 1));
      }
      return IdOf(sql, t.autoIncrement, if Truthy(provided) then provided else Text(newId));
    }

    // ALTER TABLE, then the metadata.
    method AlterTable(table: string, def: TableDef, t: Table)
      modifies this
      ensures State() == WithTable(sql, old(State()), table, def, t)
    {
      tables := tables[sql.ident(table) := t];
      meta := meta[table := def];
    }

    // Execute a statement that leaves table `table` as `t`.
    method PutTable(table: string, t: Table)
      requires table in meta
      modifies this`tables
      ensures State() == WithTable(sql, old(State()), table, meta[table], t)
    {
      tables := tables[sql.ident(table) := t];
      assert meta == meta[table := meta[table]];
    }

    method DeleteRow(table: string, id: Value) returns (result: Result<bool, Error>)
      requires Valid()
      modifies this
      ensures Valid() && Follows(old(View()), OnDeleteRow(sql, old(View()), table, id), result)
      ensures result.Success? ==>
                var key := LookupId(sql, old(View())[table], id);
                result.value <==> key.Some? && key.value in old(View())[table].rows
    {
      var found := RequireTable(table);
      if found.Failure? {
        return Failure(found.error);
      }
      if id.Structure? {
        return Failure(SqlRefused);
      }
      ViewAt(sql, State(), table);
      var removed := ExecuteDelete(table, id);
      return Success(removed);
    }

    method ExecuteDelete(table: string, id: Value) returns (removed: bool)
      requires Valid() && table in meta && !id.Structure?
      modifies this`tables
      ensures Valid() && OnDeleteRow(sql, old(View()), table, id) == Success(View())
      ensures var key := IdOf(sql, old(tables[sql.ident(table)]).autoIncrement, id);
              removed <==> key.Some? && key.value in old(tables[sql.ident(table)]).rows
    {
      var t := tables[sql.ident(table)];
      var key := IdOf(sql, t.autoIncrement, id);
      ViewAt(sql, State(), table);
      if key == None || key.value !in t.rows {
        DeleteMisses(sql, View(), table, id);
        return false;
      }
      DeleteRealizes(sql, State(), table, id, key.value);
      PutTable(table, WithoutRow(t, key.value));
      return true;
    }
  }

  lemma RenameAccepts(sql: Sqlite, def: TableDef, t: Table, i: nat, name: string)
    requires Agrees(def, t) && i < |def.columns|
    ensures AcceptsName(sql, Without(t.columns, i), name) <==>
            AcceptsName(sql, PhysicalColumns(Without(def.columns, i)), name)
  {
    WithoutAt(def.columns, i);
    WithoutAt(t.columns, i);
    SameNames(sql, Without(t.columns, i), PhysicalColumns(Without(def.columns, i)), name);
  }

  lemma CreatedStrict(def: TableDef)
    ensures Strict(def, Table(def.idType == AutoIncrement, PhysicalColumns(def.columns), map[], 0))
            == Created(def).strict
  {
    var t := Table(def.idType == AutoIncrement, PhysicalColumns(def.columns), map[], 0);
    forall name | name in Created(def).strict ensures name in Strict(def, t) {
      var i :| 0 <= i < |def.columns| && def.columns[i].required && def.columns[i].name == name;
      assert t.columns[i].notNull;
    }
  }
}
