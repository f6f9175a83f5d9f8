// The chat-facing menu over the entity table linked to it (entities/menu_repository_adapter.py,
// tools/registry.py).
module Menu {
  import opened Common
  import opened SqlEngine
  import opened Entities
  import opened EntityRepository

  datatype MenuItem = MenuItem(name: string, category: string, price: real, stock: int)

  function RowOf(item: MenuItem): Fields {
    map["id" := Text(item.name), "name" := Text(item.name), "category" := Text(item.category),
        "price" := Number(item.price), "stock_quantity" := Number(item.stock as real)]
  }

  // None is a row that is no menu item: the item's own validation raises.
  function ItemOf(row: Fields): Option<MenuItem> {
    match (Get(row, "name"), Get(row, "category"), Get(row, "price"), Get(row, "stock_quantity"))
    case (Text(name), Text(category), Number(price), Number(stock)) =>
      if stock.Floor as real == stock then Some(MenuItem(name, category, price, stock.Floor)) else None
    case _ => None
  }

  const LINK := "sqlite_menu"

  datatype MenuError = Rejected(error: Error) | InvalidItem

  /* ---------- Seeding as a fold of upserts ---------- */

  // The catalog after the first `n` items, and the failure that stopped the loop, if any.
  datatype Seeding = Seeding(cat: Catalog, error: Option<Error>)

  function SeedStep(sql: Sqlite, before: Seeding, table: string, row: Fields, newId: string): Seeding {
    if before.error.Some? then before
    else
      var outcome := OnUpsert(sql, before.cat, table, row, newId);
      if outcome.Success? then Seeding(outcome.value, None) else Seeding(before.cat, Some(outcome.error))
  }

  function Seeded(sql: Sqlite, cat: Catalog, table: string, rows: seq<Fields>, newIds: seq<string>, n: nat): Seeding
    requires n <= |rows| <= |newIds|
  {
    if n == 0 then Seeding(cat, None)
    else SeedStep(sql, Seeded(sql, cat, table, rows, newIds, n - 1), table, rows[n - 1], newIds[n - 1])
  }

  function RowsFor(items: seq<MenuItem>): seq<Fields> {
    seq(|items|, i requires 0 <= i < |items| => RowOf(items[i]))
  }

  lemma SeededNext(sql: Sqlite, cat: Catalog, table: string, rows: seq<Fields>, newIds: seq<string>, n: nat,
                   before: Seeding)
    requires n < |rows| <= |newIds| && before == Seeded(sql, cat, table, rows, newIds, n)
    ensures Seeded(sql, cat, table, rows, newIds, n + 1) == SeedStep(sql, before, table, rows[n], newIds[n])
  {
  }

  lemma {:induction false} FailedSeedingStays(sql: Sqlite, cat: Catalog, table: string, rows: seq<Fields>,
                                              newIds: seq<string>,
                                              n: nat, m: nat, s: Seeding)
    requires n <= m <= |rows| <= |newIds| && s == Seeded(sql, cat, table, rows, newIds, n) && s.error.Some?
    ensures Seeded(sql, cat, table, rows, newIds, m) == s
  {
    if n < m { FailedSeedingStays(sql, cat, table, rows, newIds, n, m - 1, s); }
  }

  class EntityBackedMenuRepository {
    const repository: SqliteEntityRepository
    const table: string

    constructor (repository: SqliteEntityRepository, table: string)
      ensures this.repository == repository && this.table == table
    {
      this.repository, this.table := repository, table;
    }

    method GetItem(name: string) returns (result: Result<Option<MenuItem>, MenuError>)
      requires repository.Valid()
      ensures result == Lookup(repository.sql, repository.View(), table, name)
    {
      var row := FindRow(name);
      if row.Failure? {
        return Failure(Rejected(row.error));
      }
      if row.value == None {
        return Success(None);
      }
      var item := ItemOf(row.value.value);
      return if item == None then Failure(InvalidItem) else Success(item);
    }

    method FindRow(name: string) returns (result: Result<Option<Fields>, Error>)
      requires repository.Valid()
      ensures result == RowAt(repository.sql, repository.View(), table, name)
    {
      result := repository.GetRow(table, Text(name));
    }

    method Seed(items: seq<MenuItem>, newIds: seq<string>) returns (error: Option<Error>)
      requires repository.Valid() && |items| <= |newIds|
      modifies repository
      ensures repository.Valid()
      ensures Seeding(repository.View(), error)
              == Seeded(repository.sql, old(repository.View()), table, RowsFor(items), newIds, |items|)
    {
      ghost var sql, cat, rows := repository.sql, repository.View(), RowsFor(items);
      error := None;
      for i := 0 to |items|
        invariant repository.Valid()
        invariant error == None
        invariant Seeding(repository.View(), None) == Seeded(sql, cat, table, rows, newIds, i)
      {
        SeededNext(sql, cat, table, rows, newIds, i, Seeding(repository.View(), None));
        error := SeedItem(RowOf(items[i]), newIds[i]);
        if error.Some? {
          FailedSeedingStays(sql, cat, table, rows, newIds, i + 1, |items|, Seeding(repository.View(), error));
          return;
        }
      }
    }

    method SeedItem(row: Fields, newId: string) returns (error: Option<Error>)
      requires repository.Valid()
      modifies repository
      ensures repository.Valid()
      ensures Seeding(repository.View(), error)
              == SeedStep(repository.sql, Seeding(old(repository.View()), None), table, row, newId)
    {
      var stored := repository.UpsertRow(table, row, newId);
      error := if stored.Failure? then Some(stored.error) else None;
    }

    method DeleteItem(name: string) returns (result: Result<bool, Error>)
      requires repository.Valid()
      modifies repository
      ensures repository.Valid()
      ensures var before := old(repository.View());
              repository.Follows(before, OnDeleteRow(repository.sql, before, table, Text(name)), result)
      ensures result.Success? ==>
                var key := LookupId(repository.sql, old(repository.View())[table], Text(name));
                result.value <==> key.Some? && key.value in old(repository.View())[table].rows
    {
      result := repository.DeleteRow(table, Text(name));
    }
  }

  function RowAt(sql: Sqlite, cat: Catalog, table: string, name: string): Result<Option<Fields>, Error> {
    if table !in cat then Failure(UnknownTable)
    else
      var key := LookupId(sql, cat[table], Text(name));
      Success(if key.Some? && key.value in cat[table].rows then Some(cat[table].rows[key.value]) else None)
  }

  function Lookup(sql: Sqlite, cat: Catalog, table: string, name: string): Result<Option<MenuItem>, MenuError> {
    var row := RowAt(sql, cat, table, name);
    if row.Failure? then Failure(Rejected(row.error))
    else if row.value == None then Success(None)
    else Read(row.value.value)
  }

  function Read(row: Fields): Result<Option<MenuItem>, MenuError> {
    if ItemOf(row) == None then Failure(InvalidItem) else Success(ItemOf(row))
  }

  // The row's own columns hold the item.
  predicate ReadsAs(row: Fields, item: MenuItem) {
    && Get(row, "name") == Text(item.name) && Get(row, "category") == Text(item.category)
    && Get(row, "price") == Number(item.price) && Get(row, "stock_quantity") == Number(item.stock as real)
  }

  lemma ItemExactly(row: Fields, item: MenuItem)
    ensures ItemOf(row) == Some(item) <==> ReadsAs(row, item)
  {
  }

  // What looking a name up answers: no such table, no row of that name, the item its row reads as, or a row that reads
  // as no item.
  lemma LookupTells(sql: Sqlite, cat: Catalog, table: string, name: string)
    ensures match Lookup(sql, cat, table, name)
            case Failure(Rejected(error)) => error == UnknownTable && table !in cat
            case Failure(InvalidItem) =>
              NamedRow(sql, cat, table, name).Some?
              && forall item :: !ReadsAs(NamedRow(sql, cat, table, name).value, item)
            case Success(None) => table in cat && NamedRow(sql, cat, table, name) == None
            case Success(Some(item)) =>
              NamedRow(sql, cat, table, name).Some? && ReadsAs(NamedRow(sql, cat, table, name).value, item)
  {
    var row := NamedRow(sql, cat, table, name);
    if row.Some? {
      forall item ensures ItemOf(row.value) == Some(item) <==> ReadsAs(row.value, item) {
        ItemExactly(row.value, item);
      }
    }
  }

  // The row whose id is the name.
  function NamedRow(sql: Sqlite, cat: Catalog, table: string, name: string): Option<Fields> {
    if table !in cat then None
    else
      match LookupId(sql, cat[table], Text(name))
      case Some(id) => if id in cat[table].rows then Some(cat[table].rows[id]) else None
      case None => None
  }

  /* ---------- A menu table ---------- */

  // A table with the menu's columns, none but those refusing null.
  ghost predicate IsMenuTable(sql: Sqlite, e: Entity) {
    && SoundEntity(sql, e)
    && ProvidesAll(e.def.columns, RequiredColumns(LINK))
    && (forall name :: name in e.strict ==> name in RequiredColumns(LINK))
  }

  // ... keyed by uuid: its text ids can hold any item name.
  ghost predicate IsMenu(sql: Sqlite, e: Entity) {
    IsMenuTable(sql, e) && e.def.idType == Uuid
  }

  // The fields a seeded item is stored as.
  function StoredItem(sql: Sqlite, columns: seq<ColumnDef>, item: MenuItem): Fields {
    var fields := StoredFields(sql, columns, RowOf(item));
    if fields.Some? then fields.value else map[]
  }

  lemma {:induction false} ItemsCanBeStored(sql: Sqlite, columns: seq<ColumnDef>, item: MenuItem)
    ensures StoredFields(sql, columns, RowOf(item)).Some?
  {
    if columns != [] {
      var c := columns[|columns| - 1];
      ItemsCanBeStored(sql, columns[..|columns| - 1], item);
      assert !ToSql(c.ctype, Get(RowOf(item), c.name)).Structure?;
    }
  }

  lemma StoredField(sql: Sqlite, columns: seq<ColumnDef>, item: MenuItem, name: string, ctype: ColumnType, v: Value)
    requires SoundColumns(sql, columns) && Provides(columns, name, ctype)
    requires Get(RowOf(item), name) == v && Kept(sql, ctype, v) == Some(v)
    ensures Get(StoredItem(sql, columns, item), name) == v
  {
    ItemsCanBeStored(sql, columns, item);
    var i :| 0 <= i < |columns| && columns[i].name == name && columns[i].ctype == ctype;
    StoredFieldsAreTheRow(sql, columns, RowOf(item), i);
  }

  lemma StoredItemReadsBack(sql: Sqlite, e: Entity, item: MenuItem)
    requires IsMenuTable(sql, e)
    ensures ItemOf(StoredItem(sql, e.def.columns, item)) == Some(item)
    ensures ReadsAs(StoredItem(sql, e.def.columns, item), item)
    ensures forall name :: name in RequiredColumns(LINK) ==> Get(StoredItem(sql, e.def.columns, item), name) != Null
  {
    hide Provides, MeetsLink, SoundId;
    var columns := e.def.columns;
    var required := RequiredColumns(LINK);
    assert "name" in required && "category" in required && "price" in required && "stock_quantity" in required;
    StoredField(sql, columns, item, "name", TextColumn, Text(item.name));
    StoredField(sql, columns, item, "category", TextColumn, Text(item.category));
    StoredField(sql, columns, item, "price", NumberColumn, Number(item.price));
    StoredField(sql, columns, item, "stock_quantity", NumberColumn, Number(item.stock as real));
  }

  // An item is refused exactly when the id column cannot hold its name.
  lemma SeedsExactlyWhenNameIsAnId(sql: Sqlite, e: Entity, item: MenuItem, newId: string)
    requires IsMenuTable(sql, e) && item.name != ""
    ensures UpsertError(sql, e, RowOf(item), newId) == None <==> LookupId(sql, e, Text(item.name)).Some?
  {
    hide RequiredColumns, Decoded, SqlTypeOf;
    ItemsCanBeStored(sql, e.def.columns, item);
    StoredItemReadsBack(sql, e, item);
    HasMenuColumns(e.def.columns);
    assert UpsertId(sql, e, RowOf(item), newId) == LookupId(sql, e, Text(item.name));
  }

  // One seeded item replaces exactly the row of its name.
  lemma SeedOne(sql: Sqlite, e: Entity, item: MenuItem, newId: string)
    requires IsMenu(sql, e) && item.name != ""
    ensures UpsertError(sql, e, RowOf(item), newId) == None
    ensures Upserted(sql, e, RowOf(item), newId)
            == e.(rows := e.rows[TextId(item.name) := StoredItem(sql, e.def.columns, item)])
    ensures IsMenu(sql, Upserted(sql, e, RowOf(item), newId))
  {
    hide RequiredColumns, Decoded, SqlTypeOf;
    ItemsCanBeStored(sql, e.def.columns, item);
    StoredItemReadsBack(sql, e, item);
    HasMenuColumns(e.def.columns);
    assert UpsertId(sql, e, RowOf(item), newId) == Some(TextId(item.name));
    UpsertedIsSound(sql, e, RowOf(item), newId);
  }

  lemma HasMenuColumns(columns: seq<ColumnDef>)
    requires ProvidesAll(columns, RequiredColumns(LINK))
    ensures columns != []
  {
    assert "name" in RequiredColumns(LINK);
  }

  /* ---------- Seeding a list ---------- */

  function NamesOf(items: seq<MenuItem>): seq<string> {
    seq(|items|, i requires 0 <= i < |items| => items[i].name)
  }

  function StoredItems(sql: Sqlite, columns: seq<ColumnDef>, items: seq<MenuItem>): seq<Fields> {
    seq(|items|, i requires 0 <= i < |items| => StoredItem(sql, columns, items[i]))
  }

  // What the first `n` seeded rows add: one row per name, the last listed one winning.
  function SeedRows(names: seq<string>, stored: seq<Fields>, n: nat): map<RowId, Fields>
    requires n <= |names| == |stored|
  {
    if n == 0 then map[] else SeedRows(names, stored, n - 1)[TextId(names[n - 1]) := stored[n - 1]]
  }

  function MenuWith(e: Entity, names: seq<string>, stored: seq<Fields>, n: nat): Entity
    requires n <= |names| == |stored|
  {
    e.(rows := e.rows + SeedRows(names, stored, n))
  }

  function SeededMenu(sql: Sqlite, e: Entity, items: seq<MenuItem>): Entity {
    MenuWith(e, NamesOf(items), StoredItems(sql, e.def.columns, items), |items|)
  }

  predicate Named(items: seq<MenuItem>) {
    forall i :: 0 <= i < |items| ==> items[i].name != ""
  }

  lemma MenuWithNext(e: Entity, names: seq<string>, stored: seq<Fields>, n: nat)
    requires n < |names| == |stored|
    ensures MenuWith(e, names, stored, n + 1)
            == e.(rows := MenuWith(e, names, stored, n).rows[TextId(names[n]) := stored[n]])
  {
    var rows := SeedRows(names, stored, n);
    assert e.rows + rows[TextId(names[n]) := stored[n]] == (e.rows + rows)[TextId(names[n]) := stored[n]];
  }

  lemma MenuWithNone(e: Entity, names: seq<string>, stored: seq<Fields>)
    requires |names| == |stored|
    ensures MenuWith(e, names, stored, 0) == e
  {
    assert e.rows + map[] == e.rows;
  }

  lemma SeedStepIs(sql: Sqlite, cat: Catalog, table: string, e: Entity, item: MenuItem, newId: string)
    requires table in cat && IsMenu(sql, e) && item.name != ""
    ensures SeedStep(sql, Seeding(cat[table := e], None), table, RowOf(item), newId)
            == Seeding(cat[table := e.(rows := e.rows[TextId(item.name) := StoredItem(sql, e.def.columns, item)])],
                       None)
    ensures IsMenu(sql, e.(rows := e.rows[TextId(item.name) := StoredItem(sql, e.def.columns, item)]))
  {
    SeedOne(sql, e, item, newId);
    var e' := Upserted(sql, e, RowOf(item), newId);
    assert cat[table := e][table := e'] == cat[table := e'];
  }

  ghost predicate SeedsTo(sql: Sqlite, cat: Catalog, table: string, rows: seq<Fields>, newIds: seq<string>, n: nat,
                          m: Entity)
    requires n <= |rows| <= |newIds|
  {
    Seeded(sql, cat, table, rows, newIds, n) == Seeding(cat[table := m], None)
  }

  lemma OverlayStep(sql: Sqlite, cat: Catalog, table: string, items: seq<MenuItem>, rows: seq<Fields>,
                    newIds: seq<string>, n: nat, m: Entity)
    requires table in cat && rows == RowsFor(items) && n < |items| <= |newIds| && items[n].name != ""
    requires IsMenu(sql, m) && SeedsTo(sql, cat, table, rows, newIds, n, m)
    ensures var m' := m.(rows := m.rows[TextId(items[n].name) := StoredItem(sql, m.def.columns, items[n])]);
            SeedsTo(sql, cat, table, rows, newIds, n + 1, m') && IsMenu(sql, m')
  {
    SeededNext(sql, cat, table, rows, newIds, n, Seeding(cat[table := m], None));
    SeedStepIs(sql, cat, table, m, items[n], newIds[n]);
  }

  lemma {:induction false} SeedingIsOverlay(sql: Sqlite, cat: Catalog, table: string, items: seq<MenuItem>,
                                            rows: seq<Fields>, newIds: seq<string>,
                                            names: seq<string>, stored: seq<Fields>, n: nat)
    requires table in cat && IsMenu(sql, cat[table]) && Named(items) && n <= |items| <= |newIds|
    requires rows == RowsFor(items) && names == NamesOf(items)
             && stored == StoredItems(sql, cat[table].def.columns, items)
    ensures SeedsTo(sql, cat, table, rows, newIds, n, MenuWith(cat[table], names, stored, n))
    ensures IsMenu(sql, MenuWith(cat[table], names, stored, n))
  {
    hide SeedStep, MeetsLink, SoundId;
    if n == 0 {
      MenuWithNone(cat[table], names, stored);
      assert cat[table := cat[table]] == cat;
    } else {
      SeedingIsOverlay(sql, cat, table, items, rows, newIds, names, stored, n - 1);
      OverlayStep(sql, cat, table, items, rows, newIds, n - 1, MenuWith(cat[table], names, stored, n - 1));
      MenuWithNext(cat[table], names, stored, n - 1);
    }
  }

  // Is entry `i` the last one of its name?
  predicate IsLast(names: seq<string>, name: string, i: nat) {
    i < |names| && names[i] == name && forall j :: i < j < |names| ==> names[j] != name
  }

  lemma {:induction false} SeedRowsAt(names: seq<string>, stored: seq<Fields>, n: nat, name: string)
    requires n <= |names| == |stored|
    ensures TextId(name) in SeedRows(names, stored, n) <==> exists i: nat :: IsLast(names[..n], name, i)
    ensures forall i: nat :: IsLast(names[..n], name, i) ==>
              TextId(name) in SeedRows(names, stored, n) && SeedRows(names, stored, n)[TextId(name)] == stored[i]
  {
    if n > 0 {
      SeedRowsAt(names, stored, n - 1, name);
      var before, now := names[..n - 1], names[..n];
      assert forall i :: 0 <= i < n - 1 ==> before[i] == now[i];
      if names[n - 1] == name {
        assert IsLast(now, name, n - 1);
        assert forall i: nat :: IsLast(now, name, i) ==> i == n - 1;
      } else {
        forall i: nat ensures IsLast(now, name, i) <==> IsLast(before, name, i) {
          if IsLast(now, name, i) { assert i < n - 1; }
          if IsLast(before, name, i) { assert forall j :: i < j < n ==> j == n - 1 || now[j] == before[j]; }
        }
      }
    }
  }

  lemma {:induction false} SeedRowsKeys(names: seq<string>, stored: seq<Fields>, n: nat)
    requires n <= |names| == |stored|
    ensures SeedRows(names, stored, n).Keys == set i | 0 <= i < n :: TextId(names[i])
  {
    if n > 0 { SeedRowsKeys(names, stored, n - 1); }
  }

  // Looking a name up in a uuid-keyed table reads the row of that name.
  lemma MenuLookup(sql: Sqlite, cat: Catalog, table: string, name: string)
    requires table in cat && cat[table].def.idType == Uuid
    ensures Lookup(sql, cat, table, name)
            == if TextId(name) !in cat[table].rows then Success(None) else Read(cat[table].rows[TextId(name)])
  {
    assert LookupId(sql, cat[table], Text(name)) == Some(TextId(name));
  }

  lemma SeededRow(e: Entity, names: seq<string>, stored: seq<Fields>, name: string, e': Entity)
    requires |names| == |stored| && e' == MenuWith(e, names, stored, |names|)
    ensures forall i: nat :: IsLast(names, name, i) ==> TextId(name) in e'.rows && e'.rows[TextId(name)] == stored[i]
    ensures (forall i: nat :: !IsLast(names, name, i)) ==>
              (TextId(name) in e'.rows <==> TextId(name) in e.rows)
              && (TextId(name) in e.rows ==> e'.rows[TextId(name)] == e.rows[TextId(name)])
    ensures e'.rows.Keys == e.rows.Keys + set i | 0 <= i < |names| :: TextId(names[i])
  {
    SeedRowsAt(names, stored, |names|, name);
    SeedRowsKeys(names, stored, |names|);
    assert names[..|names|] == names;
  }

  // Seeding a list gives the last listed item per name, leaves other names alone, and keeps one row per name.
  lemma SeedThenGet(sql: Sqlite, cat: Catalog, table: string, items: seq<MenuItem>, newIds: seq<string>,
                    name: string, after: Seeding, names: seq<string>)
    requires table in cat && IsMenu(sql, cat[table]) && Named(items) && |items| <= |newIds| && names == NamesOf(items)
    requires after == Seeded(sql, cat, table, RowsFor(items), newIds, |items|)
    ensures after.error == None && table in after.cat
    ensures forall i: nat :: IsLast(names, name, i) ==> Lookup(sql, after.cat, table, name) == Success(Some(items[i]))
    ensures (forall i: nat :: !IsLast(names, name, i)) ==>
            Lookup(sql, after.cat, table, name) == Lookup(sql, cat, table, name)
    ensures after.cat[table].rows.Keys == cat[table].rows.Keys + set i | 0 <= i < |names| :: TextId(names[i])
  {
    var e := cat[table];
    var stored := StoredItems(sql, e.def.columns, items);
    SeedingIsOverlay(sql, cat, table, items, RowsFor(items), newIds, names, stored, |items|);
    SeededRow(e, names, stored, name, after.cat[table]);
    MenuLookup(sql, after.cat, table, name);
    MenuLookup(sql, cat, table, name);
    forall i: nat | IsLast(names, name, i)
      ensures Read(stored[i]) == Success(Some(items[i]))
    {
      StoredItemReadsBack(sql, e, items[i]);
    }
  }

  // Seeding a list twice is seeding it once.
  lemma SeedTwice(sql: Sqlite, cat: Catalog, table: string, items: seq<MenuItem>, newIds: seq<string>,
                  newIds': seq<string>, once: Seeding)
    requires table in cat && IsMenu(sql, cat[table]) && Named(items) && |items| <= |newIds| && |items| <= |newIds'|
    requires once == Seeded(sql, cat, table, RowsFor(items), newIds, |items|)
    ensures Seeded(sql, once.cat, table, RowsFor(items), newIds', |items|) == once
  {
    hide Seeded, RequiredColumns;
    var names, stored := NamesOf(items), StoredItems(sql, cat[table].def.columns, items);
    var e' := MenuWith(cat[table], names, stored, |items|);
    SeedingIsOverlay(sql, cat, table, items, RowsFor(items), newIds, names, stored, |items|);
    SeedAgain(sql, cat[table := e'], table, items, newIds', names, stored, cat[table]);
  }

  lemma SeedAgain(sql: Sqlite, cat: Catalog, table: string, items: seq<MenuItem>, newIds: seq<string>,
                  names: seq<string>, stored: seq<Fields>, e: Entity)
    requires table in cat && IsMenu(sql, cat[table]) && Named(items) && |items| <= |newIds|
    requires names == NamesOf(items) && stored == StoredItems(sql, cat[table].def.columns, items)
    requires cat[table] == MenuWith(e, names, stored, |items|)
    ensures Seeded(sql, cat, table, RowsFor(items), newIds, |items|) == Seeding(cat, None)
  {
    hide OnUpsert;
    SeedingIsOverlay(sql, cat, table, items, RowsFor(items), newIds, names, stored, |items|);
    MenuWithTwice(e, names, stored);
    assert cat[table := cat[table]] == cat;
  }

  lemma MenuWithTwice(e: Entity, names: seq<string>, stored: seq<Fields>)
    requires |names| == |stored|
    ensures MenuWith(MenuWith(e, names, stored, |names|), names, stored, |names|) == MenuWith(e, names, stored, |names|)
  {
    var rows := SeedRows(names, stored, |names|);
    assert e.rows + rows + rows == e.rows + rows;
  }

  /* ---------- Any run of seeds and deletes ---------- */

  datatype MenuOp = Seed(items: seq<MenuItem>, newIds: seq<string>) | Delete(name: string)

  function Overlay(menu: map<string, MenuItem>, items: seq<MenuItem>, n: nat): map<string, MenuItem>
    requires n <= |items|
  {
    if n == 0 then menu else Overlay(menu, items, n - 1)[items[n - 1].name := items[n - 1]]
  }

  // Every listed item has a name, and there is an id to generate for each.
  predicate WellFormed(op: MenuOp) {
    op.Seed? ==> Named(op.items) && |op.items| <= |op.newIds|
  }

  // One call of the adapter: a raise keeps what was stored before it.
  function MenuCall(sql: Sqlite, cat: Catalog, table: string, op: MenuOp): Seeding
    requires WellFormed(op)
  {
    match op
    case Seed(items, newIds) => Seeded(sql, cat, table, RowsFor(items), newIds, |items|)
    case Delete(name) =>
      var outcome := OnDeleteRow(sql, cat, table, Text(name));
      if outcome.Success? then Seeding(outcome.value, None) else Seeding(cat, Some(outcome.error))
  }

  function CatalogAfter(sql: Sqlite, cat: Catalog, table: string, ops: seq<MenuOp>): Catalog
    requires forall i :: 0 <= i < |ops| ==> WellFormed(ops[i])
  {
    if ops == [] then cat
    else MenuCall(sql, CatalogAfter(sql, cat, table, ops[..|ops| - 1]), table, ops[|ops| - 1]).cat
  }

  // The plain menu the same calls make of `menu`.
  function MenuAfterOp(menu: map<string, MenuItem>, op: MenuOp): map<string, MenuItem> {
    match op
    case Seed(items, _) => Overlay(menu, items, |items|)
    case Delete(name) => menu - {name}
  }

  function MenuAfter(menu: map<string, MenuItem>, ops: seq<MenuOp>): map<string, MenuItem> {
    if ops == [] then menu else MenuAfterOp(MenuAfter(menu, ops[..|ops| - 1]), ops[|ops| - 1])
  }

  // The rows, read by `read`, are exactly the menu.
  ghost predicate Shows(read: Fields -> Option<MenuItem>, rows: map<RowId, Fields>, menu: map<string, MenuItem>) {
    && (forall id :: id in rows ==> id.TextId? && id.s in menu && read(rows[id]) == Some(menu[id.s]))
    && (forall name :: name in menu ==> TextId(name) in rows)
  }

  lemma {:induction false} SeedShows(read: Fields -> Option<MenuItem>, e: Entity, menu: map<string, MenuItem>,
                                     items: seq<MenuItem>,
                                     names: seq<string>, stored: seq<Fields>, n: nat)
    requires Shows(read, e.rows, menu) && n <= |items| == |stored| == |names|
    requires forall i :: 0 <= i < |items| ==> names[i] == items[i].name && read(stored[i]) == Some(items[i])
    ensures Shows(read, MenuWith(e, names, stored, n).rows, Overlay(menu, items, n))
  {
    if n == 0 {
      MenuWithNone(e, names, stored);
    } else {
      SeedShows(read, e, menu, items, names, stored, n - 1);
      SeedShowsNext(read, MenuWith(e, names, stored, n - 1), Overlay(menu, items, n - 1), e, menu, items, names,
                    stored, n - 1);
    }
  }

  lemma SeedShowsNext(read: Fields -> Option<MenuItem>, sofar: Entity, shown: map<string, MenuItem>, e: Entity,
                      menu: map<string, MenuItem>,
                      items: seq<MenuItem>, names: seq<string>, stored: seq<Fields>, n: nat)
    requires n < |items| == |stored| == |names| && names[n] == items[n].name && read(stored[n]) == Some(items[n])
    requires Shows(read, sofar.rows, shown)
    requires sofar == MenuWith(e, names, stored, n) && shown == Overlay(menu, items, n)
    ensures Shows(read, MenuWith(e, names, stored, n + 1).rows, Overlay(menu, items, n + 1))
  {
    ShowsNext(read, sofar.rows, shown, items[n], stored[n]);
    MenuWithNext(e, names, stored, n);
    OverlayNext(menu, items, n, shown);
  }

  lemma OverlayNext(menu: map<string, MenuItem>, items: seq<MenuItem>, n: nat, shown: map<string, MenuItem>)
    requires n < |items| && shown == Overlay(menu, items, n)
    ensures Overlay(menu, items, n + 1) == shown[items[n].name := items[n]]
  {
  }

  lemma ShowsNext(read: Fields -> Option<MenuItem>, rows: map<RowId, Fields>, menu: map<string, MenuItem>,
                  item: MenuItem, stored: Fields)
    requires Shows(read, rows, menu) && read(stored) == Some(item)
    ensures Shows(read, rows[TextId(item.name) := stored], menu[item.name := item])
  {
  }

  lemma DeleteStaysMenu(sql: Sqlite, e: Entity, name: string)
    requires IsMenu(sql, e)
    ensures IsMenu(sql, RowDeleted(sql, e, Text(name)))
    ensures RowDeleted(sql, e, Text(name)).rows == e.rows - {TextId(name)}
  {
    assert LookupId(sql, e, Text(name)) == Some(TextId(name));
  }

  lemma SeedShowsMenu(sql: Sqlite, e: Entity, menu: map<string, MenuItem>, items: seq<MenuItem>)
    requires IsMenu(sql, e) && Shows(ItemOf, e.rows, menu)
    ensures Shows(ItemOf, SeededMenu(sql, e, items).rows, Overlay(menu, items, |items|))
  {
    var stored := StoredItems(sql, e.def.columns, items);
    forall i | 0 <= i < |items| ensures ItemOf(stored[i]) == Some(items[i]) {
      StoredItemReadsBack(sql, e, items[i]);
    }
    SeedShows(ItemOf, e, menu, items, NamesOf(items), stored, |items|);
  }

  lemma DeleteShowsMenu(sql: Sqlite, e: Entity, menu: map<string, MenuItem>, name: string)
    requires IsMenu(sql, e) && Shows(ItemOf, e.rows, menu)
    ensures Shows(ItemOf, RowDeleted(sql, e, Text(name)).rows, menu - {name})
  {
    DeleteStaysMenu(sql, e, name);
    RemovalShows(ItemOf, e.rows, menu, name);
  }

  lemma RemovalShows(read: Fields -> Option<MenuItem>, rows: map<RowId, Fields>, menu: map<string, MenuItem>,
                     name: string)
    requires Shows(read, rows, menu)
    ensures Shows(read, rows - {TextId(name)}, menu - {name})
  {
  }

  // The loop of upserts that seeds a menu table is one overlay of it, and raises nothing.
  lemma SeedingIsSeededMenu(sql: Sqlite, cat: Catalog, table: string, items: seq<MenuItem>, newIds: seq<string>)
    requires table in cat && IsMenu(sql, cat[table]) && Named(items) && |items| <= |newIds|
    ensures var e := SeededMenu(sql, cat[table], items);
            Seeded(sql, cat, table, RowsFor(items), newIds, |items|) == Seeding(cat[table := e], None) && IsMenu(sql, e)
  {
    SeedingIsOverlay(sql, cat, table, items, RowsFor(items), newIds, NamesOf(items),
                     StoredItems(sql, cat[table].def.columns, items), |items|);
  }

  // Every list of named items can be seeded exactly when the table is keyed by uuid: an AUTOINCREMENT key, which
  // table creation accepts for a menu too, refuses any name that is no integer.
  lemma SeedsAnyListExactlyWhenUuid(sql: Sqlite, cat: Catalog, table: string, name: string)
    requires table in cat && IsMenuTable(sql, cat[table]) && name != "" && sql.parseNumber(name) == None
    ensures (forall items, newIds :: Named(items) && |items| <= |newIds| ==>
               Seeded(sql, cat, table, RowsFor(items), newIds, |items|).error == None)
            <==> cat[table].def.idType == Uuid
  {
    if cat[table].def.idType == Uuid {
      forall items, newIds | Named(items) && |items| <= |newIds|
        ensures Seeded(sql, cat, table, RowsFor(items), newIds, |items|).error == None
      {
        SeedingIsSeededMenu(sql, cat, table, items, newIds);
      }
    } else {
      RefusesTheName(sql, cat, table, MenuItem(name, "", 0.0, 0));
    }
  }

  lemma RefusesTheName(sql: Sqlite, cat: Catalog, table: string, item: MenuItem)
    requires table in cat && IsMenuTable(sql, cat[table]) && cat[table].def.idType != Uuid
    requires item.name != "" && sql.parseNumber(item.name) == None
    ensures Named([item]) && Seeded(sql, cat, table, RowsFor([item]), [""], 1).error.Some?
  {
    SeedsExactlyWhenNameIsAnId(sql, cat[table], item, "");
    SeededNext(sql, cat, table, RowsFor([item]), [""], 0, Seeding(cat, None));
  }

  // A catalog whose table shows `menu`, all else as in `cat`.
  ghost predicate HoldsMenu(sql: Sqlite, cat: Catalog, table: string, menu: map<string, MenuItem>, now: Catalog) {
    && table in now && IsMenu(sql, now[table]) && Shows(ItemOf, now[table].rows, menu)
    && table in cat && now == cat[table := now[table]]
  }

  lemma SeedKeepsHolding(sql: Sqlite, cat: Catalog, table: string, menu: map<string, MenuItem>, now: Catalog,
                         items: seq<MenuItem>, newIds: seq<string>)
    requires HoldsMenu(sql, cat, table, menu, now) && Named(items) && |items| <= |newIds|
    ensures Seeded(sql, now, table, RowsFor(items), newIds, |items|).error == None
    ensures HoldsMenu(sql, cat, table, Overlay(menu, items, |items|),
                      Seeded(sql, now, table, RowsFor(items), newIds, |items|).cat)
  {
    hide IsMenu, Shows, Seeded, SeededMenu, Overlay, RowsFor, Named;
    var e := SeededMenu(sql, now[table], items);
    SeedingIsSeededMenu(sql, now, table, items, newIds);
    SeedShowsMenu(sql, now[table], menu, items);
    assert cat[table := now[table]][table := e] == cat[table := e];
  }

  lemma DeleteKeepsHolding(sql: Sqlite, cat: Catalog, table: string, menu: map<string, MenuItem>, now: Catalog,
                           name: string)
    requires HoldsMenu(sql, cat, table, menu, now)
    ensures HoldsMenu(sql, cat, table, menu - {name}, now[table := RowDeleted(sql, now[table], Text(name))])
  {
    hide IsMenu, Shows, RowDeleted;
    var e := RowDeleted(sql, now[table], Text(name));
    DeleteStaysMenu(sql, now[table], name);
    DeleteShowsMenu(sql, now[table], menu, name);
    assert cat[table := now[table]][table := e] == cat[table := e];
  }

  lemma MenuStep(sql: Sqlite, cat: Catalog, table: string, menu: map<string, MenuItem>, now: Catalog, op: MenuOp)
    requires HoldsMenu(sql, cat, table, menu, now) && WellFormed(op)
    ensures MenuCall(sql, now, table, op).error == None
    ensures HoldsMenu(sql, cat, table, MenuAfterOp(menu, op), MenuCall(sql, now, table, op).cat)
  {
    hide HoldsMenu, Seeded, Overlay, RowDeleted;
    match op {
      case Seed(items, newIds) => SeedKeepsHolding(sql, cat, table, menu, now, items, newIds);
      case Delete(name) =>
        HoldsTable(sql, cat, table, menu, now);
        DeleteKeepsHolding(sql, cat, table, menu, now, name);
    }
  }

  lemma HoldsTable(sql: Sqlite, cat: Catalog, table: string, menu: map<string, MenuItem>, now: Catalog)
    requires HoldsMenu(sql, cat, table, menu, now)
    ensures table in now
  {
  }

  lemma {:induction false} RunHoldsMenu(sql: Sqlite, cat: Catalog, table: string, menu: map<string, MenuItem>,
                                        ops: seq<MenuOp>)
    requires HoldsMenu(sql, cat, table, menu, cat) && forall i :: 0 <= i < |ops| ==> WellFormed(ops[i])
    ensures HoldsMenu(sql, cat, table, MenuAfter(menu, ops), CatalogAfter(sql, cat, table, ops))
  {
    if ops != [] {
      var n := |ops| - 1;
      RunHoldsMenu(sql, cat, table, menu, ops[..n]);
      MenuStep(sql, cat, table, MenuAfter(menu, ops[..n]), CatalogAfter(sql, cat, table, ops[..n]), ops[n]);
    }
  }

  lemma ShownIsFound(sql: Sqlite, cat: Catalog, table: string, menu: map<string, MenuItem>, name: string)
    requires table in cat && IsMenu(sql, cat[table]) && Shows(ItemOf, cat[table].rows, menu)
    ensures Lookup(sql, cat, table, name) == Success(if name in menu then Some(menu[name]) else None)
  {
    MenuLookup(sql, cat, table, name);
  }

  // Over any run of seeds and deletes no call raises, other tables stay as they were, and looking up any name
  // answers from the plain menu.
  lemma MenuRefines(sql: Sqlite, cat: Catalog, table: string, menu: map<string, MenuItem>, ops: seq<MenuOp>,
                    name: string)
    requires table in cat && IsMenu(sql, cat[table]) && Shows(ItemOf, cat[table].rows, menu)
    requires forall i :: 0 <= i < |ops| ==> WellFormed(ops[i])
    ensures forall k :: 0 <= k < |ops| ==>
            MenuCall(sql, CatalogAfter(sql, cat, table, ops[..k]), table, ops[k]).error == None
    ensures var now, plain := CatalogAfter(sql, cat, table, ops), MenuAfter(menu, ops);
            && Lookup(sql, now, table, name) == Success(if name in plain then Some(plain[name]) else None)
            && table in now && (TextId(name) in now[table].rows <==> name in plain)
            && now == cat[table := now[table]]
  {
    assert cat == cat[table := cat[table]];
    forall k | 0 <= k < |ops|
      ensures MenuCall(sql, CatalogAfter(sql, cat, table, ops[..k]), table, ops[k]).error == None
    {
      RunHoldsMenu(sql, cat, table, menu, ops[..k]);
      MenuStep(sql, cat, table, MenuAfter(menu, ops[..k]), CatalogAfter(sql, cat, table, ops[..k]), ops[k]);
    }
    RunHoldsMenu(sql, cat, table, menu, ops);
    ShownIsFound(sql, CatalogAfter(sql, cat, table, ops), table, MenuAfter(menu, ops), name);
  }

  /* ---------- Which table is the menu ---------- */

  const DEFAULT_MENU_TABLE := TableDef("menu_items", "Menu Items",
    [ColumnDef("name", TextColumn, true), ColumnDef("category", TextColumn, true),
     ColumnDef("price", NumberColumn, true), ColumnDef("stock_quantity", NumberColumn, true)],
    Uuid, Some(LINK))

  predicate IsLinked(cat: Catalog, table: string) {
    table in cat && cat[table].def.toolLinked == Some(LINK)
  }

  // In every reachable catalog at most one table is linked to the menu, and its rows have the menu's fields.
  lemma LinkedMenuTable(sql: Sqlite, cat: Catalog, table: string)
    requires SoundCatalog(sql, cat) && IsLinked(cat, table)
    ensures forall other :: IsLinked(cat, other) ==> other == table
    ensures forall id, name :: id in cat[table].rows && name in RequiredColumns(LINK) ==> name in cat[table].rows[id]
    ensures ProvidesAll(cat[table].def.columns, RequiredColumns(LINK))
  {
    assert SoundEntity(sql, cat[table]);
    var columns, required := cat[table].def.columns, RequiredColumns(LINK);
    forall id, name | id in cat[table].rows && name in required
      ensures name in cat[table].rows[id]
    {
      assert SoundRow(sql, columns, cat[table].rows[id]);
      assert Provides(columns, name, required[name]);
      assert HasColumn(columns, name);
    }
  }

  // Finds the linked table, or creates the default one; a second call finds the same one and changes nothing.
  method ResolveOrCreateMenuTable(repository: SqliteEntityRepository) returns (result: Result<string, Error>)
    requires repository.Valid()
    modifies repository
    ensures repository.Valid()
    ensures forall table :: IsLinked(old(repository.View()), table) ==>
            result == Success(table) && repository.View() == old(repository.View())
    ensures (forall table :: !IsLinked(old(repository.View()), table)) ==>
              var before := old(repository.View());
              && repository.Follows(before, OnCreate(repository.sql, before, DEFAULT_MENU_TABLE), result)
              && (result.Success? ==> result.value == DEFAULT_MENU_TABLE.tableName)
  {
    var found := FindMenuTable(repository);
    if found.Some? {
      return Success(found.value);
    }
    var created := repository.CreateTable(DEFAULT_MENU_TABLE);
    if created.Failure? {
      return Failure(created.error);
    }
    return Success(DEFAULT_MENU_TABLE.tableName);
  }

  method FirstLinked(tables: seq<TableDef>) returns (found: Option<string>)
    ensures LinkedIn(tables, found)
  {
    for i := 0 to |tables|
      invariant forall j :: 0 <= j < i ==> tables[j].toolLinked != Some(LINK)
    {
      if tables[i].toolLinked == Some(LINK) {
        return Some(tables[i].tableName);
      }
    }
    return None;
  }

  predicate LinkedIn(tables: seq<TableDef>, found: Option<string>) {
    if found.Some? then
      exists i :: 0 <= i < |tables| && tables[i].tableName == found.value && tables[i].toolLinked == Some(LINK)
    else forall i :: 0 <= i < |tables| ==> tables[i].toolLinked != Some(LINK)
  }

  lemma LinkedIsListed(cat: Catalog, tables: seq<TableDef>, found: Option<string>)
    requires ListsInOrder(cat, tables) && LinkedIn(tables, found)
    ensures found.Some? ==> IsLinked(cat, found.value)
    ensures found == None ==> forall table :: !IsLinked(cat, table)
  {
    if found.Some? {
      var i :| 0 <= i < |tables| && tables[i].tableName == found.value && tables[i].toolLinked == Some(LINK);
      assert tables[i] == cat[found.value].def;
    }
    forall table | found == None && table in cat ensures !IsLinked(cat, table) {
      var j :| 0 <= j < |tables| && tables[j].tableName == table;
      assert tables[j] == cat[table].def;
    }
  }

  method FindMenuTable(repository: SqliteEntityRepository) returns (found: Option<string>)
    requires repository.Valid()
    ensures found.Some? ==> IsLinked(repository.View(), found.value)
                            && forall table :: IsLinked(repository.View(), table) ==> table == found.value
    ensures found == None ==> forall table :: !IsLinked(repository.View(), table)
  {
    var tables := repository.ListTables();
    found := FirstLinked(tables);
    LinkedIsListed(repository.View(), tables, found);
    if found.Some? { LinkedMenuTable(repository.sql, repository.View(), found.value); }
  }

  lemma DefaultRefusesNull()
    ensures Created(DEFAULT_MENU_TABLE).strict == {"name", "category", "price", "stock_quantity"}
    ensures Created(DEFAULT_MENU_TABLE).def == DEFAULT_MENU_TABLE
  {
    var columns := DEFAULT_MENU_TABLE.columns;
    assert columns[0] in columns && columns[1] in columns && columns[2] in columns && columns[3] in columns;
  }

  lemma LinkNeedsTheFour()
    ensures RequiredColumns(LINK).Keys == {"name", "category", "price", "stock_quantity"}
  {
  }

  lemma DefaultIsMenu(sql: Sqlite, e: Entity)
    requires e == Created(DEFAULT_MENU_TABLE) && SoundEntity(sql, e)
    ensures IsMenu(sql, e) && Shows(ItemOf, e.rows, map[])
  {
    hide RequiredColumns, SoundEntity, ProvidesAll;
    LinkNeedsTheFour();
    DefaultRefusesNull();
    SoundMeetsLink(sql, e);
  }

  lemma SoundMeetsLink(sql: Sqlite, e: Entity)
    requires SoundEntity(sql, e) && e.def.toolLinked == Some(LINK)
    ensures ProvidesAll(e.def.columns, RequiredColumns(LINK))
  {
  }

  // After a successful creation the default table is the one linked table: an empty menu, each of whose four fields
  // refuses null.
  lemma CreatedMenuTable(sql: Sqlite, cat: Catalog)
    requires SoundCatalog(sql, cat) && OnCreate(sql, cat, DEFAULT_MENU_TABLE).Success?
    ensures var cat' := OnCreate(sql, cat, DEFAULT_MENU_TABLE).value;
            && (forall table :: IsLinked(cat', table) <==> table == "menu_items")
            && IsMenu(sql, cat'["menu_items"]) && Shows(ItemOf, cat'["menu_items"].rows, map[])
            && cat'["menu_items"].strict == {"name", "category", "price", "stock_quantity"}
            && cat'["menu_items"].def.toolLinked == Some("sqlite_menu")
  {
    hide SoundEntity, IsMenu, Shows, Created, CreateError;
    DefaultRefusesNull();
    NewTableIsSound(sql, cat, DEFAULT_MENU_TABLE);
    LinkedMenuTable(sql, OnCreate(sql, cat, DEFAULT_MENU_TABLE).value, DEFAULT_MENU_TABLE.tableName);
    CreatedIsSound(sql, cat, DEFAULT_MENU_TABLE);
    DefaultIsMenu(sql, Created(DEFAULT_MENU_TABLE));
  }
}
