// What SQLite does with a table: column affinity, case-insensitive column names, ALTER TABLE and row writes.
// Each statement is its effect on the table; how SQLite prints and parses numbers, when it takes two
// identifiers for the same one, and which it refuses, are parameters.
module SqlEngine {
  import opened Common

  // A value on the Python side of a parameter binding.
  datatype Value = Null | Text(s: string) | Number(r: real) | Truth(b: bool) | Structure(nonEmpty: bool)

  datatype Cell = NullCell | TextCell(s: string) | NumberCell(r: real)

  datatype SqlType = TEXT | REAL | INTEGER

  datatype Column = Column(name: string, sqlType: SqlType, notNull: bool)

  datatype RowId = TextId(s: string) | IntId(n: int)

  // `lastId` is the table's AUTOINCREMENT sequence.
  datatype Table = Table(autoIncrement: bool, columns: seq<Column>, rows: map<RowId, seq<Cell>>, lastId: nat)

  datatype Sqlite = Sqlite(
    numberText: Value -> string,
    parseNumber: string -> Option<real>,
    validIdentifier: string -> bool,
    ident: string -> string,
    refusesTable: string -> bool,
    refusesColumn: string -> bool)

  predicate Truthy(v: Value) {
    match v
    case Null => false
    case Text(s) => s != ""
    case Number(r) => r != 0.0
    case Truth(b) => b
    case Structure(nonEmpty) => nonEmpty
  }

  // Column affinity; None is a value that cannot be bound.
  function Converted(sql: Sqlite, t: SqlType, v: Value): Option<Cell> {
    match v
    case Null => Some(NullCell)
    case Text(s) =>
      if t == TEXT || sql.parseNumber(s) == None then Some(TextCell(s)) else Some(NumberCell(sql.parseNumber(s).value))
    case Number(r) => if t == TEXT then Some(TextCell(sql.numberText(v))) else Some(NumberCell(r))
    case Truth(b) => if t == TEXT then Some(TextCell(sql.numberText(v))) else Some(NumberCell(if b then 1.0 else 0.0))
    case Structure(_) => None
  }

  /* ---------- Identifiers ---------- */

  // Which column a name means.
  function Resolve(sql: Sqlite, columns: seq<Column>, name: string): Option<nat> {
    if columns == [] then None
    else if sql.ident(columns[|columns| - 1].name) == sql.ident(name) then Some(|columns| - 1)
    else Resolve(sql, columns[..|columns| - 1], name)
  }

  predicate Resolvable(sql: Sqlite, columns: seq<Column>, names: seq<string>) {
    forall k :: 0 <= k < |names| ==> Resolve(sql, columns, names[k]).Some?
  }

  lemma {:induction false} ResolveIsColumn(sql: Sqlite, columns: seq<Column>, name: string)
    ensures Resolve(sql, columns, name).Some? ==>
              Resolve(sql, columns, name).value < |columns|
                && sql.ident(columns[Resolve(sql, columns, name).value].name) == sql.ident(name)
    ensures Resolve(sql, columns, name) == None ==>
            forall i :: 0 <= i < |columns| ==> sql.ident(columns[i].name) != sql.ident(name)
  {
    if columns != [] { ResolveIsColumn(sql, columns[..|columns| - 1], name); }
  }

  predicate DistinctNames(sql: Sqlite, columns: seq<Column>) {
    forall i, j :: 0 <= i < j < |columns| ==> sql.ident(columns[i].name) != sql.ident(columns[j].name)
  }

  lemma ResolveUnique(sql: Sqlite, columns: seq<Column>, name: string, i: nat)
    requires DistinctNames(sql, columns) && i < |columns| && sql.ident(columns[i].name) == sql.ident(name)
    ensures Resolve(sql, columns, name) == Some(i)
  {
    ResolveIsColumn(sql, columns, name);
  }

  // SQLite takes a column name beside the existing ones (and the id).
  predicate AcceptsName(sql: Sqlite, others: seq<Column>, name: string) {
    && !sql.refusesColumn(sql.ident(name)) && sql.ident(name) != sql.ident("id")
    && forall i :: 0 <= i < |others| ==> sql.ident(others[i].name) != sql.ident(name)
  }

  predicate AcceptsColumns(sql: Sqlite, columns: seq<Column>) {
    forall i :: 0 <= i < |columns| ==> AcceptsName(sql, columns[..i], columns[i].name)
  }

  /* ---------- ALTER TABLE ---------- */

  function WithColumn(t: Table, c: Column): Table {
    t.(columns := t.columns + [c], rows := map id | id in t.rows :: t.rows[id] + [NullCell])
  }

  function WithName(t: Table, i: nat, name: string): Table
    requires i < |t.columns|
  {
    t.(columns := t.columns[i := t.columns[i].(name := name)])
  }

  function Without<T>(s: seq<T>, i: nat): seq<T>
    requires i < |s|
  {
    s[..i] + s[i + 1..]
  }

  function WithoutColumn(t: Table, i: nat): Table
    requires i < |t.columns|
  {
    t.(columns := Without(t.columns, i),
       rows := map id | id in t.rows :: if i < |t.rows[id]| then Without(t.rows[id], i) else t.rows[id])
  }

  /* ---------- Rows ---------- */

  // The cells after writing the first `n` named values over a row of NULLs; None when a name means no
  // column or a value cannot be bound.
  function Written(sql: Sqlite, columns: seq<Column>, names: seq<string>, values: seq<Value>,
                   n: nat): (cells: Option<seq<Cell>>)
    requires n <= |names| == |values|
    ensures cells.Some? ==> |cells.value| == |columns|
  {
    if n == 0 then Some(seq(|columns|, _ => NullCell))
    else
      var before, at := Written(sql, columns, names, values, n - 1), Resolve(sql, columns, names[n - 1]);
      ResolveIsColumn(sql, columns, names[n - 1]);
      if before == None || at == None then None
      else
        var cell := Converted(sql, columns[at.value].sqlType, values[n - 1]);
        if cell == None then None else Some(before.value[at.value := cell.value])
  }

  predicate BreaksNotNull(columns: seq<Column>, cells: seq<Cell>)
    requires |columns| == |cells|
  {
    exists i :: 0 <= i < |columns| && columns[i].notNull && cells[i] == NullCell
  }

  function Selected(sql: Sqlite, columns: seq<Column>, cells: seq<Cell>, names: seq<string>): seq<Cell>
    requires Resolvable(sql, columns, names) && |cells| == |columns|
  {
    seq(|names|, k requires 0 <= k < |names| =>
      ResolveIsColumn(sql, columns, names[k]);
      cells[Resolve(sql, columns, names[k]).value])
  }

  // The row id a value means: the id column converts it, and an INTEGER key takes only integers.
  function IdOf(sql: Sqlite, autoIncrement: bool, v: Value): Option<RowId> {
    match Converted(sql, if autoIncrement then INTEGER else TEXT, v)
    case Some(TextCell(s)) => if autoIncrement then None else Some(TextId(s))
    case Some(NumberCell(r)) => if r.Floor as real == r then Some(IntId(r.Floor)) else None
    case _ => None
  }
}
