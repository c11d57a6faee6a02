/** The relational store the modelled code works on: SQLite tables and pandas data frames share one
    shape here, a list of column names and a list of rows keyed by column. */
module Store {
  import opened Outcome
  import PyText

  /** One stored value. A missing pandas value (NaN) and SQL NULL are both `Null`; a BLOB, which
      only SQL the language model writes produces here (`randomblob`, `X'..'` literals), is `Blob`. */
  datatype Cell = Null | Int(i: int) | Text(s: string) | Blob(bytes: seq<bv8>)

  type Record = map<string, Cell>

  /** A table or a data frame: the column names in order and the rows in order. */
  datatype Table = Table(columns: seq<string>, rows: seq<Record>)

  /** An SQLite database: its tables, and the `sql` column of the rows of `sqlite_master` whose type
      is a table or a view (a row may hold NULL there). */
  datatype Database = Database(tables: map<string, Table>, schema: seq<Option<string>>)

  /** The database files on disk, by path. */
  type Files = map<string, Database>

  const EmptyDb := Database(map[], [])

  /** `sqlite3.connect(path)`: the stored database, or a new empty one when the file does not exist. */
  function Open(files: Files, path: string): Database {
    if path in files then files[path] else EmptyDb
  }

  /** The value of a column in a row; a column the row lacks reads as NULL. */
  function Get(r: Record, col: string): Cell {
    if col in r then r[col] else Null
  }

  /** SQL `a = b`: NULL equals nothing, not even NULL. */
  predicate SqlEq(a: Cell, b: Cell) {
    a != Null && a == b
  }

  /** Python's `str()` of a value SQLite returns: NULL arrives as `None`. */
  function SqlStr(c: Cell): string {
    match c
    case Null => "None"
    case Int(i) => PyText.IntToString(i)
    case Text(s) => s
    case Blob(b) => PyText.BytesRepr(b)
  }

  /** Python's `str()` of a value pandas holds: a missing value is NaN. */
  function FrameStr(c: Cell): string {
    match c
    case Null => "nan"
    case Int(i) => PyText.IntToString(i)
    case Text(s) => s
    case Blob(b) => PyText.BytesRepr(b)
  }

  /** A column of a frame, top to bottom. */
  function Column(t: Table, col: string): seq<Cell> {
    seq(|t.rows|, i requires 0 <= i < |t.rows| => Get(t.rows[i], col))
  }

  function NoSuchTable(table: string): Error {
    OperationalError("no such table: " + table)
  }

  function NoSuchColumn(col: string): Error {
    OperationalError("no such column: " + col)
  }

  /** The rows after `SET col = v WHERE col = was`. */
  function SetWhere(rows: seq<Record>, col: string, v: Cell, was: Cell): seq<Record> {
    seq(|rows|, i requires 0 <= i < |rows| => if SqlEq(Get(rows[i], col), was) then rows[i][col := v] else rows[i])
  }

  /** `UPDATE table SET col = v WHERE col = was`. */
  function UpdateWhere(db: Database, table: string, col: string, v: Cell, was: Cell): (r: Result<Database>)
    ensures r.Ok? <==> table in db.tables && col in db.tables[table].columns
    ensures r.Err? ==> r.error.OperationalError?
    ensures r.Ok? ==>
      && r.value.schema == db.schema
      && r.value.tables.Keys == db.tables.Keys
      && (forall u :: u in db.tables && u != table ==> r.value.tables[u] == db.tables[u])
      && r.value.tables[table].columns == db.tables[table].columns
      && |r.value.tables[table].rows| == |db.tables[table].rows|
      && (forall i :: 0 <= i < |db.tables[table].rows| ==>
            var before, after := db.tables[table].rows[i], r.value.tables[table].rows[i];
            && Get(after, col) == (if SqlEq(Get(before, col), was) then v else Get(before, col))
            && (forall c :: c != col ==> Get(after, c) == Get(before, c)))
  {
    if table !in db.tables then Err(NoSuchTable(table))
    else if col !in db.tables[table].columns then Err(NoSuchColumn(col))
    else
      var t := db.tables[table];
      Ok(db.(tables := db.tables[table := t.(rows := SetWhere(t.rows, col, v, was))]))
  }

  /** `UPDATE table SET col = v` with no WHERE clause. */
  function UpdateAll(db: Database, table: string, col: string, v: Cell): (r: Result<Database>)
    ensures r.Ok? <==> table in db.tables && col in db.tables[table].columns
    ensures r.Err? ==> r.error.OperationalError?
    ensures r.Ok? ==>
      && r.value.schema == db.schema
      && r.value.tables.Keys == db.tables.Keys
      && (forall u :: u in db.tables && u != table ==> r.value.tables[u] == db.tables[u])
      && r.value.tables[table].columns == db.tables[table].columns
      && |r.value.tables[table].rows| == |db.tables[table].rows|
      && (forall i :: 0 <= i < |db.tables[table].rows| ==>
            var before, after := db.tables[table].rows[i], r.value.tables[table].rows[i];
            && Get(after, col) == v
            && (forall c :: c != col ==> Get(after, c) == Get(before, c)))
  {
    if table !in db.tables then Err(NoSuchTable(table))
    else if col !in db.tables[table].columns then Err(NoSuchColumn(col))
    else
      var t := db.tables[table];
      Ok(db.(tables := db.tables[table := t.(rows := seq(|t.rows|, i requires 0 <= i < |t.rows| => t.rows[i][col := v]))]))
  }

  /** The rows whose `col` equals `value`, in table order. */
  function Matching(rows: seq<Record>, col: string, value: Cell): (r: seq<Record>)
    ensures forall x :: x in r ==> x in rows && SqlEq(Get(x, col), value)
    ensures forall x :: x in rows && SqlEq(Get(x, col), value) ==> x in r
    ensures (forall x :: x in rows ==> !SqlEq(Get(x, col), value)) ==> r == []
    decreases |rows|
  {
    if rows == [] then []
    else (if SqlEq(Get(rows[0], col), value) then [rows[0]] else []) + Matching(rows[1..], col, value)
  }

  function Project(r: Record, cols: seq<string>): seq<Cell> {
    seq(|cols|, k requires 0 <= k < |cols| => Get(r, cols[k]))
  }

  /** The first of `cols` that is not among `have`. */
  function FirstMissing(cols: seq<string>, have: seq<string>): (r: Option<string>)
    ensures r.None? <==> forall k :: 0 <= k < |cols| ==> cols[k] in have
    decreases |cols|
  {
    if cols == [] then None
    else if cols[0] !in have then Some(cols[0])
    else FirstMissing(cols[1..], have)
  }

  /** `SELECT cols FROM table WHERE whereCol = value`, each row as a tuple in `cols` order. SQLite
      resolves the result columns before the `WHERE` clause, so a missing selected column is the
      one named when both are missing. */
  function SelectWhere(db: Database, table: string, cols: seq<string>, whereCol: string, value: Cell): (r: Result<seq<seq<Cell>>>)
    ensures r.Ok? <==>
      table in db.tables && whereCol in db.tables[table].columns
      && forall k :: 0 <= k < |cols| ==> cols[k] in db.tables[table].columns
    ensures r.Err? ==> r.error.OperationalError?
    ensures r.Ok? ==> forall row :: row in r.value ==> |row| == |cols|
  {
    if table !in db.tables then Err(NoSuchTable(table))
    else if FirstMissing(cols, db.tables[table].columns).Some? then
      Err(NoSuchColumn(FirstMissing(cols, db.tables[table].columns).value))
    else if whereCol !in db.tables[table].columns then Err(NoSuchColumn(whereCol))
    else
      var hits := Matching(db.tables[table].rows, whereCol, value);
      Ok(seq(|hits|, i requires 0 <= i < |hits| => Project(hits[i], cols)))
  }

  /** `SELECT * FROM table`: every row as a tuple in column order. */
  function SelectAll(db: Database, table: string): (r: Result<seq<seq<Cell>>>)
    ensures r.Ok? <==> table in db.tables
    ensures r.Ok? ==> |r.value| == |db.tables[table].rows|
  {
    if table !in db.tables then Err(NoSuchTable(table))
    else
      var t := db.tables[table];
      Ok(seq(|t.rows|, i requires 0 <= i < |t.rows| => Project(t.rows[i], t.columns)))
  }

  /** The second field (the column name) of each row of `PRAGMA table_info(table)`; an unknown table has none. */
  function PragmaNames(db: Database, table: string): seq<string> {
    if table in db.tables then db.tables[table].columns else []
  }

  /** `frame.to_sql(name, conn, if_exists='replace')`: the table is replaced by the frame and committed. */
  function WriteTable(db: Database, name: string, frame: Table): (r: Database)
    ensures r.tables == db.tables[name := frame] && r.schema == db.schema
  {
    db.(tables := db.tables[name := frame])
  }

  /** What SQLite gives back for an arbitrary query: column names and tuples, or the exception's message. */
  datatype QueryResult = Fetched(names: seq<string>, rows: seq<seq<Cell>>) | Raised(msg: string)

  /** A value a tool leaves in `api_response`, kept symbolic where Python would build an object. */
  datatype Value =
    | Str(s: string)
    | Rows(rows: seq<seq<Cell>>)          // a `fetchall()` list of tuples
    | DictRows(names: seq<string>, rows: seq<seq<Cell>>)  // `[dict(row) for row in rows]` over `sqlite3.Row`s
    | RowObjects(names: seq<string>, rows: seq<seq<Cell>>)  // a `fetchall()` list of `sqlite3.Row`s
    | PairDicts(rows: seq<seq<Cell>>)     // `[dict(row) for row in rows]` over plain tuples of two-character strings
    | ReprOf(v: Value)                    // Python's `str(v)`
    | JsonOf(v: Value)                    // `json.dumps(v)`
}
