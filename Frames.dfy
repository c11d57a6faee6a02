/** The pandas operations the data pipeline applies to a frame (projection, dropping blank rows and
    columns, adding a hash column), and the keyed rewrite it issues against SQLite: one
    `UPDATE t SET c = new WHERE c = old` per key row. */
module Frames {
  import opened Outcome
  import opened Store
  import opened SeqFacts

  // ----- Projection -----

  /** `[c for c in keep if c in have]`: the names of `keep` that `have` holds, in the order of
      `keep`. */
  function Present(keep: seq<string>, have: seq<string>): (r: seq<string>)
    ensures forall c :: c in r <==> c in keep && c in have
    ensures Subsequence(r, keep)
    ensures |r| <= |keep|
    decreases |keep|
  {
    if keep == [] then []
    else
      var rest := Present(keep[1..], have);
      if keep[0] in have then
        assert ([keep[0]] + rest)[1..] == rest;
        [keep[0]] + rest
      else rest
  }

  /** When `have` holds every name of `keep`, the comprehension gives `keep` back whole. */
  lemma {:induction false} PresentAll(keep: seq<string>, have: seq<string>)
    requires forall k :: 0 <= k < |keep| ==> keep[k] in have
    ensures Present(keep, have) == keep
    decreases |keep|
  {
    if keep != [] {
      assert keep[0] in have;
      PresentAll(keep[1..], have);
    }
  }

  /** A row cut down to some columns. */
  function Restrict(r: Record, cols: seq<string>): (x: Record)
    ensures forall c :: Get(x, c) == (if c in cols then Get(r, c) else Null)
  {
    map c | c in r && c in cols :: r[c]
  }

  /** `df[cols]`: the frame cut down to the columns named, in that order. */
  function Select(t: Table, cols: seq<string>): (r: Table)
    ensures r.columns == cols && |r.rows| == |t.rows|
    ensures forall i, c :: 0 <= i < |t.rows| && c in cols ==> Get(r.rows[i], c) == Get(t.rows[i], c)
  {
    Table(cols, seq(|t.rows|, i requires 0 <= i < |t.rows| => Restrict(t.rows[i], cols)))
  }

  /** `pd.read_sql_query("SELECT cols FROM table", conn)`: the named columns of every row. */
  function ReadSql(db: Database, table: string, cols: seq<string>): (r: Result<Table>)
    ensures r.Ok? <==> table in db.tables && forall k :: 0 <= k < |cols| ==> cols[k] in db.tables[table].columns
    ensures r.Err? ==> r.error.OperationalError?
    ensures r.Ok? ==> r.value == Select(db.tables[table], cols)
  {
    if table !in db.tables then Err(NoSuchTable(table))
    else if FirstMissing(cols, db.tables[table].columns).Some? then
      Err(NoSuchColumn(FirstMissing(cols, db.tables[table].columns).value))
    else Ok(Select(db.tables[table], cols))
  }

  // ----- Dropping blank rows and columns -----

  /** A row whose cells in the given columns are all missing. */
  predicate Blank(r: Record, cols: seq<string>)
    decreases |cols|
  {
    cols == [] || (Get(r, cols[0]) == Null && Blank(r, cols[1..]))
  }

  /** Some row holds a value in the column. */
  predicate HasValue(rows: seq<Record>, c: string)
    decreases |rows|
  {
    rows != [] && (Get(rows[0], c) != Null || HasValue(rows[1..], c))
  }

  lemma {:induction false} BlankIff(r: Record, cols: seq<string>)
    ensures Blank(r, cols) <==> forall c :: c in cols ==> Get(r, c) == Null
    decreases |cols|
  {
    if cols != [] {
      BlankIff(r, cols[1..]);
      assert forall c :: c in cols <==> c == cols[0] || c in cols[1..];
    }
  }

  lemma {:induction false} HasValueIff(rows: seq<Record>, c: string)
    ensures HasValue(rows, c) <==> exists i :: 0 <= i < |rows| && Get(rows[i], c) != Null
    decreases |rows|
  {
    if rows != [] {
      HasValueIff(rows[1..], c);
      if HasValue(rows[1..], c) {
        var i :| 0 <= i < |rows[1..]| && Get(rows[1..][i], c) != Null;
        assert Get(rows[i + 1], c) != Null;
      }
      if exists i :: 0 <= i < |rows| && Get(rows[i], c) != Null {
        var i :| 0 <= i < |rows| && Get(rows[i], c) != Null;
        if i > 0 {
          assert rows[1..][i - 1] == rows[i];
        }
      }
    }
  }

  /** `dropna(how='all')`: the rows with at least one value, in order. */
  function KeepRows(rows: seq<Record>, cols: seq<string>): seq<Record>
    decreases |rows|
  {
    if rows == [] then []
    else (if Blank(rows[0], cols) then [] else [rows[0]]) + KeepRows(rows[1..], cols)
  }

  /** `dropna(axis=1, how='all')`: the columns with at least one value, in order. */
  function LiveCols(cols: seq<string>, rows: seq<Record>): seq<string>
    decreases |cols|
  {
    if cols == [] then []
    else (if HasValue(rows, cols[0]) then [cols[0]] else []) + LiveCols(cols[1..], rows)
  }

  lemma {:induction false} KeepRowsMember(rows: seq<Record>, cols: seq<string>, x: Record)
    ensures x in KeepRows(rows, cols) <==> x in rows && !Blank(x, cols)
    decreases |rows|
  {
    if rows != [] {
      KeepRowsMember(rows[1..], cols, x);
      assert x in rows <==> x == rows[0] || x in rows[1..];
    }
  }

  lemma {:induction false} LiveColsMember(cols: seq<string>, rows: seq<Record>, c: string)
    ensures c in LiveCols(cols, rows) <==> c in cols && HasValue(rows, c)
    decreases |cols|
  {
    if cols != [] {
      LiveColsMember(cols[1..], rows, c);
      assert c in cols <==> c == cols[0] || c in cols[1..];
    }
  }

  /** Dropping blank rows keeps every value of a column that is looked at. */
  lemma {:induction false} HasValueKept(rows: seq<Record>, cols: seq<string>, c: string)
    requires c in cols
    ensures HasValue(KeepRows(rows, cols), c) <==> HasValue(rows, c)
    decreases |rows|
  {
    if rows != [] {
      HasValueKept(rows[1..], cols, c);
      if Blank(rows[0], cols) {
        BlankIff(rows[0], cols);
        assert KeepRows(rows, cols) == KeepRows(rows[1..], cols);
      } else {
        var k := KeepRows(rows, cols);
        assert k == [rows[0]] + KeepRows(rows[1..], cols);
        assert k[0] == rows[0] && k[1..] == KeepRows(rows[1..], cols);
      }
    }
  }

  /** The rows cut down to the columns kept. */
  function Shape(rows: seq<Record>, cols: seq<string>): Table {
    Table(cols, seq(|rows|, i requires 0 <= i < |rows| => Restrict(rows[i], cols)))
  }

  /** The clean-up every frame gets after it is read: blank rows go, then blank columns go. */
  function Tidy(df: Table): Table {
    var rows := KeepRows(df.rows, df.columns);
    Shape(rows, LiveCols(df.columns, rows))
  }

  /** A column survives `Tidy` exactly when it is a column of the frame with a value in some row. */
  lemma TidyColumns(df: Table, c: string)
    ensures c in Tidy(df).columns <==> c in df.columns && HasValue(df.rows, c)
  {
    var rows := KeepRows(df.rows, df.columns);
    LiveColsMember(df.columns, rows, c);
    if c in df.columns {
      HasValueKept(df.rows, df.columns, c);
    }
  }

  /** No row left after `Tidy` is blank. */
  lemma TidyRowsNotBlank(df: Table, i: nat)
    requires i < |Tidy(df).rows|
    ensures !Blank(Tidy(df).rows[i], Tidy(df).columns)
  {
    var rows := KeepRows(df.rows, df.columns);
    var cols := LiveCols(df.columns, rows);
    assert rows[i] in rows;
    KeepRowsMember(df.rows, df.columns, rows[i]);
    BlankIff(rows[i], df.columns);
    var c :| c in df.columns && Get(rows[i], c) != Null;
    HasValueIff(rows, c);
    LiveColsMember(df.columns, rows, c);
    assert Get(Tidy(df).rows[i], c) == Get(rows[i], c);
    BlankIff(Tidy(df).rows[i], cols);
  }

  lemma {:induction false} KeepRowsAll(rows: seq<Record>, cols: seq<string>)
    requires forall i :: 0 <= i < |rows| ==> !Blank(rows[i], cols)
    ensures KeepRows(rows, cols) == rows
    decreases |rows|
  {
    if rows != [] {
      assert !Blank(rows[0], cols);
      KeepRowsAll(rows[1..], cols);
    }
  }

  lemma {:induction false} LiveColsAll(cols: seq<string>, rows: seq<Record>)
    requires forall k :: 0 <= k < |cols| ==> HasValue(rows, cols[k])
    ensures LiveCols(cols, rows) == cols
    decreases |cols|
  {
    if cols != [] {
      assert HasValue(rows, cols[0]);
      LiveColsAll(cols[1..], rows);
    }
  }

  lemma RestrictTwice(r: Record, cols: seq<string>)
    ensures Restrict(Restrict(r, cols), cols) == Restrict(r, cols)
  {
  }

  /** Cleaning a cleaned frame changes nothing. */
  lemma TidyIdempotent(df: Table)
    ensures Tidy(Tidy(df)) == Tidy(df)
  {
    var rows := KeepRows(df.rows, df.columns);
    var cols := LiveCols(df.columns, rows);
    var t := Tidy(df);
    assert t == Shape(rows, cols);
    forall i | 0 <= i < |t.rows|
      ensures !Blank(t.rows[i], t.columns)
    {
      TidyRowsNotBlank(df, i);
    }
    KeepRowsAll(t.rows, t.columns);
    forall k | 0 <= k < |cols|
      ensures HasValue(t.rows, cols[k])
    {
      var c := cols[k];
      LiveColsMember(df.columns, rows, c);
      HasValueIff(rows, c);
      var i :| 0 <= i < |rows| && Get(rows[i], c) != Null;
      assert Get(t.rows[i], c) == Get(rows[i], c);
      HasValueIff(t.rows, c);
    }
    LiveColsAll(t.columns, t.rows);
    forall i | 0 <= i < |t.rows|
      ensures Restrict(t.rows[i], cols) == t.rows[i]
    {
      RestrictTwice(rows[i], cols);
    }
    assert Shape(t.rows, t.columns).rows == t.rows;
  }

  // ----- Hash columns -----

  /** `df[dst] = df[src].apply(lambda x: H(str(x)))`, with `H` the hex digest of the text's bytes. */
  function WithHash(h: string -> string, t: Table, src: string, dst: string): (r: Table)
    ensures r.columns == (if dst in t.columns then t.columns else t.columns + [dst])
    ensures |r.rows| == |t.rows|
    ensures forall i :: 0 <= i < |t.rows| ==> Get(r.rows[i], dst) == Text(h(FrameStr(Get(t.rows[i], src))))
    ensures forall i, c :: 0 <= i < |t.rows| && c != dst ==> Get(r.rows[i], c) == Get(t.rows[i], c)
  {
    var rows := seq(|t.rows|, i requires 0 <= i < |t.rows| => t.rows[i][dst := Text(h(FrameStr(Get(t.rows[i], src))))]);
    Table(if dst in t.columns then t.columns else t.columns + [dst], rows)
  }

  /** `df.duplicated(col, keep=False)` marks some row: two rows hold the same value, missing
      values counting as equal. */
  predicate Duplicated(t: Table, col: string) {
    exists i, j :: 0 <= i < j < |t.rows| && Get(t.rows[i], col) == Get(t.rows[j], col)
  }

  /** With an injective hash, rows whose sources print differently never share a hash. */
  lemma HashesDistinct(h: string -> string, t: Table, src: string, dst: string)
    requires forall a, b :: h(a) == h(b) ==> a == b
    requires forall i, j :: 0 <= i < j < |t.rows| ==> FrameStr(Get(t.rows[i], src)) != FrameStr(Get(t.rows[j], src))
    ensures !Duplicated(WithHash(h, t, src, dst), dst)
  {
    var r := WithHash(h, t, src, dst);
    forall i, j | 0 <= i < j < |r.rows|
      ensures Get(r.rows[i], dst) != Get(r.rows[j], dst)
    {
      assert Get(r.rows[i], dst) == Text(h(FrameStr(Get(t.rows[i], src))));
      assert Get(r.rows[j], dst) == Text(h(FrameStr(Get(t.rows[j], src))));
    }
  }

  /** A hash column added to a selection: the selected columns and then the hash, row by row. */
  lemma HashedSelect(h: string -> string, t: Table, cols: seq<string>, src: string, dst: string)
    requires src in cols && dst !in cols
    ensures var r := WithHash(h, Select(t, cols), src, dst);
      && r.columns == cols + [dst] && |r.rows| == |t.rows|
      && forall i :: 0 <= i < |t.rows| ==>
           && Get(r.rows[i], dst) == Text(h(FrameStr(Get(t.rows[i], src))))
           && forall c :: c in cols ==> Get(r.rows[i], c) == Get(t.rows[i], c)
  {
    var s := Select(t, cols);
    forall i | 0 <= i < |t.rows|
      ensures Get(s.rows[i], src) == Get(t.rows[i], src)
    {
    }
  }

  // ----- Keyed UPDATEs -----

  /** The value a cell ends with after `SET col = new WHERE col = was` for each pair in turn. */
  function Chase(v: Cell, pairs: seq<(Cell, Cell)>): Cell
    decreases |pairs|
  {
    if pairs == [] then v else Chase(if SqlEq(v, pairs[0].1) then pairs[0].0 else v, pairs[1..])
  }

  /** The rows after one such UPDATE per pair, in order. */
  function SetWhereAll(rows: seq<Record>, col: string, pairs: seq<(Cell, Cell)>): seq<Record>
    decreases |pairs|
  {
    if pairs == [] then rows else SetWhereAll(SetWhere(rows, col, pairs[0].0, pairs[0].1), col, pairs[1..])
  }

  /** Each row's cell is chased through the pairs; its other cells are untouched. */
  lemma {:induction false} SetWhereAllChase(rows: seq<Record>, col: string, pairs: seq<(Cell, Cell)>)
    ensures |SetWhereAll(rows, col, pairs)| == |rows|
    ensures forall i :: 0 <= i < |rows| ==> Get(SetWhereAll(rows, col, pairs)[i], col) == Chase(Get(rows[i], col), pairs)
    ensures forall i, c :: 0 <= i < |rows| && c != col ==> Get(SetWhereAll(rows, col, pairs)[i], c) == Get(rows[i], c)
    decreases |pairs|
  {
    if pairs != [] {
      var next := SetWhere(rows, col, pairs[0].0, pairs[0].1);
      SetWhereAllChase(next, col, pairs[1..]);
    }
  }

  /** A value that equals none of the old values is left as it was. */
  lemma {:induction false} ChaseMiss(v: Cell, pairs: seq<(Cell, Cell)>)
    requires forall k :: 0 <= k < |pairs| ==> !SqlEq(v, pairs[k].1)
    ensures Chase(v, pairs) == v
    decreases |pairs|
  {
    if pairs != [] {
      assert !SqlEq(v, pairs[0].1);
      forall k | 0 <= k < |pairs[1..]|
        ensures !SqlEq(v, pairs[1..][k].1)
      {
        assert pairs[1..][k] == pairs[k + 1];
      }
      ChaseMiss(v, pairs[1..]);
    }
  }

  /** When no new value equals an old one, a value ends as the new value of the first pair whose
      old value it equals. */
  lemma {:induction false} ChaseFirstMatch(v: Cell, pairs: seq<(Cell, Cell)>, k: nat)
    requires k < |pairs| && SqlEq(v, pairs[k].1)
    requires forall j :: 0 <= j < k ==> !SqlEq(v, pairs[j].1)
    requires forall i, j :: 0 <= i < |pairs| && 0 <= j < |pairs| ==> !SqlEq(pairs[i].0, pairs[j].1)
    ensures Chase(v, pairs) == pairs[k].0
    decreases k
  {
    var rest := pairs[1..];
    forall i, j | 0 <= i < |rest| && 0 <= j < |rest|
      ensures !SqlEq(rest[i].0, rest[j].1)
    {
      assert rest[i] == pairs[i + 1] && rest[j] == pairs[j + 1];
    }
    if k == 0 {
      forall j | 0 <= j < |rest|
        ensures !SqlEq(pairs[0].0, rest[j].1)
      {
        assert rest[j] == pairs[j + 1];
      }
      ChaseMiss(pairs[0].0, rest);
    } else {
      assert !SqlEq(v, pairs[0].1);
      forall j | 0 <= j < k - 1
        ensures !SqlEq(v, rest[j].1)
      {
        assert rest[j] == pairs[j + 1];
      }
      assert rest[k - 1] == pairs[k];
      ChaseFirstMatch(v, rest, k - 1);
    }
  }

  /** The (new, old) pair each key row supplies. */
  function KeyPairs(key: Table, newCol: string, oldCol: string): (r: seq<(Cell, Cell)>)
    ensures |r| == |key.rows|
    ensures forall i :: 0 <= i < |key.rows| ==> r[i] == (Get(key.rows[i], newCol), Get(key.rows[i], oldCol))
  {
    seq(|key.rows|, i requires 0 <= i < |key.rows| => (Get(key.rows[i], newCol), Get(key.rows[i], oldCol)))
  }

  /** `for _, row in key.iterrows(): UPDATE table SET col = row[newCol] WHERE col = row[oldCol]`,
      committed at the end. With no key rows nothing is read; otherwise the first row's lookups
      and the first UPDATE are where a missing column shows up. */
  function KeyedUpdate(db: Database, key: Table, table: string, col: string, newCol: string, oldCol: string): (r: Result<Database>)
    ensures key.rows == [] ==> r == Ok(db)
    ensures key.rows != [] && newCol !in key.columns ==> r == Err(KeyError(newCol))
    ensures key.rows != [] && newCol in key.columns && oldCol !in key.columns ==> r == Err(KeyError(oldCol))
    ensures key.rows != [] && newCol in key.columns && oldCol in key.columns ==>
      (r.Ok? <==> table in db.tables && col in db.tables[table].columns)
    ensures r.Ok? && key.rows != [] ==>
      && r.value.schema == db.schema
      && r.value.tables == db.tables[table := db.tables[table].(rows := SetWhereAll(db.tables[table].rows, col, KeyPairs(key, newCol, oldCol)))]
  {
    if key.rows == [] then Ok(db)
    else if newCol !in key.columns then Err(KeyError(newCol))
    else if oldCol !in key.columns then Err(KeyError(oldCol))
    else if table !in db.tables then Err(NoSuchTable(table))
    else if col !in db.tables[table].columns then Err(NoSuchColumn(col))
    else
      var t := db.tables[table];
      Ok(db.(tables := db.tables[table := t.(rows := SetWhereAll(t.rows, col, KeyPairs(key, newCol, oldCol)))]))
  }

  /** What one keyed pass does to the database: the rewritten column of the table is chased through
      the key's pairs, and nothing else changes. */
  lemma KeyedUpdateChase(db: Database, key: Table, table: string, col: string, newCol: string, oldCol: string)
    requires KeyedUpdate(db, key, table, col, newCol, oldCol).Ok?
    ensures var after := KeyedUpdate(db, key, table, col, newCol, oldCol).value;
      && after.schema == db.schema
      && after.tables.Keys == db.tables.Keys
      && (forall u :: u in db.tables && u != table ==> after.tables[u] == db.tables[u])
      && (table in db.tables ==>
            var before := db.tables[table].rows;
            && after.tables[table].columns == db.tables[table].columns
            && |after.tables[table].rows| == |before|
            && (forall i :: 0 <= i < |before| ==>
                  Get(after.tables[table].rows[i], col) == Chase(Get(before[i], col), KeyPairs(key, newCol, oldCol)))
            && (forall i, c :: 0 <= i < |before| && c != col ==>
                  Get(after.tables[table].rows[i], c) == Get(before[i], c)))
  {
    if table in db.tables {
      SetWhereAllChase(db.tables[table].rows, col, KeyPairs(key, newCol, oldCol));
    }
  }

  /** One cell after one keyed pass: chased when it is in the rewritten column, as it was if not. */
  lemma CellAfterPass(db: Database, key: Table, table: string, col: string, newCol: string, oldCol: string, u: string, i: nat, c: string)
    requires KeyedUpdate(db, key, table, col, newCol, oldCol).Ok?
    requires u in db.tables && i < |db.tables[u].rows|
    ensures var after := KeyedUpdate(db, key, table, col, newCol, oldCol).value;
      && u in after.tables && |after.tables[u].rows| == |db.tables[u].rows|
      && Get(after.tables[u].rows[i], c) ==
           if u == table && c == col then Chase(Get(db.tables[u].rows[i], c), KeyPairs(key, newCol, oldCol))
           else Get(db.tables[u].rows[i], c)
  {
    KeyedUpdateChase(db, key, table, col, newCol, oldCol);
  }

  /** The key loop, one UPDATE statement per key row. */
  method ApplyKey(db: Database, key: Table, table: string, col: string, newCol: string, oldCol: string) returns (r: Result<Database>)
    ensures r == KeyedUpdate(db, key, table, col, newCol, oldCol)
  {
    var pairs := KeyPairs(key, newCol, oldCol);
    var cur := db;
    var i := 0;
    while i < |key.rows|
      invariant 0 <= i <= |key.rows|
      invariant i == 0 ==> cur == db
      invariant i > 0 ==> newCol in key.columns && oldCol in key.columns && table in db.tables && col in db.tables[table].columns
      invariant i > 0 ==> cur.schema == db.schema && cur.tables.Keys == db.tables.Keys && cur.tables[table].columns == db.tables[table].columns
      invariant i > 0 ==> cur.tables == db.tables[table := cur.tables[table]]
      invariant i > 0 ==> SetWhereAll(db.tables[table].rows, col, pairs) == SetWhereAll(cur.tables[table].rows, col, pairs[i..])
    {
      if newCol !in key.columns {
        return Err(KeyError(newCol));
      }
      if oldCol !in key.columns {
        return Err(KeyError(oldCol));
      }
      var step := UpdateWhere(cur, table, col, Get(key.rows[i], newCol), Get(key.rows[i], oldCol));
      if step.Err? {
        return Err(step.error);
      }
      assert pairs[i..][1..] == pairs[i + 1..];
      cur := step.value;
      i := i + 1;
    }
    if i > 0 {
      assert pairs[i..] == [];
      assert cur.tables[table] == db.tables[table].(rows := SetWhereAll(db.tables[table].rows, col, pairs));
    }
    r := Ok(cur);
  }
}
