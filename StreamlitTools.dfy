/** The stand-alone tools of the Streamlit front end: each takes the database path it works on,
    opens its own connection and returns text for the language model. */
module StreamlitTools {
  import opened Outcome
  import opened Store
  import opened PyText
  import opened Hygiene
  import opened Markers
  import opened Bridge

  /** The path `template_response` opens for the key tables, relative to the working directory. */
  const PrivatePath: string := "private.db"

  /** The fixed retry text `sql_query` returns for any failure, with the indentation of the
      triple-quoted literal it is written as. */
  const TroubleMessage: string :=
    "\n        We're having trouble running this SQL query. This"
    + "\n        could be due to an invalid query or the structure "
    + "\n        of the data. Try rephrasing your question to help "
    + "\n        the model generate a valid query for the database."
    + "\n        "

  /** What `re.findall` raises when it is given `None` instead of a text. */
  const NotAText := TypeError("expected string or bytes-like object, got 'NoneType'")

  /** `get_schema(db_path)`: the cleaned entries joined by blank lines; with no truthy entry the
      local `sql_response` is never bound, and reading it raises. */
  function SchemaResult(db: Database): (r: Result<string>)
    ensures r.Err? <==> NoneTruthy(db.schema)
    ensures r.Err? ==> r.error == UnboundLocalError("sql_response")
    ensures r.Ok? ==> SchemaText(db.schema) == Some(r.value)
  {
    match SchemaText(db.schema)
    case None => Err(UnboundLocalError("sql_response"))
    case Some(s) => Ok(s)
  }

  method GetSchema(files: Files, path: string) returns (r: Result<string>)
    ensures r == SchemaResult(Open(files, path))
  {
    var db := Open(files, path);
    var digest, joined := DigestSchema(db.schema);
    if joined.None? {
      return Err(UnboundLocalError("sql_response"));
    }
    r := Ok(joined.value);
  }

  /** `get_table_info(db_path, table_id)`: the column names `PRAGMA table_info` reports, joined by
      `", "` in column order; a table that does not exist gives the empty text. */
  function GetTableInfo(files: Files, path: string, table: string): (r: string)
    ensures table !in Open(files, path).tables ==> r == ""
    ensures table in Open(files, path).tables ==>
      var cols := Open(files, path).tables[table].columns;
      |cols| >= 1 && (forall k :: 0 <= k < |cols| ==> ',' !in cols[k]) ==> Split(r, ", ") == cols
  {
    var names := PragmaNames(Open(files, path), table);
    if table in Open(files, path).tables && |names| >= 1 && (forall k :: 0 <= k < |names| ==> ',' !in names[k]) then
      ColumnListRoundTrip(names);
      ColumnList(names)
    else ColumnList(names)
  }

  /** Whether some fetched cell is a BLOB, which `json.dumps` has no encoding for. */
  predicate HoldsBlob(rows: seq<seq<Cell>>) {
    exists i, j :: 0 <= i < |rows| && 0 <= j < |rows[i]| && rows[i][j].Blob?
  }

  /** `sql_query(db_path, query)`: the query goes to SQLite as given. Every failure, including a
      missing query (`cursor.execute(None)` raises), comes back as the fixed retry text; fetched
      rows come back as the JSON of one dictionary per row. A BLOB in the rows makes `json.dumps`
      raise a `TypeError`, which the inner handler only prints, so the fetched rows themselves are
      returned. Nothing is raised. */
  function SqlQuery(files: Files, exec: (Database, string) -> QueryResult, path: string, query: Option<string>): (r: Value)
    ensures r == Str(TroubleMessage) <==> query.None? || exec(Open(files, path), query.value).Raised?
    ensures query.Some? && exec(Open(files, path), query.value).Fetched? && !HoldsBlob(exec(Open(files, path), query.value).rows) ==>
      r == JsonOf(DictRows(exec(Open(files, path), query.value).names, exec(Open(files, path), query.value).rows))
    ensures query.Some? && exec(Open(files, path), query.value).Fetched? && HoldsBlob(exec(Open(files, path), query.value).rows) ==>
      r == RowObjects(exec(Open(files, path), query.value).names, exec(Open(files, path), query.value).rows)
  {
    if query.None? then Str(TroubleMessage)
    else
      match exec(Open(files, path), query.value)
      case Raised(_) => Str(TroubleMessage)
      case Fetched(names, rows) => if HoldsBlob(rows) then RowObjects(names, rows) else JsonOf(DictRows(names, rows))
  }

  /** `template_response(encoded_response)`: the answer with the pseudonyms resolved against the
      key tables of `private.db`. */
  function TemplateResult(files: Files, text: Option<string>): (r: Result<string>)
    ensures text.None? ==> r == Err(NotAText)
    ensures text.Some? ==> r == ResolveSpec(Open(files, PrivatePath), PrivateKeys, text.value)
  {
    if text.None? then Err(NotAText) else ResolveSpec(Open(files, PrivatePath), PrivateKeys, text.value)
  }

  method TemplateResponse(files: Files, text: Option<string>) returns (r: Result<string>)
    ensures r == TemplateResult(files, text)
  {
    if text.None? {
      return Err(NotAText);
    }
    r := Resolve(Open(files, PrivatePath), PrivateKeys, text.value);
  }

  /** The repository's tool test: with the test pseudonym filed under one `student_key` row, the
      answer reads as that student's name followed by the rest of the sentence. */
  lemma ToolTestResolves(files: Files, row: Record)
    requires PrivatePath in files && "student_key" in files[PrivatePath].tables
    requires forall c :: c in StudentNameColumns + ["HashStudentID"] ==> c in files[PrivatePath].tables["student_key"].columns
    requires Matching(files[PrivatePath].tables["student_key"].rows, "HashStudentID", Text(ToolTestKey)) == [row]
    ensures TemplateResult(files, Some(ToolTestAnswer))
      == Ok(SqlStr(Get(row, "StudentFirstName")) + " " + SqlStr(Get(row, "StudentLastName")) + " is doing great.")
  {
    var db := Open(files, PrivatePath);
    var m := Marker(Student, ToolTestKey);
    var name := SqlStr(Get(row, "StudentFirstName")) + " " + SqlStr(Get(row, "StudentLastName"));
    StudentHit(db, PrivateKeys, ToolTestKey, row);
    ToolTestKeyGood();
    ToolTestAnswerShape();
    var gaps := ["", " is doing great."];
    ToolTestLayout(m, name);
    EachOfTwoGaps(gaps);
    assert forall k :: 0 <= k < |[m]| ==> GoodKey([m][k].key);
    assert forall i :: 0 <= i < |[m]| ==> Lookup(db, PrivateKeys, [m][i]) == Ok([[name][i]]);
    ExactResolution(db, PrivateKeys, gaps, [m], [name]);
  }

  lemma EachOfTwoGaps(gaps: seq<string>)
    requires gaps == ["", " is doing great."]
    ensures forall k :: 0 <= k < |gaps| ==> '{' !in gaps[k]
  {
    forall k | 0 <= k < |gaps|
      ensures '{' !in gaps[k]
    {
      if k == 0 {} else { assert k == 1; }
    }
  }

  /** The test's answer laid out as a gap, the marker and a gap; and the same layout with the name. */
  lemma ToolTestLayout(m: Marker, name: string)
    requires m == Marker(Student, ToolTestKey)
    ensures Template(["", " is doing great."], Texts([m])) == ToolTestAnswer
    ensures Template(["", " is doing great."], [name]) == name + " is doing great."
  {
    ToolTestAnswerShape();
    assert Texts([m]) == [MarkerText(m)];
    TemplateOfTwo("", " is doing great.", MarkerText(m));
    TemplateOfTwo("", " is doing great.", name);
    assert "" + MarkerText(m) + " is doing great." == MarkerText(m) + " is doing great.";
    assert "" + name + " is doing great." == name + " is doing great.";
  }
}
