/** The version 5.1 data-preparation engine: it reads the nine export files of a fall and a spring
    folder into frames, writes them into the private database, copies that database into an
    anonymous one, redacts names there and replaces student IDs with their hashes, and files the
    keys that undo the hashes in the private database. */
module DataPrepV51 {
  import opened Outcome
  import opened Store
  import opened PyText
  import opened Frames
  import DataPrepEngine

  /** The nine frames the engine holds, one attribute each in the source. */
  datatype Kind =
    | FResults | FStudents | FTeachers
    | SResults | SStudents | STeachers
    | ResultsMeta | TeachersMeta | StudentMeta

  /** `os.path.join(folder, name)` for a relative file name. */
  function PathJoin(folder: string, name: string): (r: string)
    ensures EndsWith(r, name)
    ensures folder == "" ==> r == name
  {
    if folder == "" || folder[|folder| - 1] == '/' then folder + name else folder + "/" + name
  }

  const BadFileName: string :=
    "That is not a recognized NWEA MAP Data Export file. Keep the original file names given to all .csv files in the data export download package."

  /** The attribute `to_df` assigns a frame read from `path`: the kind of export comes from the
      file name and the season from the folder; an export of no season is read and dropped, and a
      name of no known kind stops the load. */
  function Route(path: string): (r: Result<Option<Kind>>)
    ensures r.Err? <==> (!Contains(path, "AssessmentResults") && !Contains(path, "ClassAssignments")
      && !Contains(path, "StudentsBySchool") && !Contains(path, "results_metadata")
      && !Contains(path, "teachers_metadata") && !Contains(path, "student_metadata"))
    ensures r.Err? ==> r.error == ValueError(BadFileName)
  {
    if Contains(path, "AssessmentResults") then
      Ok(if Contains(path, "fall") then Some(FResults) else if Contains(path, "spring") then Some(SResults) else None)
    else if Contains(path, "ClassAssignments") then
      Ok(if Contains(path, "fall") then Some(FTeachers) else if Contains(path, "spring") then Some(STeachers) else None)
    else if Contains(path, "StudentsBySchool") then
      Ok(if Contains(path, "fall") then Some(FStudents) else if Contains(path, "spring") then Some(SStudents) else None)
    else if Contains(path, "results_metadata") then Ok(Some(ResultsMeta))
    else if Contains(path, "teachers_metadata") then Ok(Some(TeachersMeta))
    else if Contains(path, "student_metadata") then Ok(Some(StudentMeta))
    else Err(ValueError(BadFileName))
  }

  /** The kind of a seasonal export. */
  function Seasonal(t: DataPrepEngine.FileType, s: DataPrepEngine.Season): Kind
    requires t != DataPrepEngine.Metadata
  {
    match (t, s)
    case (Results, Fall) => FResults
    case (Results, Spring) => SResults
    case (Teachers, Fall) => FTeachers
    case (Teachers, Spring) => STeachers
    case (Students, Fall) => FStudents
    case (Students, Spring) => SStudents
  }

  /** The two engines agree on the seasonal exports: where the first engine classifies a file as
      results, class assignments or students, this one files it under the same kind and season,
      and drops it exactly when the first engine finds no season. */
  lemma RouteAgrees(path: string)
    requires DataPrepEngine.Classify(path).Some? && DataPrepEngine.Classify(path).value != DataPrepEngine.Metadata
    ensures var t, s := DataPrepEngine.Classify(path).value, DataPrepEngine.SeasonOf(path);
      Route(path) == Ok(if s.None? then None else Some(Seasonal(t, s.value)))
  {
  }

  /** The state `to_df` leaves behind: the frames assigned so far, and the error that stopped it. */
  datatype Load = Load(frames: map<Kind, Table>, raised: Option<Error>)

  /** `to_df` over `paths`, from the frames already held: each file is read (a missing file
      stops the load), its empty rows and then its empty columns are dropped, and the result is
      assigned to the attribute its path routes to. */
  function LoadAll(frames: map<Kind, Table>, csvs: map<string, Table>, paths: seq<string>): (r: Load)
    ensures r.raised.None? ==> forall k :: 0 <= k < |paths| ==> paths[k] in csvs && Route(paths[k]).Ok?
    decreases |paths|
  {
    if paths == [] then Load(frames, None)
    else
      var p := paths[0];
      if p !in csvs then Load(frames, Some(FileNotFoundError(p)))
      else
        match Route(p)
        case Err(e) => Load(frames, Some(e))
        case Ok(None) => LoadAll(frames, csvs, paths[1..])
        case Ok(Some(k)) => LoadAll(frames[k := Tidy(csvs[p])], csvs, paths[1..])
  }

  /** After a complete load, a kind holds the tidied frame of the last path routed to it. */
  lemma {:induction false} LoadAllLastWins(frames: map<Kind, Table>, csvs: map<string, Table>, paths: seq<string>, i: nat, k: Kind)
    requires LoadAll(frames, csvs, paths).raised.None?
    requires i < |paths| && Route(paths[i]) == Ok(Some(k))
    requires forall j :: i < j < |paths| ==> Route(paths[j]) != Ok(Some(k))
    ensures k in LoadAll(frames, csvs, paths).frames && LoadAll(frames, csvs, paths).frames[k] == Tidy(csvs[paths[i]])
    decreases |paths|
  {
    var p := paths[0];
    var next := if Route(p).value.Some? then frames[Route(p).value.value := Tidy(csvs[p])] else frames;
    assert LoadAll(frames, csvs, paths) == LoadAll(next, csvs, paths[1..]);
    if i == 0 {
      LoadAllUntouched(next, csvs, paths[1..], k);
    } else {
      assert forall j :: i - 1 < j < |paths[1..]| ==> paths[1..][j] == paths[j + 1];
      LoadAllLastWins(next, csvs, paths[1..], i - 1, k);
    }
  }

  /** A kind no path routes to keeps what it held. */
  lemma {:induction false} LoadAllUntouched(frames: map<Kind, Table>, csvs: map<string, Table>, paths: seq<string>, k: Kind)
    requires forall j :: 0 <= j < |paths| ==> Route(paths[j]) != Ok(Some(k))
    ensures k in LoadAll(frames, csvs, paths).frames <==> k in frames
    ensures k in frames ==> LoadAll(frames, csvs, paths).frames[k] == frames[k]
    decreases |paths|
  {
    if paths != [] && paths[0] in csvs && Route(paths[0]).Ok? {
      var p := paths[0];
      var next := if Route(p).value.Some? then frames[Route(p).value.value := Tidy(csvs[p])] else frames;
      assert forall j :: 0 <= j < |paths[1..]| ==> paths[1..][j] == paths[j + 1];
      LoadAllUntouched(next, csvs, paths[1..], k);
    }
  }

  /** The names `set_kines` gives the frames, in the order it lists them. */
  const KineOrder: seq<(string, Kind)> := [
    ("f_results", FResults), ("f_teachers", FTeachers), ("f_students", FStudents),
    ("s_results", SResults), ("s_teachers", STeachers), ("s_students", SStudents),
    ("results_metadata", ResultsMeta), ("teachers_metadata", TeachersMeta), ("student_metadata", StudentMeta)]

  /** The names `__init__` lists, each still without a frame. */
  const InitialKines: seq<(string, Option<Table>)> := [
    ("f_results", None), ("f_teachers", None), ("f_students", None),
    ("results_metadata", None), ("teachers_metadata", None), ("student_metadata", None),
    ("s_results", None), ("s_teachers", None), ("s_students", None)]

  /** `set_kines()`: each name with the frame of its kind, or none. */
  function KinesOf(frames: map<Kind, Table>): (r: seq<(string, Option<Table>)>)
    ensures |r| == |KineOrder|
    ensures forall i :: 0 <= i < |KineOrder| ==> r[i].0 == KineOrder[i].0
    ensures forall i :: 0 <= i < |KineOrder| ==> r[i].1 == (if KineOrder[i].1 in frames then Some(frames[KineOrder[i].1]) else None)
  {
    seq(|KineOrder|, i requires 0 <= i < |KineOrder| =>
      (KineOrder[i].0, if KineOrder[i].1 in frames then Some(frames[KineOrder[i].1]) else None))
  }

  predicate DistinctNames(kines: seq<(string, Option<Table>)>) {
    forall i, j :: 0 <= i < j < |kines| ==> kines[i].0 != kines[j].0
  }

  lemma KineNamesDistinct(frames: map<Kind, Table>)
    ensures DistinctNames(KinesOf(frames))
  {
    var r := KinesOf(frames);
    assert forall i :: 0 <= i < 9 ==> r[i].0 == KineOrder[i].0;
  }

  /** The private database `to_db` leaves behind: the frames written so far, each committed by
      `to_sql`, and the error raised at the first name without a frame. */
  datatype Write = Write(db: Database, raised: Option<Error>)

  function WriteAll(db: Database, kines: seq<(string, Option<Table>)>): (r: Write)
    ensures r.raised.None? <==> forall i :: 0 <= i < |kines| ==> kines[i].1.Some?
    ensures r.db.schema == db.schema
    decreases |kines|
  {
    if kines == [] then Write(db, None)
    else if kines[0].1.None? then Write(db, Some(ValueError("At " + kines[0].0 + " : DataFrame None has not been set yet.")))
    else
      var rest := WriteAll(WriteTable(db, kines[0].0, kines[0].1.value), kines[1..]);
      assert forall i :: 1 <= i < |kines| ==> kines[i] == kines[1..][i - 1];
      rest
  }

  /** With distinct names, a complete write files each frame under its name and leaves every other
      table as it was. */
  lemma {:induction false} WriteAllTables(db: Database, kines: seq<(string, Option<Table>)>)
    requires DistinctNames(kines)
    requires WriteAll(db, kines).raised.None?
    ensures forall i :: 0 <= i < |kines| ==>
      kines[i].0 in WriteAll(db, kines).db.tables && WriteAll(db, kines).db.tables[kines[i].0] == kines[i].1.value
    ensures forall u :: u in db.tables && (forall i :: 0 <= i < |kines| ==> kines[i].0 != u) ==>
      u in WriteAll(db, kines).db.tables && WriteAll(db, kines).db.tables[u] == db.tables[u]
    decreases |kines|
  {
    if kines != [] {
      var next := WriteTable(db, kines[0].0, kines[0].1.value);
      var rest := kines[1..];
      assert forall i :: 0 <= i < |rest| ==> rest[i] == kines[i + 1];
      WriteAllTables(next, rest);
      forall i | 0 <= i < |kines|
        ensures kines[i].0 in WriteAll(db, kines).db.tables && WriteAll(db, kines).db.tables[kines[i].0] == kines[i].1.value
      {
        if i == 0 {
          assert forall j :: 0 <= j < |rest| ==> rest[j].0 != kines[0].0;
        } else {
          assert kines[i] == rest[i - 1];
        }
      }
    }
  }

  /** Where a write stops, the error names the first name without a frame. */
  lemma {:induction false} WriteAllStops(db: Database, kines: seq<(string, Option<Table>)>, i: nat)
    requires i < |kines| && kines[i].1.None?
    requires forall j :: 0 <= j < i ==> kines[j].1.Some?
    ensures WriteAll(db, kines).raised == Some(ValueError("At " + kines[i].0 + " : DataFrame None has not been set yet."))
    decreases i
  {
    if i > 0 {
      var rest := kines[1..];
      assert forall j :: 0 <= j < i - 1 ==> rest[j] == kines[j + 1];
      assert rest[i - 1] == kines[i];
      WriteAllStops(WriteTable(db, kines[0].0, kines[0].1.value), rest, i - 1);
    }
  }

  /** The columns of a student key, in the order the source builds them. */
  const StudentKeyColumns: seq<string> := DataPrepEngine.StudentColumns

  /** `hash_student_ids(df)`: the student ID and both names of every row, with the hash of the
      printed ID added. A frame lacking one of the three columns raises at the first one it lacks. */
  function HashStudentIds(h: string -> string, df: Option<Table>): (r: Result<Table>)
    ensures df.None? ==> r == Err(ValueError("df not set yet. Run .to_df() on a students file before using this method."))
    ensures df.Some? ==> (r.Ok? <==> forall k :: 0 <= k < |StudentKeyColumns| ==> StudentKeyColumns[k] in df.value.columns)
    ensures df.Some? && r.Err? ==> r.error == KeyError(FirstMissing(StudentKeyColumns, df.value.columns).value)
    ensures df.Some? && r.Ok? ==>
      && r.value.columns == StudentKeyColumns + ["HashStudentID"]
      && |r.value.rows| == |df.value.rows|
      && forall i :: 0 <= i < |df.value.rows| ==>
           && Get(r.value.rows[i], "HashStudentID") == Text(h(FrameStr(Get(df.value.rows[i], "StudentID"))))
           && forall c :: c in StudentKeyColumns ==> Get(r.value.rows[i], c) == Get(df.value.rows[i], c)
  {
    if df.None? then Err(ValueError("df not set yet. Run .to_df() on a students file before using this method."))
    else
      match FirstMissing(StudentKeyColumns, df.value.columns)
      case Some(c) => Err(KeyError(c))
      case None =>
        HashedSelect(h, df.value, StudentKeyColumns, "StudentID", "HashStudentID");
        Ok(WithHash(h, Select(df.value, StudentKeyColumns), "StudentID", "HashStudentID"))
  }

  /** `hash_teacher_ids(df)`: the teacher name of every row, with its hash added. */
  function HashTeacherIds(h: string -> string, df: Option<Table>): (r: Result<Table>)
    ensures df.None? ==> r == Err(ValueError("Teacher DataFrame not set yet. Run .to_df() on a teachers file before using this method."))
    ensures df.Some? ==> (r.Ok? <==> "TeacherName" in df.value.columns)
    ensures df.Some? && r.Err? ==> r.error == KeyError("TeacherName")
    ensures df.Some? && r.Ok? ==>
      && r.value.columns == ["TeacherName", "HashTeacherName"]
      && |r.value.rows| == |df.value.rows|
      && forall i :: 0 <= i < |df.value.rows| ==>
           && Get(r.value.rows[i], "HashTeacherName") == Text(h(FrameStr(Get(df.value.rows[i], "TeacherName"))))
           && Get(r.value.rows[i], "TeacherName") == Get(df.value.rows[i], "TeacherName")
  {
    if df.None? then Err(ValueError("Teacher DataFrame not set yet. Run .to_df() on a teachers file before using this method."))
    else if "TeacherName" !in df.value.columns then Err(KeyError("TeacherName"))
    else
      HashedSelect(h, df.value, ["TeacherName"], "TeacherName", "HashTeacherName");
      Ok(WithHash(h, Select(df.value, ["TeacherName"]), "TeacherName", "HashTeacherName"))
  }

  /** With an injective hash and distinct printed IDs, no two rows of a student key share a hash. */
  lemma StudentKeyDistinct(h: string -> string, df: Table)
    requires forall a, b :: h(a) == h(b) ==> a == b
    requires HashStudentIds(h, Some(df)).Ok?
    requires forall i, j :: 0 <= i < j < |df.rows| ==> FrameStr(Get(df.rows[i], "StudentID")) != FrameStr(Get(df.rows[j], "StudentID"))
    ensures !Duplicated(HashStudentIds(h, Some(df)).value, "HashStudentID")
  {
    HashesDistinct(h, Select(df, StudentKeyColumns), "StudentID", "HashStudentID");
  }

  // ----- Redaction -----

  /** The columns `redact_db` overwrites in the table of a name. */
  predicate RedactedColumn(table: string, col: string) {
    || ((table == "f_students" || table == "s_students") && (col == "StudentFirstName" || col == "StudentLastName"))
    || ((table == "f_teachers" || table == "s_teachers") && col == "TeacherName")
  }

  /** The UPDATE statements `redact_db` runs for one name. */
  function RedactKine(db: Database, kine: string): (r: Result<Database>)
    ensures r.Err? ==> r.error.OperationalError?
  {
    if kine == "f_students" || kine == "s_students" then
      var a :- UpdateAll(db, kine, "StudentFirstName", Text("REDACTED"));
      UpdateAll(a, kine, "StudentLastName", Text("REDACTED"))
    else if kine == "f_teachers" || kine == "s_teachers" then
      UpdateAll(db, kine, "TeacherName", Text("REDACTED"))
    else Ok(db)
  }

  /** The redaction loop over the names, in order, stopping at the first failing statement. */
  function RedactAll(db: Database, kines: seq<string>): (r: Result<Database>)
    ensures r.Err? ==> r.error.OperationalError?
    decreases |kines|
  {
    if kines == [] then Ok(db)
    else
      var a :- RedactKine(db, kines[0]);
      RedactAll(a, kines[1..])
  }

  /** A cell is redacted when its table is one of the names and its column one that name's
      statements overwrite. */
  predicate Redacts(kines: seq<string>, table: string, col: string) {
    table in kines && RedactedColumn(table, col)
  }

  /** `after` is `db` with exactly the cells `Redacts(kines, ...)` names overwritten by
      `REDACTED`: the same tables, columns and row counts, and every other cell as it was. */
  ghost predicate RedactedBy(db: Database, after: Database, kines: seq<string>) {
    && after.schema == db.schema && after.tables.Keys == db.tables.Keys
    && forall u :: u in db.tables ==>
         && after.tables[u].columns == db.tables[u].columns
         && |after.tables[u].rows| == |db.tables[u].rows|
         && forall i, c :: 0 <= i < |db.tables[u].rows| ==>
              Get(after.tables[u].rows[i], c) ==
                if Redacts(kines, u, c) then Text("REDACTED") else Get(db.tables[u].rows[i], c)
  }

  /** What one name's statements do: its redacted columns read `REDACTED`, every other cell is
      as it was. */
  lemma RedactKineCells(db: Database, kine: string)
    requires RedactKine(db, kine).Ok?
    ensures RedactedBy(db, RedactKine(db, kine).value, [kine])
  {
    if kine == "f_students" || kine == "s_students" {
      RedactStudentCells(db, kine);
    }
  }

  /** The two statements for a student table overwrite both name columns and nothing else. */
  lemma RedactStudentCells(db: Database, kine: string)
    requires kine == "f_students" || kine == "s_students"
    requires RedactKine(db, kine).Ok?
    ensures RedactedBy(db, RedactKine(db, kine).value, [kine])
  {
    var a := UpdateAll(db, kine, "StudentFirstName", Text("REDACTED")).value;
    var b := UpdateAll(a, kine, "StudentLastName", Text("REDACTED")).value;
    forall u, i, c | u in db.tables && 0 <= i < |db.tables[u].rows|
      ensures Get(b.tables[u].rows[i], c) == if Redacts([kine], u, c) then Text("REDACTED") else Get(db.tables[u].rows[i], c)
    {
      assert u in a.tables && |a.tables[u].rows| == |db.tables[u].rows|;
    }
  }

  /** Redacting one name and then the rest redacts them all. */
  lemma RedactedThen(a: Database, b: Database, c: Database, kine: string, rest: seq<string>)
    requires RedactedBy(a, b, [kine]) && RedactedBy(b, c, rest)
    ensures RedactedBy(a, c, [kine] + rest)
  {
    forall u, i, col | u in a.tables && 0 <= i < |a.tables[u].rows|
      ensures Get(c.tables[u].rows[i], col) == if Redacts([kine] + rest, u, col) then Text("REDACTED") else Get(a.tables[u].rows[i], col)
    {
      assert u in b.tables && |b.tables[u].rows| == |a.tables[u].rows|;
      assert Get(b.tables[u].rows[i], col) == if Redacts([kine], u, col) then Text("REDACTED") else Get(a.tables[u].rows[i], col);
      assert Get(c.tables[u].rows[i], col) == if Redacts(rest, u, col) then Text("REDACTED") else Get(b.tables[u].rows[i], col);
      assert u in [kine] + rest <==> u == kine || u in rest;
    }
  }

  /** After a complete redaction, exactly the name columns of the named tables read `REDACTED`. */
  lemma {:induction false} RedactAllCells(db: Database, kines: seq<string>)
    requires RedactAll(db, kines).Ok?
    ensures RedactedBy(db, RedactAll(db, kines).value, kines)
    decreases |kines|
  {
    if kines != [] {
      var mid := RedactKine(db, kines[0]).value;
      RedactKineCells(db, kines[0]);
      RedactAllCells(mid, kines[1..]);
      RedactedThen(db, mid, RedactAll(db, kines).value, kines[0], kines[1..]);
      assert [kines[0]] + kines[1..] == kines;
    }
  }

  /** The names of the frames, in order. */
  function Names(kines: seq<(string, Option<Table>)>): (r: seq<string>)
    ensures |r| == |kines| && forall i :: 0 <= i < |kines| ==> r[i] == kines[i].0
  {
    seq(|kines|, i requires 0 <= i < |kines| => kines[i].0)
  }

  // ----- Hashed IDs in the anonymous database -----

  /** A connection's view after a run of statements, and the error that stopped the run. */
  datatype Run = Run(db: Database, raised: Option<Error>)

  /** The three UPDATE statements `merge_hashed_student_ids` runs for one key row, in order; a
      failing statement leaves the earlier ones in effect. */
  function MergeStudentRow(db: Database, term: string, hash: Cell, id: Cell): Run {
    match UpdateWhere(db, term + "students", "StudentID", hash, id)
    case Err(e) => Run(db, Some(e))
    case Ok(a) =>
      match UpdateWhere(a, term + "teachers", "StudentID", hash, id)
      case Err(e) => Run(a, Some(e))
      case Ok(b) =>
        match UpdateWhere(b, term + "results", "StudentID", hash, id)
        case Err(e) => Run(b, Some(e))
        case Ok(c) => Run(c, None)
  }

  /** The statements for each (hash, ID) pair in turn, stopping at the first failing one. */
  function MergeStudentPairs(db: Database, term: string, pairs: seq<(Cell, Cell)>): Run
    decreases |pairs|
  {
    if pairs == [] then Run(db, None)
    else
      var step := MergeStudentRow(db, term, pairs[0].0, pairs[0].1);
      if step.raised.Some? then step else MergeStudentPairs(step.db, term, pairs[1..])
  }

  /** `merge_hashed_student_ids(key, term_)` on the view of the anonymous connection. */
  function MergeStudents(view: Database, key: Option<Table>, term: string): (r: Run)
    ensures key.None? ==> r == Run(view, Some(ValueError("key not set.")))
    ensures key.Some? && key.value.rows != [] && "HashStudentID" !in key.value.columns ==> r == Run(view, Some(KeyError("HashStudentID")))
    ensures key.Some? && key.value.rows != [] && "HashStudentID" in key.value.columns && "StudentID" !in key.value.columns ==>
      r == Run(view, Some(KeyError("StudentID")))
  {
    if key.None? then Run(view, Some(ValueError("key not set.")))
    else if key.value.rows == [] then Run(view, None)
    else if "HashStudentID" !in key.value.columns then Run(view, Some(KeyError("HashStudentID")))
    else if "StudentID" !in key.value.columns then Run(view, Some(KeyError("StudentID")))
    else MergeStudentPairs(view, term, KeyPairs(key.value, "HashStudentID", "StudentID"))
  }

  /** A table that can take the UPDATE: it exists and has the column. */
  predicate Updatable(db: Database, table: string, col: string) {
    table in db.tables && col in db.tables[table].columns
  }

  /** One UPDATE on a table that can take it. */
  lemma UpdateWhereRows(db: Database, table: string, col: string, v: Cell, was: Cell)
    requires Updatable(db, table, col)
    ensures UpdateWhere(db, table, col, v, was) ==
      Ok(db.(tables := db.tables[table := db.tables[table].(rows := SetWhere(db.tables[table].rows, col, v, was))]))
  {
  }

  /** A table with its StudentID column rewritten pair by pair. */
  function Rewritten(t: Table, pairs: seq<(Cell, Cell)>): Table {
    t.(rows := SetWhereAll(t.rows, "StudentID", pairs))
  }

  /** The database with the StudentID columns of a term's three tables rewritten. */
  function RewriteTerm(db: Database, term: string, pairs: seq<(Cell, Cell)>): Database
    requires term + "students" in db.tables && term + "teachers" in db.tables && term + "results" in db.tables
  {
    var s, t, u := term + "students", term + "teachers", term + "results";
    db.(tables := db.tables[s := Rewritten(db.tables[s], pairs)][t := Rewritten(db.tables[t], pairs)][u := Rewritten(db.tables[u], pairs)])
  }

  lemma TermTablesDistinct(term: string)
    ensures term + "students" != term + "teachers"
    ensures term + "teachers" != term + "results"
    ensures term + "students" != term + "results"
  {
    var s, t, u := term + "students", term + "teachers", term + "results";
    assert s[|term|..] == "students" && t[|term|..] == "teachers" && u[|term|..] == "results";
  }

  /** The database after one key row's three statements. */
  function StepTerm(db: Database, term: string, v: Cell, was: Cell): Database
    requires term + "students" in db.tables && term + "teachers" in db.tables && term + "results" in db.tables
  {
    var s, t, u := term + "students", term + "teachers", term + "results";
    db.(tables := db.tables
      [s := db.tables[s].(rows := SetWhere(db.tables[s].rows, "StudentID", v, was))]
      [t := db.tables[t].(rows := SetWhere(db.tables[t].rows, "StudentID", v, was))]
      [u := db.tables[u].(rows := SetWhere(db.tables[u].rows, "StudentID", v, was))])
  }

  /** One key row's statements all succeed on tables that can take them. */
  lemma MergeStudentRowStep(db: Database, term: string, v: Cell, was: Cell)
    requires Updatable(db, term + "students", "StudentID")
    requires Updatable(db, term + "teachers", "StudentID")
    requires Updatable(db, term + "results", "StudentID")
    ensures MergeStudentRow(db, term, v, was) == Run(StepTerm(db, term, v, was), None)
    ensures Updatable(StepTerm(db, term, v, was), term + "students", "StudentID")
    ensures Updatable(StepTerm(db, term, v, was), term + "teachers", "StudentID")
    ensures Updatable(StepTerm(db, term, v, was), term + "results", "StudentID")
  {
    var s, t, u := term + "students", term + "teachers", term + "results";
    TermTablesDistinct(term);
    var a := db.(tables := db.tables[s := db.tables[s].(rows := SetWhere(db.tables[s].rows, "StudentID", v, was))]);
    UpdateWhereRows(db, s, "StudentID", v, was);
    var b := a.(tables := a.tables[t := a.tables[t].(rows := SetWhere(a.tables[t].rows, "StudentID", v, was))]);
    UpdateWhereRows(a, t, "StudentID", v, was);
    UpdateWhereRows(b, u, "StudentID", v, was);
  }

  /** Rewriting after the first row's statements is rewriting with every pair. */
  lemma RewriteTermStep(db: Database, term: string, pairs: seq<(Cell, Cell)>)
    requires pairs != []
    requires term + "students" in db.tables && term + "teachers" in db.tables && term + "results" in db.tables
    ensures var next := StepTerm(db, term, pairs[0].0, pairs[0].1);
      && term + "students" in next.tables && term + "teachers" in next.tables && term + "results" in next.tables
      && RewriteTerm(next, term, pairs[1..]) == RewriteTerm(db, term, pairs)
  {
    var s, t, u := term + "students", term + "teachers", term + "results";
    TermTablesDistinct(term);
    var next := StepTerm(db, term, pairs[0].0, pairs[0].1);
    assert Rewritten(next.tables[s], pairs[1..]) == Rewritten(db.tables[s], pairs);
    assert Rewritten(next.tables[t], pairs[1..]) == Rewritten(db.tables[t], pairs);
    assert Rewritten(next.tables[u], pairs[1..]) == Rewritten(db.tables[u], pairs);
  }

  /** When the three tables of a term can take the statements, the interleaved loop rewrites each
      table as if its own statements had run alone, and raises nothing. */
  lemma {:induction false} MergeStudentPairsRewrites(db: Database, term: string, pairs: seq<(Cell, Cell)>)
    requires Updatable(db, term + "students", "StudentID")
    requires Updatable(db, term + "teachers", "StudentID")
    requires Updatable(db, term + "results", "StudentID")
    ensures MergeStudentPairs(db, term, pairs) == Run(RewriteTerm(db, term, pairs), None)
    decreases |pairs|
  {
    if pairs == [] {
      assert RewriteTerm(db, term, pairs).tables == db.tables;
    } else {
      MergeStudentRowStep(db, term, pairs[0].0, pairs[0].1);
      MergeStudentPairsRewrites(StepTerm(db, term, pairs[0].0, pairs[0].1), term, pairs[1..]);
      RewriteTermStep(db, term, pairs);
    }
  }

  /** After a clean merge every StudentID cell of the term's three tables is its old value chased
      through the key's (hash, ID) pairs, and nothing else in them changes. */
  lemma MergeStudentsChases(db: Database, key: Table, term: string, table: string, i: nat, c: string)
    requires Updatable(db, term + "students", "StudentID")
    requires Updatable(db, term + "teachers", "StudentID")
    requires Updatable(db, term + "results", "StudentID")
    requires "HashStudentID" in key.columns && "StudentID" in key.columns
    requires table in db.tables && i < |db.tables[table].rows|
    ensures var r := MergeStudents(db, Some(key), term);
      var before := db.tables[table].rows[i];
      && r.raised.None?
      && r.db.tables.Keys == db.tables.Keys
      && |r.db.tables[table].rows| == |db.tables[table].rows|
      && Get(r.db.tables[table].rows[i], c) ==
           if c == "StudentID" && (table == term + "students" || table == term + "teachers" || table == term + "results")
           then Chase(Get(before, c), KeyPairs(key, "HashStudentID", "StudentID"))
           else Get(before, c)
  {
    var pairs := KeyPairs(key, "HashStudentID", "StudentID");
    MergeStudentPairsRewrites(db, term, pairs);
    var after := RewriteTerm(db, term, pairs);
    if key.rows == [] {
      assert pairs == [];
      assert MergeStudents(db, Some(key), term).db == db;
    } else {
      assert MergeStudents(db, Some(key), term).db == after;
    }
    assert after.tables.Keys == db.tables.Keys;
    if table == term + "students" || table == term + "teachers" || table == term + "results" {
      assert after.tables[table] == Rewritten(db.tables[table], pairs);
      SetWhereAllChase(db.tables[table].rows, "StudentID", pairs);
    } else {
      assert after.tables[table] == db.tables[table];
    }
  }

  /** A missing table of the term stops the first key row at its statement for that table. */
  lemma MergeStudentsNoTable(db: Database, key: Table, term: string)
    requires "HashStudentID" in key.columns && "StudentID" in key.columns && key.rows != []
    requires term + "students" !in db.tables
    ensures MergeStudents(db, Some(key), term) == Run(db, Some(NoSuchTable(term + "students")))
  {
  }

  /** `merge_hashed_teacher_names(key, term_)`: one UPDATE per key row that sets the `TeacherID`
      column to the hashed name where it equals the teacher's name. */
  function MergeTeachers(view: Database, key: Option<Table>, term: string): (r: Result<Database>)
    ensures key.None? ==> r == Err(ValueError("key not set."))
    ensures key.Some? ==> r == KeyedUpdate(view, key.value, term + "teachers", "TeacherID", "HashTeacherName", "TeacherName")
  {
    if key.None? then Err(ValueError("key not set."))
    else KeyedUpdate(view, key.value, term + "teachers", "TeacherID", "HashTeacherName", "TeacherName")
  }

  /** The teacher merge compares IDs with names: where every `TeacherID` is a number or NULL and
      every key name is text, no row matches, and the teachers table keeps every cell, its
      teacher names included. */
  lemma MergeTeachersChangesNothing(view: Database, key: Table, term: string, i: nat, c: string)
    requires MergeTeachers(view, Some(key), term).Ok?
    requires term + "teachers" in view.tables && i < |view.tables[term + "teachers"].rows|
    requires forall j :: 0 <= j < |view.tables[term + "teachers"].rows| ==>
      !Get(view.tables[term + "teachers"].rows[j], "TeacherID").Text?
    requires forall j :: 0 <= j < |key.rows| ==> Get(key.rows[j], "TeacherName").Text?
    ensures var after := MergeTeachers(view, Some(key), term).value.tables[term + "teachers"].rows;
      |after| == |view.tables[term + "teachers"].rows|
      && Get(after[i], c) == Get(view.tables[term + "teachers"].rows[i], c)
  {
    var t := term + "teachers";
    KeyedUpdateChase(view, key, t, "TeacherID", "HashTeacherName", "TeacherName");
    var pairs := KeyPairs(key, "HashTeacherName", "TeacherName");
    var v := Get(view.tables[t].rows[i], "TeacherID");
    assert forall k :: 0 <= k < |pairs| ==> pairs[k].1 == Get(key.rows[k], "TeacherName");
    ChaseMiss(v, pairs);
  }

  // ----- What the merges may change -----

  /** `after` has the tables, columns and row counts of `db`, and differs from it only in the
      columns `cols`. */
  ghost predicate ChangesAt(db: Database, after: Database, cols: set<string>) {
    && after.tables.Keys == db.tables.Keys
    && forall u :: u in db.tables ==>
         && after.tables[u].columns == db.tables[u].columns
         && |after.tables[u].rows| == |db.tables[u].rows|
         && forall i, c :: 0 <= i < |db.tables[u].rows| && c !in cols ==>
              Get(after.tables[u].rows[i], c) == Get(db.tables[u].rows[i], c)
  }

  /** One cell under `ChangesAt`. */
  lemma ChangesAtCell(a: Database, b: Database, cols: set<string>, u: string, i: nat, c: string)
    requires ChangesAt(a, b, cols) && u in a.tables && i < |a.tables[u].rows|
    ensures u in b.tables && |b.tables[u].rows| == |a.tables[u].rows|
    ensures c !in cols ==> Get(b.tables[u].rows[i], c) == Get(a.tables[u].rows[i], c)
  {
  }

  /** One cell under `RedactedBy`. */
  lemma RedactedCell(db: Database, after: Database, kines: seq<string>, u: string, i: nat, c: string)
    requires RedactedBy(db, after, kines) && u in db.tables && i < |db.tables[u].rows|
    ensures u in after.tables && |after.tables[u].rows| == |db.tables[u].rows|
    ensures Get(after.tables[u].rows[i], c) == if Redacts(kines, u, c) then Text("REDACTED") else Get(db.tables[u].rows[i], c)
  {
  }

  lemma ChangesAtThen(a: Database, b: Database, c: Database, cols: set<string>)
    requires ChangesAt(a, b, cols) && ChangesAt(b, c, cols)
    ensures ChangesAt(a, c, cols)
  {
  }

  lemma ChangesAtWiden(a: Database, b: Database, cols: set<string>, more: set<string>)
    requires ChangesAt(a, b, cols) && cols <= more
    ensures ChangesAt(a, b, more)
  {
  }

  lemma UpdateWhereChanges(db: Database, table: string, col: string, v: Cell, was: Cell)
    requires UpdateWhere(db, table, col, v, was).Ok?
    ensures ChangesAt(db, UpdateWhere(db, table, col, v, was).value, {col})
  {
  }

  /** One key row's statements change StudentID cells only, whether or not they all succeed. */
  lemma MergeStudentRowChanges(db: Database, term: string, v: Cell, was: Cell)
    ensures ChangesAt(db, MergeStudentRow(db, term, v, was).db, {"StudentID"})
  {
    var a := UpdateWhere(db, term + "students", "StudentID", v, was);
    if a.Ok? {
      UpdateWhereChanges(db, term + "students", "StudentID", v, was);
      var b := UpdateWhere(a.value, term + "teachers", "StudentID", v, was);
      if b.Ok? {
        UpdateWhereChanges(a.value, term + "teachers", "StudentID", v, was);
        ChangesAtThen(db, a.value, b.value, {"StudentID"});
        var c := UpdateWhere(b.value, term + "results", "StudentID", v, was);
        if c.Ok? {
          UpdateWhereChanges(b.value, term + "results", "StudentID", v, was);
          ChangesAtThen(db, b.value, c.value, {"StudentID"});
        }
      }
    }
  }

  lemma {:induction false} MergeStudentPairsChanges(db: Database, term: string, pairs: seq<(Cell, Cell)>)
    ensures ChangesAt(db, MergeStudentPairs(db, term, pairs).db, {"StudentID"})
    decreases |pairs|
  {
    if pairs != [] {
      var step := MergeStudentRow(db, term, pairs[0].0, pairs[0].1);
      MergeStudentRowChanges(db, term, pairs[0].0, pairs[0].1);
      if step.raised.None? {
        MergeStudentPairsChanges(step.db, term, pairs[1..]);
        ChangesAtThen(db, step.db, MergeStudentPairs(db, term, pairs).db, {"StudentID"});
      }
    }
  }

  /** `merge_hashed_student_ids` changes StudentID cells only, and keeps every table, column
      and row, even when it stops part way. */
  lemma MergeStudentsChanges(view: Database, key: Option<Table>, term: string)
    ensures ChangesAt(view, MergeStudents(view, key, term).db, {"StudentID"})
  {
    if key.Some? && key.value.rows != [] && "HashStudentID" in key.value.columns && "StudentID" in key.value.columns {
      MergeStudentPairsChanges(view, term, KeyPairs(key.value, "HashStudentID", "StudentID"));
    }
  }

  /** `merge_hashed_teacher_names` changes TeacherID cells only. */
  lemma MergeTeachersChanges(view: Database, key: Table, term: string)
    requires MergeTeachers(view, Some(key), term).Ok?
    ensures ChangesAt(view, MergeTeachers(view, Some(key), term).value, {"TeacherID"})
  {
    KeyedUpdateChase(view, key, term + "teachers", "TeacherID", "HashTeacherName", "TeacherName");
  }

  /** A key row's statements that all succeed found their three tables with a StudentID column. */
  lemma MergeStudentRowOk(db: Database, term: string, v: Cell, was: Cell)
    requires MergeStudentRow(db, term, v, was).raised.None?
    ensures Updatable(db, term + "students", "StudentID")
    ensures Updatable(db, term + "teachers", "StudentID")
    ensures Updatable(db, term + "results", "StudentID")
  {
    var a := UpdateWhere(db, term + "students", "StudentID", v, was).value;
    var b := UpdateWhere(a, term + "teachers", "StudentID", v, was).value;
    assert Updatable(a, term + "teachers", "StudentID");
    assert Updatable(b, term + "results", "StudentID");
  }

  /** After a clean `merge_hashed_student_ids`, a StudentID cell of the term's three tables is its
      old value chased through the key's (hash, ID) pairs, and one of any other table is as it was. */
  lemma MergeStudentsOkChases(view: Database, key: Table, term: string, table: string, i: nat)
    requires MergeStudents(view, Some(key), term).raised.None?
    requires table in view.tables && i < |view.tables[table].rows|
    ensures var after := MergeStudents(view, Some(key), term).db;
      var before := view.tables[table].rows[i];
      && table in after.tables && |after.tables[table].rows| == |view.tables[table].rows|
      && Get(after.tables[table].rows[i], "StudentID") ==
           if table == term + "students" || table == term + "teachers" || table == term + "results"
           then Chase(Get(before, "StudentID"), KeyPairs(key, "HashStudentID", "StudentID"))
           else Get(before, "StudentID")
  {
    if key.rows == [] {
      assert KeyPairs(key, "HashStudentID", "StudentID") == [];
    } else {
      var pairs := KeyPairs(key, "HashStudentID", "StudentID");
      assert MergeStudentRow(view, term, pairs[0].0, pairs[0].1).raised.None?;
      MergeStudentRowOk(view, term, pairs[0].0, pairs[0].1);
      MergeStudentsChases(view, key, term, table, i, "StudentID");
    }
  }

  // ----- The anonymous database `main` builds -----

  /** The anonymous database `main` builds from the private one: the copy with its names redacted
      in list order, then the spring and the fall student keys merged, then the spring and the
      fall teacher keys; the first failing step's error is what it raises. */
  function Anonymize(priv: Database, names: seq<string>, sStudentKey: Table, fStudentKey: Table, sTeacherKey: Table, fTeacherKey: Table): Result<Database> {
    var redacted :- RedactAll(priv, names);
    var s := MergeStudents(redacted, Some(sStudentKey), "s_");
    if s.raised.Some? then Err(s.raised.value)
    else
      var f := MergeStudents(s.db, Some(fStudentKey), "f_");
      if f.raised.Some? then Err(f.raised.value)
      else
        var t :- MergeTeachers(f.db, Some(sTeacherKey), "s_");
        MergeTeachers(t, Some(fTeacherKey), "f_")
  }

  /** A clean build is the redacted copy changed in the two ID columns only. */
  lemma AnonymizeChanges(priv: Database, names: seq<string>, sStudentKey: Table, fStudentKey: Table,
                         sTeacherKey: Table, fTeacherKey: Table)
    requires Anonymize(priv, names, sStudentKey, fStudentKey, sTeacherKey, fTeacherKey).Ok?
    ensures RedactAll(priv, names).Ok?
    ensures RedactedBy(priv, RedactAll(priv, names).value, names)
    ensures ChangesAt(RedactAll(priv, names).value, Anonymize(priv, names, sStudentKey, fStudentKey, sTeacherKey, fTeacherKey).value,
                      {"StudentID", "TeacherID"})
  {
    var ids := {"StudentID", "TeacherID"};
    var red := RedactAll(priv, names).value;
    RedactAllCells(priv, names);
    var s := MergeStudents(red, Some(sStudentKey), "s_").db;
    MergeStudentsChanges(red, Some(sStudentKey), "s_");
    var f := MergeStudents(s, Some(fStudentKey), "f_").db;
    MergeStudentsChanges(s, Some(fStudentKey), "f_");
    ChangesAtThen(red, s, f, {"StudentID"});
    ChangesAtWiden(red, f, {"StudentID"}, ids);
    var t := MergeTeachers(f, Some(sTeacherKey), "s_").value;
    MergeTeachersChanges(f, sTeacherKey, "s_");
    var d := MergeTeachers(t, Some(fTeacherKey), "f_").value;
    MergeTeachersChanges(t, fTeacherKey, "f_");
    ChangesAtThen(f, t, d, {"TeacherID"});
    ChangesAtWiden(f, d, {"TeacherID"}, ids);
    ChangesAtThen(red, f, d, ids);
  }

  /** After a clean build the anonymous database has the private one's tables and rows, and every
      cell outside the two ID columns is the private cell, or `REDACTED` where the redaction named
      it: the merges never undo a redaction and never touch another column. */
  lemma AnonymizeCells(priv: Database, names: seq<string>, sStudentKey: Table, fStudentKey: Table,
                       sTeacherKey: Table, fTeacherKey: Table, u: string, i: nat, c: string)
    requires Anonymize(priv, names, sStudentKey, fStudentKey, sTeacherKey, fTeacherKey).Ok?
    requires u in priv.tables && i < |priv.tables[u].rows|
    requires c != "StudentID" && c != "TeacherID"
    ensures var anon := Anonymize(priv, names, sStudentKey, fStudentKey, sTeacherKey, fTeacherKey).value;
      && anon.tables.Keys == priv.tables.Keys
      && |anon.tables[u].rows| == |priv.tables[u].rows|
      && Get(anon.tables[u].rows[i], c) == if Redacts(names, u, c) then Text("REDACTED") else Get(priv.tables[u].rows[i], c)
  {
    AnonymizeChanges(priv, names, sStudentKey, fStudentKey, sTeacherKey, fTeacherKey);
    var red := RedactAll(priv, names).value;
    var anon := Anonymize(priv, names, sStudentKey, fStudentKey, sTeacherKey, fTeacherKey).value;
    RedactedCell(priv, red, names, u, i, c);
    ChangesAtCell(red, anon, {"StudentID", "TeacherID"}, u, i, c);
  }

  /** The two teacher merges leave every StudentID as it was. */
  lemma TeachersKeepStudentIds(f: Database, sTeacherKey: Table, fTeacherKey: Table, u: string, i: nat)
    requires MergeTeachers(f, Some(sTeacherKey), "s_").Ok?
    requires MergeTeachers(MergeTeachers(f, Some(sTeacherKey), "s_").value, Some(fTeacherKey), "f_").Ok?
    requires u in f.tables && i < |f.tables[u].rows|
    ensures var d := MergeTeachers(MergeTeachers(f, Some(sTeacherKey), "s_").value, Some(fTeacherKey), "f_").value;
      && u in d.tables && |d.tables[u].rows| == |f.tables[u].rows|
      && Get(d.tables[u].rows[i], "StudentID") == Get(f.tables[u].rows[i], "StudentID")
  {
    var t := MergeTeachers(f, Some(sTeacherKey), "s_").value;
    var d := MergeTeachers(t, Some(fTeacherKey), "f_").value;
    MergeTeachersChanges(f, sTeacherKey, "s_");
    MergeTeachersChanges(t, fTeacherKey, "f_");
    ChangesAtCell(f, t, {"TeacherID"}, u, i, "StudentID");
    ChangesAtCell(t, d, {"TeacherID"}, u, i, "StudentID");
  }

  lemma TermTableNames()
    ensures "s_" + "students" == "s_students" && "s_" + "teachers" == "s_teachers" && "s_" + "results" == "s_results"
    ensures "f_" + "students" == "f_students" && "f_" + "teachers" == "f_teachers" && "f_" + "results" == "f_results"
    ensures "s_students"[0] != "f_students"[0]
  {
  }

  /** After a clean build every StudentID of a term's students, teachers and results tables is
      the private value chased through that term's student key, and the StudentIDs of every
      other table are the private ones. */
  lemma AnonymizeStudentIds(priv: Database, names: seq<string>, sStudentKey: Table, fStudentKey: Table,
                            sTeacherKey: Table, fTeacherKey: Table, u: string, i: nat)
    requires Anonymize(priv, names, sStudentKey, fStudentKey, sTeacherKey, fTeacherKey).Ok?
    requires u in priv.tables && i < |priv.tables[u].rows|
    ensures var anon := Anonymize(priv, names, sStudentKey, fStudentKey, sTeacherKey, fTeacherKey).value;
      var before := Get(priv.tables[u].rows[i], "StudentID");
      && u in anon.tables && |anon.tables[u].rows| == |priv.tables[u].rows|
      && Get(anon.tables[u].rows[i], "StudentID") ==
           if u == "s_students" || u == "s_teachers" || u == "s_results" then Chase(before, KeyPairs(sStudentKey, "HashStudentID", "StudentID"))
           else if u == "f_students" || u == "f_teachers" || u == "f_results" then Chase(before, KeyPairs(fStudentKey, "HashStudentID", "StudentID"))
           else before
  {
    var red := RedactAll(priv, names).value;
    RedactAllCells(priv, names);
    RedactedCell(priv, red, names, u, i, "StudentID");
    var s := MergeStudents(red, Some(sStudentKey), "s_").db;
    MergeStudentsOkChases(red, sStudentKey, "s_", u, i);
    var f := MergeStudents(s, Some(fStudentKey), "f_").db;
    MergeStudentsOkChases(s, fStudentKey, "f_", u, i);
    TeachersKeepStudentIds(f, sTeacherKey, fTeacherKey, u, i);
    TermTableNames();
  }

  /** The name columns of the four person tables read `REDACTED` in every row. */
  ghost predicate NamesRedacted(db: Database) {
    forall u, i, c :: u in db.tables && 0 <= i < |db.tables[u].rows| && RedactedColumn(u, c) ==>
      Get(db.tables[u].rows[i], c) == Text("REDACTED")
  }

  /** When the redaction runs over the four person tables, no name survives a clean build. */
  lemma AnonymizeRedactsNames(priv: Database, names: seq<string>, sStudentKey: Table, fStudentKey: Table,
                              sTeacherKey: Table, fTeacherKey: Table)
    requires Anonymize(priv, names, sStudentKey, fStudentKey, sTeacherKey, fTeacherKey).Ok?
    requires "f_students" in names && "s_students" in names && "f_teachers" in names && "s_teachers" in names
    ensures NamesRedacted(Anonymize(priv, names, sStudentKey, fStudentKey, sTeacherKey, fTeacherKey).value)
  {
    var anon := Anonymize(priv, names, sStudentKey, fStudentKey, sTeacherKey, fTeacherKey).value;
    AnonymizeKeys(priv, names, sStudentKey, fStudentKey, sTeacherKey, fTeacherKey);
    forall u, i, c | u in anon.tables && 0 <= i < |anon.tables[u].rows| && RedactedColumn(u, c)
      ensures Get(anon.tables[u].rows[i], c) == Text("REDACTED")
    {
      AnonymizeRows(priv, names, sStudentKey, fStudentKey, sTeacherKey, fTeacherKey, u);
      AnonymizeCells(priv, names, sStudentKey, fStudentKey, sTeacherKey, fTeacherKey, u, i, c);
    }
  }

  /** A clean build keeps the row count of every table. */
  lemma AnonymizeRows(priv: Database, names: seq<string>, sStudentKey: Table, fStudentKey: Table,
                      sTeacherKey: Table, fTeacherKey: Table, u: string)
    requires Anonymize(priv, names, sStudentKey, fStudentKey, sTeacherKey, fTeacherKey).Ok?
    requires u in priv.tables
    ensures var anon := Anonymize(priv, names, sStudentKey, fStudentKey, sTeacherKey, fTeacherKey).value;
      u in anon.tables && |anon.tables[u].rows| == |priv.tables[u].rows|
  {
    AnonymizeChanges(priv, names, sStudentKey, fStudentKey, sTeacherKey, fTeacherKey);
    var red := RedactAll(priv, names).value;
    assert u in red.tables && |red.tables[u].rows| == |priv.tables[u].rows|;
  }

  function FrameOf(frames: map<Kind, Table>, k: Kind): Option<Table> {
    if k in frames then Some(frames[k]) else None
  }

  /** The nine paths `__init__` lists: three exports in each season's folder, then the three
      metadata files. */
  function CsvPaths(fallFolder: string, springFolder: string): (r: seq<string>)
    ensures |r| == 9
  {
    [PathJoin(fallFolder, "AssessmentResults.csv"), PathJoin(fallFolder, "StudentsBySchool.csv"), PathJoin(fallFolder, "ClassAssignments.csv"),
     PathJoin(springFolder, "AssessmentResults.csv"), PathJoin(springFolder, "StudentsBySchool.csv"), PathJoin(springFolder, "ClassAssignments.csv"),
     "./data/results_metadata.csv", "./data/teachers_metadata.csv", "./data/student_metadata.csv"]
  }

  /** The engine: its frames, the name-to-frame list it uploads from, and the two databases. The
      anonymous database appears twice, as the committed file and as what the engine's open
      connection sees, which also holds its uncommitted writes. */
  class Engine {
    var csvPaths: seq<string>
    var frames: map<Kind, Table>
    var kines: seq<(string, Option<Table>)>
    var priv: Database
    var anonFile: Database
    var anonView: Database

    /** `DataPrepEngine(fall_folder=..., spring_folder=...)`: both database files were removed
        when the module loaded, so both connections start on empty databases. */
    constructor (fallFolder: string, springFolder: string)
      ensures csvPaths == CsvPaths(fallFolder, springFolder) && frames == map[] && kines == InitialKines
      ensures priv == EmptyDb && anonFile == EmptyDb && anonView == EmptyDb
    {
      csvPaths := CsvPaths(fallFolder, springFolder);
      frames := map[];
      kines := InitialKines;
      priv := EmptyDb;
      anonFile := EmptyDb;
      anonView := EmptyDb;
    }

    /** `set_kines()` */
    method SetKines()
      modifies this
      ensures kines == KinesOf(frames)
      ensures csvPaths == old(csvPaths) && frames == old(frames)
      ensures priv == old(priv) && anonFile == old(anonFile) && anonView == old(anonView)
    {
      kines := KinesOf(frames);
    }

    /** `to_df()`: the files are loaded in path order; only a complete load refreshes the
        name-to-frame list. */
    method ToDf(csvs: map<string, Table>) returns (raised: Option<Error>)
      modifies this
      ensures var load := LoadAll(old(frames), csvs, old(csvPaths));
        frames == load.frames && raised == load.raised
      ensures kines == (if raised.None? then KinesOf(frames) else old(kines))
      ensures csvPaths == old(csvPaths)
      ensures priv == old(priv) && anonFile == old(anonFile) && anonView == old(anonView)
    {
      var i := 0;
      while i < |csvPaths|
        invariant 0 <= i <= |csvPaths|
        invariant LoadAll(old(frames), csvs, csvPaths) == LoadAll(frames, csvs, csvPaths[i..])
        invariant csvPaths == old(csvPaths) && kines == old(kines)
        invariant priv == old(priv) && anonFile == old(anonFile) && anonView == old(anonView)
      {
        var path := csvPaths[i];
        assert csvPaths[i..][1..] == csvPaths[i + 1..];
        if path !in csvs {
          return Some(FileNotFoundError(path));
        }
        var df := Tidy(csvs[path]);
        var kind := Route(path);
        if kind.Err? {
          return Some(kind.error);
        }
        if kind.value.Some? {
          frames := frames[kind.value.value := df];
        }
        i := i + 1;
      }
      assert csvPaths[i..] == [];
      kines := KinesOf(frames);
      raised := None;
    }

    /** `to_db()`: each frame is written to the private database under its name, in list order. */
    method ToDb() returns (raised: Option<Error>)
      modifies this
      ensures priv == WriteAll(old(priv), kines).db && raised == WriteAll(old(priv), kines).raised
      ensures csvPaths == old(csvPaths) && frames == old(frames) && kines == old(kines)
      ensures anonFile == old(anonFile) && anonView == old(anonView)
    {
      var i := 0;
      while i < |kines|
        invariant 0 <= i <= |kines|
        invariant WriteAll(old(priv), kines) == WriteAll(priv, kines[i..])
        invariant csvPaths == old(csvPaths) && frames == old(frames) && kines == old(kines)
        invariant anonFile == old(anonFile) && anonView == old(anonView)
      {
        assert kines[i..][1..] == kines[i + 1..];
        var (kine, df) := kines[i];
        if df.None? {
          return Some(ValueError("At " + kine + " : DataFrame None has not been set yet."));
        }
        priv := WriteTable(priv, kine, df.value);
        i := i + 1;
      }
      assert kines[i..] == [];
      raised := None;
    }

    /** `redact_db()`: the private file is copied over the anonymous one, and the copy's name
        columns are redacted in list order and committed. A failing statement leaves the plain copy. */
    method RedactDb() returns (raised: Option<Error>)
      modifies this
      ensures match RedactAll(old(priv), Names(old(kines)))
        case Ok(d) => raised == None && anonFile == d && anonView == d
        case Err(e) => raised == Some(e) && anonFile == old(priv) && anonView == old(priv)
      ensures csvPaths == old(csvPaths) && frames == old(frames) && kines == old(kines) && priv == old(priv)
    {
      anonFile := priv;
      anonView := priv;
      var names := Names(kines);
      var cur := priv;
      var i := 0;
      while i < |names|
        invariant 0 <= i <= |names|
        invariant RedactAll(priv, names) == RedactAll(cur, names[i..])
        invariant anonFile == priv && anonView == priv
        invariant csvPaths == old(csvPaths) && frames == old(frames) && kines == old(kines) && priv == old(priv)
      {
        assert names[i..][1..] == names[i + 1..];
        var step := RedactKine(cur, names[i]);
        if step.Err? {
          return Some(step.error);
        }
        cur := step.value;
        i := i + 1;
      }
      assert names[i..] == [];
      anonFile := cur;
      anonView := cur;
      raised := None;
    }

    /** `merge_hashed_student_ids(key, term_)`: the updates go through the engine's connection and
        are committed only when every row is done. */
    method MergeHashedStudentIds(key: Option<Table>, term: string) returns (raised: Option<Error>)
      modifies this
      ensures var run := MergeStudents(old(anonView), key, term);
        anonView == run.db && raised == run.raised
        && anonFile == (if run.raised.None? then run.db else old(anonFile))
      ensures csvPaths == old(csvPaths) && frames == old(frames) && kines == old(kines) && priv == old(priv)
    {
      if key.None? {
        return Some(ValueError("key not set."));
      }
      var rows := key.value.rows;
      if rows != [] && "HashStudentID" !in key.value.columns {
        return Some(KeyError("HashStudentID"));
      }
      if rows != [] && "StudentID" !in key.value.columns {
        return Some(KeyError("StudentID"));
      }
      var pairs := KeyPairs(key.value, "HashStudentID", "StudentID");
      var i := 0;
      while i < |pairs|
        invariant 0 <= i <= |pairs|
        invariant MergeStudents(old(anonView), key, term) == MergeStudentPairs(anonView, term, pairs[i..])
        invariant anonFile == old(anonFile)
        invariant csvPaths == old(csvPaths) && frames == old(frames) && kines == old(kines) && priv == old(priv)
      {
        assert pairs[i..][1..] == pairs[i + 1..];
        var (hash, id) := pairs[i];
        var a := UpdateWhere(anonView, term + "students", "StudentID", hash, id);
        if a.Err? {
          return Some(a.error);
        }
        anonView := a.value;
        var b := UpdateWhere(anonView, term + "teachers", "StudentID", hash, id);
        if b.Err? {
          return Some(b.error);
        }
        anonView := b.value;
        var c := UpdateWhere(anonView, term + "results", "StudentID", hash, id);
        if c.Err? {
          return Some(c.error);
        }
        anonView := c.value;
        i := i + 1;
      }
      assert pairs[i..] == [];
      anonFile := anonView;
      raised := None;
    }

    /** `merge_hashed_teacher_names(key, term_)`: a failure can only come before the first
        UPDATE takes effect, so the view is changed only by a run that is committed. */
    method MergeHashedTeacherNames(key: Option<Table>, term: string) returns (raised: Option<Error>)
      modifies this
      ensures match MergeTeachers(old(anonView), key, term)
        case Ok(d) => raised == None && anonView == d && anonFile == d
        case Err(e) => raised == Some(e) && anonView == old(anonView) && anonFile == old(anonFile)
      ensures csvPaths == old(csvPaths) && frames == old(frames) && kines == old(kines) && priv == old(priv)
    {
      if key.None? {
        return Some(ValueError("key not set."));
      }
      var r := ApplyKey(anonView, key.value, term + "teachers", "TeacherID", "HashTeacherName", "TeacherName");
      if r.Err? {
        return Some(r.error);
      }
      anonView := r.value;
      anonFile := anonView;
      raised := None;
    }

    /** `keys_to_db(title, key)`: the key replaces the private table of that title. */
    method KeysToDb(title: string, key: Option<Table>) returns (raised: Option<Error>)
      modifies this
      ensures key.None? ==> raised == Some(ValueError("Key has not been set.")) && priv == old(priv)
      ensures key.Some? ==> raised == None && priv == WriteTable(old(priv), title, key.value)
      ensures csvPaths == old(csvPaths) && frames == old(frames) && kines == old(kines)
      ensures anonFile == old(anonFile) && anonView == old(anonView)
    {
      if key.None? {
        return Some(ValueError("Key has not been set."));
      }
      priv := WriteTable(priv, title, key.value);
      raised := None;
    }
  }

  /** The private database holds the frame of each kind under that kind's name. */
  predicate HoldsFrames(db: Database, frames: map<Kind, Table>) {
    forall i :: 0 <= i < |KineOrder| ==>
      KineOrder[i].1 in frames && KineOrder[i].0 in db.tables && db.tables[KineOrder[i].0] == frames[KineOrder[i].1]
  }

  /** A complete upload of the list `set_kines` builds holds every frame. */
  lemma WriteAllHolds(db: Database, frames: map<Kind, Table>)
    requires WriteAll(db, KinesOf(frames)).raised.None?
    ensures HoldsFrames(WriteAll(db, KinesOf(frames)).db, frames)
  {
    KineNamesDistinct(frames);
    WriteAllTables(db, KinesOf(frames));
  }

  /** Filing the two keys leaves every frame's table as it was, since no frame has a key's name. */
  lemma KeysKeepFrames(db: Database, frames: map<Kind, Table>, teacherKey: Table, studentKey: Table)
    requires HoldsFrames(db, frames)
    ensures HoldsFrames(WriteTable(WriteTable(db, "teacher_key", teacherKey), "student_key", studentKey), frames)
  {
    assert forall i :: 0 <= i < |KineOrder| ==> KineOrder[i].0 != "teacher_key" && KineOrder[i].0 != "student_key";
  }

  /** The nine names `set_kines` gives the frames. */
  const KineNames: set<string> := {"f_results", "f_teachers", "f_students", "s_results", "s_teachers", "s_students",
    "results_metadata", "teachers_metadata", "student_metadata"}

  /** The names a list of frames carries. */
  function NameSet(kines: seq<(string, Option<Table>)>): set<string> {
    set i | 0 <= i < |kines| :: kines[i].0
  }

  /** A complete upload adds exactly the listed names to the tables there were. */
  lemma {:induction false} WriteAllKeys(db: Database, kines: seq<(string, Option<Table>)>)
    requires WriteAll(db, kines).raised.None?
    ensures WriteAll(db, kines).db.tables.Keys == db.tables.Keys + NameSet(kines)
    decreases |kines|
  {
    if kines != [] {
      var rest := kines[1..];
      WriteAllKeys(WriteTable(db, kines[0].0, kines[0].1.value), rest);
      assert NameSet(kines) == {kines[0].0} + NameSet(rest) by {
        forall x | x in NameSet(kines) ensures x in {kines[0].0} + NameSet(rest) {
          var i :| 0 <= i < |kines| && kines[i].0 == x;
          if i > 0 { assert rest[i - 1] == kines[i]; }
        }
        forall x | x in NameSet(rest) ensures x in NameSet(kines) {
          var i :| 0 <= i < |rest| && rest[i].0 == x;
          assert kines[i + 1] == rest[i];
        }
      }
    }
  }

  /** The list `set_kines` builds carries the nine names. */
  lemma KinesNames(frames: map<Kind, Table>)
    ensures NameSet(KinesOf(frames)) == KineNames
    ensures forall n :: n in KineNames ==> n in Names(KinesOf(frames))
  {
    var r := KinesOf(frames);
    assert forall i :: 0 <= i < 9 ==> r[i].0 == KineOrder[i].0;
    assert r[0].0 == "f_results" && r[1].0 == "f_teachers" && r[2].0 == "f_students";
    assert r[3].0 == "s_results" && r[4].0 == "s_teachers" && r[5].0 == "s_students";
    assert r[6].0 == "results_metadata" && r[7].0 == "teachers_metadata" && r[8].0 == "student_metadata";
    forall x | x in NameSet(r) ensures x in KineNames {
      var i :| 0 <= i < |r| && r[i].0 == x;
      assert i == 0 || i == 1 || i == 2 || i == 3 || i == 4 || i == 5 || i == 6 || i == 7 || i == 8;
    }
    forall x | x in KineNames ensures x in NameSet(r) && x in Names(r) {
      var names := Names(r);
      if x == "f_results" { assert r[0].0 == x && names[0] == x; }
      else if x == "f_teachers" { assert r[1].0 == x && names[1] == x; }
      else if x == "f_students" { assert r[2].0 == x && names[2] == x; }
      else if x == "s_results" { assert r[3].0 == x && names[3] == x; }
      else if x == "s_teachers" { assert r[4].0 == x && names[4] == x; }
      else if x == "s_students" { assert r[5].0 == x && names[5] == x; }
      else if x == "results_metadata" { assert r[6].0 == x && names[6] == x; }
      else if x == "teachers_metadata" { assert r[7].0 == x && names[7] == x; }
      else { assert r[8].0 == x && names[8] == x; }
    }
  }

  /** The private database `main` uploads from the frames it loaded, before any key is filed. */
  function PrivateOf(frames: map<Kind, Table>): Database {
    WriteAll(EmptyDb, KinesOf(frames)).db
  }

  /** The anonymous database `main` builds from those frames and the four keys hashed from them. */
  function AnonymousOf(h: string -> string, frames: map<Kind, Table>): Result<Database>
    requires HashStudentIds(h, FrameOf(frames, SStudents)).Ok? && HashStudentIds(h, FrameOf(frames, FStudents)).Ok?
    requires HashTeacherIds(h, FrameOf(frames, STeachers)).Ok? && HashTeacherIds(h, FrameOf(frames, FTeachers)).Ok?
  {
    Anonymize(PrivateOf(frames), Names(KinesOf(frames)),
      HashStudentIds(h, FrameOf(frames, SStudents)).value, HashStudentIds(h, FrameOf(frames, FStudents)).value,
      HashTeacherIds(h, FrameOf(frames, STeachers)).value, HashTeacherIds(h, FrameOf(frames, FTeachers)).value)
  }

  /** A clean build keeps the private database's table names. */
  lemma AnonymizeKeys(priv: Database, names: seq<string>, sStudentKey: Table, fStudentKey: Table,
                      sTeacherKey: Table, fTeacherKey: Table)
    requires Anonymize(priv, names, sStudentKey, fStudentKey, sTeacherKey, fTeacherKey).Ok?
    ensures Anonymize(priv, names, sStudentKey, fStudentKey, sTeacherKey, fTeacherKey).value.tables.Keys == priv.tables.Keys
  {
    AnonymizeChanges(priv, names, sStudentKey, fStudentKey, sTeacherKey, fTeacherKey);
  }

  /** A complete upload of the frames gives a private database of exactly the nine tables. */
  lemma PrivateOfKeys(frames: map<Kind, Table>)
    requires WriteAll(EmptyDb, KinesOf(frames)).raised.None?
    ensures PrivateOf(frames).tables.Keys == KineNames
  {
    WriteAllKeys(EmptyDb, KinesOf(frames));
    KinesNames(frames);
  }

  /** A clean build from uploaded frames holds the nine frame tables, no key, and no name. */
  lemma AnonymousFacts(h: string -> string, frames: map<Kind, Table>)
    requires WriteAll(EmptyDb, KinesOf(frames)).raised.None?
    requires HashStudentIds(h, FrameOf(frames, SStudents)).Ok? && HashStudentIds(h, FrameOf(frames, FStudents)).Ok?
    requires HashTeacherIds(h, FrameOf(frames, STeachers)).Ok? && HashTeacherIds(h, FrameOf(frames, FTeachers)).Ok?
    requires AnonymousOf(h, frames).Ok?
    ensures PrivateOf(frames).tables.Keys == KineNames
    ensures AnonymousOf(h, frames).value.tables.Keys == KineNames
    ensures NamesRedacted(AnonymousOf(h, frames).value)
  {
    var sS, fS := HashStudentIds(h, FrameOf(frames, SStudents)).value, HashStudentIds(h, FrameOf(frames, FStudents)).value;
    var sT, fT := HashTeacherIds(h, FrameOf(frames, STeachers)).value, HashTeacherIds(h, FrameOf(frames, FTeachers)).value;
    var priv, names := PrivateOf(frames), Names(KinesOf(frames));
    assert AnonymousOf(h, frames) == Anonymize(priv, names, sS, fS, sT, fT);
    PrivateOfKeys(frames);
    KinesNames(frames);
    assert "f_students" in KineNames && "s_students" in KineNames && "f_teachers" in KineNames && "s_teachers" in KineNames;
    AnonymizeKeys(priv, names, sS, fS, sT, fT);
    AnonymizeRedactsNames(priv, names, sS, fS, sT, fT);
  }

  /** The first part of `main()`: a new engine loads the files and uploads its frames. */
  method Prepare(fallFolder: string, springFolder: string, csvs: map<string, Table>) returns (e: Engine, raised: Option<Error>)
    ensures fresh(e)
    ensures raised.None? ==>
      && e.kines == KinesOf(e.frames)
      && e.priv == PrivateOf(e.frames)
      && WriteAll(EmptyDb, KinesOf(e.frames)).raised.None?
      && HoldsFrames(e.priv, e.frames)
  {
    e := new Engine(fallFolder, springFolder);
    raised := e.ToDf(csvs);
    if raised.Some? { return; }
    e.SetKines();
    raised := e.ToDb();
    if raised.None? {
      WriteAllHolds(EmptyDb, e.frames);
    }
  }

  /** The middle part of `main()`: the anonymous database is built from the private one and the
      four keys merged into it, in the order `main` calls them; the private database, the frames
      and their list are not touched. Whatever stops the build is raised. */
  method BuildAnonymous(e: Engine, sStudentKey: Table, fStudentKey: Table, sTeacherKey: Table, fTeacherKey: Table)
    returns (raised: Option<Error>)
    modifies e
    ensures e.priv == old(e.priv) && e.frames == old(e.frames) && e.kines == old(e.kines) && e.csvPaths == old(e.csvPaths)
    ensures var r := Anonymize(old(e.priv), Names(old(e.kines)), sStudentKey, fStudentKey, sTeacherKey, fTeacherKey);
      && (raised.None? <==> r.Ok?)
      && (r.Ok? ==> e.anonFile == r.value && e.anonView == r.value)
      && (r.Err? ==> raised == Some(r.error))
  {
    raised := e.RedactDb();
    if raised.Some? { return; }
    raised := e.MergeHashedStudentIds(Some(sStudentKey), "s_");
    if raised.Some? { return; }
    raised := e.MergeHashedStudentIds(Some(fStudentKey), "f_");
    if raised.Some? { return; }
    raised := e.MergeHashedTeacherNames(Some(sTeacherKey), "s_");
    if raised.Some? { return; }
    raised := e.MergeHashedTeacherNames(Some(fTeacherKey), "f_");
  }

  /** What a complete `main()` leaves behind, for the frames it loaded:
      - the private database holds the nine frames and the two spring keys, and nothing else, so
        no fall key is kept;
      - the anonymous database is committed, is the build from the uploaded frames and the four
        keys hashed from them, holds the nine frame tables and no key, and no name survives in it. */
  ghost predicate MainResult(h: string -> string, frames: map<Kind, Table>, priv: Database, anonFile: Database, anonView: Database) {
    && HashStudentIds(h, FrameOf(frames, SStudents)).Ok? && HashStudentIds(h, FrameOf(frames, FStudents)).Ok?
    && HashTeacherIds(h, FrameOf(frames, STeachers)).Ok? && HashTeacherIds(h, FrameOf(frames, FTeachers)).Ok?
    && priv.tables.Keys == KineNames + {"student_key", "teacher_key"}
    && priv.tables["student_key"] == HashStudentIds(h, FrameOf(frames, SStudents)).value
    && priv.tables["teacher_key"] == HashTeacherIds(h, FrameOf(frames, STeachers)).value
    && HoldsFrames(priv, frames)
    && anonFile == anonView
    && AnonymousOf(h, frames) == Ok(anonFile)
    && anonFile.tables.Keys == KineNames
    && NamesRedacted(anonFile)
  }

  /** The private database with the spring keys filed, and the anonymous build, make up what
      `main()` promises. */
  lemma MainResultHolds(h: string -> string, frames: map<Kind, Table>, priv: Database, anon: Database)
    requires WriteAll(EmptyDb, KinesOf(frames)).raised.None?
    requires HashStudentIds(h, FrameOf(frames, SStudents)).Ok? && HashStudentIds(h, FrameOf(frames, FStudents)).Ok?
    requires HashTeacherIds(h, FrameOf(frames, STeachers)).Ok? && HashTeacherIds(h, FrameOf(frames, FTeachers)).Ok?
    requires AnonymousOf(h, frames) == Ok(anon)
    requires priv == WriteTable(WriteTable(PrivateOf(frames), "teacher_key", HashTeacherIds(h, FrameOf(frames, STeachers)).value),
                                "student_key", HashStudentIds(h, FrameOf(frames, SStudents)).value)
    ensures MainResult(h, frames, priv, anon, anon)
  {
    AnonymousFacts(h, frames);
    PrivateWithKeys(frames, HashTeacherIds(h, FrameOf(frames, STeachers)).value, HashStudentIds(h, FrameOf(frames, SStudents)).value);
  }

  /** Filing the two keys after a complete upload gives the nine frames and the two keys. */
  lemma PrivateWithKeys(frames: map<Kind, Table>, teacherKey: Table, studentKey: Table)
    requires WriteAll(EmptyDb, KinesOf(frames)).raised.None?
    ensures var p := WriteTable(WriteTable(PrivateOf(frames), "teacher_key", teacherKey), "student_key", studentKey);
      && p.tables.Keys == KineNames + {"student_key", "teacher_key"}
      && p.tables["student_key"] == studentKey && p.tables["teacher_key"] == teacherKey
      && HoldsFrames(p, frames)
  {
    PrivateOfKeys(frames);
    WriteAllHolds(EmptyDb, frames);
    KeysKeepFrames(PrivateOf(frames), frames, teacherKey, studentKey);
    assert "student_key"[0] != "teacher_key"[0];
  }

  /** `main()`, with the two export folders and the files they hold as parameters: load, write the
      private database, hash the spring and fall keys, build the anonymous database, merge the
      hashes into it and file the spring keys. */
  method Pipeline(fallFolder: string, springFolder: string, csvs: map<string, Table>, h: string -> string)
    returns (e: Engine, raised: Option<Error>)
    ensures raised.None? ==> MainResult(h, e.frames, e.priv, e.anonFile, e.anonView)
  {
    e, raised := Prepare(fallFolder, springFolder, csvs);
    if raised.Some? { return; }
    var sStudentKey := HashStudentIds(h, FrameOf(e.frames, SStudents));
    if sStudentKey.Err? { return e, Some(sStudentKey.error); }
    var fStudentKey := HashStudentIds(h, FrameOf(e.frames, FStudents));
    if fStudentKey.Err? { return e, Some(fStudentKey.error); }
    var sTeacherKey := HashTeacherIds(h, FrameOf(e.frames, STeachers));
    if sTeacherKey.Err? { return e, Some(sTeacherKey.error); }
    var fTeacherKey := HashTeacherIds(h, FrameOf(e.frames, FTeachers));
    if fTeacherKey.Err? { return e, Some(fTeacherKey.error); }
    raised := BuildAnonymous(e, sStudentKey.value, fStudentKey.value, sTeacherKey.value, fTeacherKey.value);
    if raised.Some? { return; }
    assert AnonymousOf(h, e.frames) == Ok(e.anonFile);
    raised := FileKeys(e, sTeacherKey.value, sStudentKey.value);
    MainResultHolds(h, e.frames, e.priv, e.anonFile);
  }

  /** The last part of `main()`: the spring keys are filed in the private database. */
  method FileKeys(e: Engine, teacherKey: Table, studentKey: Table) returns (raised: Option<Error>)
    requires HoldsFrames(e.priv, e.frames) && e.anonFile == e.anonView
    modifies e
    ensures raised.None? && e.frames == old(e.frames)
    ensures e.anonFile == old(e.anonFile) && e.anonView == old(e.anonView)
    ensures e.priv == WriteTable(WriteTable(old(e.priv), "teacher_key", teacherKey), "student_key", studentKey)
    ensures HoldsFrames(e.priv, e.frames)
    ensures "student_key" in e.priv.tables && e.priv.tables["student_key"] == studentKey
    ensures "teacher_key" in e.priv.tables && e.priv.tables["teacher_key"] == teacherKey
  {
    KeysKeepFrames(e.priv, e.frames, teacherKey, studentKey);
    raised := e.KeysToDb("teacher_key", Some(teacherKey));
    assert "student_key"[0] != "teacher_key"[0];
    raised := e.KeysToDb("student_key", Some(studentKey));
  }
}
