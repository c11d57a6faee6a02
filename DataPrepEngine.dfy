/** The first data-preparation engine: it classifies an export file by name, cuts its frame down to
    the columns worth keeping, and builds the pseudonymised copy of a database together with the
    key tables that undo the pseudonyms. */
module DataPrepEngine {
  import opened Outcome
  import opened Store
  import opened PyText
  import opened Frames

  /** The kinds of export file, in the order the classifier tries them. */
  datatype FileType = Results | Teachers | Students | Metadata

  datatype Season = Fall | Spring

  /** The file-name fragment that marks each kind. */
  function Stem(t: FileType): string {
    match t
    case Results => "AssessmentResults"
    case Teachers => "ClassAssignments"
    case Students => "StudentsBySchool"
    case Metadata => "metadata"
  }

  function Rank(t: FileType): nat {
    match t
    case Results => 0
    case Teachers => 1
    case Students => 2
    case Metadata => 3
  }

  /** The kind `__init__` gives a file: the first kind, in precedence order, whose fragment the name
      contains; a name with none of them leaves `fileType` unset. */
  function Classify(file: string): (r: Option<FileType>)
    ensures r.Some? ==> Contains(file, Stem(r.value))
    ensures r.Some? ==> forall t :: Rank(t) < Rank(r.value) ==> !Contains(file, Stem(t))
    ensures r.None? <==> forall t :: !Contains(file, Stem(t))
  {
    if Contains(file, "AssessmentResults") then Some(Results)
    else if Contains(file, "ClassAssignments") then Some(Teachers)
    else if Contains(file, "StudentsBySchool") then Some(Students)
    else if Contains(file, "metadata") then Some(Metadata)
    else None
  }

  /** The season `__init__` gives a file: fall wins over spring; neither leaves `season` unset. */
  function SeasonOf(file: string): (r: Option<Season>)
    ensures r == Some(Fall) <==> Contains(file, "fall")
    ensures r == Some(Spring) <==> !Contains(file, "fall") && Contains(file, "spring")
  {
    if Contains(file, "fall") then Some(Fall)
    else if Contains(file, "spring") then Some(Spring)
    else None
  }

  /** The columns kept from an assessment-results export. A comma is missing after `TestDuration`,
      so Python joins that literal and the next one into the single name
      `TestDurationTestRITScore`. */
  const ResultsKeep: seq<string> :=
    ResultsKeep1 + ResultsKeep2 + ResultsKeep3 + ResultsKeep4 + ResultsKeep5 + ResultsKeep6 + ResultsKeep7 + ResultsKeep8
  const ResultsKeep1: seq<string> := ["TermName", "StudentID", "Subject", "Course", "NormsReferenceData", "GrowthMeasureYN", "TestName", "TestStartDate"]
  const ResultsKeep2: seq<string> := ["TestStartTime", "TestDurationTestRITScore", "TestStandardError", "TestPercentile", "AchievementQuintile", "PercentCorrect", "RapidGuessingPercentage", "FallToFallProjectedGrowth"]
  const ResultsKeep3: seq<string> := ["FallToFallObservedGrowth", "FallToFallObservedGrowthSE", "FallToFallMetProjectedGrowth", "FalltoFallConditionalGrowthIndex", "FalltoFallConditionalGrowthPercentile", "FallToFallGrowthQuintile", "FallToSpringProjectedGrowth", "FallToSpringObservedGrowth"]
  const ResultsKeep4: seq<string> := ["FallToSpringObservedGrowthSE", "FallToSpringMetProjectedGrowth", "FalltoSpringConditionalGrowthIndex", "FalltoSpringConditionalGrowthPercentile", "FallToSpringGrowthQuintile", "SpringToSpringProjectedGrowth", "SpringToSpringObservedGrowth", "SpringToSpringObservedGrowthSE"]
  const ResultsKeep5: seq<string> := ["SpringToSpringMetProjectedGrowth", "SpringToSpringConditionalGrowthIndex", "SpringToSpringConditionalGrowthPercentile", "SpringToSpringGrowthQuintile", "LexileScore", "LexileMin", "LexileMax", "Goal1Name"]
  const ResultsKeep6: seq<string> := ["Goal2Name", "Goal3Name", "Goal4Name", "Goal5Name", "Goal1RitScore", "Goal2RitScore", "Goal3RitScore", "Goal4RitScore"]
  const ResultsKeep7: seq<string> := ["Goal5RitScore", "Goal1StdErr", "Goal2StdErr", "Goal3StdErr", "Goal4StdErr", "Goal5StdErr", "Goal1Adjective", "Goal2Adjective"]
  const ResultsKeep8: seq<string> := ["Goal3Adjective", "Goal4Adjective", "Goal5Adjective", "Goal1Range", "Goal2Range", "Goal3Range", "Goal4Range", "Goal5Range"]

  /** The columns kept from a class-assignments export. */
  const TeachersKeep: seq<string> := ["TermName", "StudentID", "ClassName", "TeacherName", "TeacherID"]

  /** The columns kept from a students-by-school export. */
  const StudentsKeep: seq<string> := ["StudentID", "StudentLastName", "StudentFirstName", "Grade", "NWEAStandard_EthnicGroup"]

  function KeepList(t: FileType): seq<string>
    requires t != Metadata
  {
    match t
    case Results => ResultsKeep
    case Teachers => TeachersKeep
    case Students => StudentsKeep
  }

  /** One engine per export file. */
  class Engine {
    var file: string
    var fileType: Option<FileType>
    var season: Option<Season>

    /** `__init__(csv_file=...)`: the kind and the season come from the file name alone. */
    constructor (csvFile: string)
      ensures file == csvFile && fileType == Classify(csvFile) && season == SeasonOf(csvFile)
    {
      file := csvFile;
      fileType := Classify(csvFile);
      season := SeasonOf(csvFile);
    }

    /** `cleanData()` on the frame read from the file: the kept columns the frame has, in list
        order, with every row; a metadata frame comes back whole; an engine whose file matched no
        kind has no `fileType` to read. */
    function CleanData(df: Table): (r: Result<Table>)
      reads this
      ensures fileType.None? <==> r == Err(AttributeError("fileType"))
      ensures fileType == Some(Metadata) ==> r == Ok(df)
      ensures fileType.Some? && fileType.value != Metadata ==>
        && r.Ok?
        && r.value.columns == Present(KeepList(fileType.value), df.columns)
        && (forall c :: c in r.value.columns <==> c in KeepList(fileType.value) && c in df.columns)
        && |r.value.rows| == |df.rows|
        && (forall i, c :: 0 <= i < |df.rows| ==>
              Get(r.value.rows[i], c) == (if c in r.value.columns then Get(df.rows[i], c) else Null))
    {
      match fileType
      case None => Err(AttributeError("fileType"))
      case Some(Metadata) => Ok(df)
      case Some(t) => Ok(Select(df, Present(KeepList(t), df.columns)))
    }
  }

  /** Neither fused literal is on the results keep list, since no entry there has their length of
      twelve characters; their joined text is. */
  lemma FusedNotKept()
    ensures "TestDuration" !in ResultsKeep && "TestRITScore" !in ResultsKeep
    ensures "TestDurationTestRITScore" in ResultsKeep
  {
    assert "TestDurationTestRITScore" in ResultsKeep2;
    FusedNotIn(ResultsKeep1); FusedNotIn(ResultsKeep2); FusedNotIn(ResultsKeep3); FusedNotIn(ResultsKeep4);
    FusedNotIn(ResultsKeep5); FusedNotIn(ResultsKeep6); FusedNotIn(ResultsKeep7); FusedNotIn(ResultsKeep8);
  }

  lemma FusedNotIn(part: seq<string>)
    requires part in [ResultsKeep1, ResultsKeep2, ResultsKeep3, ResultsKeep4, ResultsKeep5, ResultsKeep6, ResultsKeep7, ResultsKeep8]
    ensures "TestDuration" !in part && "TestRITScore" !in part
  {
    assert forall k :: 0 <= k < |part| ==> |part[k]| != 12;
  }

  /** The two literals the missing comma fuses are each lost from a results frame, while a column
      named after the fused text would be kept. */
  lemma FusedColumnsDropped(e: Engine, df: Table)
    requires e.fileType == Some(Results)
    ensures e.CleanData(df).Ok?
    ensures "TestDuration" !in e.CleanData(df).value.columns
    ensures "TestRITScore" !in e.CleanData(df).value.columns
    ensures "TestDurationTestRITScore" in df.columns ==> "TestDurationTestRITScore" in e.CleanData(df).value.columns
  {
    FusedNotKept();
  }

  // ----- The pseudonymised copy -----

  /** `UPDATE students SET StudentFirstName = 'REDACTED'` and the same for the last name; the
      teacher-name redaction is commented out in the source. */
  function Redact(db: Database): (r: Result<Database>)
    ensures r.Ok? <==> ("students" in db.tables
      && "StudentFirstName" in db.tables["students"].columns && "StudentLastName" in db.tables["students"].columns)
    ensures r.Err? ==> r.error.OperationalError?
    ensures r.Ok? ==>
      && r.value.tables.Keys == db.tables.Keys
      && (forall u :: u in db.tables && u != "students" ==> r.value.tables[u] == db.tables[u])
      && |r.value.tables["students"].rows| == |db.tables["students"].rows|
      && forall i :: 0 <= i < |db.tables["students"].rows| ==>
           var before, after := db.tables["students"].rows[i], r.value.tables["students"].rows[i];
           && Get(after, "StudentFirstName") == Text("REDACTED")
           && Get(after, "StudentLastName") == Text("REDACTED")
           && forall c :: c != "StudentFirstName" && c != "StudentLastName" ==> Get(after, c) == Get(before, c)
  {
    var a :- UpdateAll(db, "students", "StudentFirstName", Text("REDACTED"));
    UpdateAll(a, "students", "StudentLastName", Text("REDACTED"))
  }

  /** The four keyed passes of `anonymize_database`, stopping at the first error: student IDs in
      `students` and in `results`, then teacher names and student IDs in `teachers`. */
  function Anonymize(db: Database, studentKey: Table, teacherKey: Table): Result<Database> {
    var a :- KeyedUpdate(db, studentKey, "students", "StudentID", "HashStudentID", "StudentID");
    var b :- KeyedUpdate(a, studentKey, "results", "StudentID", "HashStudentID", "StudentID");
    var c :- KeyedUpdate(b, teacherKey, "teachers", "TeacherName", "HashTeacherName", "TeacherName");
    KeyedUpdate(c, teacherKey, "teachers", "StudentID", "HashStudentID", "StudentID")
  }

  /** After a successful anonymisation each rewritten cell is the original chased through its key,
      and every other cell and table is as it was. */
  lemma AnonymizeChases(db: Database, sk: Table, tk: Table, u: string, i: nat, c: string)
    requires Anonymize(db, sk, tk).Ok?
    requires u in db.tables && i < |db.tables[u].rows|
    ensures u in Anonymize(db, sk, tk).value.tables
    ensures var after := Anonymize(db, sk, tk).value.tables[u];
      var before := db.tables[u].rows[i];
      var sp, tn, ts := KeyPairs(sk, "HashStudentID", "StudentID"), KeyPairs(tk, "HashTeacherName", "TeacherName"), KeyPairs(tk, "HashStudentID", "StudentID");
      && |after.rows| == |db.tables[u].rows|
      && Get(after.rows[i], c) ==
           if (u == "students" || u == "results") && c == "StudentID" then Chase(Get(before, c), sp)
           else if u == "teachers" && c == "TeacherName" then Chase(Get(before, c), tn)
           else if u == "teachers" && c == "StudentID" then Chase(Get(before, c), ts)
           else Get(before, c)
  {
    var a := KeyedUpdate(db, sk, "students", "StudentID", "HashStudentID", "StudentID").value;
    CellAfterPass(db, sk, "students", "StudentID", "HashStudentID", "StudentID", u, i, c);
    var b := KeyedUpdate(a, sk, "results", "StudentID", "HashStudentID", "StudentID").value;
    CellAfterPass(a, sk, "results", "StudentID", "HashStudentID", "StudentID", u, i, c);
    var d := KeyedUpdate(b, tk, "teachers", "TeacherName", "HashTeacherName", "TeacherName").value;
    CellAfterPass(b, tk, "teachers", "TeacherName", "HashTeacherName", "TeacherName", u, i, c);
    CellAfterPass(d, tk, "teachers", "StudentID", "HashStudentID", "StudentID", u, i, c);
  }

  // ----- Key tables -----

  const StudentColumns: seq<string> := ["StudentID", "StudentFirstName", "StudentLastName"]
  const TeacherColumns: seq<string> := ["StudentID", "TeacherName"]

  const StudentQuery := "SELECT StudentID, StudentFirstName, StudentLastName FROM students"
  const TeacherQuery := "SELECT StudentID, TeacherName FROM teachers"

  /** The text of the `DatabaseError` pandas raises when `read_sql_query` fails: the statement,
      then the text of the underlying SQLite exception. */
  function ReadFailure(query: string, msg: string): string {
    "Execution failed on sql '" + query + "': " + msg
  }

  /** `student_hash_table(public_db_path=path)`: one key row per `students` row, holding the ID,
      the two names and the hash of the printed ID. A failed read is re-raised as a
      `RuntimeError`; the later check for the three columns can never fire, because the read
      already names them. */
  function StudentHashTable(h: string -> string, files: Files, path: string): (r: Result<Table>)
    ensures r.Err? ==> (ReadSql(Open(files, path), "students", StudentColumns).Err?
      && r.error == RuntimeError("Failed to read students table from " + path + ": "
           + ReadFailure(StudentQuery, ReadSql(Open(files, path), "students", StudentColumns).error.msg)))
    ensures r.Ok? ==> "students" in Open(files, path).tables
    ensures r.Ok? ==>
      var src := Open(files, path).tables["students"].rows;
      && r.value.columns == StudentColumns + ["HashStudentID"]
      && |r.value.rows| == |src|
      && forall i :: 0 <= i < |src| ==>
           && Get(r.value.rows[i], "HashStudentID") == Text(h(FrameStr(Get(src[i], "StudentID"))))
           && forall c :: c in StudentColumns ==> Get(r.value.rows[i], c) == Get(src[i], c)
  {
    match ReadSql(Open(files, path), "students", StudentColumns)
    case Err(e) => Err(RuntimeError("Failed to read students table from " + path + ": " + ReadFailure(StudentQuery, e.msg)))
    case Ok(frame) =>
      HashedSelect(h, frame, StudentColumns, "StudentID", "HashStudentID");
      Ok(WithHash(h, Select(frame, StudentColumns), "StudentID", "HashStudentID"))
  }

  /** `teacher_hash_table(public_db_path=path)`: one key row per `teachers` row, holding the
      student ID, the teacher's name and the hashes of both. */
  function TeacherHashTable(h: string -> string, files: Files, path: string): (r: Result<Table>)
    ensures r.Err? ==> (ReadSql(Open(files, path), "teachers", TeacherColumns).Err?
      && r.error == RuntimeError("Failed to read teachers table from " + path + ": "
           + ReadFailure(TeacherQuery, ReadSql(Open(files, path), "teachers", TeacherColumns).error.msg)))
    ensures r.Ok? ==> "teachers" in Open(files, path).tables
    ensures r.Ok? ==>
      var src := Open(files, path).tables["teachers"].rows;
      && r.value.columns == TeacherColumns + ["HashTeacherName", "HashStudentID"]
      && |r.value.rows| == |src|
      && forall i :: 0 <= i < |src| ==>
           && Get(r.value.rows[i], "HashTeacherName") == Text(h(FrameStr(Get(src[i], "TeacherName"))))
           && Get(r.value.rows[i], "HashStudentID") == Text(h(FrameStr(Get(src[i], "StudentID"))))
           && forall c :: c in TeacherColumns ==> Get(r.value.rows[i], c) == Get(src[i], c)
  {
    match ReadSql(Open(files, path), "teachers", TeacherColumns)
    case Err(e) => Err(RuntimeError("Failed to read teachers table from " + path + ": " + ReadFailure(TeacherQuery, e.msg)))
    case Ok(frame) =>
      var named := WithHash(h, Select(frame, TeacherColumns), "TeacherName", "HashTeacherName");
      HashedSelect(h, frame, TeacherColumns, "TeacherName", "HashTeacherName");
      Ok(WithHash(h, named, "StudentID", "HashStudentID"))
  }

  /** The first row whose column equals a text, as a pandas mask and `.values[0]` find it. */
  function FirstMatch(rows: seq<Record>, col: string, value: string): (r: Option<nat>)
    ensures r.None? <==> forall i :: 0 <= i < |rows| ==> !SqlEq(Get(rows[i], col), Text(value))
    ensures r.Some? ==> r.value < |rows| && SqlEq(Get(rows[r.value], col), Text(value))
    ensures r.Some? ==> forall i :: 0 <= i < r.value ==> !SqlEq(Get(rows[i], col), Text(value))
    decreases |rows|
  {
    if rows == [] then None
    else if SqlEq(Get(rows[0], col), Text(value)) then Some(0)
    else match FirstMatch(rows[1..], col, value)
      case None => None
      case Some(i) => Some(i + 1)
  }

  /** The two lookup columns `reverse_lookup` serves. */
  predicate IsLookupColumn(lookupColumn: string) {
    lookupColumn == "StudentID" || lookupColumn == "TeacherName"
  }

  /** The column whose value is compared with the hash for each lookup column. */
  function MatchColumn(lookupColumn: string): string {
    if lookupColumn == "StudentID" then "HashStudentID" else "TeacherID"
  }

  /** `reverse_lookup(hashed_id=..., master_key=..., lookup_column=...)`. A student lookup gives
      the ID of the first row with that hash, or nothing; a teacher lookup filters on a `TeacherID`
      column, which no teacher key has; any other column gives nothing. */
  function ReverseLookup(hashed: string, key: Option<Table>, lookupColumn: string): (r: Result<Option<Cell>>)
    ensures key.None? ==> r == Err(ValueError("Master key has not been created yet."))
    ensures key.Some? && lookupColumn == "StudentID" && "HashStudentID" !in key.value.columns ==> r == Err(KeyError("HashStudentID"))
    ensures key.Some? && lookupColumn == "TeacherName" && "TeacherID" !in key.value.columns ==> r == Err(KeyError("TeacherID"))
    ensures key.Some? && lookupColumn != "StudentID" && lookupColumn != "TeacherName" ==> r == Ok(None)
    ensures key.Some? && IsLookupColumn(lookupColumn) && MatchColumn(lookupColumn) in key.value.columns ==>
      (r == Ok(None) <==> forall i :: 0 <= i < |key.value.rows| ==> !SqlEq(Get(key.value.rows[i], MatchColumn(lookupColumn)), Text(hashed)))
    ensures (&& key.Some? && IsLookupColumn(lookupColumn) && MatchColumn(lookupColumn) in key.value.columns
             && exists i :: 0 <= i < |key.value.rows| && SqlEq(Get(key.value.rows[i], MatchColumn(lookupColumn)), Text(hashed)))
      ==> if lookupColumn in key.value.columns then r.Ok? && r.value.Some? else r == Err(KeyError(lookupColumn))
    ensures r.Ok? && r.value.Some? ==>
      && key.Some? && IsLookupColumn(lookupColumn)
      && exists i :: 0 <= i < |key.value.rows|
           && SqlEq(Get(key.value.rows[i], MatchColumn(lookupColumn)), Text(hashed))
           && r.value.value == Get(key.value.rows[i], lookupColumn)
           && forall j :: 0 <= j < i ==> !SqlEq(Get(key.value.rows[j], MatchColumn(lookupColumn)), Text(hashed))
  {
    if key.None? then Err(ValueError("Master key has not been created yet."))
    else
      var k := key.value;
      if lookupColumn == "StudentID" then
        if "HashStudentID" !in k.columns then Err(KeyError("HashStudentID"))
        else match FirstMatch(k.rows, "HashStudentID", hashed)
          case None => Ok(None)
          case Some(i) => if "StudentID" !in k.columns then Err(KeyError("StudentID")) else Ok(Some(Get(k.rows[i], "StudentID")))
      else if lookupColumn == "TeacherName" then
        if "TeacherID" !in k.columns then Err(KeyError("TeacherID"))
        else match FirstMatch(k.rows, "TeacherID", hashed)
          case None => Ok(None)
          case Some(i) => if "TeacherName" !in k.columns then Err(KeyError("TeacherName")) else Ok(Some(Get(k.rows[i], "TeacherName")))
      else Ok(None)
  }

  /** With an injective hash, and student IDs that print differently, looking up the hash of a
      row's ID in the student key gives back that row's ID. */
  lemma ReverseLookupRoundTrip(h: string -> string, files: Files, path: string, i: nat)
    requires forall a, b :: h(a) == h(b) ==> a == b
    requires StudentHashTable(h, files, path).Ok?
    requires i < |Open(files, path).tables["students"].rows|
    requires var src := Open(files, path).tables["students"].rows;
      forall j, k :: 0 <= j < k < |src| ==> FrameStr(Get(src[j], "StudentID")) != FrameStr(Get(src[k], "StudentID"))
    ensures var src := Open(files, path).tables["students"].rows;
      ReverseLookup(h(FrameStr(Get(src[i], "StudentID"))), Some(StudentHashTable(h, files, path).value), "StudentID")
        == Ok(Some(Get(src[i], "StudentID")))
  {
    var src := Open(files, path).tables["students"].rows;
    var key := StudentHashTable(h, files, path).value;
    var x := h(FrameStr(Get(src[i], "StudentID")));
    assert "HashStudentID" in key.columns && "StudentID" in key.columns;
    forall j | 0 <= j < i
      ensures Get(key.rows[j], "HashStudentID") != Text(x)
    {
      assert FrameStr(Get(src[j], "StudentID")) != FrameStr(Get(src[i], "StudentID"));
    }
    assert "StudentID" in StudentColumns;
    StudentLookupHit(key, x, i);
  }

  /** A student lookup finds the first key row that carries the hash. */
  lemma StudentLookupHit(key: Table, x: string, i: nat)
    requires "HashStudentID" in key.columns && "StudentID" in key.columns
    requires i < |key.rows| && Get(key.rows[i], "HashStudentID") == Text(x)
    requires forall j :: 0 <= j < i ==> Get(key.rows[j], "HashStudentID") != Text(x)
    ensures ReverseLookup(x, Some(key), "StudentID") == Ok(Some(Get(key.rows[i], "StudentID")))
  {
    var m := FirstMatch(key.rows, "HashStudentID", x);
    assert SqlEq(Get(key.rows[i], "HashStudentID"), Text(x));
    assert m.Some? && m.value == i;
  }

  /** Every teacher lookup in a key the engine built fails: it filters on `TeacherID`. */
  lemma ReverseLookupTeacherFails(h: string -> string, files: Files, path: string, hashed: string)
    requires TeacherHashTable(h, files, path).Ok?
    ensures ReverseLookup(hashed, Some(TeacherHashTable(h, files, path).value), "TeacherName") == Err(KeyError("TeacherID"))
  {
    TeacherKeyColumns(h, files, path);
  }

  /** `validate_hashes(key)`: the duplicate check runs on a `HashedID` column. */
  function ValidateHashes(key: Option<Table>): (r: Option<Error>)
    ensures key.None? ==> r == Some(ValueError("Student master key has not been created yet."))
    ensures key.Some? && "HashedID" !in key.value.columns ==> r == Some(KeyError("HashedID"))
    ensures key.Some? && "HashedID" in key.value.columns ==>
      (r.None? <==> !Duplicated(key.value, "HashedID"))
    ensures r.Some? && key.Some? && "HashedID" in key.value.columns ==>
      r == Some(ValueError("Duplicate hashes found in student master key."))
  {
    if key.None? then Some(ValueError("Student master key has not been created yet."))
    else if "HashedID" !in key.value.columns then Some(KeyError("HashedID"))
    else if Duplicated(key.value, "HashedID") then Some(ValueError("Duplicate hashes found in student master key."))
    else None
  }

  /** Neither key the engine builds has a `HashedID` column, so validation of either always fails
      with a `KeyError`, whatever the hashes. */
  lemma ValidateBuiltKeys(h: string -> string, files: Files, path: string)
    ensures StudentHashTable(h, files, path).Ok? ==>
      ValidateHashes(Some(StudentHashTable(h, files, path).value)) == Some(KeyError("HashedID"))
    ensures TeacherHashTable(h, files, path).Ok? ==>
      ValidateHashes(Some(TeacherHashTable(h, files, path).value)) == Some(KeyError("HashedID"))
  {
    if StudentHashTable(h, files, path).Ok? {
      StudentKeyColumns(h, files, path);
    }
    if TeacherHashTable(h, files, path).Ok? {
      TeacherKeyColumns(h, files, path);
    }
  }

  lemma StudentKeyColumns(h: string -> string, files: Files, path: string)
    requires StudentHashTable(h, files, path).Ok?
    ensures "HashedID" !in StudentHashTable(h, files, path).value.columns
  {
    assert StudentHashTable(h, files, path).value.columns == ["StudentID", "StudentFirstName", "StudentLastName", "HashStudentID"];
  }

  lemma TeacherKeyColumns(h: string -> string, files: Files, path: string)
    requires TeacherHashTable(h, files, path).Ok?
    ensures "HashedID" !in TeacherHashTable(h, files, path).value.columns
    ensures "TeacherID" !in TeacherHashTable(h, files, path).value.columns
  {
    assert TeacherHashTable(h, files, path).value.columns == ["StudentID", "TeacherName", "HashTeacherName", "HashStudentID"];
  }

  /** What the check would have found on the column the student key does have: with an injective
      hash and distinct printed IDs, no two key rows share a hash. */
  lemma StudentKeyHashesDistinct(h: string -> string, files: Files, path: string)
    requires forall a, b :: h(a) == h(b) ==> a == b
    requires StudentHashTable(h, files, path).Ok?
    requires var src := Open(files, path).tables["students"].rows;
      forall j, k :: 0 <= j < k < |src| ==> FrameStr(Get(src[j], "StudentID")) != FrameStr(Get(src[k], "StudentID"))
    ensures !Duplicated(StudentHashTable(h, files, path).value, "HashStudentID")
  {
    var frame := Select(Open(files, path).tables["students"], StudentColumns);
    HashesDistinct(h, Select(frame, StudentColumns), "StudentID", "HashStudentID");
  }

  // ----- The database files -----

  /** The database files the static methods read and write. */
  class Disk {
    var files: Files

    constructor (files: Files)
      ensures this.files == files
    {
      this.files := files;
    }

    /** `create_anonymous_db(src, dest)`: the file is copied, then the copy's student names are
        redacted and committed. A failed redaction leaves the plain copy behind. */
    method CreateAnonymousDb(src: string, dest: string) returns (raised: Option<Error>)
      modifies this
      ensures src !in old(files) ==> raised == Some(FileNotFoundError(src)) && files == old(files)
      ensures src in old(files) && src == dest ==> raised == Some(SameFileError(src)) && files == old(files)
      ensures src in old(files) && src != dest ==>
        match Redact(old(files)[src])
        case Ok(d) => raised == None && files == old(files)[dest := d]
        case Err(e) => raised == Some(e) && files == old(files)[dest := old(files)[src]]
    {
      if src !in files {
        return Some(FileNotFoundError(src));
      }
      if src == dest {
        return Some(SameFileError(src));
      }
      var copy := files[src];
      files := files[dest := copy];
      var redacted := Redact(copy);
      if redacted.Err? {
        return Some(redacted.error);
      }
      files := files[dest := redacted.value];
      raised := None;
    }

    /** `anonymize_database(...)`: the four key loops run on one connection and are committed once
        at the end, so an error anywhere leaves the file as it was. */
    method AnonymizeDatabase(path: string, studentKey: Table, teacherKey: Table) returns (raised: Option<Error>)
      modifies this
      ensures match Anonymize(Open(old(files), path), studentKey, teacherKey)
        case Ok(d) => raised == None && files == old(files)[path := d]
        case Err(e) => raised == Some(e) && files == old(files)
    {
      var db := Open(files, path);
      var a := ApplyKey(db, studentKey, "students", "StudentID", "HashStudentID", "StudentID");
      if a.Err? { return Some(a.error); }
      var b := ApplyKey(a.value, studentKey, "results", "StudentID", "HashStudentID", "StudentID");
      if b.Err? { return Some(b.error); }
      var c := ApplyKey(b.value, teacherKey, "teachers", "TeacherName", "HashTeacherName", "TeacherName");
      if c.Err? { return Some(c.error); }
      var d := ApplyKey(c.value, teacherKey, "teachers", "StudentID", "HashStudentID", "StudentID");
      if d.Err? { return Some(d.error); }
      files := files[path := d.value];
      raised := None;
    }

    /** `save_master_keys(...)`: both keys replace their tables in the database file. */
    method SaveMasterKeys(path: string, studentKey: Option<Table>, teacherKey: Option<Table>) returns (raised: Option<Error>)
      modifies this
      ensures studentKey.None? || teacherKey.None? ==>
        raised == Some(ValueError("Master keys have not been created yet.")) && files == old(files)
      ensures studentKey.Some? && teacherKey.Some? ==>
        raised == None
        && files == old(files)[path := WriteTable(WriteTable(Open(old(files), path), "student_master_key", studentKey.value),
                                                  "teacher_master_key", teacherKey.value)]
    {
      if studentKey.None? || teacherKey.None? {
        return Some(ValueError("Master keys have not been created yet."));
      }
      var db := WriteTable(Open(files, path), "student_master_key", studentKey.value);
      db := WriteTable(db, "teacher_master_key", teacherKey.value);
      files := files[path := db];
      raised := None;
    }
  }
}
