# NWEAQueryBot — a Dafny model of its data preparation and its query tools

NWEAQueryBot lets a teacher ask questions about NWEA MAP Growth results in plain language. A
language model answers them through SQL. The model never sees a pupil's or teacher's name:

- **Data preparation.** The MAP exports (assessment results, class assignments, students by
  school, plus metadata files) are loaded into a private SQLite database.
- **Anonymised copy.** A second database is made from it. Its names are redacted and its
  identifiers are replaced by SHA-256 hashes of their printed form.
- **Key tables.** Key tables in the private database map each hash back to the person.
- **Markers.** The language model writes its answer with markers `{s{<hash>}}` (a student) or
  `{t{<hash>}}` (a teacher).
- **Template response.** The `template_response` tool resolves those markers against the key
  tables before the answer is shown.
- **Subject tree.** A small subject → course → test tree and a table of MAP test titles support
  the reports.

This project models that core and proves what its code does, defects included:

| module | models |
|---|---|
| `Outcome` | Python exceptions as values |
| `PyText` | `str` operations used |
| `Store` | tables, databases and the SQL statements used |
| `Markers` | the marker regular expression as a scanner |
| `Bridge` | the two-pass resolution every `template_response` shares |
| `Hygiene` | query and schema clean-up, and the column list |
| `StreamlitTools` | the stand-alone tools of the Streamlit front end |
| `QueryAgentV51` | their `dispatch` switch |
| `AgentLog` | the history append of the OpenAI-era tools |
| `Tools` | the agent tools of `tools.py` (a class over the agent's attributes) |
| `QueryAgent2` | the OpenAI agent |
| `QueryAgent` | the Gemini agent |
| `Frames` | pandas frame operations |
| `DataPrepEngine` | the first data-preparation engine |
| `DataPrepV51` | the v5.1 engine and its `main` |
| `DataStructures` | `SubjectTree` and `TestTitles` |

A few things are parameters of the model, not computed by it:

- **The hash.** SHA-256 (FIPS 180-4, section 6.2) is a parameter `h: string -> string` applied
  to Python's `str()` of a value. Properties that need it to be injective say so in a `requires`.
- **SQL the agent writes.** SQL written by the language model is run by an oracle parameter
  `exec: (Database, string) -> QueryResult`. It returns column names and rows, or an exception's
  message.
- **Files on disk.** These are a map from path to database. Opening a missing path gives an empty
  database, as `sqlite3.connect` does.

Where the code does something its comments or names do not promise, the model follows the code.
These cases are:

- **streamlit `get_schema`.** When no schema entry is truthy, it reads a local that was never
  bound. It raises `UnboundLocalError` before its own `ValueError` check can run.
- **`tools.py`.** `get_schema` stores the text in `sql_response` but tests `api_response`.
  `sql_query` builds its retry message on failure and then drops it.
- **`QueryAgent2.py`.** It imports neither `sqlite3` nor `re`, so every one of its tools raises
  `NameError` on its first line.
- **`QueryAgent.get_table`.** It refers to an undefined `columns` and raises `NameError` after it
  has stored the rows.
- **Teacher markers.** Every `template_response` selects one column for a teacher marker and
  unpacks two. Any hit raises `ValueError`; a miss adds nothing.
- **A name goes to a position, not to a pseudonym.** In every `template_response` a marker whose
  lookup misses takes the name collected for the next marker.
- **`cleanData`.** A missing comma at DataPrepEngine.py:67-68 fuses `TestDuration` and
  `TestRITScore` into one name, so neither original column survives the projection.
- **`student_hash_table`.** Its missing-column check can never fire: the read that comes before
  it already fails as a `RuntimeError`.
- **`validate_hashes`.** It reads a `HashedID` column, which no key the engine builds has, so it
  raises `KeyError` on every built key.
- **`reverse_lookup`.** For teachers it filters on `TeacherID`, which the teacher key does not
  have, so every teacher lookup raises `KeyError`.
- **`merge_hashed_teacher_names`.** It compares `TeacherID` with teacher names, so it changes
  nothing when the IDs are numbers.
- **Missing configuration.** The repository's `config.py` defines only the private and anonymous
  database paths, the three spring 2024-25 export paths (`sp25_results_path`, `sp25_teachers_path`,
  `sp25_students_path`) and the three metadata paths. It has no `src_path`, `dest_path`, `fall_folder`, `spring_folder` or
  `openai_tools`. The model takes those as parameters.

## Model

| member | source | states |
|---|---|---|
| Markers.KeyEnd | streamlit/tools.py:214 | the lazy key group ends at the first `}}` after the key's start, and no line break comes before it |
| Markers.MatchAt | streamlit/tools.py:214 | a match at the front of the text is exactly the marker's own spelling, and is at least five characters long |
| Markers.RenderScan | streamlit/tools.py:214 | scanning loses nothing: the scanned pieces spell out the text again |
| Markers.MatchMarker | streamlit/tools.py:214 | a marker written with a well-formed key is matched whole, whatever follows it |
| Markers.ScanPlain | streamlit/tools.py:214 | text with no `{` holds no marker and scans as plain characters |
| Markers.FindAllTemplate | streamlit/tools.py:214 | in a text made of brace-free gaps and well-formed markers, `findall` returns exactly those markers, in order |
| Markers.SingleMarker | streamlit/tools.py:214 | one marker followed by brace-free text is the only thing found |
| Markers.ToolTestKeyGood | tools_test.py:50 | the test's pseudonym is a well-formed key |
| Markers.ToolTestMarker | tools_test.py:50 | the test answer holds exactly one student marker, with the test pseudonym |
| Bridge.LookupNames | streamlit/tools.py:217-231 | the lookup loop for one marker yields the one-marker specification: one "First Last" per matching student row, nothing on a teacher miss, the unpack error on a teacher hit, the SQL error when a table or column is missing |
| Bridge.CollectNames | streamlit/tools.py:216-231 | pass 1 yields the names of all markers in marker order; the first failing lookup stops it, with that lookup's error |
| Bridge.NextPiece | streamlit/tools.py:235-236 | one step of the shared iterator: a character is copied, and a marker takes the next name (one name used) or stays as written (none used) |
| Bridge.FillIn | streamlit/tools.py:234-238 | `re.sub` with the shared iterator produces the rendering of the second-pass specification |
| Bridge.Resolve | streamlit/tools.py:211-239 | the whole rewrite equals the two-pass specification: scan, collect, then substitute |
| Bridge.SubstituteCount | streamlit/tools.py:217-237 | exactly min(number of markers, number of names) markers are replaced by a name |
| Bridge.SubstituteAt | streamlit/tools.py:234-238 | every character outside a marker is kept; the k-th marker becomes the name whose index is the number of markers before it, or stays as written once the names have run out |
| Bridge.SubstituteNoNames | streamlit/tools.py:234-238 | with no names collected the text comes out unchanged |
| Bridge.SubstituteLits | streamlit/tools.py:238 | text before the first marker comes out as it went in |
| Bridge.CollectOwnNames | streamlit/tools.py:217-231 | when each marker's lookup gives exactly one name, pass 1 collects those names in marker order |
| Bridge.CollectFirstError | streamlit/tools.py:217-231 | pass 1 raises the error of the first failing lookup, whatever follows it |
| Bridge.StudentMiss | streamlit/tools.py:218-224 | a student pseudonym no key row carries adds no name |
| Bridge.StudentHit | streamlit/tools.py:218-224 | a student pseudonym carried by exactly one key row adds that row's "First Last" |
| Bridge.TeacherHitRaises | streamlit/tools.py:225-231 | a teacher pseudonym carried by any key row raises the unpack `ValueError` |
| Bridge.ResolveReadsKeyTablesOnly | streamlit/tools.py:217-231 | the outcome depends on the two key tables only: databases that agree on them resolve every text alike |
| Bridge.ScanTemplate | streamlit/tools.py:214 | the lookup pass and the replace pass see the same marker sequence: the scan of gaps and markers is that layout, and its markers are exactly the markers placed |
| Bridge.SubstituteLayout | streamlit/tools.py:234-238 | substituting over a layout keeps every gap and replaces the markers by their fillers |
| Bridge.ResolveTemplate | streamlit/tools.py:214-238 | a text of brace-free gaps and markers resolves to the same gaps, with the i-th marker replaced by the i-th collected name (or kept once the names run out); a failing pass 1 raises its error |
| Bridge.ExactResolution | streamlit/tools.py:214-238 | when every marker resolves to exactly one name, each marker is replaced by its own name and nothing else changes |
| Bridge.MissShiftsNames | streamlit/tools.py:217-237 | a missed marker before a hit takes the hit's name, and the hit's own marker stays as written |
| Bridge.ResolveMissHit | streamlit/tools.py:217-237 | two markers of which pass 1 yields one name: the first takes it and the second stays as written |
| Bridge.AllMissUnchanged | streamlit/tools.py:234-238 | when no marker yields a name the answer comes back unchanged |
| Bridge.ResolveNoMarkers | streamlit/tools.py:214-238 | a text without markers comes back unchanged |
| Hygiene.CleanQuery | tools.py:181-187 | a cleaned query holds no line break and no backslash; each of its characters was in the query or is a space |
| Hygiene.CleanQueryIdempotent | tools.py:181-187 | cleaning a cleaned query changes nothing |
| Hygiene.CleanQueryJoinsLines | tools.py:181-187 | two plain lines joined by an escaped newline become one line joined by a space |
| Hygiene.CleanQueryPlain | QueryAgent2.py:155-161 | a query with no backslash and no line break is only stripped |
| Hygiene.CleanSchemaEntryChars | streamlit/tools.py:131-136 | a cleaned schema entry holds no backslash; its only new characters are line breaks |
| Hygiene.CleanSchemaEntryIdempotent | streamlit/tools.py:131-136 | cleaning a cleaned entry changes nothing |
| Hygiene.CleanSchemaSplitsLines | streamlit/tools.py:131-136 | an escaped newline between two plain lines becomes a real line break |
| Hygiene.SchemaDigestEmpty | streamlit/tools.py:129-138 | the digest is empty exactly when no entry is truthy |
| Hygiene.Digested | streamlit/tools.py:130-137 | one entry adds at most one cleaned text, and adds nothing exactly when it is NULL or empty |
| Hygiene.SchemaDigestAppend | streamlit/tools.py:129-138 | entries are cleaned one at a time and in order: the digest of a concatenation is the concatenation of the digests |
| Hygiene.SchemaText | streamlit/tools.py:128-138 | the loop leaves no text exactly when no entry is truthy |
| Hygiene.SchemaTextSkips | streamlit/tools.py:129-130 | a NULL or empty entry anywhere leaves the schema text as it would be without that entry |
| Hygiene.SchemaTextSingle | streamlit/tools.py:129-138 | a single truthy entry reads as that entry, cleaned |
| Hygiene.DigestSchema | streamlit/tools.py:128-138 | the loop's list and its last joined text are the digest and the schema text of all entries |
| Hygiene.ColumnListRoundTrip | streamlit/tools.py:156-157 | the ", "-joined column list splits back into the column names, in PRAGMA order, when no name holds a comma |
| StreamlitTools.SchemaResult | streamlit/tools.py:123-143 | the tool fails exactly when no schema entry is truthy, and then with `UnboundLocalError`; otherwise it returns the cleaned entries joined by blank lines |
| StreamlitTools.GetSchema | streamlit/tools.py:123-143 | the schema loop run on the file's `sqlite_master` returns the result above |
| StreamlitTools.GetTableInfo | streamlit/tools.py:148-161 | an unknown table gives the empty text; a known table's text splits back into its column names, in order |
| StreamlitTools.SqlQuery | streamlit/tools.py:166-205 | the fixed retry text comes back exactly when the query is missing or SQLite raises; fetched rows come back as the JSON of one dictionary per row, except that rows holding a BLOB, which `json.dumps` refuses, come back as fetched; nothing is raised |
| StreamlitTools.TemplateResult | streamlit/tools.py:211-239 | a missing answer raises the `TypeError` of `findall`; otherwise the answer is resolved against the key tables of `private.db` |
| StreamlitTools.TemplateResponse | streamlit/tools.py:211-239 | the tool returns the result above |
| StreamlitTools.ToolTestResolves | tools_test.py:50-51 | the repository's test answer, with its pseudonym filed under one student key row, reads as that student's name followed by " is doing great." |
| QueryAgentV51.Dispatch | v5.1/queryagent.py:120-137 | each of the four names calls its tool, the first three on the anonymised database path, and returns that tool's result; any other name fails, because the result variable is never bound |
| QueryAgentV51.DispatchReadsAnonymousOnly | v5.1/queryagent.py:122-131 | every branch but `template_response` depends only on the anonymised database |
| QueryAgentV51.DispatchTemplateReadsPrivateKeysOnly | v5.1/queryagent.py:132-135 | the `template_response` branch depends only on the key tables of the private database |
| QueryAgentV51.DispatchFailures | v5.1/queryagent.py:120-137 | `get_table_info` and `sql_query` never fail; `get_table_info` returns a text; `sql_query` returns the retry text, JSON, or the fetched rows themselves exactly when they hold a BLOB |
| AgentLog.AppendLog | tools.py:255 | the append succeeds exactly when the history list exists and the response carries a function call; it adds one entry [name, params, response] at the end and keeps the rest |
| Tools.Agent.GetSchema | tools.py:123-141 | the cleaned schema of the anonymised database goes to `sql_response` (left alone if no entry is truthy); whether the call raises depends only on what `api_response` held |
| Tools.Agent.GetTable | tools.py:146-170 | without `table_id` it raises `ValueError` and changes nothing; otherwise the printed rows of that table replace `api_response`, or the SQL error is raised |
| Tools.Agent.SqlQuery | tools.py:175-216 | the cleaned query runs on the anonymised database; a failure changes nothing; the fetched `sqlite3.Row` list is stored, then replaced by the JSON of its dictionaries once the history append succeeds |
| Tools.Agent.TemplateResponse | tools.py:221-256 | without `final_response` it raises `KeyError`; otherwise the unresolved answer goes to `api_response` and the history, and the answer resolved against the private key tables is returned |
| QueryAgent.CallName | QueryAgent.py:231 | the function-call name exists exactly when the response carries a call; otherwise `AttributeError` |
| QueryAgent.AbsorbSnoc | QueryAgent.py:252-254 | each argument is one more dictionary assignment |
| QueryAgent.AbsorbKeeps | QueryAgent.py:252-254 | the parameters keep every earlier key and gain every argument's key; each key holds its last argument's value, or its old value |
| QueryAgent.Agent.constructor | QueryAgent.py:116-124 | empty parameters and history, no response and no answer, and the given database as the connection's |
| QueryAgent.Agent.SetParams | QueryAgent.py:246-255 | no response yet raises `AttributeError`; a `None` part raises `ValueError`; otherwise the call's arguments are absorbed into the parameters |
| QueryAgent.Agent.GetSchema | QueryAgent.py:152-170 | each truthy entry re-assigns `api_response`, so it ends as the joined text of all of them; with none it keeps what an earlier tool stored; `ValueError` is raised, and nothing logged, only when it is still `None`; otherwise the history gains one entry with it |
| QueryAgent.Agent.GetTable | QueryAgent.py:172-193 | without `table_id` it raises `ValueError`; otherwise the printed rows are stored and it then raises `NameError` on `columns` |
| QueryAgent.Agent.TemplateResponse | QueryAgent.py:195-232 | the unresolved answer goes to `api_response`; the answer resolved against the master key tables is returned, and the unresolved one is logged |
| QueryAgent.Agent.SqlQuery | QueryAgent.py:260-287 | the cleaned query runs on the agent's connection; failures are swallowed; rows are stored, and their JSON is logged and stored only when every value reads as a key/value pair (a two-character text or a two-byte BLOB) |
| QueryAgent2.Agent.constructor | QueryAgent2.py:21-38 | no previous id, no SQL response, an empty request log and empty parameters |
| QueryAgent2.Agent.GetSchema | QueryAgent2.py:96-97 | the tool raises `NameError` for `sqlite3` before doing anything |
| QueryAgent2.Agent.GetTable | QueryAgent2.py:118-120 | the tool raises `NameError` for `sqlite3` before its `table_id` check |
| QueryAgent2.Agent.SqlQuery | QueryAgent2.py:148-149 | the tool raises `NameError` for `sqlite3` before the query is cleaned |
| QueryAgent2.Agent.TemplateResponse | QueryAgent2.py:196-198 | the tool raises `NameError` for `sqlite3` before any marker is read |
| DataStructures.PutEffect | DataStructures.py:22-30 | after a dictionary assignment the key is present and holds the new value; every other key is as it was |
| DataStructures.AddTestEffect | DataStructures.py:22-30 | filing a test adds exactly that subject/course/test path and gives it its goals; every other path keeps its goals |
| DataStructures.GoalsFrom | DataStructures.py:31-38 | a failure is the `KeyError` of a goal score column missing for a recorded goal |
| DataStructures.GoalsFromRecorded | DataStructures.py:31-38 | goal i's name is filed exactly when the goal is recorded (its name column exists and is not null), and its score with it |
| DataStructures.GoalsFromNames | DataStructures.py:31-38 | only `Goal{i}Name` / `Goal{i}RitScore` keys for i from 1 to 7 are filed |
| DataStructures.GoalsFromScores | DataStructures.py:31-38 | the score keys filed are exactly those of the recorded goals, in goal order |
| DataStructures.CollectGoals | DataStructures.py:31-38 | the goal loop yields the goals and the error described above |
| DataStructures.Insert | DataStructures.py:18-38 | when it succeeds, the row's subject/course/test path is in the tree |
| DataStructures.InsertEffect | DataStructures.py:19-38 | one row adds exactly its own path; an existing test keeps its goals; a new test gets the row's goals |
| DataStructures.BuildKeeps | DataStructures.py:18-30 | a test already in the tree keeps its goals through any number of rows |
| DataStructures.BuildFilesAll | DataStructures.py:18-30 | after a successful build every row's path is in the tree |
| DataStructures.BuildFiledRows | DataStructures.py:22-30 | rows whose paths are all filed leave the tree unchanged |
| DataStructures.BuildIdempotent | DataStructures.py:22-30 | building again from the same frame leaves the tree as it is, which `get_subject_tree` relies on (DataStructures.py:40-41) |
| DataStructures.FirstRowWins | DataStructures.py:22-38 | a test's goals come from the first row with its path; later rows never change them |
| DataStructures.SubjectTree.constructor | DataStructures.py:10-12 | the frame is kept and the tree starts empty |
| DataStructures.SubjectTree.SetSubjectTree | DataStructures.py:14-38 | no frame raises `ValueError` and changes nothing; otherwise the tree and the error are those of the row-by-row build |
| DataStructures.SubjectTree.GetSubjectTree | DataStructures.py:40-44 | the tree is rebuilt from the frame, and returned, or the build's error raised |
| DataStructures.TestPath | DataStructures.py:48-79 | the lookup fails, with `ValueError` naming the test, exactly when the last subject or course holding the test is `None`, which includes the case that no course holds it; otherwise it returns that subject and course |
| DataStructures.TestPathNamed | DataStructures.py:57-70 | in a tree with no `None` subject or course, the lookup fails exactly when no course holds the test |
| DataStructures.TestPathUnnamedCourse | DataStructures.py:69-70 | a test held only by a course filed under `None` is held, yet the lookup fails |
| DataStructures.HitsIff | DataStructures.py:57-70 | a test is found exactly when some course of some subject holds it |
| DataStructures.CourseHitsIff | DataStructures.py:58-59 | within a subject, a hit exists exactly when some course holds the test |
| DataStructures.SubjectTree.GetTestPath | DataStructures.py:48-79 | the nested walk returns the specification: the last subject and course holding the test, and the headings of every such course in tree order, or the `ValueError` when that subject or course is `None` |
| DataStructures.CourseHeadings | DataStructures.py:58-68 | the walk over one subject's courses gives the headings of every course holding the test, and the last such course |
| DataStructures.GoalHeadings | DataStructures.py:64-68 | the keys ending `RitScore` and the values of the other keys ending `Name`, in entry order |
| DataStructures.ShortTitle | DataStructures.py:105-110 | a short title is returned exactly when the long title is in the table, and it is that entry's short title; `None` otherwise |
| DataStructures.LongTitle | DataStructures.py:112-116 | a long title is returned exactly when the short title is in the table; otherwise `ValueError` |
| DataStructures.TitlesDistinct | DataStructures.py:91-104 | the twelve short titles are distinct and so are the twelve long titles |
| DataStructures.ShortOfLong | DataStructures.py:91-116 | every entry is found from either side |
| DataStructures.LongOfShort | DataStructures.py:105-116 | the short title of a known long title maps back to that long title |
| DataPrepEngine.Classify | DataPrepEngine.py:13-20 | a file gets the first kind, in the order results, teachers, students, metadata, whose fragment its name contains; none when it contains none |
| DataPrepEngine.SeasonOf | DataPrepEngine.py:22-25 | "fall" wins over "spring"; none when neither is in the name |
| DataPrepEngine.Engine.constructor | DataPrepEngine.py:9-25 | the engine keeps the file name and its kind and season as above |
| DataPrepEngine.Engine.CleanData | DataPrepEngine.py:49-154 | no kind raises `AttributeError`; metadata is returned unchanged; otherwise the columns are those of the keep list that the frame has, in keep-list order, with rows and values unchanged |
| DataPrepEngine.FusedNotKept | DataPrepEngine.py:67-68 | the results list names the fused `TestDurationTestRITScore`, and neither `TestDuration` nor `TestRITScore` |
| DataPrepEngine.FusedColumnsDropped | DataPrepEngine.py:57-127 | a cleaned results frame never has `TestDuration` or `TestRITScore` |
| DataPrepEngine.Redact | DataPrepEngine.py:169-174 | every student's first and last name reads `REDACTED`; every other cell and table is as it was; a missing table or column raises |
| DataPrepEngine.AnonymizeChases | DataPrepEngine.py:180-216 | after the four passes, `StudentID` in `students` and `results`, and `TeacherName` and `StudentID` in `teachers`, are each the old value chased through its key pairs; everything else is unchanged |
| DataPrepEngine.StudentHashTable | DataPrepEngine.py:222-249 | one key row per student row, with the ID, the two names and the hash of the printed ID; a failed read is re-raised as `RuntimeError`, whose text holds the pandas `Execution failed on sql` message |
| DataPrepEngine.TeacherHashTable | DataPrepEngine.py:252-277 | one key row per teacher row, with the student ID, the name and the hashes of both; a failed read is re-raised as `RuntimeError`, whose text holds the pandas `Execution failed on sql` message |
| DataPrepEngine.FirstMatch | DataPrepEngine.py:289-291 | the first row whose column equals the text, or none when no row does |
| DataPrepEngine.ReverseLookup | DataPrepEngine.py:283-299 | no key raises `ValueError`; a missing filter column raises `KeyError`; an unknown lookup column gives `None`; for `StudentID` and `TeacherName`, `None` comes back exactly when no key row carries the hash; otherwise the value is that of the first row carrying it (a `KeyError` if the key lacks the lookup column) |
| DataPrepEngine.StudentLookupHit | DataPrepEngine.py:288-291 | a student lookup returns the ID of the first key row carrying the hash |
| DataPrepEngine.ReverseLookupRoundTrip | DataPrepEngine.py:283-291 | with an injective hash and distinct printed IDs, looking up the hash of a student's ID in the built key gives back that ID |
| DataPrepEngine.ReverseLookupTeacherFails | DataPrepEngine.py:292-295 | every teacher lookup in a built teacher key raises `KeyError` for `TeacherID` |
| DataPrepEngine.ValidateHashes | DataPrepEngine.py:321-330 | no key raises `ValueError`; no `HashedID` column raises `KeyError`; otherwise it raises exactly when some hash is duplicated |
| DataPrepEngine.ValidateBuiltKeys | DataPrepEngine.py:326 | validating either key the engine builds always raises `KeyError` for `HashedID` |
| DataPrepEngine.StudentKeyHashesDistinct | DataPrepEngine.py:245-247 | with an injective hash and distinct printed IDs, no two student key rows share a hash |
| DataPrepEngine.Disk.CreateAnonymousDb | DataPrepEngine.py:163-176 | a missing source or a copy onto itself raises and changes nothing; otherwise the destination becomes the redacted copy, or the plain copy when redaction raises |
| DataPrepEngine.Disk.AnonymizeDatabase | DataPrepEngine.py:180-218 | the file becomes the result of the four passes, committed once; an error anywhere leaves the file as it was |
| DataPrepEngine.Disk.SaveMasterKeys | DataPrepEngine.py:304-317 | a missing key raises `ValueError` and writes nothing; otherwise both keys are written under their table names |
| Frames.Present | DataPrepEngine.py:126 | the kept columns are exactly the listed ones the frame has, and they keep the list's order (a subsequence of it) |
| Frames.PresentAll | DataPrepEngine.py:126 | when the frame has every listed column, the whole list is kept, in order |
| Frames.Select | v5.1/DataPrepEngine.py:144-148 | the projected frame has the given columns and the same rows, values unchanged |
| Frames.ReadSql | DataPrepEngine.py:226 | the read succeeds exactly when the table and every column exist, and gives their projection |
| Frames.KeepRowsMember | v5.1/DataPrepEngine.py:91 | a row survives exactly when it is not entirely null |
| Frames.LiveColsMember | v5.1/DataPrepEngine.py:92 | a column survives exactly when some row has a value in it |
| Frames.HasValueKept | v5.1/DataPrepEngine.py:91-92 | dropping blank rows does not change which columns hold a value |
| Frames.TidyColumns | v5.1/DataPrepEngine.py:91-92 | a column is kept exactly when it holds a value somewhere |
| Frames.TidyRowsNotBlank | v5.1/DataPrepEngine.py:91-92 | no kept row is blank in the kept columns |
| Frames.TidyIdempotent | v5.1/DataPrepEngine.py:91-92 | tidying a tidied frame changes nothing |
| Frames.WithHash | DataPrepEngine.py:245-247 | the hash column holds the hash of each row's printed source value; every other cell is unchanged |
| Frames.HashesDistinct | DataPrepEngine.py:326-328 | with an injective hash and distinct printed values, the hash column has no duplicate |
| Frames.HashedSelect | v5.1/DataPrepEngine.py:144-154 | projecting and then hashing keeps the projected values and adds the hash column last |
| Frames.SetWhereAllChase | DataPrepEngine.py:185-190 | running `UPDATE … WHERE c = old` for each pair in turn leaves each cell as its old value chased through the pairs, and no other column changes |
| Frames.ChaseMiss | DataPrepEngine.py:185-190 | a value no pair's old value equals is left as it is |
| Frames.ChaseFirstMatch | DataPrepEngine.py:185-190 | when no new value is also an old value, a value becomes the new value of the first pair that matches it |
| Frames.KeyPairs | DataPrepEngine.py:185-190 | one (new, old) pair per key row, in key order |
| Frames.KeyedUpdate | DataPrepEngine.py:185-190 | an empty key changes nothing; a key lacking a column raises `KeyError`; otherwise the statements for every key row run in order |
| Frames.KeyedUpdateChase | DataPrepEngine.py:185-190 | after a keyed pass the target column is chased through the key pairs and every other cell and table is unchanged |
| Frames.ApplyKey | DataPrepEngine.py:185-190 | the key loop produces the keyed pass above |
| DataPrepV51.PathJoin | v5.1/DataPrepEngine.py:19-24 | the joined path ends with the file name, and is the name alone for an empty folder |
| DataPrepV51.Route | v5.1/DataPrepEngine.py:95-117 | a path is rejected with `ValueError` exactly when it contains none of the six fragments |
| DataPrepV51.RouteAgrees | v5.1/DataPrepEngine.py:95-109 | for a seasonal export the route agrees with the first engine's kind and season (DataPrepEngine.py:13-25) |
| DataPrepV51.LoadAll | v5.1/DataPrepEngine.py:88-117 | a complete load means every path was read and routed |
| DataPrepV51.LoadAllLastWins | v5.1/DataPrepEngine.py:88-117 | each kind holds the tidied frame of the last path routed to it |
| DataPrepV51.LoadAllUntouched | v5.1/DataPrepEngine.py:88-117 | a kind no path routes to keeps its frame |
| DataPrepV51.KinesOf | v5.1/DataPrepEngine.py:263-274 | the nine table names in order, each with its kind's frame or none |
| DataPrepV51.KineNamesDistinct | v5.1/DataPrepEngine.py:264-274 | the nine table names are distinct |
| DataPrepV51.WriteAll | v5.1/DataPrepEngine.py:124-132 | the upload completes exactly when every name has a frame |
| DataPrepV51.WriteAllTables | v5.1/DataPrepEngine.py:125-132 | after a complete upload every name holds its frame and every other table is unchanged |
| DataPrepV51.WriteAllStops | v5.1/DataPrepEngine.py:125-127 | the first name without a frame raises `ValueError` naming it |
| DataPrepV51.WriteAllHolds | v5.1/DataPrepEngine.py:124-132 | a complete upload of the list `set_kines` builds holds every frame |
| DataPrepV51.HashStudentIds | v5.1/DataPrepEngine.py:138-156 | no frame raises `ValueError`; a missing column raises `KeyError`; otherwise one key row per student, with the hash of the printed ID |
| DataPrepV51.HashTeacherIds | v5.1/DataPrepEngine.py:162-176 | no frame raises `ValueError`; no `TeacherName` raises `KeyError`; otherwise one key row per teacher row, with the hash of the printed name |
| DataPrepV51.StudentKeyDistinct | v5.1/DataPrepEngine.py:152-154 | with an injective hash and distinct printed IDs, the student key has no duplicate hash |
| DataPrepV51.RedactKineCells | v5.1/DataPrepEngine.py:190-199 | one name's statements set its name columns to `REDACTED` and leave every other cell as it was |
| DataPrepV51.RedactAllCells | v5.1/DataPrepEngine.py:189-201 | exactly the first/last names of the two student tables and the teacher names of the two teacher tables read `REDACTED`; everything else is untouched |
| DataPrepV51.MergeStudents | v5.1/DataPrepEngine.py:207-235 | no key raises `ValueError`; a key lacking a column raises `KeyError` and changes nothing |
| DataPrepV51.MergeStudentPairsRewrites | v5.1/DataPrepEngine.py:215-233 | when the three tables can be updated, the loop runs the three statements for every key row in order |
| DataPrepV51.MergeStudentsChases | v5.1/DataPrepEngine.py:215-235 | after a merge `StudentID` in the term's students, teachers and results tables is chased through the key; every other cell is as it was |
| DataPrepV51.MergeStudentsNoTable | v5.1/DataPrepEngine.py:217-221 | a missing students table raises the SQL error |
| DataPrepV51.MergeTeachers | v5.1/DataPrepEngine.py:237-251 | no key raises `ValueError`; otherwise `TeacherID` is rewritten where it equals a teacher's name |
| DataPrepV51.MergeStudentsChanges | v5.1/DataPrepEngine.py:207-235 | the student merge changes `StudentID` cells only; every table, column and row count is kept, even when a statement fails part way |
| DataPrepV51.MergeStudentsOkChases | v5.1/DataPrepEngine.py:207-235 | after a clean student merge, `StudentID` in the term's three tables is chased through the key, and in every other table it is as it was |
| DataPrepV51.MergeTeachersChanges | v5.1/DataPrepEngine.py:237-251 | the teacher merge changes `TeacherID` cells only |
| DataPrepV51.MergeTeachersChangesNothing | v5.1/DataPrepEngine.py:245-250 | when the IDs are numbers and the names texts, the merge changes no cell |
| DataPrepV51.Engine.constructor | v5.1/DataPrepEngine.py:17-84 | the nine paths, no frames, every name without a frame, and empty databases |
| DataPrepV51.Engine.SetKines | v5.1/DataPrepEngine.py:263-274 | the list is rebuilt from the frames, and nothing else changes |
| DataPrepV51.Engine.ToDf | v5.1/DataPrepEngine.py:87-120 | the frames become those of the load, and the list is rebuilt only after a complete load |
| DataPrepV51.Engine.ToDb | v5.1/DataPrepEngine.py:124-132 | the private database becomes the upload's result, and the error is the upload's |
| DataPrepV51.Engine.RedactDb | v5.1/DataPrepEngine.py:180-204 | the anonymous file starts as a copy of the private one; after the loop the redacted database is committed, or the copy stays on an error |
| DataPrepV51.Engine.MergeHashedStudentIds | v5.1/DataPrepEngine.py:207-235 | the connection sees the merge's statements; the file gets them only when all succeed and the commit is reached |
| DataPrepV51.Engine.MergeHashedTeacherNames | v5.1/DataPrepEngine.py:237-251 | the merged database is seen and committed, or nothing changes on an error |
| DataPrepV51.Engine.KeysToDb | v5.1/DataPrepEngine.py:256-260 | no key raises `ValueError`; otherwise the key is written under its title |
| DataPrepV51.KeysKeepFrames | v5.1/DataPrepEngine.py:313-314 | filing the two keys keeps every frame's table |
| DataPrepV51.WriteAllKeys | v5.1/DataPrepEngine.py:124-132 | a complete upload adds exactly the listed names to the tables there were |
| DataPrepV51.KinesNames | v5.1/DataPrepEngine.py:263-274 | the list `set_kines` builds carries exactly the nine table names |
| DataPrepV51.PrivateOfKeys | v5.1/DataPrepEngine.py:284-290 | a complete upload of the loaded frames gives a private database of exactly the nine tables |
| DataPrepV51.AnonymizeChanges | v5.1/DataPrepEngine.py:302-309 | a clean build is the redacted copy of the private database, changed afterwards in `StudentID` and `TeacherID` only |
| DataPrepV51.AnonymizeKeys | v5.1/DataPrepEngine.py:302-309 | a clean build has the private database's tables |
| DataPrepV51.AnonymizeCells | v5.1/DataPrepEngine.py:302-309 | after a clean build every cell outside the two ID columns is the private cell, or `REDACTED` where the redaction named it: the merges never undo a redaction |
| DataPrepV51.AnonymizeStudentIds | v5.1/DataPrepEngine.py:302-307 | after a clean build `StudentID` in the spring tables is chased through the spring key, in the fall tables through the fall key, and is unchanged elsewhere |
| DataPrepV51.AnonymizeRedactsNames | v5.1/DataPrepEngine.py:302-309 | when the redaction covers the four person tables, no student or teacher name survives a clean build |
| DataPrepV51.AnonymousFacts | v5.1/DataPrepEngine.py:284-309 | the anonymous database built from the uploaded frames holds exactly the nine frame tables, no key table, and no name |
| DataPrepV51.PrivateWithKeys | v5.1/DataPrepEngine.py:311-314 | after the keys are filed the private database holds exactly the nine frames and the two keys |
| DataPrepV51.MainResultHolds | v5.1/DataPrepEngine.py:278-314 | the private database with the spring keys filed and the anonymous build together make up what a complete `main()` leaves behind |
| DataPrepV51.Prepare | v5.1/DataPrepEngine.py:280-291 | after a complete load and upload the list is rebuilt from the frames, and the private database is the upload of that list and holds every frame |
| DataPrepV51.BuildAnonymous | v5.1/DataPrepEngine.py:300-309 | the private database, the frames and their list are kept; the run succeeds exactly when the build (redaction in list order, then the spring and fall student merges, then the spring and fall teacher merges) does, and then both the anonymous file and the connection's view are that build; otherwise the first failing step's error is raised |
| DataPrepV51.FileKeys | v5.1/DataPrepEngine.py:311-314 | the two keys are filed under `student_key` and `teacher_key`, the frames' tables are kept, and the anonymous database is not touched |
| DataPrepV51.Pipeline | v5.1/DataPrepEngine.py:278-314 | after a complete run the private database holds exactly the nine frames and the two spring keys (no fall key); the anonymous database is committed, is the build from the uploaded frames and the four hashed keys, holds exactly the nine frame tables and no key, and no student or teacher name is left in it |

## Left out

- Network and models: the OpenAI and Gemini clients. This covers `send_chat_message`, `send_api_response`, declarations, prompts and the chat loops. They only call remote services.
- QueryAgent2.Agent.constructor: the OpenAI client creation is left out, and so is the read of `config.openai_tools` at QueryAgent2.py:41. That attribute does not exist in the repository's `config.py`, so the constructor as written fails there.
- QueryAgent.Agent.constructor: the Gemini client and chat are left out. Its database is a parameter, because `config.dest_path` is not defined in the repository's `config.py`.
- QueryAgent.Agent.TemplateResponse: its source database is a parameter. `config.src_path` is not defined in the repository's `config.py`.
- DataPrepV51.Pipeline: the two export folders are parameters. `config.fall_folder` and `config.spring_folder` are not defined in the repository's `config.py`, so `main` as written stops at its first line.
- File and database I/O is modelled only as its effect on the map of files:
  - CSV parsing, `to_sql` column types, `shutil.copyfile` and `os.path.join` rules beyond concatenation with `/`;
  - connection handles and cursors. The module-level deletion of old databases (v5.1/DataPrepEngine.py:11-14) is modelled only by its effect: the v5.1 engine starts from empty private and anonymous databases.
- pandas dtypes: an integer column holding a missing value becomes float in pandas. Its `str()` would then read `123.0`; the model prints it as `123`.
- Floating-point cells are left out: a cell is NULL, an integer, text or a BLOB. A REAL column of an export or of a query result, and its `str()` text such as `12.5`, cannot be represented.
- Tools.Agent.GetTable: the table name is matched exactly. SQLite matches the name spliced into `SELECT * FROM "…"` (tools.py:159) without regard to ASCII case, so the source can read a table the model reports as missing. A name holding `"` turns the statement into other SQL; the model does not parse SQL.
- QueryAgent.Agent.GetTable: the same holds for the name spliced into `SELECT * FROM '…'` (QueryAgent.py:182), and for a name holding `'`.
- numpy scalars and NaN keys inside the pandas dictionaries are left out.
- DataStructures.TestPath: `Null` stands for the `None` that `pd.read_sql_query` gives for a NULL text cell. A NULL in a numeric `Subject` or `Course` column would arrive as NaN, which is not `None` in Python; the model treats it as `None` as well.
- The regular-expression engine is modelled only for the marker pattern: `.` does not match a line break, and `.*?` stops at the first `}}`. Unicode and engine internals are left out.
- `sqlite_master` text is not rewritten by table writes.
- PRAGMA output other than the column names is left out, and so is SQL identifier quoting.
- StreamlitTools.GetTableInfo: the table name is matched exactly. SQLite matches it without regard to ASCII case, so `S_STUDENTS` would list the columns of `s_students` where the model gives the empty text. A name holding `'` changes the PRAGMA statement spliced at streamlit/tools.py:155 into other SQL, which may raise a syntax error; the model does not parse SQL and gives the column list or the empty text.
- QueryAgentV51.DispatchFailures: "`get_table_info` never fails" holds only for table names without `'`, for the reason given for StreamlitTools.GetTableInfo. `dispatch` has no handler, so that syntax error would propagate out of it.
- DataPrepEngine.TeacherHashTable: a NULL that `pd.read_sql_query` reads into a text column arrives as `None`, so the source hashes `h("None")`. The model prints every NULL in a frame as `nan`, which is right only for numeric columns. The same holds for DataPrepEngine.StudentHashTable.
- DataPrepV51.MergeTeachersChangesNothing: SQLite type affinity is left out, and SQL equality compares cells by their stored kind only. In SQLite an INTEGER-affinity `TeacherID` compared with the text `'123'` matches `123`. So the premise "numeric IDs, text names" guarantees that nothing changes in the model. In SQLite it does not when a name spells a number.
- The parameters dictionary is shared by reference in logged history entries and modelled as a copy. This matters only if it is written later.
- Writes made by agent-written SQL are left out: the oracle returns rows but does not change the database.
- `print` output and the counter `k` in `set_subject_tree` are left out. They only write to the console.
- Unused members are left out: `redacted_cols`, `_df`, `completed_uploads`, `batch_to_sql`, `get_titles`, `get_params`, and the path getters and setters. No modelled operation reads them.
- SHA-256 itself is a parameter: collision freedom cannot be proved. Properties about distinct hashes assume an injective `h` in their `requires`.
- ClusterAnalysis.py and the ClusterReport data class: floating-point k-means and scikit-learn calls.
- The Streamlit UI, app.py, buildDatabase.py and the scripts that call models: they are user interface, orchestration or network.
