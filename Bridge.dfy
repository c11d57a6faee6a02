/** The two-pass rewrite that turns a pseudonymised answer back into one with real names.
    Pass 1 walks the markers left to right and collects, per marker, every name the private key
    table holds under that pseudonym. Pass 2 walks the markers again and hands the collected names
    out one per marker, from a single shared iterator; once it is exhausted a marker keeps its own
    text. A marker's name is therefore decided by its position, not by its pseudonym. */
module Bridge {
  import opened Outcome
  import opened Store
  import opened Markers
  import opened SeqFacts

  /** The private tables a resolver reads: the student key and the teacher key. */
  datatype KeyTables = KeyTables(student: string, teacher: string)

  /** The key tables of the private database the OpenAI-era tools read. */
  const PrivateKeys := KeyTables("student_key", "teacher_key")

  /** The key tables the Gemini agent reads. */
  const MasterKeys := KeyTables("student_master_key", "teacher_master_key")

  const StudentNameColumns: seq<string> := ["StudentFirstName", "StudentLastName"]

  /** What Python raises when a one-column row is unpacked into `_, teacher_name`. */
  const UnpackError := ValueError("not enough values to unpack (expected 2, got 1)")

  /** `f'{first} {last}'` of a fetched student row. */
  function FullName(row: seq<Cell>): string
    requires |row| == 2
  {
    SqlStr(row[0]) + " " + SqlStr(row[1])
  }

  function FullNames(rows: seq<seq<Cell>>): seq<string>
    requires forall row :: row in rows ==> |row| == 2
  {
    seq(|rows|, i requires 0 <= i < |rows| => FullName(rows[i]))
  }

  /** The student rows filed under a pseudonym. */
  function StudentRows(db: Database, tables: KeyTables, key: string): Result<seq<seq<Cell>>> {
    SelectWhere(db, tables.student, StudentNameColumns, "HashStudentID", Text(key))
  }

  /** The teacher rows filed under a pseudonym. */
  function TeacherRows(db: Database, tables: KeyTables, key: string): Result<seq<seq<Cell>>> {
    SelectWhere(db, tables.teacher, ["TeacherName"], "HashTeacherName", Text(key))
  }

  /** Pass 1 for one marker: a student marker gives one name per matching row; a teacher marker
      gives nothing when no row matches and raises on the first row that does, because the row
      has one column and the loop unpacks two. */
  function Lookup(db: Database, tables: KeyTables, m: Marker): Result<seq<string>> {
    match m.tag
    case Student =>
      var rows :- StudentRows(db, tables, m.key);
      Ok(FullNames(rows))
    case Teacher =>
      var rows :- TeacherRows(db, tables, m.key);
      if rows == [] then Ok([]) else Err(UnpackError)
  }

  /** Pass 1: the names of all markers, in marker order; the first failing lookup stops it. */
  function Collect(db: Database, tables: KeyTables, ms: seq<Marker>): Result<seq<string>>
    decreases |ms|
  {
    if ms == [] then Ok([])
    else
      var head :- Lookup(db, tables, ms[0]);
      var tail :- Collect(db, tables, ms[1..]);
      Ok(head + tail)
  }

  /** Names already collected, followed by those a later part of the pass collects. */
  function Then(pre: seq<string>, r: Result<seq<string>>): Result<seq<string>> {
    match r
    case Ok(more) => Ok(pre + more)
    case Err(e) => Err(e)
  }

  /** One piece of the rewritten text. */
  datatype Out = Kept(c: char) | Named(name: string) | Verbatim(m: Marker)

  /** Pass 2: each marker takes the next unused name; once the names run out it stays as written. */
  function Substitute(ps: seq<Piece>, names: seq<string>): seq<Out>
    decreases |ps|
  {
    if ps == [] then []
    else
      match ps[0]
      case Lit(c) => [Kept(c)] + Substitute(ps[1..], names)
      case Mark(m) =>
        if names == [] then [Verbatim(m)] + Substitute(ps[1..], names)
        else [Named(names[0])] + Substitute(ps[1..], names[1..])
  }

  function OutText(o: Out): string {
    match o
    case Kept(c) => [c]
    case Named(n) => n
    case Verbatim(m) => MarkerText(m)
  }

  function RenderOut(os: seq<Out>): string
    decreases |os|
  {
    if os == [] then "" else OutText(os[0]) + RenderOut(os[1..])
  }

  /** The whole rewrite: the answer with names filled in, or the exception a lookup raised. */
  function ResolveSpec(db: Database, tables: KeyTables, text: string): Result<string> {
    var ps := Scan(text);
    var names :- Collect(db, tables, MarkersOf(ps));
    Ok(RenderOut(Substitute(ps, names)))
  }

  /** Pass 1 for one marker as the tools run it: a student's rows are appended one by one. */
  method LookupNames(db: Database, tables: KeyTables, m: Marker) returns (r: Result<seq<string>>)
    ensures r == Lookup(db, tables, m)
  {
    LookupCases(db, tables, m);
    if m.tag == Student {
      var q := StudentRows(db, tables, m.key);
      if q.Err? {
        return Err(q.error);
      }
      var rows := q.value;
      var names: seq<string> := [];
      var j := 0;
      while j < |rows|
        invariant 0 <= j <= |rows|
        invariant names == FullNames(rows[..j])
      {
        FullNamesSnoc(rows, j);
        names := names + [FullName(rows[j])];
        j := j + 1;
      }
      assert rows[..j] == rows;
      r := Ok(names);
    } else {
      var q := TeacherRows(db, tables, m.key);
      if q.Err? {
        return Err(q.error);
      }
      if |q.value| > 0 {
        return Err(UnpackError);
      }
      r := Ok([]);
    }
  }

  /** Lookup by tag, with the row fetch as the only case split. */
  lemma LookupCases(db: Database, tables: KeyTables, m: Marker)
    ensures m.tag == Student && StudentRows(db, tables, m.key).Err? ==>
      Lookup(db, tables, m) == Err(StudentRows(db, tables, m.key).error)
    ensures m.tag == Student && StudentRows(db, tables, m.key).Ok? ==>
      Lookup(db, tables, m) == Ok(FullNames(StudentRows(db, tables, m.key).value))
    ensures m.tag == Teacher && TeacherRows(db, tables, m.key).Err? ==>
      Lookup(db, tables, m) == Err(TeacherRows(db, tables, m.key).error)
    ensures m.tag == Teacher && TeacherRows(db, tables, m.key).Ok? ==>
      Lookup(db, tables, m) == if TeacherRows(db, tables, m.key).value == [] then Ok([]) else Err(UnpackError)
  {
  }

  lemma FullNamesSnoc(rows: seq<seq<Cell>>, j: nat)
    requires j < |rows| && forall row :: row in rows ==> |row| == 2
    ensures FullNames(rows[..j + 1]) == FullNames(rows[..j]) + [FullName(rows[j])]
  {
    assert rows[..j + 1] == rows[..j] + [rows[j]];
  }

  /** Pass 1 as the tools run it: one loop over the markers `findall` returns, appending to one list. */
  method CollectNames(db: Database, tables: KeyTables, marks: seq<Marker>) returns (r: Result<seq<string>>)
    ensures r == Collect(db, tables, marks)
  {
    var names: seq<string> := [];
    var i := 0;
    assert marks[0..] == marks;
    ThenNothing(Collect(db, tables, marks));
    while i < |marks|
      invariant 0 <= i <= |marks|
      invariant Collect(db, tables, marks) == Then(names, Collect(db, tables, marks[i..]))
    {
      CollectCons(db, tables, marks[i..]);
      assert marks[i..][0] == marks[i] && marks[i..][1..] == marks[i + 1..];
      var found := LookupNames(db, tables, marks[i]);
      if found.Err? {
        return Err(found.error);
      }
      ThenThen(names, found.value, Collect(db, tables, marks[i + 1..]));
      names := names + found.value;
      i := i + 1;
    }
    assert marks[i..] == [];
    assert names + [] == names;
    r := Ok(names);
  }

  lemma ThenNothing(r: Result<seq<string>>)
    ensures Then([], r) == r
  {
    if r.Ok? {
      assert [] + r.value == r.value;
    }
  }

  lemma ThenThen(a: seq<string>, b: seq<string>, r: Result<seq<string>>)
    ensures Then(a, Then(b, r)) == Then(a + b, r)
  {
    if r.Ok? {
      assert a + (b + r.value) == (a + b) + r.value;
    }
  }

  /** Pass 2 as the tools run it: `re.sub` with a callback drawing from one iterator over the
      names, falling back to the matched text when the iterator is exhausted. */
  method FillIn(ps: seq<Piece>, names: seq<string>) returns (out: string)
    ensures out == RenderOut(Substitute(ps, names))
  {
    out := "";
    var next := 0;
    var k := 0;
    while k < |ps|
      invariant 0 <= k <= |ps| && 0 <= next <= |names|
      invariant out + RenderOut(Substitute(ps[k..], names[next..])) == RenderOut(Substitute(ps, names))
    {
      var piece, used := NextPiece(ps[k..], names[next..]);
      DropDrop(ps, k, 1);
      DropDrop(names, next, used);
      AppendAssoc(out, piece, RenderOut(Substitute(ps[k + 1..], names[next + used..])));
      out := out + piece;
      next := next + used;
      k := k + 1;
    }
    assert ps[k..] == [];
  }

  /** The text pass 2 writes for the first piece, and how many names it takes: a character is
      copied, and a marker calls the replacement callback, which draws the next name from the
      shared iterator or, once it is exhausted, returns the matched text. */
  method NextPiece(ps: seq<Piece>, names: seq<string>) returns (piece: string, used: nat)
    requires ps != []
    ensures used <= 1 && used <= |names|
    ensures ps[0].Lit? ==> piece == [ps[0].c] && used == 0
    ensures ps[0].Mark? ==> used == (if names == [] then 0 else 1)
    ensures RenderOut(Substitute(ps, names)) == piece + RenderOut(Substitute(ps[1..], names[used..]))
  {
    FillStep(ps, names);
    match ps[0]
    case Lit(c) =>
      assert names[0..] == names;
      piece, used := [c], 0;
    case Mark(m) =>
      if names == [] {
        piece, used := MarkerText(m), 0;
      } else {
        piece, used := names[0], 1;
      }
  }

  /** One step of pass 2. */
  lemma FillStep(ps: seq<Piece>, names: seq<string>)
    requires ps != []
    ensures ps[0].Lit? ==> RenderOut(Substitute(ps, names)) == [ps[0].c] + RenderOut(Substitute(ps[1..], names))
    ensures ps[0].Mark? && names == [] ==>
      RenderOut(Substitute(ps, names)) == MarkerText(ps[0].m) + RenderOut(Substitute(ps[1..], names))
    ensures ps[0].Mark? && names != [] ==>
      RenderOut(Substitute(ps, names)) == names[0] + RenderOut(Substitute(ps[1..], names[1..]))
  {
  }

  /** The rewrite as the tools run it: `findall`, the lookup loop, then `re.sub`. */
  method Resolve(db: Database, tables: KeyTables, text: string) returns (r: Result<string>)
    ensures r == ResolveSpec(db, tables, text)
  {
    var ps := Scan(text);
    var names := CollectNames(db, tables, MarkersOf(ps));
    if names.Err? {
      return Err(names.error);
    }
    var out := FillIn(ps, names.value);
    r := Ok(out);
  }

  /** One step of pass 1. */
  lemma CollectCons(db: Database, tables: KeyTables, ms: seq<Marker>)
    requires ms != []
    ensures Collect(db, tables, ms) ==
      (if Lookup(db, tables, ms[0]).Err? then Err(Lookup(db, tables, ms[0]).error)
       else Then(Lookup(db, tables, ms[0]).value, Collect(db, tables, ms[1..])))
  {
  }

  // ----- Pass 2 in terms of marker positions -----

  /** How many markers come before position `k`. */
  function MarksBefore(ps: seq<Piece>, k: nat): nat
    requires k <= |ps|
  {
    |MarkersOf(ps[..k])|
  }

  function NamedCount(os: seq<Out>): nat
    decreases |os|
  {
    if os == [] then 0 else (if os[0].Named? then 1 else 0) + NamedCount(os[1..])
  }

  function Min(a: nat, b: nat): nat {
    if a <= b then a else b
  }

  /** Exactly `min(#markers, #names)` markers are replaced by a name. */
  lemma {:induction false} SubstituteCount(ps: seq<Piece>, names: seq<string>)
    ensures NamedCount(Substitute(ps, names)) == Min(|MarkersOf(ps)|, |names|)
    decreases |ps|
  {
    if ps != [] {
      SubstituteCount(ps[1..], if ps[0].Mark? && names != [] then names[1..] else names);
    }
  }

  /** Pass 2 keeps every character outside the markers, in place, and gives the marker at each
      position the name whose index is the number of markers before it, while names last. */
  lemma {:induction false} SubstituteAt(ps: seq<Piece>, names: seq<string>, k: nat)
    requires k < |ps|
    ensures |Substitute(ps, names)| == |ps|
    ensures ps[k].Lit? ==> Substitute(ps, names)[k] == Kept(ps[k].c)
    ensures ps[k].Mark? && MarksBefore(ps, k) < |names| ==> Substitute(ps, names)[k] == Named(names[MarksBefore(ps, k)])
    ensures ps[k].Mark? && MarksBefore(ps, k) >= |names| ==> Substitute(ps, names)[k] == Verbatim(ps[k].m)
    decreases k
  {
    SubstituteLength(ps, names);
    if k > 0 {
      var rest := if ps[0].Mark? && names != [] then names[1..] else names;
      SubstituteAt(ps[1..], rest, k - 1);
      assert ps[..k] == [ps[0]] + ps[1..][..k - 1];
      assert MarkersOf(ps[..k]) == (if ps[0].Mark? then [ps[0].m] else []) + MarkersOf(ps[1..][..k - 1]);
    } else {
      assert ps[..0] == [];
    }
  }

  lemma {:induction false} SubstituteLength(ps: seq<Piece>, names: seq<string>)
    ensures |Substitute(ps, names)| == |ps|
    decreases |ps|
  {
    if ps != [] {
      SubstituteLength(ps[1..], if ps[0].Mark? && names != [] then names[1..] else names);
    }
  }

  /** With no names to hand out, pass 2 spells out the scanned text unchanged. */
  lemma {:induction false} SubstituteNoNames(ps: seq<Piece>)
    ensures RenderOut(Substitute(ps, [])) == Render(ps)
    decreases |ps|
  {
    if ps != [] {
      SubstituteNoNames(ps[1..]);
    }
  }

  // ----- Pass 1 -----

  /** When every marker's lookup yields exactly one name, pass 1 collects each marker's own name. */
  lemma {:induction false} CollectOwnNames(db: Database, tables: KeyTables, ms: seq<Marker>, own: seq<string>)
    requires |own| == |ms|
    requires forall i :: 0 <= i < |ms| ==> Lookup(db, tables, ms[i]) == Ok([own[i]])
    ensures Collect(db, tables, ms) == Ok(own)
    decreases |ms|
  {
    if ms != [] {
      forall i | 0 <= i < |ms[1..]|
        ensures Lookup(db, tables, ms[1..][i]) == Ok([own[1..][i]])
      {
        assert ms[1..][i] == ms[i + 1] && own[1..][i] == own[i + 1];
      }
      CollectOwnNames(db, tables, ms[1..], own[1..]);
      CollectCons(db, tables, ms);
      assert Lookup(db, tables, ms[0]) == Ok([own[0]]);
      assert own == [own[0]] + own[1..];
    }
  }

  /** The first lookup that raises is what pass 1 raises. */
  lemma {:induction false} CollectFirstError(db: Database, tables: KeyTables, ms: seq<Marker>, i: nat)
    requires i < |ms| && Lookup(db, tables, ms[i]).Err?
    requires forall j :: 0 <= j < i ==> Lookup(db, tables, ms[j]).Ok?
    ensures Collect(db, tables, ms) == Err(Lookup(db, tables, ms[i]).error)
    decreases i
  {
    if i > 0 {
      CollectFirstError(db, tables, ms[1..], i - 1);
    }
  }

  /** A student pseudonym filed under no row adds no name. */
  lemma StudentMiss(db: Database, tables: KeyTables, key: string)
    requires tables.student in db.tables
    requires forall c :: c in StudentNameColumns + ["HashStudentID"] ==> c in db.tables[tables.student].columns
    requires forall row :: row in db.tables[tables.student].rows ==> Get(row, "HashStudentID") != Text(key)
    ensures Lookup(db, tables, Marker(Student, key)) == Ok([])
  {
    var t := db.tables[tables.student];
    StudentColumnsPresent(t);
    assert forall x :: x in t.rows ==> !SqlEq(Get(x, "HashStudentID"), Text(key));
    var hits := Matching(t.rows, "HashStudentID", Text(key));
    assert hits == [];
    var fetched := seq(|hits|, i requires 0 <= i < |hits| => Project(hits[i], StudentNameColumns));
    assert StudentRows(db, tables, key) == Ok(fetched);
    assert |fetched| == 0;
    LookupCases(db, tables, Marker(Student, key));
    assert |FullNames(fetched)| == 0;
  }

  /** A student pseudonym filed under exactly one row yields that row's first and last name. */
  lemma StudentHit(db: Database, tables: KeyTables, key: string, row: Record)
    requires tables.student in db.tables
    requires forall c :: c in StudentNameColumns + ["HashStudentID"] ==> c in db.tables[tables.student].columns
    requires Matching(db.tables[tables.student].rows, "HashStudentID", Text(key)) == [row]
    ensures Lookup(db, tables, Marker(Student, key))
      == Ok([SqlStr(Get(row, "StudentFirstName")) + " " + SqlStr(Get(row, "StudentLastName"))])
  {
    var t := db.tables[tables.student];
    var cols := StudentNameColumns;
    assert cols[0] == "StudentFirstName" && cols[1] == "StudentLastName";
    StudentColumnsPresent(t);
    var fetched := [Project(row, cols)];
    var hits := Matching(t.rows, "HashStudentID", Text(key));
    assert hits == [row];
    assert seq(|hits|, i requires 0 <= i < |hits| => Project(hits[i], cols)) == fetched;
    assert StudentRows(db, tables, key) == Ok(fetched);
    LookupCases(db, tables, Marker(Student, key));
    assert FullNames(fetched) == [FullName(fetched[0])];
  }

  /** A student key table with the two name columns and the hash column passes the column checks. */
  lemma StudentColumnsPresent(t: Table)
    requires forall c :: c in StudentNameColumns + ["HashStudentID"] ==> c in t.columns
    ensures "HashStudentID" in t.columns && FirstMissing(StudentNameColumns, t.columns).None?
  {
    var all := StudentNameColumns + ["HashStudentID"];
    assert all[0] in all && all[1] in all && all[2] in all;
  }

  /** Any teacher row matching the pseudonym makes the lookup raise instead of yielding a name. */
  lemma TeacherHitRaises(db: Database, tables: KeyTables, key: string, row: Record)
    requires tables.teacher in db.tables
    requires "TeacherName" in db.tables[tables.teacher].columns && "HashTeacherName" in db.tables[tables.teacher].columns
    requires row in db.tables[tables.teacher].rows && Get(row, "HashTeacherName") == Text(key)
    ensures Lookup(db, tables, Marker(Teacher, key)) == Err(UnpackError)
  {
    var hits := Matching(db.tables[tables.teacher].rows, "HashTeacherName", Text(key));
    assert row in hits;
  }

  // ----- What the rewrite reads -----

  /** Two databases that hold the same two key tables (or both lack them). */
  predicate SameKeyTables(db1: Database, db2: Database, tables: KeyTables) {
    && (tables.student in db1.tables <==> tables.student in db2.tables)
    && (tables.student in db1.tables ==> db1.tables[tables.student] == db2.tables[tables.student])
    && (tables.teacher in db1.tables <==> tables.teacher in db2.tables)
    && (tables.teacher in db1.tables ==> db1.tables[tables.teacher] == db2.tables[tables.teacher])
  }

  lemma LookupSameKeys(db1: Database, db2: Database, tables: KeyTables, m: Marker)
    requires SameKeyTables(db1, db2, tables)
    ensures Lookup(db1, tables, m) == Lookup(db2, tables, m)
  {
    assert StudentRows(db1, tables, m.key) == StudentRows(db2, tables, m.key);
    assert TeacherRows(db1, tables, m.key) == TeacherRows(db2, tables, m.key);
  }

  lemma {:induction false} CollectSameKeys(db1: Database, db2: Database, tables: KeyTables, ms: seq<Marker>)
    requires SameKeyTables(db1, db2, tables)
    ensures Collect(db1, tables, ms) == Collect(db2, tables, ms)
    decreases |ms|
  {
    if ms != [] {
      LookupSameKeys(db1, db2, tables, ms[0]);
      CollectSameKeys(db1, db2, tables, ms[1..]);
    }
  }

  /** The rewrite reads nothing of the database but the two key tables: every other table, and
      the schema, may be anything. */
  lemma ResolveReadsKeyTablesOnly(db1: Database, db2: Database, tables: KeyTables, text: string)
    requires SameKeyTables(db1, db2, tables)
    ensures ResolveSpec(db1, tables, text) == ResolveSpec(db2, tables, text)
  {
    CollectSameKeys(db1, db2, tables, FindAll(text));
  }

  // ----- The rewrite on texts laid out as gaps and markers -----

  /** The pieces of a text laid out as gaps and markers. */
  function Layout(gaps: seq<string>, ms: seq<Marker>): seq<Piece>
    requires |gaps| == |ms| + 1
    decreases |ms|
  {
    if ms == [] then Lits(gaps[0]) else Lits(gaps[0]) + [Mark(ms[0])] + Layout(gaps[1..], ms[1..])
  }

  /** The scanner reads such a text back as exactly that layout. */
  lemma {:induction false} ScanTemplate(gaps: seq<string>, ms: seq<Marker>)
    requires |gaps| == |ms| + 1
    requires forall k :: 0 <= k < |gaps| ==> '{' !in gaps[k]
    requires forall k :: 0 <= k < |ms| ==> GoodKey(ms[k].key)
    ensures Scan(Template(gaps, Texts(ms))) == Layout(gaps, ms)
    ensures MarkersOf(Layout(gaps, ms)) == ms
    decreases |ms|
  {
    var fills := Texts(ms);
    if ms == [] {
      ScanPlain(gaps[0], "");
      AppendEmpty(gaps[0]);
    } else {
      var tail := Template(gaps[1..], fills[1..]);
      assert fills[1..] == Texts(ms[1..]);
      ScanTemplate(gaps[1..], ms[1..]);
      AppendAssoc(gaps[0], MarkerText(ms[0]), tail);
      ScanPlain(gaps[0], MarkerText(ms[0]) + tail);
      MatchMarker(ms[0], tail);
      DropPrefix(MarkerText(ms[0]), tail);
      var after := Layout(gaps[1..], ms[1..]);
      AppendAssoc(Lits(gaps[0]), [Mark(ms[0])], after);
      MarkersAppend(Lits(gaps[0]), [Mark(ms[0])] + after);
      ConsRest(ms);
    }
    if ms == [] {
      assert Layout(gaps, ms) == Lits(gaps[0]);
    }
  }

  /** Characters outside markers are kept whatever names are on hand. */
  lemma {:induction false} SubstituteLits(g: string, rest: seq<Piece>, names: seq<string>)
    ensures RenderOut(Substitute(Lits(g) + rest, names)) == g + RenderOut(Substitute(rest, names))
    decreases |g|
  {
    if g == [] {
      assert Lits(g) + rest == rest;
    } else {
      var more := Lits(g[1..]) + rest;
      AppendAssoc([Lit(g[0])], Lits(g[1..]), rest);
      LitFront(g[0], more, names);
      SubstituteLits(g[1..], rest, names);
      var tail := RenderOut(Substitute(rest, names));
      AppendAssoc([g[0]], g[1..], tail);
      ConsRest(g);
    }
  }

  lemma LitFront(c: char, rest: seq<Piece>, names: seq<string>)
    ensures RenderOut(Substitute([Lit(c)] + rest, names)) == [c] + RenderOut(Substitute(rest, names))
  {
    assert ([Lit(c)] + rest)[1..] == rest;
  }

  /** The filler pass 2 puts at marker `i`: the `i`-th name while names last, else the marker itself. */
  function Fill(ms: seq<Marker>, names: seq<string>): (r: seq<string>)
    ensures |r| == |ms|
  {
    seq(|ms|, i requires 0 <= i < |ms| => if i < |names| then names[i] else MarkerText(ms[i]))
  }

  lemma {:induction false} SubstituteLayout(gaps: seq<string>, ms: seq<Marker>, names: seq<string>)
    requires |gaps| == |ms| + 1
    ensures RenderOut(Substitute(Layout(gaps, ms), names)) == Template(gaps, Fill(ms, names))
    decreases |ms|
  {
    if ms == [] {
      SubstituteLits(gaps[0], [], names);
      assert Lits(gaps[0]) + [] == Lits(gaps[0]);
      assert gaps[0] + "" == gaps[0];
    } else {
      var rest := if names == [] then names else names[1..];
      var head := if names == [] then MarkerText(ms[0]) else names[0];
      LayoutStep(gaps, ms, names);
      SubstituteLayout(gaps[1..], ms[1..], rest);
      FillCons(ms, names);
      var later := Template(gaps[1..], Fill(ms[1..], rest));
      assert Template(gaps, Fill(ms, names)) == gaps[0] + head + later;
    }
  }

  /** Pass 2 over the first gap and the first marker of a layout. */
  lemma LayoutStep(gaps: seq<string>, ms: seq<Marker>, names: seq<string>)
    requires |gaps| == |ms| + 1 && ms != []
    ensures RenderOut(Substitute(Layout(gaps, ms), names)) ==
      gaps[0] + (if names == [] then MarkerText(ms[0]) else names[0])
      + RenderOut(Substitute(Layout(gaps[1..], ms[1..]), if names == [] then names else names[1..]))
  {
    var tail := Layout(gaps[1..], ms[1..]);
    var rest := if names == [] then names else names[1..];
    var head := if names == [] then MarkerText(ms[0]) else names[0];
    var after := [Mark(ms[0])] + tail;
    assert Layout(gaps, ms) == Lits(gaps[0]) + after;
    SubstituteLits(gaps[0], after, names);
    assert after[0] == Mark(ms[0]) && after[1..] == tail;
    FillStep(after, names);
    var x := RenderOut(Substitute(tail, rest));
    assert gaps[0] + (head + x) == gaps[0] + head + x;
  }

  /** The fillers of a non-empty marker list: the first one, then those of the rest. */
  lemma FillCons(ms: seq<Marker>, names: seq<string>)
    requires ms != []
    ensures Fill(ms, names) == [if names == [] then MarkerText(ms[0]) else names[0]]
      + Fill(ms[1..], if names == [] then names else names[1..])
  {
    var f := Fill(ms, names);
    var rest := if names == [] then names else names[1..];
    assert f[1..] == Fill(ms[1..], rest);
    assert f == [f[0]] + f[1..];
  }

  /** The rewrite of a text laid out as brace-free gaps and well-formed markers: every gap comes
      out as it went in, and the `i`-th marker becomes the `i`-th collected name, or stays as
      written once the names have run out. */
  lemma ResolveTemplate(db: Database, tables: KeyTables, gaps: seq<string>, ms: seq<Marker>)
    requires |gaps| == |ms| + 1
    requires forall k :: 0 <= k < |gaps| ==> '{' !in gaps[k]
    requires forall k :: 0 <= k < |ms| ==> GoodKey(ms[k].key)
    ensures Collect(db, tables, ms).Err? ==>
      ResolveSpec(db, tables, Template(gaps, Texts(ms))) == Err(Collect(db, tables, ms).error)
    ensures Collect(db, tables, ms).Ok? ==>
      ResolveSpec(db, tables, Template(gaps, Texts(ms))) == Ok(Template(gaps, Fill(ms, Collect(db, tables, ms).value)))
  {
    ScanTemplate(gaps, ms);
    if Collect(db, tables, ms).Ok? {
      SubstituteLayout(gaps, ms, Collect(db, tables, ms).value);
    }
  }

  /** When every marker resolves to exactly one row, each marker gets its own name. */
  lemma ExactResolution(db: Database, tables: KeyTables, gaps: seq<string>, ms: seq<Marker>, own: seq<string>)
    requires |gaps| == |ms| + 1 && |own| == |ms|
    requires forall k :: 0 <= k < |gaps| ==> '{' !in gaps[k]
    requires forall k :: 0 <= k < |ms| ==> GoodKey(ms[k].key)
    requires forall i :: 0 <= i < |ms| ==> Lookup(db, tables, ms[i]) == Ok([own[i]])
    ensures ResolveSpec(db, tables, Template(gaps, Texts(ms))) == Ok(Template(gaps, own))
  {
    CollectOwnNames(db, tables, ms, own);
    ResolveTemplate(db, tables, gaps, ms);
    assert Fill(ms, own) == own;
  }

  /** A marker whose lookup misses takes the name meant for the marker after it, and the later
      marker, left without a name, stays as written. */
  lemma MissShiftsNames(db: Database, tables: KeyTables, g0: string, g1: string, g2: string,
                        miss: Marker, hit: Marker, name: string)
    requires '{' !in g0 && '{' !in g1 && '{' !in g2
    requires GoodKey(miss.key) && GoodKey(hit.key)
    requires Lookup(db, tables, miss) == Ok([]) && Lookup(db, tables, hit) == Ok([name])
    ensures ResolveSpec(db, tables, g0 + MarkerText(miss) + g1 + MarkerText(hit) + g2)
      == Ok(g0 + name + g1 + MarkerText(hit) + g2)
  {
    CollectMissHit(db, tables, miss, hit, name);
    ResolveMissHit(db, tables, [g0, g1, g2], [miss, hit], name);
    TextsOfTwo(miss, hit);
    TemplateOfThree(g0, g1, g2, MarkerText(miss), MarkerText(hit));
    TemplateOfThree(g0, g1, g2, name, MarkerText(hit));
  }

  lemma ResolveMissHit(db: Database, tables: KeyTables, gaps: seq<string>, ms: seq<Marker>, name: string)
    requires |gaps| == 3 && |ms| == 2
    requires '{' !in gaps[0] && '{' !in gaps[1] && '{' !in gaps[2]
    requires GoodKey(ms[0].key) && GoodKey(ms[1].key)
    requires Collect(db, tables, ms) == Ok([name])
    ensures ResolveSpec(db, tables, Template(gaps, Texts(ms))) == Ok(Template(gaps, [name, MarkerText(ms[1])]))
  {
    EachOfThree(gaps);
    EachOfTwo(ms);
    ResolveTemplate(db, tables, gaps, ms);
    assert ms == [ms[0], ms[1]];
    FillMissHit(ms[0], ms[1], name);
  }

  lemma EachOfThree(gaps: seq<string>)
    requires |gaps| == 3 && '{' !in gaps[0] && '{' !in gaps[1] && '{' !in gaps[2]
    ensures forall k :: 0 <= k < |gaps| ==> '{' !in gaps[k]
  {
    forall k | 0 <= k < |gaps|
      ensures '{' !in gaps[k]
    {
      if k == 0 {} else if k == 1 {} else { assert k == 2; }
    }
  }

  lemma EachOfTwo(ms: seq<Marker>)
    requires |ms| == 2 && GoodKey(ms[0].key) && GoodKey(ms[1].key)
    ensures forall k :: 0 <= k < |ms| ==> GoodKey(ms[k].key)
  {
    forall k | 0 <= k < |ms|
      ensures GoodKey(ms[k].key)
    {
      if k == 0 {} else { assert k == 1; }
    }
  }

  lemma CollectMissHit(db: Database, tables: KeyTables, miss: Marker, hit: Marker, name: string)
    requires Lookup(db, tables, miss) == Ok([]) && Lookup(db, tables, hit) == Ok([name])
    ensures Collect(db, tables, [miss, hit]) == Ok([name])
  {
    var ms := [miss, hit];
    assert ms[1..] == [hit] && ms[1..][1..] == [];
    assert Collect(db, tables, [hit]) == Ok([name] + []);
    assert [name] + [] == [name] && [] + [name] == [name];
  }

  lemma FillMissHit(miss: Marker, hit: Marker, name: string)
    ensures Fill([miss, hit], [name]) == [name, MarkerText(hit)]
  {
    var f := Fill([miss, hit], [name]);
    assert f[0] == name && f[1] == MarkerText(hit);
  }

  lemma TextsOfTwo(a: Marker, b: Marker)
    ensures Texts([a, b]) == [MarkerText(a), MarkerText(b)]
  {
    var t := Texts([a, b]);
    assert t[0] == MarkerText(a) && t[1] == MarkerText(b);
  }

  lemma TemplateOfTwo(g0: string, g1: string, x: string)
    ensures Template([g0, g1], [x]) == g0 + x + g1
  {
    assert [g0, g1][1..] == [g1] && [x][1..] == [];
    assert Template([g1], []) == g1;
  }

  lemma TemplateOfThree(g0: string, g1: string, g2: string, x: string, y: string)
    ensures Template([g0, g1, g2], [x, y]) == g0 + x + g1 + y + g2
  {
    assert [g0, g1, g2][1..] == [g1, g2] && [g1, g2][1..] == [g2];
    assert [x, y][1..] == [y] && [y][1..] == [];
    assert Template([g2], []) == g2;
    assert Template([g1, g2], [y]) == g1 + y + g2;
    assert Template([g0, g1, g2], [x, y]) == g0 + x + (g1 + y + g2);
    assert g0 + x + (g1 + y + g2) == g0 + x + g1 + y + g2;
  }

  /** When no lookup yields a name, the answer comes back exactly as written. */
  lemma AllMissUnchanged(db: Database, tables: KeyTables, text: string)
    requires Collect(db, tables, FindAll(text)) == Ok([])
    ensures ResolveSpec(db, tables, text) == Ok(text)
  {
    SubstituteNoNames(Scan(text));
    RenderScan(text);
  }

  /** An answer without markers is returned as it is, without any lookup. */
  lemma ResolveNoMarkers(db: Database, tables: KeyTables, text: string)
    requires FindAll(text) == []
    ensures ResolveSpec(db, tables, text) == Ok(text)
  {
    AllMissUnchanged(db, tables, text);
  }
}
