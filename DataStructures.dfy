/** The subject tree of an assessment-results frame, and the table of short and long test titles. */
module DataStructures {
  import opened Outcome
  import opened Store
  import opened PyText

  // ----- Insertion-ordered dictionaries -----

  /** The position of a key in an insertion-ordered dictionary. */
  function Find<K(==), V>(d: seq<(K, V)>, k: K): (r: Option<nat>)
    ensures r.None? <==> forall i :: 0 <= i < |d| ==> d[i].0 != k
    ensures r.Some? ==> r.value < |d| && d[r.value].0 == k && forall i :: 0 <= i < r.value ==> d[i].0 != k
    decreases |d|
  {
    if d == [] then None
    else if d[0].0 == k then Some(0)
    else match Find(d[1..], k)
      case None => None
      case Some(i) => Some(i + 1)
  }

  /** Python's `k in d`. */
  predicate Has<K(==), V>(d: seq<(K, V)>, k: K) {
    Find(d, k).Some?
  }

  /** Python's `d[k]` for a key that is there. */
  function At<K(==), V>(d: seq<(K, V)>, k: K): V
    requires Has(d, k)
  {
    d[Find(d, k).value].1
  }

  /** Python's `d[k] = v`: an existing key keeps its place, a new one goes last. */
  function Put<K(==), V>(d: seq<(K, V)>, k: K, v: V): seq<(K, V)>
    decreases |d|
  {
    if d == [] then [(k, v)]
    else if d[0].0 == k then [(k, v)] + d[1..]
    else [d[0]] + Put(d[1..], k, v)
  }

  /** After `d[k] = v` the keys are the old ones and `k`; `k` maps to `v` and every other key to
      what it mapped to before. */
  lemma {:induction false} PutEffect<K, V>(d: seq<(K, V)>, k: K, v: V, x: K)
    ensures Has(Put(d, k, v), x) <==> Has(d, x) || x == k
    ensures Has(Put(d, k, v), x) ==> At(Put(d, k, v), x) == if x == k then v else At(d, x)
    decreases |d|
  {
    var r := Put(d, k, v);
    if d != [] {
      if d[0].0 == k {
        assert r[1..] == d[1..];
      } else {
        assert r[1..] == Put(d[1..], k, v);
        PutEffect(d[1..], k, v, x);
      }
    }
  }

  lemma {:induction false} FindSameKeys<K, V>(a: seq<(K, V)>, b: seq<(K, V)>, x: K)
    requires |a| == |b| && forall j :: 0 <= j < |a| ==> a[j].0 == b[j].0
    ensures Find(a, x) == Find(b, x)
    decreases |a|
  {
    if a != [] {
      FindSameKeys(a[1..], b[1..], x);
    }
  }

  lemma {:induction false} FindAppend<K, V>(d: seq<(K, V)>, e: (K, V), x: K)
    requires Has(d, x)
    ensures Find(d + [e], x) == Find(d, x)
    decreases |d|
  {
    if d[0].0 != x {
      assert (d + [e])[1..] == d[1..] + [e];
      FindAppend(d[1..], e, x);
    }
  }

  lemma {:induction false} FindAppendNew<K, V>(d: seq<(K, V)>, k: K, v: V)
    requires !Has(d, k)
    ensures Find(d + [(k, v)], k) == Some(|d|)
    decreases |d|
  {
    if d != [] {
      assert (d + [(k, v)])[1..] == d[1..] + [(k, v)];
      FindAppendNew(d[1..], k, v);
    }
  }

  // ----- The subject tree -----

  /** A test's goal entries, `Goal<i>Name` and `Goal<i>RitScore` columns with their values. */
  type Goals = seq<(string, Cell)>
  type Tests = seq<(Cell, Goals)>
  type Courses = seq<(Cell, Tests)>
  /** Subject, then course, then test name, in the order each was first met. */
  type Tree = seq<(Cell, Courses)>

  predicate HasTest(t: Tree, s: Cell, c: Cell, x: Cell) {
    Has(t, s) && Has(At(t, s), c) && Has(At(At(t, s), c), x)
  }

  function GoalsAt(t: Tree, s: Cell, c: Cell, x: Cell): Goals
    requires HasTest(t, s, c, x)
  {
    At(At(At(t, s), c), x)
  }

  /** The nested assignments that file a new test: an absent subject or course gets an empty
      dictionary first. */
  function AddTest(t: Tree, s: Cell, c: Cell, x: Cell, g: Goals): Tree {
    var courses := if Has(t, s) then At(t, s) else [];
    var tests := if Has(courses, c) then At(courses, c) else [];
    Put(t, s, Put(courses, c, Put(tests, x, g)))
  }

  /** Filing a test adds its path with its goals and leaves every other path as it was. */
  lemma AddTestEffect(t: Tree, s: Cell, c: Cell, x: Cell, g: Goals, s': Cell, c': Cell, x': Cell)
    ensures HasTest(AddTest(t, s, c, x, g), s', c', x') <==> HasTest(t, s', c', x') || (s', c', x') == (s, c, x)
    ensures HasTest(AddTest(t, s, c, x, g), s', c', x') ==>
      GoalsAt(AddTest(t, s, c, x, g), s', c', x') == if (s', c', x') == (s, c, x) then g else GoalsAt(t, s', c', x')
  {
    var courses := if Has(t, s) then At(t, s) else [];
    var tests := if Has(courses, c) then At(courses, c) else [];
    PutEffect(t, s, Put(courses, c, Put(tests, x, g)), s');
    if s' == s {
      AddCourseTest(courses, c, x, g, c', x');
    }
  }

  /** Filing a test in the courses of one subject, seen from another course and test name. */
  lemma AddCourseTest(courses: Courses, c: Cell, x: Cell, g: Goals, c': Cell, x': Cell)
    ensures var r := Put(courses, c, Put(if Has(courses, c) then At(courses, c) else [], x, g));
      Has(r, c') && Has(At(r, c'), x') <==> (Has(courses, c') && Has(At(courses, c'), x')) || (c', x') == (c, x)
    ensures var r := Put(courses, c, Put(if Has(courses, c) then At(courses, c) else [], x, g));
      (c', x') == (c, x) ==> Has(r, c') && Has(At(r, c'), x') && At(At(r, c'), x') == g
    ensures var r := Put(courses, c, Put(if Has(courses, c) then At(courses, c) else [], x, g));
      (c', x') != (c, x) && Has(courses, c') && Has(At(courses, c'), x') ==>
        Has(r, c') && Has(At(r, c'), x') && At(At(r, c'), x') == At(At(courses, c'), x')
  {
    var tests := if Has(courses, c) then At(courses, c) else [];
    PutEffect(courses, c, Put(tests, x, g), c');
    PutEffect(tests, x, g, x');
  }

  function GoalName(i: nat): string
    requires 1 <= i <= 9
  {
    "Goal" + [(48 + i) as char] + "Name"
  }

  function GoalScore(i: nat): string
    requires 1 <= i <= 9
  {
    "Goal" + [(48 + i) as char] + "RitScore"
  }

  /** Whether goal `i` of a row is recorded: its name column exists and holds a value. */
  predicate Recorded(row: Record, cols: seq<string>, i: nat)
    requires 1 <= i <= 9
  {
    GoalName(i) in cols && Get(row, GoalName(i)) != Null
  }

  /** The goal entries of one row for goals `i` to 7: a recorded goal adds its name and then its
      score; a recorded goal without a score column raises after its name is filed. */
  function GoalsFrom(row: Record, cols: seq<string>, i: nat): (r: (Goals, Option<Error>))
    requires 1 <= i <= 8
    ensures r.1.Some? ==> exists k :: i <= k <= 7 && Recorded(row, cols, k) && GoalScore(k) !in cols && r.1 == Some(KeyError(GoalScore(k)))
    decreases 8 - i
  {
    if i == 8 then ([], None)
    else if !Recorded(row, cols, i) then GoalsFrom(row, cols, i + 1)
    else if GoalScore(i) !in cols then ([(GoalName(i), Get(row, GoalName(i)))], Some(KeyError(GoalScore(i))))
    else
      var rest := GoalsFrom(row, cols, i + 1);
      ([(GoalName(i), Get(row, GoalName(i))), (GoalScore(i), Get(row, GoalScore(i)))] + rest.0, rest.1)
  }

  /** Without an error, a goal's name is among the entries exactly when the goal is recorded, with
      the row's value, and its score follows it. */
  lemma {:induction false} GoalsFromRecorded(row: Record, cols: seq<string>, i: nat, k: nat)
    requires 1 <= i <= 8 && 1 <= k <= 7
    requires GoalsFrom(row, cols, i).1.None?
    ensures var g := GoalsFrom(row, cols, i).0;
      (i <= k && Recorded(row, cols, k) <==> (GoalName(k), Get(row, GoalName(k))) in g)
      && (i <= k && Recorded(row, cols, k) ==> (GoalScore(k), Get(row, GoalScore(k))) in g)
    decreases 8 - i
  {
    if i < 8 {
      GoalsFromRecorded(row, cols, i + 1, k);
      GoalsFromNames(row, cols, i + 1);
      assert GoalName(k) != GoalScore(i) by { assert |GoalName(k)| != |GoalScore(i)|; }
      if k != i {
        assert GoalName(k) != GoalName(i) by { assert GoalName(k)[4] != GoalName(i)[4]; }
      }
    } else {
      assert GoalsFrom(row, cols, i).0 == [];
    }
  }

  /** The entries for goals `i` to 7 name only those goals. */
  lemma {:induction false} GoalsFromNames(row: Record, cols: seq<string>, i: nat)
    requires 1 <= i <= 8
    ensures forall e :: e in GoalsFrom(row, cols, i).0 ==>
      exists k :: i <= k <= 7 && (e.0 == GoalName(k) || e.0 == GoalScore(k))
    decreases 8 - i
  {
    if i < 8 {
      GoalsFromNames(row, cols, i + 1);
    }
  }

  /** The goal loop of `set_subject_tree`, `for i in range(1, 8)`, over a new test's dictionary. */
  method CollectGoals(row: Record, cols: seq<string>) returns (goals: Goals, raised: Option<Error>)
    ensures (goals, raised) == GoalsFrom(row, cols, 1)
  {
    goals := [];
    var i := 1;
    assert [] + GoalsFrom(row, cols, 1).0 == GoalsFrom(row, cols, 1).0;
    while i < 8
      invariant 1 <= i <= 8
      invariant GoalsFrom(row, cols, 1) == (goals + GoalsFrom(row, cols, i).0, GoalsFrom(row, cols, i).1)
    {
      GoalsStep(row, cols, i, goals);
      if Recorded(row, cols, i) {
        if GoalScore(i) !in cols {
          return goals + [(GoalName(i), Get(row, GoalName(i)))], Some(KeyError(GoalScore(i)));
        }
        goals := goals + [(GoalName(i), Get(row, GoalName(i))), (GoalScore(i), Get(row, GoalScore(i)))];
      }
      i := i + 1;
    }
    assert goals + [] == goals;
    raised := None;
  }

  /** One turn of the goal loop, from the entries gathered before goal `i`. */
  lemma GoalsStep(row: Record, cols: seq<string>, i: nat, goals: Goals)
    requires 1 <= i < 8
    requires GoalsFrom(row, cols, 1) == (goals + GoalsFrom(row, cols, i).0, GoalsFrom(row, cols, i).1)
    ensures !Recorded(row, cols, i) ==>
      GoalsFrom(row, cols, 1) == (goals + GoalsFrom(row, cols, i + 1).0, GoalsFrom(row, cols, i + 1).1)
    ensures Recorded(row, cols, i) && GoalScore(i) !in cols ==>
      GoalsFrom(row, cols, 1) == (goals + [(GoalName(i), Get(row, GoalName(i)))], Some(KeyError(GoalScore(i))))
    ensures Recorded(row, cols, i) && GoalScore(i) in cols ==>
      var more := goals + [(GoalName(i), Get(row, GoalName(i))), (GoalScore(i), Get(row, GoalScore(i)))];
      GoalsFrom(row, cols, 1) == (more + GoalsFrom(row, cols, i + 1).0, GoalsFrom(row, cols, i + 1).1)
  {
    if Recorded(row, cols, i) && GoalScore(i) in cols {
      var pair := [(GoalName(i), Get(row, GoalName(i))), (GoalScore(i), Get(row, GoalScore(i)))];
      assert goals + (pair + GoalsFrom(row, cols, i + 1).0) == (goals + pair) + GoalsFrom(row, cols, i + 1).0;
    }
  }

  /** One row of `set_subject_tree`: the three path columns are read, and a test not yet in the
      tree is filed under its subject and course with the row's goals. */
  function Insert(t: Tree, row: Record, cols: seq<string>): (r: (Tree, Option<Error>))
    ensures r.1.None? && "Subject" in cols && "Course" in cols && "TestName" in cols ==>
      HasTest(r.0, Get(row, "Subject"), Get(row, "Course"), Get(row, "TestName"))
  {
    if "Subject" !in cols then (t, Some(KeyError("Subject")))
    else if "Course" !in cols then (t, Some(KeyError("Course")))
    else if "TestName" !in cols then (t, Some(KeyError("TestName")))
    else
      var s, c, x := Get(row, "Subject"), Get(row, "Course"), Get(row, "TestName");
      if HasTest(t, s, c, x) then (t, None)
      else
        var g := GoalsFrom(row, cols, 1);
        AddTestEffect(t, s, c, x, g.0, s, c, x);
        (AddTest(t, s, c, x, g.0), g.1)
  }

  /** `set_subject_tree` over the rows, from a given tree, stopping at the first error with what
      was filed until then. */
  function Build(t: Tree, rows: seq<Record>, cols: seq<string>): (r: (Tree, Option<Error>))
    decreases |rows|
  {
    if rows == [] then (t, None)
    else
      var step := Insert(t, rows[0], cols);
      if step.1.Some? then step else Build(step.0, rows[1..], cols)
  }

  /** The subject, course and test name of a row. */
  function PathOf(row: Record): (Cell, Cell, Cell) {
    (Get(row, "Subject"), Get(row, "Course"), Get(row, "TestName"))
  }

  /** Whether a row's test is filed in the tree. */
  predicate Filed(t: Tree, row: Record) {
    HasTest(t, PathOf(row).0, PathOf(row).1, PathOf(row).2)
  }

  /** One clean row adds its own path, with its goals when the path is new, and keeps the rest. */
  lemma InsertEffect(t: Tree, row: Record, cols: seq<string>, s: Cell, c: Cell, x: Cell)
    requires Insert(t, row, cols).1.None?
    requires "Subject" in cols && "Course" in cols && "TestName" in cols
    ensures HasTest(Insert(t, row, cols).0, s, c, x) <==> HasTest(t, s, c, x) || (s, c, x) == PathOf(row)
    ensures HasTest(t, s, c, x) ==> GoalsAt(Insert(t, row, cols).0, s, c, x) == GoalsAt(t, s, c, x)
    ensures !HasTest(t, s, c, x) && (s, c, x) == PathOf(row) ==> GoalsAt(Insert(t, row, cols).0, s, c, x) == GoalsFrom(row, cols, 1).0
  {
    var p := PathOf(row);
    if !HasTest(t, p.0, p.1, p.2) {
      AddTestEffect(t, p.0, p.1, p.2, GoalsFrom(row, cols, 1).0, s, c, x);
    }
  }

  /** Building never loses a test: every path the tree had, it keeps, with the same goals. */
  lemma {:induction false} BuildKeeps(t: Tree, rows: seq<Record>, cols: seq<string>, s: Cell, c: Cell, x: Cell)
    requires HasTest(t, s, c, x)
    ensures HasTest(Build(t, rows, cols).0, s, c, x) && GoalsAt(Build(t, rows, cols).0, s, c, x) == GoalsAt(t, s, c, x)
    decreases |rows|
  {
    if rows != [] {
      var step := Insert(t, rows[0], cols);
      InsertKeeps(t, rows[0], cols, s, c, x);
      if step.1.None? {
        BuildKeeps(step.0, rows[1..], cols, s, c, x);
      }
    }
  }

  /** One row never loses a test, even when it raises after filing its own. */
  lemma InsertKeeps(t: Tree, row: Record, cols: seq<string>, s: Cell, c: Cell, x: Cell)
    requires HasTest(t, s, c, x)
    ensures HasTest(Insert(t, row, cols).0, s, c, x) && GoalsAt(Insert(t, row, cols).0, s, c, x) == GoalsAt(t, s, c, x)
  {
    var p := PathOf(row);
    if "Subject" in cols && "Course" in cols && "TestName" in cols && !HasTest(t, p.0, p.1, p.2) {
      AddTestEffect(t, p.0, p.1, p.2, GoalsFrom(row, cols, 1).0, s, c, x);
    }
  }

  /** After a clean build from a tree, every row's test is filed. */
  lemma {:induction false} BuildFilesAll(t: Tree, rows: seq<Record>, cols: seq<string>)
    requires Build(t, rows, cols).1.None? && rows != []
    ensures forall j :: 0 <= j < |rows| ==> Filed(Build(t, rows, cols).0, rows[j])
    decreases |rows|
  {
    FilesFirst(t, rows, cols);
    if |rows| > 1 {
      BuildFilesAll(Insert(t, rows[0], cols).0, rows[1..], cols);
    }
    FiledShift(Build(t, rows, cols).0, rows);
  }

  /** A clean build files its first row, and goes on from the tree that row leaves. */
  lemma FilesFirst(t: Tree, rows: seq<Record>, cols: seq<string>)
    requires Build(t, rows, cols).1.None? && rows != []
    ensures Build(Insert(t, rows[0], cols).0, rows[1..], cols) == Build(t, rows, cols)
    ensures Filed(Build(t, rows, cols).0, rows[0])
  {
    BuildFirst(t, rows, cols);
    BuildKeeps(Insert(t, rows[0], cols).0, rows[1..], cols, PathOf(rows[0]).0, PathOf(rows[0]).1, PathOf(rows[0]).2);
  }

  /** The first row and the rest filed: all rows filed. */
  lemma FiledShift(b: Tree, rows: seq<Record>)
    requires rows != [] && Filed(b, rows[0])
    requires forall j :: 0 <= j < |rows[1..]| ==> Filed(b, rows[1..][j])
    ensures forall j :: 0 <= j < |rows| ==> Filed(b, rows[j])
  {
    assert forall j :: 1 <= j < |rows| ==> rows[j] == rows[1..][j - 1];
  }

  /** Rows whose tests are all filed change nothing. */
  lemma {:induction false} BuildFiledRows(t: Tree, rows: seq<Record>, cols: seq<string>)
    requires "Subject" in cols && "Course" in cols && "TestName" in cols
    requires forall j :: 0 <= j < |rows| ==> Filed(t, rows[j])
    ensures Build(t, rows, cols) == (t, None)
    decreases |rows|
  {
    if rows != [] {
      assert forall j :: 0 <= j < |rows[1..]| ==> rows[1..][j] == rows[j + 1];
      BuildFiledRows(t, rows[1..], cols);
    }
  }

  /** Building twice from the same frame gives the tree of building once. */
  lemma BuildIdempotent(t: Tree, rows: seq<Record>, cols: seq<string>)
    requires Build(t, rows, cols).1.None?
    ensures Build(Build(t, rows, cols).0, rows, cols) == (Build(t, rows, cols).0, None)
  {
    if rows != [] {
      BuildFilesAll(t, rows, cols);
      assert "Subject" in cols && "Course" in cols && "TestName" in cols;
      BuildFiledRows(Build(t, rows, cols).0, rows, cols);
    }
  }

  /** A clean build starts with a clean first row, whose path columns all exist. */
  lemma BuildFirst(t: Tree, rows: seq<Record>, cols: seq<string>)
    requires Build(t, rows, cols).1.None? && rows != []
    ensures "Subject" in cols && "Course" in cols && "TestName" in cols
    ensures Insert(t, rows[0], cols).1.None?
    ensures Build(t, rows, cols) == Build(Insert(t, rows[0], cols).0, rows[1..], cols)
  {
  }

  /** The `j`-th row is the first with path `p`. */
  predicate FirstWithPath(rows: seq<Record>, j: nat, p: (Cell, Cell, Cell)) {
    j < |rows| && PathOf(rows[j]) == p && forall k :: 0 <= k < j ==> PathOf(rows[k]) != p
  }

  /** A test's goals come from the first row that files it: later rows with the same path never
      change them. */
  lemma {:induction false} FirstRowWins(t: Tree, rows: seq<Record>, cols: seq<string>, j: nat, s: Cell, c: Cell, x: Cell)
    requires Build(t, rows, cols).1.None?
    requires FirstWithPath(rows, j, (s, c, x)) && !HasTest(t, s, c, x)
    ensures HasTest(Build(t, rows, cols).0, s, c, x)
    ensures GoalsAt(Build(t, rows, cols).0, s, c, x) == GoalsFrom(rows[j], cols, 1).0
    decreases j, 1
  {
    if j == 0 {
      FirstRowFiles(t, rows, cols, s, c, x);
    } else {
      LaterRowWins(t, rows, cols, j, s, c, x);
    }
  }

  /** The induction step of `FirstRowWins`: a first row with another path is passed over. */
  lemma {:induction false} LaterRowWins(t: Tree, rows: seq<Record>, cols: seq<string>, j: nat, s: Cell, c: Cell, x: Cell)
    requires Build(t, rows, cols).1.None?
    requires 0 < j && FirstWithPath(rows, j, (s, c, x)) && !HasTest(t, s, c, x)
    ensures HasTest(Build(t, rows, cols).0, s, c, x)
    ensures GoalsAt(Build(t, rows, cols).0, s, c, x) == GoalsFrom(rows[j], cols, 1).0
    decreases j, 0
  {
    FirstRowLater(t, rows, cols, j, s, c, x);
    FirstRowWins(Insert(t, rows[0], cols).0, rows[1..], cols, j - 1, s, c, x);
  }

  /** A first row with another path leaves the path unfiled, and the rest of the build sees the
      `j`-th row one place earlier. */
  lemma FirstRowLater(t: Tree, rows: seq<Record>, cols: seq<string>, j: nat, s: Cell, c: Cell, x: Cell)
    requires Build(t, rows, cols).1.None?
    requires 0 < j && FirstWithPath(rows, j, (s, c, x)) && !HasTest(t, s, c, x)
    ensures Build(Insert(t, rows[0], cols).0, rows[1..], cols) == Build(t, rows, cols)
    ensures !HasTest(Insert(t, rows[0], cols).0, s, c, x)
    ensures FirstWithPath(rows[1..], j - 1, (s, c, x)) && rows[1..][j - 1] == rows[j]
  {
    BuildFirst(t, rows, cols);
    TailShift(rows, j, (s, c, x));
    InsertOther(t, rows[0], cols, s, c, x);
  }

  /** A first row whose path is new files its goals for good. */
  lemma FirstRowFiles(t: Tree, rows: seq<Record>, cols: seq<string>, s: Cell, c: Cell, x: Cell)
    requires Build(t, rows, cols).1.None? && rows != []
    requires PathOf(rows[0]) == (s, c, x) && !HasTest(t, s, c, x)
    ensures HasTest(Build(t, rows, cols).0, s, c, x)
    ensures GoalsAt(Build(t, rows, cols).0, s, c, x) == GoalsFrom(rows[0], cols, 1).0
  {
    BuildFirst(t, rows, cols);
    InsertNew(t, rows[0], cols, s, c, x);
    BuildKeeps(Insert(t, rows[0], cols).0, rows[1..], cols, s, c, x);
  }

  /** The rows before the `j`-th, seen from the second row on. */
  lemma TailShift(rows: seq<Record>, j: nat, p: (Cell, Cell, Cell))
    requires 0 < j && FirstWithPath(rows, j, p)
    ensures PathOf(rows[0]) != p && rows[1..][j - 1] == rows[j]
    ensures FirstWithPath(rows[1..], j - 1, p)
  {
    assert forall k :: 0 <= k < j - 1 ==> rows[1..][k] == rows[k + 1];
  }

  /** A row with another path does not file this one. */
  lemma InsertOther(t: Tree, row: Record, cols: seq<string>, s: Cell, c: Cell, x: Cell)
    requires Insert(t, row, cols).1.None?
    requires "Subject" in cols && "Course" in cols && "TestName" in cols
    requires PathOf(row) != (s, c, x) && !HasTest(t, s, c, x)
    ensures !HasTest(Insert(t, row, cols).0, s, c, x)
  {
    InsertEffect(t, row, cols, s, c, x);
  }

  /** A clean row whose path is new files its goals there. */
  lemma InsertNew(t: Tree, row: Record, cols: seq<string>, s: Cell, c: Cell, x: Cell)
    requires Insert(t, row, cols).1.None?
    requires "Subject" in cols && "Course" in cols && "TestName" in cols
    requires PathOf(row) == (s, c, x) && !HasTest(t, s, c, x)
    ensures HasTest(Insert(t, row, cols).0, s, c, x)
    ensures GoalsAt(Insert(t, row, cols).0, s, c, x) == GoalsFrom(row, cols, 1).0
  {
    InsertEffect(t, row, cols, s, c, x);
  }

  // ----- The test path -----

  /** A course that holds the test, with its subject and the test's goal entries. */
  datatype Hit = Hit(subject: Cell, course: Cell, goals: Goals)

  /** The courses of one subject that hold the test, in order. */
  function CourseHits(s: Cell, courses: Courses, x: Cell): seq<Hit>
    decreases |courses|
  {
    if courses == [] then []
    else
      var last := courses[|courses| - 1];
      CourseHits(s, courses[..|courses| - 1], x) + (if Has(last.1, x) then [Hit(s, last.0, At(last.1, x))] else [])
  }

  /** Every course of the tree that holds the test, subject by subject. */
  function Hits(t: Tree, x: Cell): seq<Hit>
    decreases |t|
  {
    if t == [] then [] else Hits(t[..|t| - 1], x) + CourseHits(t[|t| - 1].0, t[|t| - 1].1, x)
  }

  /** The keys of the entries that end in `RitScore`, in order. */
  function ScoreKeys(g: Goals): seq<string>
    decreases |g|
  {
    if g == [] then []
    else ScoreKeys(g[..|g| - 1]) + (if EndsWith(g[|g| - 1].0, "RitScore") then [g[|g| - 1].0] else [])
  }

  /** The values of the other entries whose keys end in `Name`, in order. */
  function NameValues(g: Goals): seq<Cell>
    decreases |g|
  {
    if g == [] then []
    else
      var e := g[|g| - 1];
      NameValues(g[..|g| - 1]) + (if !EndsWith(e.0, "RitScore") && EndsWith(e.0, "Name") then [e.1] else [])
  }

  function AllScores(hits: seq<Hit>): seq<string>
    decreases |hits|
  {
    if hits == [] then [] else AllScores(hits[..|hits| - 1]) + ScoreKeys(hits[|hits| - 1].goals)
  }

  function AllNames(hits: seq<Hit>): seq<Cell>
    decreases |hits|
  {
    if hits == [] then [] else AllNames(hits[..|hits| - 1]) + NameValues(hits[|hits| - 1].goals)
  }

  /** What `get_test_path` returns. */
  datatype LocalKeys = LocalKeys(subject: Cell, course: Cell, testName: string, goalScores: seq<string>, goalNames: seq<Cell>)

  /** The subject and course `get_test_path` ends on: those of the last course that holds the
      test, or `None` for both when no course does. */
  function LastPath(hits: seq<Hit>): (Cell, Cell) {
    if hits == [] then (Null, Null) else (hits[|hits| - 1].subject, hits[|hits| - 1].course)
  }

  /** `get_test_path(test)`: the last subject and course that hold the test, and the headings of
      every course that holds it, in tree order. The lookup fails when that subject or course is
      `None`, which is also the case when no course holds the test; a `NULL` text cell of the
      frame is read as `None`, so a holding course filed under a `NULL` name fails too. */
  function TestPath(t: Tree, test: string): (r: Result<LocalKeys>)
    ensures var last := LastPath(Hits(t, Text(test)));
      r.Err? <==> last.0 == Null || last.1 == Null
    ensures r.Err? ==> r.error == ValueError("Test '" + test + "' not found in subject tree.")
    ensures r.Ok? ==> Hits(t, Text(test)) != [] && (r.value.subject, r.value.course) == LastPath(Hits(t, Text(test)))
    ensures r.Ok? ==> r.value.testName == test
  {
    var hits := Hits(t, Text(test));
    var (subject, course) := LastPath(hits);
    if course == Null || subject == Null then Err(ValueError("Test '" + test + "' not found in subject tree."))
    else Ok(LocalKeys(subject, course, test, AllScores(hits), AllNames(hits)))
  }

  /** No subject and no course of the tree is filed under `None`. */
  predicate NamedTree(t: Tree) {
    forall i :: 0 <= i < |t| ==> t[i].0 != Null && NamedCourses(t[i].1)
  }

  predicate NamedCourses(courses: Courses) {
    forall j :: 0 <= j < |courses| ==> courses[j].0 != Null
  }

  predicate NamedHits(hits: seq<Hit>) {
    forall k :: 0 <= k < |hits| ==> hits[k].subject != Null && hits[k].course != Null
  }

  /** Where every subject and course has a name, the lookup fails exactly when no course holds
      the test. */
  lemma TestPathNamed(t: Tree, test: string)
    requires NamedTree(t)
    ensures TestPath(t, test).Err? <==> !TreeHolds(t, Text(test))
  {
    HitsNamed(t, Text(test));
    HitsIff(t, Text(test));
  }

  lemma {:induction false} HitsNamed(t: Tree, x: Cell)
    requires NamedTree(t)
    ensures NamedHits(Hits(t, x))
    decreases |t|
  {
    if t != [] {
      var init := t[..|t| - 1];
      assert NamedTree(init) by {
        forall i | 0 <= i < |init| ensures init[i].0 != Null && NamedCourses(init[i].1) {
          assert init[i] == t[i];
        }
      }
      HitsNamed(init, x);
      CourseHitsNamed(t[|t| - 1].0, t[|t| - 1].1, x);
    }
  }

  lemma {:induction false} CourseHitsNamed(s: Cell, courses: Courses, x: Cell)
    requires s != Null && NamedCourses(courses)
    ensures NamedHits(CourseHits(s, courses, x))
    decreases |courses|
  {
    if courses != [] {
      var init := courses[..|courses| - 1];
      assert NamedCourses(init) by {
        forall j | 0 <= j < |init| ensures init[j].0 != Null {
          assert init[j] == courses[j];
        }
      }
      CourseHitsNamed(s, init, x);
    }
  }

  /** A subject whose only course holding the test has no name: the test is held, yet the lookup
      fails. */
  lemma TestPathUnnamedCourse(test: string, goals: Goals)
    ensures var t: Tree := [(Text("Math"), [(Null, [(Text(test), goals)])])];
      TreeHolds(t, Text(test)) && TestPath(t, test).Err?
  {
    var t: Tree := [(Text("Math"), [(Null, [(Text(test), goals)])])];
    assert Has(t[0].1[0].1, Text(test));
    assert CourseHolds(t[0].1, Text(test));
    HitsIff(t, Text(test));
  }

  /** Some course of the subject holds the test. */
  predicate CourseHolds(courses: Courses, x: Cell) {
    exists j :: 0 <= j < |courses| && Has(courses[j].1, x)
  }

  /** Some course of some subject of the tree holds the test. */
  predicate TreeHolds(t: Tree, x: Cell) {
    exists i :: 0 <= i < |t| && CourseHolds(t[i].1, x)
  }

  /** A test is found exactly when some course of the tree holds it. */
  lemma {:induction false} HitsIff(t: Tree, x: Cell)
    ensures Hits(t, x) != [] <==> TreeHolds(t, x)
    decreases |t|
  {
    if t != [] {
      var init := t[..|t| - 1];
      HitsIff(init, x);
      CourseHitsIff(t[|t| - 1].0, t[|t| - 1].1, x);
      TreeHoldsSnoc(t, x);
    }
  }

  lemma TreeHoldsSnoc(t: Tree, x: Cell)
    requires t != []
    ensures TreeHolds(t, x) <==> TreeHolds(t[..|t| - 1], x) || CourseHolds(t[|t| - 1].1, x)
  {
    var init := t[..|t| - 1];
    if TreeHolds(init, x) {
      var i :| 0 <= i < |init| && CourseHolds(init[i].1, x);
      assert t[i] == init[i];
    }
    if TreeHolds(t, x) {
      var i :| 0 <= i < |t| && CourseHolds(t[i].1, x);
      if i < |init| {
        assert init[i] == t[i];
      }
    }
  }

  /** A subject's walk finds the test exactly when one of its courses holds it. */
  lemma {:induction false} CourseHitsIff(s: Cell, courses: Courses, x: Cell)
    ensures CourseHits(s, courses, x) != [] <==> CourseHolds(courses, x)
    decreases |courses|
  {
    if courses != [] {
      CourseHitsIff(s, courses[..|courses| - 1], x);
      CourseHoldsSnoc(courses, x);
    }
  }

  lemma CourseHoldsSnoc(courses: Courses, x: Cell)
    requires courses != []
    ensures CourseHolds(courses, x) <==> CourseHolds(courses[..|courses| - 1], x) || Has(courses[|courses| - 1].1, x)
  {
    var init := courses[..|courses| - 1];
    if CourseHolds(init, x) {
      var j :| 0 <= j < |init| && Has(init[j].1, x);
      assert courses[j] == init[j];
    }
    if CourseHolds(courses, x) {
      var j :| 0 <= j < |courses| && Has(courses[j].1, x);
      if j < |init| {
        assert init[j] == courses[j];
      }
    }
  }

  /** The headings of a goal list filed by one row: the score columns of the recorded goals, and
      the values of their names, goal by goal. */
  function RecordedScores(row: Record, cols: seq<string>, i: nat): seq<string>
    requires 1 <= i <= 8
    decreases 8 - i
  {
    if i == 8 then [] else (if Recorded(row, cols, i) then [GoalScore(i)] else []) + RecordedScores(row, cols, i + 1)
  }

  lemma {:induction false} ScoreKeysAppend(a: Goals, b: Goals)
    ensures ScoreKeys(a + b) == ScoreKeys(a) + ScoreKeys(b)
    decreases |b|
  {
    if b != [] {
      assert (a + b)[..|a + b| - 1] == a + b[..|b| - 1];
      ScoreKeysAppend(a, b[..|b| - 1]);
    } else {
      assert a + b == a;
    }
  }

  /** A goal's two entries contribute its score column alone. */
  lemma ScoreKeysOfPair(i: nat, name: Cell, score: Cell)
    requires 1 <= i <= 7
    ensures ScoreKeys([(GoalName(i), name), (GoalScore(i), score)]) == [GoalScore(i)]
  {
    var pair: Goals := [(GoalName(i), name), (GoalScore(i), score)];
    var n := GoalName(i);
    assert n[|n| - 8..][0] == 'o';
    assert !EndsWith(n, "RitScore");
    assert GoalScore(i)[|GoalScore(i)| - 8..] == "RitScore";
    assert pair[..1] == [pair[0]];
    assert [pair[0]][..0] == [];
    assert ScoreKeys([pair[0]]) == ScoreKeys([]) + [];
    assert ScoreKeys(pair) == ScoreKeys(pair[..1]) + [GoalScore(i)];
  }

  /** The score headings of a test filed by a row are the score columns of its recorded goals. */
  lemma {:induction false} GoalsFromScores(row: Record, cols: seq<string>, i: nat)
    requires 1 <= i <= 8
    requires GoalsFrom(row, cols, i).1.None?
    ensures ScoreKeys(GoalsFrom(row, cols, i).0) == RecordedScores(row, cols, i)
    decreases 8 - i
  {
    if i < 8 && Recorded(row, cols, i) {
      GoalsFromScores(row, cols, i + 1);
      var pair: Goals := [(GoalName(i), Get(row, GoalName(i))), (GoalScore(i), Get(row, GoalScore(i)))];
      ScoreKeysAppend(pair, GoalsFrom(row, cols, i + 1).0);
      ScoreKeysOfPair(i, Get(row, GoalName(i)), Get(row, GoalScore(i)));
    } else if i < 8 {
      GoalsFromScores(row, cols, i + 1);
    }
  }

  /** The subject tree of a frame. */
  class SubjectTree {
    var df: Option<Table>
    var tree: Tree

    constructor (df: Option<Table>)
      ensures this.df == df && tree == []
    {
      this.df := df;
      tree := [];
    }

    /** `set_subject_tree()`: the rows are filed in order into the tree as it stands. */
    method SetSubjectTree() returns (raised: Option<Error>)
      modifies this
      ensures df == old(df)
      ensures df.None? ==> raised == Some(ValueError("self.df not set yet.")) && tree == old(tree)
      ensures df.Some? ==> (tree, raised) == Build(old(tree), df.value.rows, df.value.columns)
    {
      if df.None? {
        return Some(ValueError("self.df not set yet."));
      }
      var rows, cols := df.value.rows, df.value.columns;
      var i := 0;
      while i < |rows|
        invariant 0 <= i <= |rows| && df == old(df)
        invariant Build(old(tree), rows, cols) == Build(tree, rows[i..], cols)
      {
        assert rows[i..][1..] == rows[i + 1..];
        var row := rows[i];
        if "Subject" !in cols { return Some(KeyError("Subject")); }
        if "Course" !in cols { return Some(KeyError("Course")); }
        if "TestName" !in cols { return Some(KeyError("TestName")); }
        var s, c, x := Get(row, "Subject"), Get(row, "Course"), Get(row, "TestName");
        if !HasTest(tree, s, c, x) {
          var goals, err := CollectGoals(row, cols);
          tree := AddTest(tree, s, c, x, goals);
          if err.Some? {
            return err;
          }
        }
        i := i + 1;
      }
      raised := None;
    }

    /** `get_subject_tree()`: the rows are filed again, and the tree returned. The source's check
        for a missing tree never fires: the tree starts as an empty dictionary. */
    method GetSubjectTree() returns (r: Result<Tree>)
      modifies this
      ensures df == old(df)
      ensures df.None? ==> r == Err(ValueError("self.df not set yet.")) && tree == old(tree)
      ensures df.Some? ==> tree == Build(old(tree), df.value.rows, df.value.columns).0
      ensures df.Some? ==> r == match Build(old(tree), df.value.rows, df.value.columns).1
        case None => Ok(tree)
        case Some(e) => Err(e)
    {
      var raised := SetSubjectTree();
      if raised.Some? {
        return Err(raised.value);
      }
      r := Ok(tree);
    }

    /** `get_test_path(test)`: subjects and courses are walked in order; each course that holds the
        test records its subject and course and adds its headings. */
    method GetTestPath(test: string) returns (r: Result<LocalKeys>)
      ensures r == TestPath(tree, test)
    {
      var x := Text(test);
      var scores: seq<string> := [];
      var names: seq<Cell> := [];
      var found: Option<(Cell, Cell)> := None;
      var i := 0;
      while i < |tree|
        invariant 0 <= i <= |tree|
        invariant HitsSoFar(Hits(tree[..i], x), scores, names, found)
      {
        ghost var before := Hits(tree[..i], x);
        var (subject, courses) := tree[i];
        var cs, cn, cf := CourseHeadings(subject, courses, x);
        HitsPrefix(tree, i, x);
        AllScoresAppend(before, CourseHits(subject, courses, x));
        AllNamesAppend(before, CourseHits(subject, courses, x));
        scores, names := scores + cs, names + cn;
        if cf.Some? {
          found := cf;
        }
        i := i + 1;
      }
      assert tree[..i] == tree;
      if found.None? || found.value.1 == Null || found.value.0 == Null {
        return Err(ValueError("Test '" + test + "' not found in subject tree."));
      }
      r := Ok(LocalKeys(found.value.0, found.value.1, test, scores, names));
    }
  }

  /** The walk's state after a stretch of hits: the headings of all of them, and the subject and
      course of the last one. */
  ghost predicate HitsSoFar(hits: seq<Hit>, scores: seq<string>, names: seq<Cell>, found: Option<(Cell, Cell)>) {
    && scores == AllScores(hits) && names == AllNames(hits)
    && (found.None? <==> hits == [])
    && (found.Some? ==> found.value == (hits[|hits| - 1].subject, hits[|hits| - 1].course))
  }

  /** The headings of one course's goal entries, in entry order. */
  method GoalHeadings(goals: Goals) returns (scores: seq<string>, names: seq<Cell>)
    ensures scores == ScoreKeys(goals) && names == NameValues(goals)
  {
    scores, names := [], [];
    var k := 0;
    while k < |goals|
      invariant 0 <= k <= |goals|
      invariant scores == ScoreKeys(goals[..k]) && names == NameValues(goals[..k])
    {
      assert goals[..k + 1][..k] == goals[..k];
      var (key, value) := goals[k];
      if EndsWith(key, "RitScore") {
        scores := scores + [key];
      } else if EndsWith(key, "Name") {
        names := names + [value];
      }
      k := k + 1;
    }
    assert goals[..k] == goals;
  }

  /** The walk over the courses of one subject. */
  method CourseHeadings(subject: Cell, courses: Courses, x: Cell) returns (scores: seq<string>, names: seq<Cell>, found: Option<(Cell, Cell)>)
    ensures HitsSoFar(CourseHits(subject, courses, x), scores, names, found)
  {
    scores, names, found := [], [], None;
    var j := 0;
    while j < |courses|
      invariant 0 <= j <= |courses|
      invariant HitsSoFar(CourseHits(subject, courses[..j], x), scores, names, found)
    {
      CourseStep(subject, courses, j, x, scores, names, found);
      if Has(courses[j].1, x) {
        var gs, gn := GoalHeadings(At(courses[j].1, x));
        scores, names, found := scores + gs, names + gn, Some((subject, courses[j].0));
      }
      j := j + 1;
    }
    assert courses[..j] == courses;
  }

  /** One turn of the course walk. */
  lemma CourseStep(subject: Cell, courses: Courses, j: nat, x: Cell, scores: seq<string>, names: seq<Cell>, found: Option<(Cell, Cell)>)
    requires j < |courses|
    requires HitsSoFar(CourseHits(subject, courses[..j], x), scores, names, found)
    ensures Has(courses[j].1, x) ==>
      var g := At(courses[j].1, x);
      HitsSoFar(CourseHits(subject, courses[..j + 1], x), scores + ScoreKeys(g), names + NameValues(g), Some((subject, courses[j].0)))
    ensures !Has(courses[j].1, x) ==> HitsSoFar(CourseHits(subject, courses[..j + 1], x), scores, names, found)
  {
    var prior := CourseHits(subject, courses[..j], x);
    CourseHitsStep(subject, courses, j, x);
    if Has(courses[j].1, x) {
      var hit := Hit(subject, courses[j].0, At(courses[j].1, x));
      assert CourseHits(subject, courses[..j + 1], x) == prior + [hit];
      HitsGrow(prior, hit);
    } else {
      assert prior + [] == prior;
    }
  }

  lemma CourseHitsStep(s: Cell, courses: Courses, j: nat, x: Cell)
    requires j < |courses|
    ensures CourseHits(s, courses[..j + 1], x)
      == CourseHits(s, courses[..j], x) + (if Has(courses[j].1, x) then [Hit(s, courses[j].0, At(courses[j].1, x))] else [])
  {
    assert courses[..j + 1][..j] == courses[..j];
  }

  /** One more hit adds its headings and becomes the last. */
  lemma HitsGrow(hits: seq<Hit>, hit: Hit)
    ensures AllScores(hits + [hit]) == AllScores(hits) + ScoreKeys(hit.goals)
    ensures AllNames(hits + [hit]) == AllNames(hits) + NameValues(hit.goals)
  {
    assert (hits + [hit])[..|hits + [hit]| - 1] == hits;
  }

  lemma HitsPrefix(t: Tree, i: nat, x: Cell)
    requires i < |t|
    ensures Hits(t[..i + 1], x) == Hits(t[..i], x) + CourseHits(t[i].0, t[i].1, x)
  {
    assert t[..i + 1][..i] == t[..i];
  }

  lemma {:induction false} AllScoresAppend(a: seq<Hit>, b: seq<Hit>)
    ensures AllScores(a + b) == AllScores(a) + AllScores(b)
    decreases |b|
  {
    if b != [] {
      assert (a + b)[..|a + b| - 1] == a + b[..|b| - 1];
      AllScoresAppend(a, b[..|b| - 1]);
    } else {
      assert a + b == a;
    }
  }

  lemma {:induction false} AllNamesAppend(a: seq<Hit>, b: seq<Hit>)
    ensures AllNames(a + b) == AllNames(a) + AllNames(b)
    decreases |b|
  {
    if b != [] {
      assert (a + b)[..|a + b| - 1] == a + b[..|b| - 1];
      AllNamesAppend(a, b[..|b| - 1]);
    } else {
      assert a + b == a;
    }
  }

  // ----- Test titles -----

  /** The short name and the full NWEA growth-test name of each test, in dictionary order. */
  const Titles: seq<(string, string)> := [
    ("Algebra 2", "Growth: Algebra 2 CCSS 2010"),
    ("Language Use", "Growth: Language 2-12 CCSS 2010 V2"),
    ("Math 2-5", "Growth: Math 2-5 CCSS 2010 V2"),
    ("Math 6+", "Growth: Math 6+ CCSS 2010 V2"),
    ("Math K-2", "Growth: Math K-2 CCSS 2010 V2"),
    ("Reading 2-5", "Growth: Reading 2-5 CCSS 2010 V4"),
    ("Reading 6+", "Growth: Reading 6+ CCSS 2010 V4"),
    ("Reading K-2", "Growth: Reading K-2 CCSS 2010"),
    ("Science 3-5", "Growth: Science 3-5: for use with NGSS 2013"),
    ("Science 6-8", "Growth: Science 6-8: for use with NGSS 2013"),
    ("Science 9-12 Life Science", "Growth: Science 9-12 Life Science: for use with NGSS 2013 1.1"),
    ("Science 9-12", "Growth: Science 9-12: for use with NGSS 2013")]

  /** The first entry, from `k` on, whose long title is `full`. */
  function ShortFrom(full: string, k: nat): (r: Option<string>)
    requires k <= |Titles|
    ensures r.Some? ==> exists i :: k <= i < |Titles| && Titles[i] == (r.value, full)
    ensures r.None? <==> forall i :: k <= i < |Titles| ==> Titles[i].1 != full
    decreases |Titles| - k
  {
    if k == |Titles| then None
    else if Titles[k].1 == full then Some(Titles[k].0)
    else ShortFrom(full, k + 1)
  }

  /** `get_short_title(full_title)`: the short name of a full title, or nothing. */
  function ShortTitle(full: string): (r: Option<string>)
    ensures r.Some? ==> exists i :: 0 <= i < |Titles| && Titles[i] == (r.value, full)
    ensures r.None? <==> forall i :: 0 <= i < |Titles| ==> Titles[i].1 != full
  {
    ShortFrom(full, 0)
  }

  function LongFrom(short: string, k: nat): (r: Option<string>)
    requires k <= |Titles|
    ensures r.Some? ==> exists i :: k <= i < |Titles| && Titles[i] == (short, r.value)
    ensures r.None? <==> forall i :: k <= i < |Titles| ==> Titles[i].0 != short
    decreases |Titles| - k
  {
    if k == |Titles| then None
    else if Titles[k].0 == short then Some(Titles[k].1)
    else LongFrom(short, k + 1)
  }

  /** `get_long_title(short_title)`: the full title of a short name; an unknown name raises. */
  function LongTitle(short: string): (r: Result<string>)
    ensures r.Ok? ==> exists i :: 0 <= i < |Titles| && Titles[i] == (short, r.value)
    ensures r.Err? <==> forall i :: 0 <= i < |Titles| ==> Titles[i].0 != short
    ensures r.Err? ==> r.error == ValueError("That title could not be found in the dictionary.")
  {
    match LongFrom(short, 0)
    case Some(l) => Ok(l)
    case None => Err(ValueError("That title could not be found in the dictionary."))
  }

  /** The twelve short names are distinct, and so are the twelve full titles. */
  lemma TitlesDistinct()
    ensures forall i, j :: 0 <= i < j < |Titles| ==> Titles[i].0 != Titles[j].0 && Titles[i].1 != Titles[j].1
  {
  }

  /** Every short name survives the trip to its full title and back. */
  lemma ShortOfLong(i: nat)
    requires i < |Titles|
    ensures LongTitle(Titles[i].0) == Ok(Titles[i].1)
    ensures ShortTitle(Titles[i].1) == Some(Titles[i].0)
  {
    TitlesDistinct();
  }

  /** A full title that has a short name comes back from the round trip. */
  lemma LongOfShort(full: string)
    requires ShortTitle(full).Some?
    ensures LongTitle(ShortTitle(full).value) == Ok(full)
  {
    var i :| 0 <= i < |Titles| && Titles[i] == (ShortTitle(full).value, full);
    ShortOfLong(i);
  }
}
