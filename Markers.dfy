/** The pseudonym markers a model writes into its final answer, `{s{<hash>}}` for a student and
    `{t{<hash>}}` for a teacher, and the left-to-right scanner that finds them. The scanner plays
    the part of the regular expression `\{([st])\{(.*?)\}\}`: `.` does not match a line break and
    the lazy `.*?` stops at the first `}}`. The replace pass uses the same pattern without the
    groups, so `findall` and `sub` see the same markers. */
module Markers {
  import opened Outcome

  datatype Tag = Student | Teacher

  /** A marker: its tag letter and the pseudonym between the inner braces. */
  datatype Marker = Marker(tag: Tag, key: string)

  /** The scanned text: single characters outside markers, and whole markers. */
  datatype Piece = Lit(c: char) | Mark(m: Marker)

  function TagChar(t: Tag): char {
    match t
    case Student => 's'
    case Teacher => 't'
  }

  /** The literal text of a marker, as the regular expression's match group 0 sees it. */
  function MarkerText(m: Marker): string {
    "{" + [TagChar(m.tag)] + "{" + m.key + "}}"
  }

  /** Where the lazy `(.*?)\}\}` starting at `k` ends: the first `}}` at or after `k`, provided no
      line break comes before it. */
  function KeyEnd(s: string, k: nat): (r: Option<nat>)
    requires k <= |s|
    ensures r.Some? ==> k <= r.value && r.value + 2 <= |s| && s[r.value] == '}' && s[r.value + 1] == '}'
    ensures r.Some? ==> forall x :: k <= x < r.value ==> s[x] != '\n' && !(s[x] == '}' && s[x + 1] == '}')
    decreases |s| - k
  {
    if k + 2 <= |s| && s[k] == '}' && s[k + 1] == '}' then Some(k)
    else if k < |s| && s[k] != '\n' then KeyEnd(s, k + 1)
    else None
  }

  /** The marker that starts at the front of `s`, with the length of its text, if there is one. */
  function MatchAt(s: string): (r: Option<(Marker, nat)>)
    ensures r.Some? ==> 5 <= r.value.1 <= |s| && s[..r.value.1] == MarkerText(r.value.0)
  {
    if |s| >= 3 && s[0] == '{' && (s[1] == 's' || s[1] == 't') && s[2] == '{' then
      match KeyEnd(s, 3)
      case None => None
      case Some(e) =>
        var m := Marker(if s[1] == 's' then Student else Teacher, s[3..e]);
        assert s[..e + 2] == "{" + [TagChar(m.tag)] + "{" + m.key + "}}";
        Some((m, e + 2))
    else None
  }

  /** The left-to-right, non-overlapping scan: when no marker starts here the scan moves on by one
      character, as a regular-expression search does. */
  function Scan(s: string): seq<Piece>
    decreases |s|
  {
    if s == [] then []
    else
      match MatchAt(s)
      case Some((m, n)) => [Mark(m)] + Scan(s[n..])
      case None => [Lit(s[0])] + Scan(s[1..])
  }

  function PieceText(p: Piece): string {
    match p
    case Lit(c) => [c]
    case Mark(m) => MarkerText(m)
  }

  /** The text the pieces spell out. */
  function Render(ps: seq<Piece>): string
    decreases |ps|
  {
    if ps == [] then "" else PieceText(ps[0]) + Render(ps[1..])
  }

  /** The markers among the pieces, in order: what `re.findall` returns. */
  function MarkersOf(ps: seq<Piece>): seq<Marker>
    decreases |ps|
  {
    if ps == [] then []
    else if ps[0].Mark? then [ps[0].m] + MarkersOf(ps[1..])
    else MarkersOf(ps[1..])
  }

  /** The markers `re.findall` finds in a text. */
  function FindAll(s: string): seq<Marker> {
    MarkersOf(Scan(s))
  }

  /** Scanning loses nothing: the pieces spell out the scanned text. */
  lemma {:induction false} RenderScan(s: string)
    ensures Render(Scan(s)) == s
    decreases |s|, 1
  {
    if s != [] {
      var hit := MatchAt(s);
      if hit.Some? {
        RenderScanMark(s, hit.value.0, hit.value.1);
      } else {
        RenderScanLit(s);
      }
    }
  }

  /** `RenderScan` when a marker starts the text. */
  lemma {:induction false} RenderScanMark(s: string, m: Marker, n: nat)
    requires s != [] && MatchAt(s) == Some((m, n))
    ensures Render(Scan(s)) == s
    decreases |s|, 0
  {
    ScanAtMark(s, m, n);
    RenderScan(s[n..]);
    RenderCons(Mark(m), Scan(s[n..]));
  }

  /** A text that starts with a marker: its scan, and the marker's text followed by the rest. */
  lemma ScanAtMark(s: string, m: Marker, n: nat)
    requires s != [] && MatchAt(s) == Some((m, n))
    ensures Scan(s) == [Mark(m)] + Scan(s[n..])
    ensures s == MarkerText(m) + s[n..]
  {
    assert s == s[..n] + s[n..];
  }

  /** `RenderScan` when no marker starts the text. */
  lemma {:induction false} RenderScanLit(s: string)
    requires s != [] && MatchAt(s).None?
    ensures Render(Scan(s)) == s
    decreases |s|, 0
  {
    ScanAtLit(s);
    RenderScan(s[1..]);
    RenderCons(Lit(s[0]), Scan(s[1..]));
  }

  /** A text that starts with no marker: its scan, and its first character followed by the rest. */
  lemma ScanAtLit(s: string)
    requires s != [] && MatchAt(s).None?
    ensures Scan(s) == [Lit(s[0])] + Scan(s[1..])
    ensures s == PieceText(Lit(s[0])) + s[1..]
  {
    assert s == [s[0]] + s[1..];
  }

  /** The text of a piece followed by more pieces. */
  lemma RenderCons(p: Piece, ps: seq<Piece>)
    ensures Render([p] + ps) == PieceText(p) + Render(ps)
  {
    assert ([p] + ps)[1..] == ps;
  }

  /** A pseudonym the scanner reads back whole: no brace closes it early and no line break stops it. */
  predicate GoodKey(key: string) {
    '}' !in key && '\n' !in key
  }

  /** The lazy key match runs to the end of a good key. */
  lemma {:induction false} KeyEndOfGoodKey(s: string, start: nat, k: nat, len: nat)
    requires start <= k <= start + len && start + len + 2 <= |s|
    requires GoodKey(s[start..start + len]) && s[start + len] == '}' && s[start + len + 1] == '}'
    ensures KeyEnd(s, k) == Some(start + len)
    decreases start + len - k
  {
    if k < start + len {
      assert s[k] == s[start..start + len][k - start];
      KeyEndOfGoodKey(s, start, k + 1, len);
    }
  }

  /** A marker with a good key at the front of a text is matched whole. */
  lemma MatchMarker(m: Marker, rest: string)
    requires GoodKey(m.key)
    ensures MatchAt(MarkerText(m) + rest) == Some((m, |MarkerText(m)|))
  {
    var s := MarkerText(m) + rest;
    var len := |m.key|;
    assert s[3..3 + len] == m.key;
    assert s[3 + len] == '}' && s[3 + len + 1] == '}';
    KeyEndOfGoodKey(s, 3, 3, len);
    assert s[3..3 + len] == m.key;
  }

  /** Text that holds no `{` is scanned as characters, whatever follows it. */
  lemma {:induction false} ScanPlain(g: string, rest: string)
    requires '{' !in g
    ensures Scan(g + rest) == Lits(g) + Scan(rest)
    decreases |g|
  {
    if g != [] {
      var s := g + rest;
      assert s[0] == g[0];
      assert s[1..] == g[1..] + rest;
      ScanPlain(g[1..], rest);
    } else {
      assert g + rest == rest;
    }
  }

  /** The characters of a text as pieces. */
  function Lits(g: string): (r: seq<Piece>)
    ensures |r| == |g| && MarkersOf(r) == []
    decreases |g|
  {
    if g == [] then [] else [Lit(g[0])] + Lits(g[1..])
  }

  /** A text laid out as gaps with a marker between each pair of neighbouring gaps. */
  function Template(gaps: seq<string>, fills: seq<string>): string
    requires |gaps| == |fills| + 1
    decreases |fills|
  {
    if fills == [] then gaps[0] else gaps[0] + fills[0] + Template(gaps[1..], fills[1..])
  }

  function Texts(ms: seq<Marker>): (r: seq<string>)
    ensures |r| == |ms|
  {
    seq(|ms|, i requires 0 <= i < |ms| => MarkerText(ms[i]))
  }

  /** `findall` on a text built from brace-free gaps and markers with good keys returns exactly
      those markers, in order. */
  lemma {:induction false} FindAllTemplate(gaps: seq<string>, ms: seq<Marker>)
    requires |gaps| == |ms| + 1
    requires forall k :: 0 <= k < |gaps| ==> '{' !in gaps[k]
    requires forall k :: 0 <= k < |ms| ==> GoodKey(ms[k].key)
    ensures FindAll(Template(gaps, Texts(ms))) == ms
    decreases |ms|
  {
    var fills := Texts(ms);
    if ms == [] {
      ScanPlain(gaps[0], "");
      assert gaps[0] + "" == gaps[0];
      MarkersAppend(Lits(gaps[0]), []);
    } else {
      var tail := Template(gaps[1..], fills[1..]);
      assert fills[1..] == Texts(ms[1..]);
      FindAllTemplate(gaps[1..], ms[1..]);
      assert Template(gaps, fills) == gaps[0] + (MarkerText(ms[0]) + tail);
      ScanPlain(gaps[0], MarkerText(ms[0]) + tail);
      ScanMarker(ms[0], tail);
      MarkersAppend(Lits(gaps[0]), [Mark(ms[0])] + Scan(tail));
      MarkersAppend([Mark(ms[0])], Scan(tail));
      assert MarkersOf([Mark(ms[0])]) == [ms[0]];
      assert ms == [ms[0]] + ms[1..];
    }
  }

  /** A marker with a good key is scanned as one piece, whatever follows it. */
  lemma ScanMarker(m: Marker, tail: string)
    requires GoodKey(m.key)
    ensures Scan(MarkerText(m) + tail) == [Mark(m)] + Scan(tail)
  {
    var s := MarkerText(m) + tail;
    MatchMarker(m, tail);
    assert s[|MarkerText(m)|..] == tail;
  }

  lemma {:induction false} MarkersAppend(a: seq<Piece>, b: seq<Piece>)
    ensures MarkersOf(a + b) == MarkersOf(a) + MarkersOf(b)
    decreases |a|
  {
    if a == [] {
      assert a + b == b;
    } else {
      assert (a + b)[1..] == a[1..] + b;
      MarkersAppend(a[1..], b);
    }
  }

  /** The pseudonym in the answer the repository's tool test resolves. */
  const ToolTestKey: string := "9cac56fc06fe0ae3" + "72ea3e19644f0f54" + "0333b64de60fb16e" + "d2ca1b794ae29b18"

  /** That test's answer: one student marker followed by plain text. */
  const ToolTestAnswer: string := "{s{" + ToolTestKey + "}} is doing great."

  /** A single marker followed by brace-free text is all `findall` finds. */
  lemma SingleMarker(m: Marker, tail: string)
    requires GoodKey(m.key) && '{' !in tail
    ensures FindAll(MarkerText(m) + tail) == [m]
  {
    var s := MarkerText(m) + tail;
    MatchMarker(m, tail);
    assert s[|MarkerText(m)|..] == tail;
    ScanPlain(tail, "");
    assert tail + "" == tail;
    MarkersAppend(Lits(tail), []);
  }

  /** The test's pseudonym is a good key. */
  lemma ToolTestKeyGood()
    ensures GoodKey(ToolTestKey)
  {
    assert '}' !in "9cac56fc06fe0ae3" && '}' !in "72ea3e19644f0f54";
    assert '}' !in "0333b64de60fb16e" && '}' !in "d2ca1b794ae29b18";
  }

  /** The test's answer is the marker's text followed by brace-free text. */
  lemma ToolTestAnswerShape()
    ensures ToolTestAnswer == MarkerText(Marker(Student, ToolTestKey)) + " is doing great."
  {
    var k := ToolTestKey;
    assert "{" + [TagChar(Student)] + "{" == "{s{";
    assert MarkerText(Marker(Student, k)) == "{s{" + k + "}}";
  }

  /** The tool test's answer holds exactly one marker, the student one. */
  lemma ToolTestMarker()
    ensures FindAll(ToolTestAnswer) == [Marker(Student, ToolTestKey)]
  {
    ToolTestKeyGood();
    ToolTestAnswerShape();
    SingleMarker(Marker(Student, ToolTestKey), " is doing great.");
  }
}
