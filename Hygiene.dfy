/** Text clean-up the tools apply before a query goes to SQLite and before schema text goes back to
    the language model, and the comma-joined column list of a table. */
module Hygiene {
  import opened PyText
  import opened Outcome
  import opened SeqFacts

  /** The two-character sequence backslash, `n` that a model writes in place of a line break. */
  const EscapedNewline: string := "\\n"

  /** The query-cleaning chain: an escaped newline becomes a space, real newlines are removed,
      backslashes are removed, then surrounding white space is stripped. */
  function CleanQuery(q: string): (r: string)
    ensures '\n' !in r && '\\' !in r
    ensures forall c :: c in r ==> c in q || c == ' '
  {
    var a := Replace(q, EscapedNewline, " ");
    var b := Replace(a, "\n", "");
    var c := Replace(b, "\\", "");
    ReplaceChars(q, EscapedNewline, " ");
    ReplaceDeletesChar(a, '\n');
    ReplaceDeletesChar(b, '\\');
    StripSpec(c);
    Strip(c)
  }

  /** A cleaned query is left as it is by a second cleaning. */
  lemma CleanQueryIdempotent(q: string)
    ensures CleanQuery(CleanQuery(q)) == CleanQuery(q)
  {
    var r := CleanQuery(q);
    ReplaceNoOccurrence(r, EscapedNewline, " ");
    ReplaceNoOccurrence(r, "\n", "");
    ReplaceNoOccurrence(r, "\\", "");
    StripIdempotent(Replace(Replace(Replace(q, EscapedNewline, " "), "\n", ""), "\\", ""));
  }

  /** A prefix that cannot start an occurrence of `pat` passes through `replace` unchanged. */
  lemma {:induction false} ReplaceAfterPlain(a: string, t: string, pat: string, rep: string)
    requires |pat| > 0 && pat[0] !in a
    ensures Replace(a + t, pat, rep) == a + Replace(t, pat, rep)
    decreases |a|
  {
    if a != [] {
      var s := a + t;
      if |s| >= |pat| {
        assert s[..|pat|][0] == a[0];
      }
      assert s[1..] == a[1..] + t;
      ReplaceAfterPlain(a[1..], t, pat, rep);
      assert [a[0]] + (a[1..] + Replace(t, pat, rep)) == a + Replace(t, pat, rep);
    } else {
      assert a + t == t;
    }
  }

  /** Python's `replace` on a string that starts with the pattern. */
  lemma ReplaceAtFront(t: string, pat: string, rep: string)
    requires |pat| > 0
    ensures Replace(pat + t, pat, rep) == rep + Replace(t, pat, rep)
  {
    var s := pat + t;
    assert s[..|pat|] == pat;
    assert s[|pat|..] == t;
  }

  /** A string with no backslash and no line break. */
  predicate Plain(s: string) {
    '\\' !in s && '\n' !in s
  }

  /** Two plain lines joined by an escaped newline are cleaned into one line joined by a space. */
  lemma CleanQueryJoinsLines(a: string, b: string)
    requires Plain(a) && Plain(b)
    ensures CleanQuery(a + EscapedNewline + b) == Strip(a + " " + b)
  {
    var q := a + EscapedNewline + b;
    assert q == a + (EscapedNewline + b);
    ReplaceAfterPlain(a, EscapedNewline + b, EscapedNewline, " ");
    ReplaceAtFront(b, EscapedNewline, " ");
    ReplaceNoOccurrence(b, EscapedNewline, " ");
    assert Replace(q, EscapedNewline, " ") == a + " " + b;
    ReplaceNoOccurrence(a + " " + b, "\n", "");
    ReplaceNoOccurrence(a + " " + b, "\\", "");
  }

  /** A plain query is only stripped. */
  lemma CleanQueryPlain(q: string)
    requires Plain(q)
    ensures CleanQuery(q) == Strip(q)
  {
    ReplaceNoOccurrence(q, EscapedNewline, " ");
    ReplaceNoOccurrence(q, "\n", "");
    ReplaceNoOccurrence(q, "\\", "");
  }

  /** The schema-cleaning chain: an escaped newline becomes a real one, backslashes are removed,
      then surrounding white space is stripped. */
  function CleanSchemaEntry(sql: string): string {
    Strip(Replace(Replace(sql, EscapedNewline, "\n"), "\\", ""))
  }

  /** A cleaned schema entry holds no backslash, and no character that was not in the entry
      except line breaks. */
  lemma CleanSchemaEntryChars(sql: string)
    ensures '\\' !in CleanSchemaEntry(sql)
    ensures forall c :: c in CleanSchemaEntry(sql) ==> c in sql || c == '\n'
  {
    var a := Replace(sql, EscapedNewline, "\n");
    ReplaceChars(sql, EscapedNewline, "\n");
    ReplaceDeletesChar(a, '\\');
    StripSpec(Replace(a, "\\", ""));
  }

  /** Cleaning a cleaned schema entry changes nothing. */
  lemma CleanSchemaEntryIdempotent(sql: string)
    ensures CleanSchemaEntry(CleanSchemaEntry(sql)) == CleanSchemaEntry(sql)
  {
    var r := CleanSchemaEntry(sql);
    CleanSchemaEntryChars(sql);
    ReplaceNoOccurrence(r, EscapedNewline, "\n");
    ReplaceNoOccurrence(r, "\\", "");
    StripIdempotent(Replace(Replace(sql, EscapedNewline, "\n"), "\\", ""));
  }

  /** Two plain lines joined by an escaped newline come out as two real lines. */
  lemma CleanSchemaSplitsLines(a: string, b: string)
    requires Plain(a) && Plain(b)
    ensures CleanSchemaEntry(a + EscapedNewline + b) == Strip(a + "\n" + b)
  {
    var q := a + EscapedNewline + b;
    assert q == a + (EscapedNewline + b);
    ReplaceAfterPlain(a, EscapedNewline + b, EscapedNewline, "\n");
    ReplaceAtFront(b, EscapedNewline, "\n");
    ReplaceNoOccurrence(b, EscapedNewline, "\n");
    assert Replace(q, EscapedNewline, "\n") == a + "\n" + b;
    ReplaceNoOccurrence(a + "\n" + b, "\\", "");
  }

  /** Python's truthiness of a `sqlite_master.sql` value: neither NULL nor the empty string. */
  predicate Truthy(sql: Option<string>) {
    sql.Some? && sql.value != ""
  }

  /** No entry of `sqlite_master` is truthy. */
  predicate NoneTruthy(entries: seq<Option<string>>) {
    forall k :: 0 <= k < |entries| ==> !Truthy(entries[k])
  }

  /** The cleaned schema entries, in `sqlite_master` order, of the entries that are truthy. */
  function SchemaDigest(entries: seq<Option<string>>): seq<string>
    decreases |entries|
  {
    if entries == [] then [] else Digested(entries[0]) + SchemaDigest(entries[1..])
  }

  /** The digest is empty exactly when no entry is truthy. */
  lemma {:induction false} SchemaDigestEmpty(entries: seq<Option<string>>)
    ensures SchemaDigest(entries) == [] <==> NoneTruthy(entries)
    decreases |entries|
  {
    if entries != [] {
      SchemaDigestEmpty(entries[1..]);
      assert forall k :: 1 <= k < |entries| ==> entries[k] == entries[1..][k - 1];
    }
  }

  /** What one entry adds to the digest. */
  function Digested(e: Option<string>): (r: seq<string>)
    ensures |r| <= 1 && (r == [] <==> !Truthy(e))
  {
    if Truthy(e) then [CleanSchemaEntry(e.value)] else []
  }

  /** The digest of a concatenation is the concatenation of the digests: entries are handled one
      at a time, in order. */
  lemma {:induction false} SchemaDigestAppend(a: seq<Option<string>>, b: seq<Option<string>>)
    ensures SchemaDigest(a + b) == SchemaDigest(a) + SchemaDigest(b)
    decreases |a|
  {
    if a == [] {
      assert a + b == b;
    } else {
      var ab := a + b;
      assert ab[0] == a[0] && ab[1..] == a[1..] + b;
      SchemaDigestAppend(a[1..], b);
      AppendAssoc(Digested(a[0]), SchemaDigest(a[1..]), SchemaDigest(b));
    }
  }

  /** The text the schema loop leaves behind: the digest joined by blank lines, or nothing when no
      entry was truthy, in which case the loop never assigns it. */
  function SchemaText(entries: seq<Option<string>>): (r: Option<string>)
    ensures r.None? <==> NoneTruthy(entries)
  {
    var digest := SchemaDigest(entries);
    SchemaDigestEmpty(entries);
    if digest == [] then None else Some(Join("\n\n", digest))
  }

  /** A NULL or empty entry anywhere in `sqlite_master` leaves the schema text as it was without it. */
  lemma SchemaTextSkips(a: seq<Option<string>>, e: Option<string>, b: seq<Option<string>>)
    requires !Truthy(e)
    ensures SchemaText(a + [e] + b) == SchemaText(a + b)
  {
    SchemaDigestAppend(a + [e], b);
    SchemaDigestAppend(a, [e]);
    SchemaDigestAppend(a, b);
    assert [e][1..] == [];
    assert SchemaDigest(a) + [] == SchemaDigest(a);
  }

  /** A schema with a single truthy entry reads as that entry, cleaned. */
  lemma SchemaTextSingle(e: string)
    requires e != ""
    ensures SchemaText([Some(e)]) == Some(CleanSchemaEntry(e))
  {
    DigestOne(Some(e));
  }

  /** The digest of a single entry is what that entry adds. */
  lemma DigestOne(e: Option<string>)
    ensures SchemaDigest([e]) == Digested(e)
  {
    assert [e][1..] == [];
  }

  /** One more entry adds what it digests to, and leaves the text as it was when it adds nothing. */
  lemma DigestStep(entries: seq<Option<string>>, i: nat)
    requires i < |entries|
    ensures SchemaDigest(entries[..i + 1]) == SchemaDigest(entries[..i]) + Digested(entries[i])
    ensures !Truthy(entries[i]) ==> SchemaText(entries[..i + 1]) == SchemaText(entries[..i])
  {
    assert entries[..i + 1] == entries[..i] + [entries[i]];
    SchemaDigestAppend(entries[..i], [entries[i]]);
    DigestOne(entries[i]);
    if !Truthy(entries[i]) {
      AppendEmpty(SchemaDigest(entries[..i]));
    }
  }

  /** The loop every `get_schema` runs over the `sql` column of `sqlite_master`: truthy entries are
      cleaned and appended, and after each append the joined text is re-assigned. */
  method DigestSchema(entries: seq<Option<string>>) returns (digest: seq<string>, joined: Option<string>)
    ensures digest == SchemaDigest(entries)
    ensures joined == SchemaText(entries)
  {
    digest := [];
    joined := None;
    var i := 0;
    while i < |entries|
      invariant 0 <= i <= |entries|
      invariant digest == SchemaDigest(entries[..i])
      invariant joined == SchemaText(entries[..i])
    {
      DigestStep(entries, i);
      if Truthy(entries[i]) {
        digest := digest + [CleanSchemaEntry(entries[i].value)];
        joined := Some(Join("\n\n", digest));
      }
      i := i + 1;
    }
    assert entries[..i] == entries;
  }

  /** `", ".join(names)`: the column list `get_table_info` reports. */
  function ColumnList(names: seq<string>): string {
    Join(", ", names)
  }

  /** The column list splits back into the column names when no name holds a comma. */
  lemma ColumnListRoundTrip(names: seq<string>)
    requires |names| >= 1
    requires forall k :: 0 <= k < |names| ==> ',' !in names[k]
    ensures Split(ColumnList(names), ", ") == names
  {
    SplitJoin(names, ", ");
  }
}
