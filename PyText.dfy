/** The Python `str` operations the modelled code relies on: `in`, `replace`, `strip`, `join`,
    `split`, `endswith` and `str()` of an integer. */
module PyText {

  predicate StartsWith(s: string, prefix: string) {
    |prefix| <= |s| && s[..|prefix|] == prefix
  }

  predicate EndsWith(s: string, suffix: string) {
    |suffix| <= |s| && s[|s| - |suffix|..] == suffix
  }

  /** Python's `sub in s`. */
  predicate Contains(s: string, sub: string)
    decreases |s|
  {
    StartsWith(s, sub) || (|s| > 0 && Contains(s[1..], sub))
  }

  /** An occurrence at a known offset makes `sub in s` true. */
  lemma {:induction false} ContainsAt(s: string, sub: string, i: nat)
    requires i + |sub| <= |s| && s[i..i + |sub|] == sub
    ensures Contains(s, sub)
    decreases i
  {
    if i == 0 {
      assert s[..|sub|] == sub;
    } else {
      assert s[1..][i - 1..i - 1 + |sub|] == s[i..i + |sub|];
      ContainsAt(s[1..], sub, i - 1);
    }
  }

  /** `sub in s` finds an occurrence at some offset. */
  lemma {:induction false} ContainsWitness(s: string, sub: string) returns (i: nat)
    requires Contains(s, sub)
    ensures i + |sub| <= |s| && s[i..i + |sub|] == sub
    decreases |s|
  {
    if StartsWith(s, sub) {
      i := 0;
    } else {
      var j := ContainsWitness(s[1..], sub);
      i := j + 1;
      assert s[i..i + |sub|] == s[1..][j..j + |sub|];
    }
  }

  /** A string without the first character of `sub` does not contain `sub`. */
  lemma {:induction false} NotContainsWithoutFirstChar(s: string, sub: string)
    requires |sub| > 0 && sub[0] !in s
    ensures !Contains(s, sub)
    decreases |s|
  {
    if |sub| <= |s| {
      assert s[..|sub|][0] == s[0];
    }
    if |s| > 0 {
      NotContainsWithoutFirstChar(s[1..], sub);
    }
  }

  /** Python's `s.replace(pat, rep)`: a left-to-right scan replacing non-overlapping occurrences. */
  function Replace(s: string, pat: string, rep: string): string
    requires |pat| > 0
    decreases |s|
  {
    if |s| < |pat| then s
    else if s[..|pat|] == pat then rep + Replace(s[|pat|..], pat, rep)
    else [s[0]] + Replace(s[1..], pat, rep)
  }

  /** Replacing a one-character string by "" removes every copy of that character and keeps the rest. */
  lemma {:induction false} ReplaceDeletesChar(s: string, c: char)
    ensures c !in Replace(s, [c], "")
    ensures forall d :: d in Replace(s, [c], "") <==> d in s && d != c
    decreases |s|
  {
    if |s| >= 1 {
      ReplaceDeletesChar(s[1..], c);
      assert s == [s[0]] + s[1..];
    }
  }

  /** A character absent from the input and from the replacement is absent from the output. */
  lemma {:induction false} ReplaceKeepsAbsent(s: string, pat: string, rep: string, c: char)
    requires |pat| > 0 && c !in s && c !in rep
    ensures c !in Replace(s, pat, rep)
    decreases |s|
  {
    if |s| >= |pat| {
      if s[..|pat|] == pat {
        ReplaceKeepsAbsent(s[|pat|..], pat, rep, c);
      } else {
        ReplaceKeepsAbsent(s[1..], pat, rep, c);
      }
    }
  }

  /** Every character of the output comes from the input or from the replacement. */
  lemma {:induction false} ReplaceChars(s: string, pat: string, rep: string)
    requires |pat| > 0
    ensures forall d :: d in Replace(s, pat, rep) ==> d in s || d in rep
    decreases |s|
  {
    if |s| >= |pat| {
      if s[..|pat|] == pat {
        ReplaceChars(s[|pat|..], pat, rep);
      } else {
        ReplaceChars(s[1..], pat, rep);
      }
    }
  }

  /** A string that cannot start an occurrence of `pat` is left as it is. */
  lemma {:induction false} ReplaceNoOccurrence(s: string, pat: string, rep: string)
    requires |pat| > 0 && pat[0] !in s
    ensures Replace(s, pat, rep) == s
    decreases |s|
  {
    if |s| >= |pat| {
      assert s[..|pat|][0] == s[0];
      ReplaceNoOccurrence(s[1..], pat, rep);
      assert s == [s[0]] + s[1..];
    }
  }

  /** Python's `str.isspace()` for one character: the ASCII and Unicode white space `strip()` removes. */
  predicate IsSpace(c: char) {
    c == ' ' || ('\t' <= c <= '\r') || ('\U{1c}' <= c <= '\U{1f}') || c == '\U{85}' || c == '\U{a0}'
    || c == '\U{1680}' || ('\U{2000}' <= c <= '\U{200a}') || c == '\U{2028}' || c == '\U{2029}'
    || c == '\U{202f}' || c == '\U{205f}' || c == '\U{3000}'
  }

  /** Python's `s.strip()`: leading white space is removed, then trailing white space. */
  function Strip(s: string): string
    decreases |s|
  {
    if s != [] && IsSpace(s[0]) then Strip(s[1..])
    else if s != [] && IsSpace(s[|s| - 1]) then Strip(s[..|s| - 1])
    else s
  }

  /** A stripped string starts and ends with a character that is not white space, and holds
      only characters of the original. */
  lemma {:induction false} StripSpec(s: string)
    ensures var r := Strip(s);
      && (r == [] || (!IsSpace(r[0]) && !IsSpace(r[|r| - 1])))
      && forall c :: c in r ==> c in s
    decreases |s|
  {
    if s != [] && IsSpace(s[0]) {
      StripSpec(s[1..]);
      SliceChars(s, 1, |s|);
    } else if s != [] && IsSpace(s[|s| - 1]) {
      StripSpec(s[..|s| - 1]);
      SliceChars(s, 0, |s| - 1);
    }
  }

  /** `s[i..j]` lies between white space only. */
  predicate SpaceAround(s: string, i: int, j: int) {
    && 0 <= i <= j <= |s|
    && (forall k :: 0 <= k < i ==> IsSpace(s[k]))
    && (forall k :: j <= k < |s| ==> IsSpace(s[k]))
  }

  /** The strip is a slice between the leading and the trailing white space. */
  lemma {:induction false} StripSlice(s: string)
    ensures exists i, j :: SpaceAround(s, i, j) && Strip(s) == s[i..j]
    decreases |s|
  {
    if s != [] && IsSpace(s[0]) {
      StripSlice(s[1..]);
      var i, j :| SpaceAround(s[1..], i, j) && Strip(s[1..]) == s[1..][i..j];
      SpaceAroundFront(s, i, j);
    } else if s != [] && IsSpace(s[|s| - 1]) {
      StripSlice(s[..|s| - 1]);
      var i, j :| SpaceAround(s[..|s| - 1], i, j) && Strip(s[..|s| - 1]) == s[..|s| - 1][i..j];
      SpaceAroundBack(s, i, j);
    } else {
      assert SpaceAround(s, 0, |s|) && Strip(s) == s[0..|s|];
    }
  }

  lemma SpaceAroundFront(s: string, i: int, j: int)
    requires s != [] && IsSpace(s[0]) && SpaceAround(s[1..], i, j)
    ensures SpaceAround(s, i + 1, j + 1) && s[1..][i..j] == s[i + 1..j + 1]
  {
    assert forall k :: 1 <= k < |s| ==> s[k] == s[1..][k - 1];
  }

  lemma SpaceAroundBack(s: string, i: int, j: int)
    requires s != [] && IsSpace(s[|s| - 1]) && SpaceAround(s[..|s| - 1], i, j)
    ensures SpaceAround(s, i, j) && s[..|s| - 1][i..j] == s[i..j]
  {
    assert forall k :: 0 <= k < |s| - 1 ==> s[k] == s[..|s| - 1][k];
  }

  /** A string with no white space at either end is its own strip. */
  lemma StripTrimmed(s: string)
    requires s == [] || (!IsSpace(s[0]) && !IsSpace(s[|s| - 1]))
    ensures Strip(s) == s
  {
  }

  /** Stripping twice is stripping once. */
  lemma StripIdempotent(s: string)
    ensures Strip(Strip(s)) == Strip(s)
  {
    StripSpec(s);
    StripTrimmed(Strip(s));
  }

  /** A slice holds only characters of the whole. */
  lemma SliceChars(s: string, i: nat, j: nat)
    requires i <= j <= |s|
    ensures forall c :: c in s[i..j] ==> c in s
  {
    forall c | c in s[i..j]
      ensures c in s
    {
      var k :| 0 <= k < j - i && s[i..j][k] == c;
      assert s[i + k] == c;
    }
  }

  /** Python's `sep.join(parts)`. */
  function Join(sep: string, parts: seq<string>): string
    decreases |parts|
  {
    if parts == [] then ""
    else if |parts| == 1 then parts[0]
    else parts[0] + sep + Join(sep, parts[1..])
  }

  /** Python's `s.split(sep)` for a non-empty separator. */
  function Split(s: string, sep: string): (r: seq<string>)
    requires |sep| > 0
    ensures |r| >= 1
    decreases |s|
  {
    if |s| < |sep| then [s]
    else if s[..|sep|] == sep then [""] + Split(s[|sep|..], sep)
    else
      var rest := Split(s[1..], sep);
      [[s[0]] + rest[0]] + rest[1..]
  }

  /** A leading piece that cannot start a separator is glued to the first field of what follows. */
  lemma {:induction false} SplitPrefix(p: string, rest: string, sep: string)
    requires |sep| > 0 && sep[0] !in p
    ensures Split(p + rest, sep) == [p + Split(rest, sep)[0]] + Split(rest, sep)[1..]
    decreases |p|
  {
    if p != [] {
      var s := p + rest;
      assert s[1..] == p[1..] + rest;
      if |s| >= |sep| {
        assert s[..|sep|][0] == p[0];
      }
      SplitPrefix(p[1..], rest, sep);
      assert [p[0]] + (p[1..] + Split(rest, sep)[0]) == p + Split(rest, sep)[0];
    } else {
      var r := Split(rest, sep);
      assert p + rest == rest;
      assert p + r[0] == r[0];
      assert r == [r[0]] + r[1..];
    }
  }

  /** Splitting a join on its separator gives the parts back when no part contains the separator's first character. */
  lemma {:induction false} SplitJoin(parts: seq<string>, sep: string)
    requires |sep| > 0 && |parts| >= 1
    requires forall k :: 0 <= k < |parts| ==> sep[0] !in parts[k]
    ensures Split(Join(sep, parts), sep) == parts
    decreases |parts|
  {
    if |parts| == 1 {
      SplitPrefix(parts[0], "", sep);
      assert parts[0] + "" == parts[0];
    } else {
      var tail := Join(sep, parts[1..]);
      SplitJoin(parts[1..], sep);
      assert parts[0] + sep + tail == parts[0] + (sep + tail);
      SplitPrefix(parts[0], sep + tail, sep);
      assert (sep + tail)[..|sep|] == sep;
      assert (sep + tail)[|sep|..] == tail;
      assert Split(sep + tail, sep) == [""] + parts[1..];
      assert parts[0] + "" == parts[0];
      assert parts == [parts[0]] + parts[1..];
    }
  }

  function DigitChar(d: nat): char
    requires d < 10
  {
    "0123456789"[d]
  }

  function NatToString(n: nat): string
    decreases n
  {
    if n < 10 then [DigitChar(n)] else NatToString(n / 10) + [DigitChar(n % 10)]
  }

  /** Python's `str(i)` for an integer. */
  function IntToString(i: int): string {
    if i < 0 then "-" + NatToString(-i) else NatToString(i)
  }

  /** One byte as Python spells it inside a `bytes` literal delimited by `quote`: the delimiter
      and the backslash escaped, tab, line feed and carriage return by name, other bytes outside
      printable ASCII in hexadecimal, and the rest as themselves. */
  function ByteRepr(b: bv8, quote: char): string
    requires quote == '\'' || quote == '"'
  {
    if b as int == quote as int || b == 0x5c then ['\\', (b as int) as char]
    else if b == 0x09 then "\\t"
    else if b == 0x0a then "\\n"
    else if b == 0x0d then "\\r"
    else if b < 0x20 || b >= 0x7f then "\\x" + ["0123456789abcdef"[b as int / 16], "0123456789abcdef"[b as int % 16]]
    else [(b as int) as char]
  }

  function BytesBody(bs: seq<bv8>, quote: char): string
    requires quote == '\'' || quote == '"'
    decreases |bs|
  {
    if bs == [] then "" else ByteRepr(bs[0], quote) + BytesBody(bs[1..], quote)
  }

  /** Python's `str()` of a `bytes` value: `b`, then single quotes unless the bytes hold a single
      quote and no double quote. */
  function BytesRepr(bs: seq<bv8>): (r: string)
    ensures |r| >= 3 && r[0] == 'b' && r[1] == r[|r| - 1]
  {
    var quote := if 0x27 in bs && 0x22 !in bs then '"' else '\'';
    "b" + [quote] + BytesBody(bs, quote) + [quote]
  }
}
