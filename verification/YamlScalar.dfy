/**
 One line of a project file's frontmatter (devboule-mcp/src/project_file.rs): quoting, unquoting, and
 exactly which values survive being written and read again.
 */
module YamlScalar {
  import opened Results
  import opened Text

  datatype Field = Field(key: string, value: string)

  // ----- quoting

  function YamlQuote(value: string): string {
    "\"" + Replace(Replace(value, "\\", "\\\\"), "\"", "\\\"") + "\""
  }

  predicate WrappedIn(v: string, q: char) {
    |v| >= 2 && v[0] == q && v[|v| - 1] == q
  }

  function Unquote(v: string): string {
    if WrappedIn(v, '"') then Replace(Replace(v[1..|v| - 1], "\\\"", "\""), "\\\\", "\\")
    else if WrappedIn(v, '\'') then Replace(v[1..|v| - 1], "''", "'")
    else v
  }

  /** What the two replaces of `yaml_quote` do to each character. */
  function Escape(s: string): string {
    if s == [] then []
    else (if s[0] == '\\' then "\\\\" else if s[0] == '"' then "\\\"" else [s[0]]) + Escape(s[1..])
  }

  /** The same with only the backslashes doubled: the text between the two replaces of the reader. */
  function EscapeBackslashes(s: string): string {
    if s == [] then [] else (if s[0] == '\\' then "\\\\" else [s[0]]) + EscapeBackslashes(s[1..])
  }

  lemma {:induction false} BackslashesDoubled(s: string)
    ensures Replace(s, "\\", "\\\\") == EscapeBackslashes(s)
  {
    if s != [] {
      BackslashesDoubled(s[1..]);
      assert s[..1] == [s[0]];
    }
  }

  lemma {:induction false} QuotesEscaped(s: string)
    ensures Replace(EscapeBackslashes(s), "\"", "\\\"") == Escape(s)
  {
    if s != [] {
      QuotesEscaped(s[1..]);
      var e := EscapeBackslashes(s);
      assert e[..1] == [e[0]];
      if s[0] == '\\' {
        assert e[1..] == "\\" + EscapeBackslashes(s[1..]);
        assert e[1..][1..] == EscapeBackslashes(s[1..]);
        assert e[1..][..1] == "\\";
      } else {
        assert e[1..] == EscapeBackslashes(s[1..]);
      }
    }
  }

  /** The reader's first replace takes back exactly the escaped quotes: the scan never pairs the second half
      of a doubled backslash with a quote, because every quote has its own backslash. */
  lemma {:induction false} QuotesUnescaped(s: string)
    ensures Replace(Escape(s), "\\\"", "\"") == EscapeBackslashes(s)
  {
    if s != [] {
      QuotesUnescaped(s[1..]);
      var e, rest := Escape(s), Escape(s[1..]);
      if s[0] == '\\' {
        assert e[0] == '\\' && e[1] == '\\' && e[1..] == "\\" + rest;
        assert e[..2] == "\\\\";
        if rest != [] {
          EscapeNeverStartsWithQuote(s[1..]);
          assert e[1..][..2] == ['\\', rest[0]];
        }
        assert e[1..][1..] == rest;
      } else if s[0] == '"' {
        assert e[..2] == "\\\"" && e[2..] == rest;
      } else {
        assert e[..1] == [s[0]] && e[1..] == rest;
        if rest != [] {
          assert e[..2] == [s[0], rest[0]];
        }
      }
    }
  }

  lemma EscapeNeverStartsWithQuote(s: string)
    ensures Escape(s) != [] ==> Escape(s)[0] != '"'
  {
  }

  lemma {:induction false} BackslashesHalved(s: string)
    ensures Replace(EscapeBackslashes(s), "\\\\", "\\") == s
  {
    if s != [] {
      BackslashesHalved(s[1..]);
      var e, rest := EscapeBackslashes(s), EscapeBackslashes(s[1..]);
      if s[0] == '\\' {
        assert e[..2] == "\\\\" && e[2..] == rest;
      } else {
        assert e[1..] == rest;
        if rest != [] {
          assert e[..2] == [s[0], rest[0]];
        }
      }
    }
  }

  /** Quoting is undone by unquoting, for every string. */
  lemma QuoteRoundTrip(value: string)
    ensures Unquote(YamlQuote(value)) == value
  {
    BackslashesDoubled(value);
    QuotesEscaped(value);
    QuotesUnescaped(value);
    BackslashesHalved(value);
    var q := YamlQuote(value);
    assert q[1..|q| - 1] == Escape(value);
  }

  lemma {:induction false} ReplaceNeverGrows(s: string, from: string, to: string)
    requires |to| <= |from| && from != []
    ensures |Replace(s, from, to)| <= |s|
    decreases |s|
  {
    if |s| >= |from| {
      if s[..|from|] == from {
        ReplaceNeverGrows(s[|from|..], from, to);
      } else {
        ReplaceNeverGrows(s[1..], from, to);
      }
    }
  }

  /** A text is left alone by the reader exactly when it is not wrapped in a pair of equal quotes. */
  lemma UnquoteFixed(v: string)
    ensures Unquote(v) == v <==> !WrappedIn(v, '"') && !WrappedIn(v, '\'')
  {
    if WrappedIn(v, '"') {
      ReplaceNeverGrows(v[1..|v| - 1], "\\\"", "\"");
      ReplaceNeverGrows(Replace(v[1..|v| - 1], "\\\"", "\""), "\\\\", "\\");
    } else if WrappedIn(v, '\'') {
      ReplaceNeverGrows(v[1..|v| - 1], "''", "'");
    }
  }

  // ----- one line

  /** `split_once(':')`, then trimming, then unquoting; lines without a colon or without a key are skipped. */
  function ParseLine(line: string): Option<Field> {
    match Find(line, ":")
    case None => None
    case Some(i) =>
      var key := Trim(line[..i]);
      if key == "" then None else Some(Field(key, Unquote(Trim(line[i + 1..]))))
  }

  /** A key that a line can carry. */
  predicate KeyOk(key: string) {
    key != "" && Trimmed(key) && ':' !in key && '\n' !in key
  }

  function RawLine(f: Field): string {
    f.key + ": " + f.value
  }

  function QuotedLine(f: Field): string {
    f.key + ": " + YamlQuote(f.value)
  }

  lemma FindColon(key: string, rest: string)
    requires ':' !in key
    ensures Find(key + ":" + rest, ":") == Some(|key|)
  {
    var s := key + ":" + rest;
    forall j: nat | j <= |key| ensures At(s, ":", j) <==> j == |key| {
      assert s[j..j + 1] == [s[j]];
      if j < |key| {
        assert s[j] == key[j] && key[j] in key;
      }
    }
    FindIs(s, ":", |key|);
  }

  lemma ParseKeyed(key: string, scalar: string)
    requires KeyOk(key)
    ensures ParseLine(key + ": " + scalar) == Some(Field(key, Unquote(Trim(scalar))))
  {
    var line := key + ": " + scalar;
    assert line == key + ":" + (" " + scalar);
    FindColon(key, " " + scalar);
    assert line[..|key|] == key && line[|key| + 1..] == " " + scalar;
    TrimFixed(key);
    TrimAfterSpace(scalar);
  }

  /** A value that is written as it is comes back exactly when it is trimmed and not wrapped in quotes. */
  predicate RawSafe(v: string) {
    Trimmed(v) && !WrappedIn(v, '"') && !WrappedIn(v, '\'')
  }

  lemma UnquoteNeverGrows(v: string)
    ensures |Unquote(v)| <= |v|
    ensures |Unquote(v)| == |v| ==> Unquote(v) == v
  {
    if WrappedIn(v, '"') {
      ReplaceNeverGrows(v[1..|v| - 1], "\\\"", "\"");
      ReplaceNeverGrows(Replace(v[1..|v| - 1], "\\\"", "\""), "\\\\", "\\");
    } else if WrappedIn(v, '\'') {
      ReplaceNeverGrows(v[1..|v| - 1], "''", "'");
    }
  }

  lemma TrimShortens(s: string)
    ensures |Trim(s)| <= |s|
    ensures |Trim(s)| == |s| ==> Trim(s) == s
  {
    TrimStartStarts(s);
    TrimEndEnds(TrimStart(s));
  }

  lemma RawLineRoundTripIff(f: Field)
    requires KeyOk(f.key)
    ensures ParseLine(RawLine(f)) == Some(f) <==> RawSafe(f.value)
  {
    ParseKeyed(f.key, f.value);
    TrimFixed(f.value);
    UnquoteFixed(f.value);
    UnquoteNeverGrows(Trim(f.value));
    TrimShortens(f.value);
  }

  lemma QuotedLineRoundTrip(f: Field)
    requires KeyOk(f.key)
    ensures ParseLine(QuotedLine(f)) == Some(f)
  {
    ParseKeyed(f.key, YamlQuote(f.value));
    TrimFixed(YamlQuote(f.value));
    QuoteRoundTrip(f.value);
  }

  // ----- unknown keys

  predicate NeedsQuotes(v: string) {
    (exists i :: 0 <= i < |v| && IsWhitespace(v[i])) || ':' in v || '"' in v
  }

  function UnknownLine(f: Field): string {
    if NeedsQuotes(f.value) then QuotedLine(f) else RawLine(f)
  }

  /** The value of an unknown key comes back except when it is wrapped in single quotes and nothing in it
      makes the writer quote it. */
  lemma UnknownLineRoundTripIff(f: Field)
    requires KeyOk(f.key)
    ensures ParseLine(UnknownLine(f)) == Some(f) <==> NeedsQuotes(f.value) || !WrappedIn(f.value, '\'')
  {
    var v := f.value;
    assert v != "" ==> v[0] in v;
    assert forall i :: 0 <= i < |v| && IsWhitespace(v[i]) ==> NeedsQuotes(v);
    if NeedsQuotes(f.value) {
      QuotedLineRoundTrip(f);
    } else {
      RawLineRoundTripIff(f);
    }
  }

  lemma NoQuotesNeeded(word: string)
    requires !NeedsQuotes(word)
    ensures !NeedsQuotes("'" + word + "'")
  {
    var v := "'" + word + "'";
    forall i | 0 <= i < |v| ensures v[i] in word || v[i] == '\'' {}
  }

  /** The two kinds of value that are lost: every quoted title, and every single-quoted word of an unknown key. */
  lemma QuotesAreLost(key: string, word: string)
    requires KeyOk(key)
    ensures var f := Field(key, "\"" + word + "\""); ParseLine(RawLine(f)) != Some(f)
    ensures var f := Field(key, "'" + word + "'"); !NeedsQuotes(word) ==> ParseLine(UnknownLine(f)) != Some(f)
  {
    hide ParseLine, RawLine, UnknownLine, NeedsQuotes;
    RawLineRoundTripIff(Field(key, "\"" + word + "\""));
    UnknownLineRoundTripIff(Field(key, "'" + word + "'"));
    if !NeedsQuotes(word) {
      NoQuotesNeeded(word);
    }
  }
}
