/** The string operations that the project file code uses, on sequences of characters. */
module Text {
  import opened Results

  /** `char::is_whitespace`: the Unicode White_Space characters. */
  predicate IsWhitespace(c: char) {
    || '\U{9}' <= c <= '\U{d}' || c == ' ' || c == '\U{85}' || c == '\U{a0}' || c == '\U{1680}'
    || '\U{2000}' <= c <= '\U{200a}' || c == '\U{2028}' || c == '\U{2029}' || c == '\U{202f}'
    || c == '\U{205f}' || c == '\U{3000}'
  }

  function TrimStart(s: string): string {
    if s != [] && IsWhitespace(s[0]) then TrimStart(s[1..]) else s
  }

  function TrimEnd(s: string): string {
    if s != [] && IsWhitespace(s[|s| - 1]) then TrimEnd(s[..|s| - 1]) else s
  }

  function Trim(s: string): string {
    TrimEnd(TrimStart(s))
  }

  /** Neither end is whitespace. */
  predicate Trimmed(s: string) {
    s != [] ==> !IsWhitespace(s[0]) && !IsWhitespace(s[|s| - 1])
  }

  lemma {:induction false} TrimEndEnds(s: string)
    ensures TrimEnd(s) != [] ==> !IsWhitespace(TrimEnd(s)[|TrimEnd(s)| - 1])
    ensures TrimEnd(s) <= s
    decreases |s|
  {
    if s != [] && IsWhitespace(s[|s| - 1]) {
      TrimEndEnds(s[..|s| - 1]);
    }
  }

  lemma {:induction false} TrimStartStarts(s: string)
    ensures TrimStart(s) != [] ==> !IsWhitespace(TrimStart(s)[0])
    ensures |TrimStart(s)| <= |s|
    ensures |TrimStart(s)| == |s| ==> TrimStart(s) == s
    decreases |s|
  {
    if s != [] && IsWhitespace(s[0]) {
      TrimStartStarts(s[1..]);
    }
  }

  /** Trimming changes nothing exactly when neither end is whitespace. */
  lemma TrimFixed(s: string)
    ensures Trim(s) == s <==> Trimmed(s)
  {
    TrimStartStarts(s);
    TrimEndEnds(TrimStart(s));
    if Trim(s) == s {
      assert TrimStart(s) == s;
    }
  }

  lemma TrimIsTrimmed(s: string)
    ensures Trimmed(Trim(s))
  {
    TrimStartStarts(s);
    TrimEndEnds(TrimStart(s));
  }

  lemma {:induction false} TrimStartIsTail(s: string)
    ensures exists i :: 0 <= i <= |s| && TrimStart(s) == s[i..]
    decreases |s|
  {
    if s != [] && IsWhitespace(s[0]) {
      TrimStartIsTail(s[1..]);
      var i :| 0 <= i <= |s| - 1 && TrimStart(s[1..]) == s[1..][i..];
      assert s[1..][i..] == s[i + 1..];
    } else {
      assert TrimStart(s) == s[0..];
    }
  }

  /** Trimming adds no characters. */
  lemma TrimKeepsOut(s: string, c: char)
    requires c !in s
    ensures c !in Trim(s)
  {
    TrimStartIsTail(s);
    TrimEndEnds(TrimStart(s));
    var start := TrimStart(s);
    forall i | 0 <= i < |Trim(s)| ensures Trim(s)[i] in s {
      assert Trim(s)[i] == start[i] && start[i] in start;
    }
  }

  lemma TrimAfterSpace(s: string)
    ensures Trim(" " + s) == Trim(s)
  {
    assert (" " + s)[1..] == s;
  }

  lemma TrimEndDrops(s: string, c: char)
    requires IsWhitespace(c)
    ensures TrimEnd(s + [c]) == TrimEnd(s)
  {
    assert (s + [c])[..|s|] == s;
  }

  /** Whitespace at the end makes no difference. */
  lemma {:induction false} TrimDropsEnd(s: string, c: char)
    requires IsWhitespace(c)
    ensures Trim(s + [c]) == Trim(s)
    decreases |s|
  {
    if s == [] {
      assert (s + [c])[1..] == [];
    } else if IsWhitespace(s[0]) {
      assert (s + [c])[1..] == s[1..] + [c];
      TrimDropsEnd(s[1..], c);
    } else {
      assert TrimStart(s + [c]) == s + [c];
      TrimEndDrops(s, c);
    }
  }

  // ----- searching

  predicate At(s: string, pat: string, i: nat) {
    i + |pat| <= |s| && s[i..i + |pat|] == pat
  }

  /** `pat` does not begin at any of the first `n` places. */
  predicate NoneBefore(s: string, pat: string, n: nat) {
    forall j: nat :: j < n ==> !At(s, pat, j)
  }

  function FindFrom(s: string, pat: string, i: nat): (r: Option<nat>)
    ensures r.Some? ==> i <= r.value && At(s, pat, r.value) && forall j: nat :: i <= j < r.value ==> !At(s, pat, j)
    ensures r.None? ==> forall j: nat :: i <= j ==> !At(s, pat, j)
    decreases |s| - i
  {
    if At(s, pat, i) then Some(i)
    else if i + |pat| > |s| then None
    else FindFrom(s, pat, i + 1)
  }

  /** `str::find`: the first place where `pat` occurs. */
  function Find(s: string, pat: string): (r: Option<nat>)
    ensures r.Some? ==> At(s, pat, r.value) && NoneBefore(s, pat, r.value)
    ensures r.None? ==> forall j: nat :: !At(s, pat, j)
  {
    FindFrom(s, pat, 0)
  }

  lemma FindIs(s: string, pat: string, i: nat)
    requires At(s, pat, i) && NoneBefore(s, pat, i)
    ensures Find(s, pat) == Some(i)
  {
  }

  lemma NotAtChar(s: string, pat: string, j: nat)
    requires pat != "" && j < |s| && s[j] != pat[0]
    ensures !At(s, pat, j)
  {
    if j + |pat| <= |s| {
      assert s[j..j + |pat|][0] == s[j];
    }
  }

  lemma NewlineAt(s: string, i: nat)
    ensures At(s, "\n", i) <==> i < |s| && s[i] == '\n'
  {
    if i < |s| {
      assert s[i..i + 1] == [s[i]];
    }
  }

  /** The first line break of `a + "\n" + b` is the one shown, when `a` has none. */
  lemma FindNewline(a: string, b: string)
    requires '\n' !in a
    ensures Find(a + "\n" + b, "\n") == Some(|a|)
  {
    var s := a + "\n" + b;
    forall j: nat | j <= |a| ensures At(s, "\n", j) <==> j == |a| {
      NewlineAt(s, j);
      if j < |a| {
        assert s[j] == a[j] && a[j] in a;
      }
    }
    FindIs(s, "\n", |a|);
  }

  lemma NoNewlineToFind(s: string)
    ensures Find(s, "\n").None? <==> '\n' !in s
  {
    forall i: nat ensures At(s, "\n", i) <==> i < |s| && s[i] == '\n' {
      NewlineAt(s, i);
    }
  }

  // ----- replacing

  /** `str::replace`: non-overlapping occurrences from the left. */
  function Replace(s: string, from: string, to: string): string
    requires from != []
  {
    if |s| < |from| then s
    else if s[..|from|] == from then to + Replace(s[|from|..], from, to)
    else [s[0]] + Replace(s[1..], from, to)
  }

  // ----- lines

  /** A line of `str::lines` loses the carriage return of its line break. */
  function StripCr(line: string): string {
    if line != [] && line[|line| - 1] == '\r' then line[..|line| - 1] else line
  }

  /** `str::lines` */
  function Lines(s: string): seq<string>
    decreases |s|
  {
    if s == [] then []
    else match Find(s, "\n")
      case None => [s]
      case Some(i) => [StripCr(s[..i])] + Lines(s[i + 1..])
  }

  /** No line holds a line break. */
  lemma {:induction false} LinesAreWhole(s: string)
    ensures forall i :: 0 <= i < |Lines(s)| ==> '\n' !in Lines(s)[i]
    decreases |s|
  {
    if s != [] {
      NoNewlineToFind(s);
      match Find(s, "\n")
      case None =>
      case Some(i) =>
        LinesAreWhole(s[i + 1..]);
        forall j | 0 <= j < i ensures s[j] != '\n' {
          NewlineAt(s, j);
        }
        assert '\n' !in s[..i];
        assert '\n' !in StripCr(s[..i]);
    }
  }

  /** Each line followed by a line break. */
  function Join(lines: seq<string>): string {
    if lines == [] then "" else lines[0] + "\n" + Join(lines[1..])
  }

  /** What `lines` makes of joined lines when the last line break is cut off: only a line that still has its break
      loses a carriage return. */
  function StrippedLines(lines: seq<string>): seq<string> {
    if |lines| <= 1 then lines else [StripCr(lines[0])] + StrippedLines(lines[1..])
  }

  lemma {:induction false} LinesOfJoin(lines: seq<string>)
    requires lines != [] && forall i :: 0 <= i < |lines| ==> lines[i] != "" && '\n' !in lines[i]
    ensures |Join(lines)| > 1 && Lines(Join(lines)[..|Join(lines)| - 1]) == StrippedLines(lines)
    decreases |lines|
  {
    hide Find, NoneBefore, At, StripCr;
    var line := lines[0];
    if |lines| == 1 {
      assert Join(lines) == line + "\n" && Join(lines)[..|line|] == line;
      NoNewlineToFind(line);
    } else {
      LinesOfJoin(lines[1..]);
      FirstLine(line, Join(lines[1..]));
    }
  }

  /** The first of several lines is split off. */
  lemma FirstLine(line: string, rest: string)
    requires line != "" && '\n' !in line && rest != ""
    ensures var text := line + "\n" + rest;
      Lines(text[..|text| - 1]) == [StripCr(line)] + Lines(rest[..|rest| - 1])
  {
    hide Find, NoneBefore, At, StripCr;
    CutLine(line, rest);
    FindNewline(line, rest[..|rest| - 1]);
  }

  lemma CutLine(line: string, rest: string)
    requires rest != ""
    ensures var text := (line + "\n" + rest)[..|line| + |rest|];
      text == line + "\n" + rest[..|rest| - 1] && text[..|line|] == line && text[|line| + 1..] == rest[..|rest| - 1]
  {
  }
}
