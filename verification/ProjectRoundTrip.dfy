/** Writing a project document and reading it back (devboule-mcp/src/project_file.rs). */
module ProjectRoundTrip {
  import opened Results
  import opened Text
  import opened TextSearch
  import opened YamlScalar
  import opened Frontmatter
  import opened ProjectDocument
  import opened ProjectLines
  import opened ProjectNormal

  // ----- the frontmatter that is written is found again

  predicate ClosesNothing(line: string) {
    '\n' !in line && !("---" <= line)
  }

  /** The dashes after a line close there or not at all before the next line. */
  lemma CloseAfterLine(line: string, tail: string)
    requires '\n' !in line
    ensures Find(line + ("\n" + tail), "\n---") ==
      if "---" <= tail then Some(|line|)
      else var r := Find(tail, "\n---"); if r.Some? then Some(|line| + 1 + r.value) else None
  {
    var text := line + ("\n" + tail);
    forall j: nat | j < |line| ensures !At(text, "\n---", j) {
      assert text[j] == line[j] && line[j] in line;
      NotAtChar(text, "\n---", j);
    }
    FindSkip(line, "\n" + tail, "\n---");
    DashesAfterNewline(tail);
  }

  lemma DashesAfterNewline(tail: string)
    ensures Find("\n" + tail, "\n---") ==
      if "---" <= tail then Some(0)
      else var r := Find(tail, "\n---"); if r.Some? then Some(1 + r.value) else None
  {
    var s := "\n" + tail;
    if "---" <= tail {
      assert s[0..4] == "\n" + tail[..3];
      assert At(s, "\n---", 0);
      FindIs(s, "\n---", 0);
    } else {
      if 4 <= |s| {
        assert s[0..4][1..] == tail[..3];
      }
      assert !At(s, "\n---", 0);
      FindSkip("\n", tail, "\n---");
    }
  }

  lemma LineClosesNothing(line: string, rest: string)
    requires ClosesNothing(line)
    ensures !("---" <= line + "\n" + rest)
  {
    var s := line + "\n" + rest;
    if |line| >= 3 {
      assert s[..3] == line[..3];
    } else {
      assert s[|line|] == '\n';
    }
  }

  /** Behind joined lines that do not close, dashes do. */
  lemma {:induction false} CloseOfJoin(lines: seq<string>, x: string)
    requires lines != [] && '\n' !in lines[0] && forall i :: 0 < i < |lines| ==> ClosesNothing(lines[i])
    requires "---" <= x
    ensures |Join(lines)| > 0 && Find(Join(lines) + x, "\n---") == Some(|Join(lines)| - 1)
    decreases |lines|
  {
    hide Find, NoneBefore, At;
    var after := Join(lines[1..]) + x;
    JoinStep(lines, x);
    CloseAfterLine(lines[0], after);
    if |lines| > 1 {
      CloseOfJoin(lines[1..], x);
      JoinStep(lines[1..], x);
      LineClosesNothing(lines[1], Join(lines[1..][1..]) + x);
    } else {
      assert after == x;
    }
  }

  lemma JoinStep(lines: seq<string>, x: string)
    requires lines != []
    ensures Join(lines) + x == lines[0] + ("\n" + (Join(lines[1..]) + x))
    ensures Join(lines) + x == lines[0] + "\n" + (Join(lines[1..]) + x)
  {
    RegroupLine(lines[0], "\n", Join(lines[1..]), x);
  }

  lemma RegroupLine(line: string, n: string, rest: string, x: string)
    ensures (line + n + rest) + x == line + (n + (rest + x)) == line + n + (rest + x)
  {
  }

  lemma {:induction false} JoinEndsLine(lines: seq<string>)
    requires lines != []
    ensures |Join(lines)| > 0 && Join(lines)[|Join(lines)| - 1] == '\n'
  {
    if |lines| > 1 {
      JoinEndsLine(lines[1..]);
    }
  }

  /** The dashed lines around joined lines delimit exactly them. */
  lemma SpanOfJoin(lines: seq<string>, rest: string)
    requires lines != [] && '\n' !in lines[0] && forall i :: 0 < i < |lines| ==> ClosesNothing(lines[i])
    ensures var head := "---\n" + Join(lines) + "---\n";
      FrontmatterSpan(head + rest) == Ok(Span(4, |head| - 5, |head|))
  {
    hide Find, NoneBefore, At;
    var body := Join(lines);
    var head := "---\n" + body + "---\n";
    var content := head + rest;
    JoinEndsLine(lines);
    var tail := body + ("---\n" + rest);
    assert content == "---" + "\n" + tail;
    FindNewline("---", tail);
    assert content[4..] == tail;
    assert "---" <= "---\n" + rest;
    CloseOfJoin(lines, "---\n" + rest);
    var close := |head| - 5;
    assert content[close + 1..] == "---" + "\n" + rest;
    FindNewline("---", rest);
  }

  /** Where the two searches behind the opening line ended. */
  lemma SpanSearches(text: string, span: Span)
    requires FrontmatterSpan(text) == Ok(span) && span.end < |text|
    ensures Find(text[span.start..], "\n---") == Some(span.close - span.start)
    ensures span.close + 2 <= span.end && Find(text[span.close + 1..], "\n") == Some(span.end - span.close - 2)
  {
    hide Find, NoneBefore, At;
  }

  lemma BreakAfterDashes(body: string, rel: nat, tail: nat)
    requires At(body, "\n---", rel) && At(body[rel + 1..], "\n", tail)
    ensures tail >= 3
  {
    var after := body[rel + 1..];
    NewlineAt(after, tail);
    assert body[rel..rel + 4] == "\n---";
    assert after[..3] == body[rel..rel + 4][1..];
  }

  lemma DropTwice(s: string, i: nat, k: nat)
    requires i + k <= |s|
    ensures s[i..][k..] == s[i + k..]
  {
  }

  /** The closing dashes lie before the end of the frontmatter. */
  lemma DashesBeforeEnd(text: string, span: Span)
    requires FrontmatterSpan(text) == Ok(span) && span.end < |text|
    ensures span.close + 5 <= span.end
    ensures Find(text[span.close + 1..], "\n") == Some(span.end - span.close - 2)
  {
    hide *;
    SpanSearches(text, span);
    DropTwice(text, span.start, span.close - span.start + 1);
    BreakAfterDashes(text[span.start..], span.close - span.start, span.end - span.close - 2);
  }

  lemma SpanStart(text: string, span: Span)
    requires FrontmatterSpan(text) == Ok(span)
    ensures "---" <= text && 0 < span.start <= span.close < span.end <= |text| &&
      Find(text, "\n") == Some(span.start - 1)
  {
    hide Find, NoneBefore, At;
  }

  lemma SpanIs(text: string, start: nat, close: nat, end: nat)
    requires "---" <= text && 0 < start <= close && close + 2 <= end <= |text| && Find(text, "\n") == Some(start - 1)
    requires Find(text[start..], "\n---") == Some(close - start) &&
      Find(text[close + 1..], "\n") == Some(end - close - 2)
    ensures FrontmatterSpan(text) == Ok(Span(start, close, end))
  {
    hide Find, NoneBefore, At;
  }

  /** What is found in the common part of two texts behind `k` is found in the other one too. */
  lemma FindInTail(s: string, t: string, n: nat, k: nat, pat: string, i: nat)
    requires k <= n <= |s| && n <= |t| && s[..n] == t[..n]
    requires Find(s[k..], pat) == Some(i) && i + |pat| <= n - k
    ensures Find(t[k..], pat) == Some(i)
  {
    hide Find, NoneBefore, At;
    CommonTail(s, t, n, k);
    FindCommon(s[k..], t[k..], n - k, pat, i);
  }

  lemma PrefixOfBoth(s: string, t: string, n: nat, pat: string)
    requires |pat| <= n <= |s| && n <= |t| && s[..n] == t[..n] && pat <= s
    ensures pat <= t
  {
    assert t[..|pat|] == t[..n][..|pat|] && s[..|pat|] == s[..n][..|pat|];
  }

  /** The span of a text depends only on the text up to its end. */
  lemma SpanOfPrefix(text: string, other: string, span: Span)
    requires FrontmatterSpan(text) == Ok(span) && span.end < |text|
    requires span.end <= |other| && text[..span.end] == other[..span.end]
    ensures FrontmatterSpan(other) == Ok(span)
  {
    hide *;
    SpanStart(text, span);
    SpanSearches(text, span);
    DashesBeforeEnd(text, span);
    FindCommon(text, other, span.end, "\n", span.start - 1);
    FindInTail(text, other, span.end, span.start, "\n---", span.close - span.start);
    FindInTail(text, other, span.end, span.close + 1, "\n", span.end - span.close - 2);
    PrefixOfBoth(text, other, span.end, "---");
    SpanIs(other, span.start, span.close, span.end);
  }

  lemma CommonTail(s: string, t: string, n: nat, k: nat)
    requires k <= n <= |s| && n <= |t| && s[..n] == t[..n]
    ensures s[k..][..n - k] == t[k..][..n - k]
  {
    assert s[k..][..n - k] == s[..n][k..] && t[k..][..n - k] == t[..n][k..];
  }

  // ----- the frontmatter fields

  /** Every field that is written stays on one line. */
  predicate OneLined(fields: Fields) {
    AllCarriable(Canonical(fields))
  }

  /** No line looks like the closing dashes. */
  predicate NoDashes(fields: Fields) {
    forall i :: 0 <= i < |Canonical(fields)| ==> !("---" <= Canonical(fields)[i].key)
  }

  predicate Delimited(fields: Fields) {
    OneLined(fields) && NoDashes(fields)
  }

  predicate AllSurvive(fields: Fields) {
    forall i :: 0 <= i < |Canonical(fields)| ==> Survives(Canonical(fields)[i])
  }

  lemma FieldLineClosesNothing(f: Field)
    requires Carriable(f) && !("---" <= f.key)
    ensures ClosesNothing(FieldLine(f))
  {
    LineIsWhole(f);
    FieldRereads(f);
    hide *;
    KeyedStart(f.key, Scalar(f));
    assert FieldLine(f) == f.key + ": " + Scalar(f);
    NewlineFreeClosesNothing(FieldLine(f));
  }

  lemma NewlineFreeClosesNothing(line: string)
    ensures '\n' !in line && !("---" <= line) <==> ClosesNothing(line)
  {
  }

  /** A keyed line starts with dashes only if its key does. */
  lemma KeyedStart(key: string, scalar: string)
    requires !("---" <= key)
    ensures !("---" <= key + ": " + scalar)
  {
    var line := key + ": " + scalar;
    if |key| >= 3 {
      assert line[..3] == key[..3];
    } else {
      assert line[|key|] == ':';
    }
  }

  lemma LinesCloseNothing(written: Fields)
    requires forall i :: 0 <= i < |written| ==> Carriable(written[i]) && !("---" <= written[i].key)
    ensures |LinesOf(written)| == |written|
    ensures forall i :: 0 <= i < |written| ==> ClosesNothing(LinesOf(written)[i])
  {
    hide Carriable, FieldLine, ClosesNothing;
    forall i | 0 <= i < |written| ensures ClosesNothing(LinesOf(written)[i]) {
      FieldLineClosesNothing(written[i]);
    }
  }

  lemma FieldLinesReread(written: Fields, lines: seq<string>, head: string, rest: string)
    requires written != [] && forall i :: 0 <= i < |written| ==> Carriable(written[i]) && !("---" <= written[i].key)
    requires lines == LinesOf(written) && head == "---\n" + Join(lines) + "---\n"
    ensures FrontmatterSpan(head + rest) == Ok(Span(4, |head| - 5, |head|))
    ensures ParseYaml((head + rest)[4..|head| - 5]) == RereadAll(written)
  {
    hide *;
    LinesCloseNothing(written);
    NewlineFreeClosesNothing(lines[0]);
    SpanOfJoin(lines, rest);
    RenderedYamlRereads(written);
    BodyOfHead(Join(lines), rest);
  }

  lemma BodyOfHead(body: string, rest: string)
    requires |body| > 0
    ensures var head := "---\n" + body + "---\n"; (head + rest)[4..|head| - 5] == body[..|body| - 1]
  {
  }

  lemma CanonicalNotEmpty(fields: Fields)
    ensures Canonical(fields) != []
  {
    GetCanonical(fields, "updated_at");
    GetKnownFields(fields, "updated_at");
  }

  /** The head of the written text is delimited, and its lines are normalized. */
  lemma HeadRereads(env: Env, fields: Fields, head: string, rest: string)
    requires Delimited(fields) && head == Render(fields)
    ensures ParseFrontmatter(env, head + rest) == match Normalized(env, RereadAll(Canonical(fields)))
      case Err(e) => Err(e)
      case Ok(read) => Ok((read, |head|))
  {
    hide Normalized, Canonical, Carriable;
    CanonicalNotEmpty(fields);
    FieldLinesReread(Canonical(fields), LinesOf(Canonical(fields)), head, rest);
  }

  /** Reading the head of the written text gives back the fields that were written exactly when the metadata is
      settled and every value survives. */
  lemma HeadReadsBackIff(env: Env, fields: Fields, head: string, rest: string)
    requires Delimited(fields) && head == Render(fields)
    ensures ParseFrontmatter(env, head + rest) == Ok((Canonical(fields), |head|)) <==>
      Settled(env, fields) && AllSurvive(fields)
  {
    hide ParseFrontmatter, Normalized, Canonical, Settled, Survives, Carriable, Reread;
    HeadRereads(env, fields, head, rest);
    assert forall i :: 0 <= i < |Canonical(fields)| ==> KeyOk(Canonical(fields)[i].key) by {
      KeysAreOk(fields);
    }
    RereadIsNormalIff(env, fields);
  }

  lemma KeysAreOk(fields: Fields)
    requires Delimited(fields)
    ensures forall i :: 0 <= i < |Canonical(fields)| ==> KeyOk(Canonical(fields)[i].key)
  {
  }

  // ----- a key that looks like the closing dashes

  lemma SpanOfDashes(lines: seq<string>, x: string)
    requires lines != [] && '\n' !in lines[0] && forall i :: 0 < i < |lines| ==> ClosesNothing(lines[i])
    requires "---" <= x
    ensures var content := "---\n" + (Join(lines) + x);
      && FrontmatterSpan(content).Ok? && FrontmatterSpan(content).value.start == 4
      && FrontmatterSpan(content).value.close == |Join(lines)| + 3
      && content[4..|Join(lines)| + 3] == Join(lines)[..|Join(lines)| - 1]
  {
    hide Find, NoneBefore, At;
    var tail := Join(lines) + x;
    var content := "---\n" + tail;
    assert content == "---" + "\n" + tail;
    FindNewline("---", tail);
    assert content[4..] == tail;
    CloseOfJoin(lines, x);
  }

  lemma {:induction false} JoinSplit(lines: seq<string>, m: nat)
    requires m <= |lines|
    ensures Join(lines) == Join(lines[..m]) + Join(lines[m..])
  {
    if m == 0 {
      assert lines[..0] == [] && lines[0..] == lines;
    } else {
      JoinSplit(lines[1..], m - 1);
      assert lines[..m][1..] == lines[1..][..m - 1] && lines[m..] == lines[1..][m - 1..];
      RegroupLine(lines[0], "\n", Join(lines[1..][..m - 1]), Join(lines[m..]));
    }
  }

  lemma {:induction false} FirstDashes(written: Fields, n: nat) returns (m: nat)
    requires n <= |written| && exists i :: 0 <= i < n && "---" <= written[i].key
    ensures m < n && "---" <= written[m].key && forall i :: 0 <= i < m ==> !("---" <= written[i].key)
  {
    if i :| 0 <= i < n - 1 && "---" <= written[i].key {
      m := FirstDashes(written, n - 1);
    } else {
      m := n - 1;
    }
  }

  lemma KnownHasNoDashes(key: string)
    requires "---" <= key
    ensures key !in KNOWN && key !in {"id", "title", "status", "updated_at", "updatedAt"}
  {
    assert key[0] == '-';
  }

  predicate DistinctKeys(fields: Fields) {
    forall i, j :: 0 <= i < j < |fields| ==> fields[i].key != fields[j].key
  }

  lemma NothingIsDistinct()
    ensures DistinctKeys([])
  {
  }

  lemma DistinctCons(f: Field, rest: Fields)
    requires DistinctKeys(rest) && forall i :: 0 <= i < |rest| ==> rest[i].key != f.key
    ensures DistinctKeys([f] + rest)
  {
  }

  lemma {:induction false} FirstOfEachDistinct(fields: Fields, seen: set<string>)
    ensures DistinctKeys(FirstOfEach(fields, seen))
  {
    hide DistinctKeys;
    if fields == [] {
      NothingIsDistinct();
    } else {
      if fields[0].key in seen {
        FirstOfEachDistinct(fields[1..], seen);
      } else {
        var wider := seen + {fields[0].key};
        FirstOfEachDistinct(fields[1..], wider);
        FirstOfEachStable(fields[1..], wider);
        DistinctCons(fields[0], FirstOfEach(fields[1..], wider));
      }
    }
  }

  /** An unknown key is written once, behind the known ones. */
  lemma UnknownOnce(fields: Fields, m: nat)
    requires m < |Canonical(fields)| && Canonical(fields)[m].key !in KNOWN
    ensures 0 < m && forall i :: 0 <= i < m ==> Canonical(fields)[i].key != Canonical(fields)[m].key
  {
    var known, rest := KnownFields(fields), FirstOfEach(fields, KNOWN);
    KnownFieldsAreKnown(fields);
    FirstOfEachDistinct(fields, KNOWN);
    GetKnownFields(fields, "updated_at");
    assert known != [];
    hide KnownFields, FirstOfEach;
    assert m >= |known| && Canonical(fields)[m] == rest[m - |known|];
    forall i | 0 <= i < m ensures Canonical(fields)[i].key != Canonical(fields)[m].key {
      if i < |known| {
        assert Canonical(fields)[i] == known[i] && known[i].key in KNOWN;
      } else {
        assert Canonical(fields)[i] == rest[i - |known|];
        assert rest[i - |known|].key != rest[m - |known|].key;
      }
    }
  }

  lemma {:induction false} NotYetThere(written: Fields, m: nat, key: string)
    requires m <= |written| && forall i :: 0 <= i < m ==> written[i].key != key
    ensures Get(written[..m], key).None?
  {
    if m > 0 {
      assert written[..m][1..] == written[1..][..m - 1];
      NotYetThere(written[1..], m - 1, key);
    }
  }

  lemma {:induction false} GetThere(written: Fields, m: nat)
    requires m < |written|
    ensures Get(written, written[m].key).Some?
  {
    if m > 0 {
      GetThere(written[1..], m - 1);
    }
  }

  /** The frontmatter is read only up to such a key. */
  lemma DashesCutOff(written: Fields, m: nat, rest: string)
    requires 0 < m < |written| && (forall i :: 0 <= i < |written| ==> Carriable(written[i]))
    requires "---" <= written[m].key && forall i :: 0 <= i < m ==> !("---" <= written[i].key)
    ensures var content := "---\n" + (Join(LinesOf(written)) + rest);
      && FrontmatterSpan(content).Ok?
      && ParseYaml(content[FrontmatterSpan(content).value.start..FrontmatterSpan(content).value.close])
           == RereadAll(written[..m])
  {
    hide Find, Carriable, Lines, FieldLine, Reread, FrontmatterSpan, ParseYaml;
    var lines := LinesOf(written);
    var before, behind := lines[..m], lines[m..];
    assert before == LinesOf(written[..m]);
    forall i | 0 <= i < m ensures ClosesNothing(before[i]) {
      FieldLineClosesNothing(written[i]);
    }
    JoinSplit(lines, m);
    DashedLine(written[m], Join(behind[1..]) + rest);
    assert behind[0] == FieldLine(written[m]);
    JoinStep(behind, rest);
    SpanOfDashes(before, Join(behind) + rest);
    RenderedYamlRereads(written[..m]);
    RegroupLine(Join(before), "", Join(behind), rest);
    assert Join(lines) + rest == Join(before) + (Join(behind) + rest);
  }

  lemma DashedLine(f: Field, rest: string)
    requires Carriable(f) && "---" <= f.key
    ensures "---" <= FieldLine(f) + "\n" + rest
  {
    FieldRereads(f);
    assert (FieldLine(f) + "\n" + rest)[..3] == f.key[..3];
  }

  lemma RenderAndRest(fields: Fields, rest: string)
    ensures Render(fields) + rest == "---\n" + (Join(LinesOf(Canonical(fields))) + ("---\n" + rest))
  {
    hide LinesOf, Canonical, Join;
    Regroup4("---\n", Join(LinesOf(Canonical(fields))), "---\n", rest);
  }

  lemma Regroup4(a: string, b: string, c: string, d: string)
    ensures (a + b + c) + d == a + (b + (c + d))
  {
  }

  /** The first key of this kind, which the part before it does not have. */
  lemma FirstDashedKey(fields: Fields) returns (m: nat)
    requires OneLined(fields) && !NoDashes(fields)
    ensures 0 < m < |Canonical(fields)| && "---" <= Canonical(fields)[m].key
    ensures (forall i :: 0 <= i < |Canonical(fields)| ==> Carriable(Canonical(fields)[i]))
    ensures (forall i :: 0 <= i < m ==> !("---" <= Canonical(fields)[i].key))
    ensures Get(Canonical(fields), Canonical(fields)[m].key).Some? &&
      Get(Canonical(fields)[..m], Canonical(fields)[m].key).None?
  {
    hide Canonical, Carriable;
    var written := Canonical(fields);
    m := FirstDashes(written, |written|);
    KnownHasNoDashes(written[m].key);
    UnknownOnce(fields, m);
    NotYetThere(written, m, written[m].key);
    GetThere(written, m);
  }

  /** So the key does not come back. */
  lemma DashesAreLost(env: Env, fields: Fields, head: string, rest: string)
    requires OneLined(fields) && !NoDashes(fields) && head == Render(fields)
    ensures ParseFrontmatter(env, head + rest).Ok? ==> ParseFrontmatter(env, head + rest).value.0 != Canonical(fields)
  {
    hide *;
    var written := Canonical(fields);
    var m := FirstDashedKey(fields);
    KnownHasNoDashes(written[m].key);
    DashesCutOff(written, m, "---\n" + rest);
    RenderAndRest(fields, rest);
    CutHasNoKey(env, written[..m], written[m].key);
    ReadsCut(env, head + rest, written[..m]);
  }

  lemma ReadsCut(env: Env, content: string, part: Fields)
    requires FrontmatterSpan(content).Ok?
    requires ParseYaml(content[FrontmatterSpan(content).value.start..FrontmatterSpan(content).value.close])
      == RereadAll(part)
    ensures ParseFrontmatter(env, content).Ok? ==>
      Normalized(env, RereadAll(part)).Ok? &&
        ParseFrontmatter(env, content).value.0 == Normalized(env, RereadAll(part)).value
  {
    hide FrontmatterSpan, ParseYaml, RereadAll, Normalized;
  }

  lemma CutHasNoKey(env: Env, part: Fields, key: string)
    requires Get(part, key).None? && key !in {"id", "title", "status", "updated_at", "updatedAt"}
    ensures Normalized(env, RereadAll(part)).Ok? ==> Get(Normalized(env, RereadAll(part)).value, key).None?
  {
    GetReread(part, key);
    hide Normalized, RereadAll, Stamped, Required, Get;
    if Normalized(env, RereadAll(part)).Ok? {
      var id, title, status := NormalizedValues(env, RereadAll(part));
      StampKeeps(env, Required(RereadAll(part), id, title, status), key);
      GetRequired(RereadAll(part), id, title, status, key);
    }
  }

  // ----- the state block

  /** No line of the text is just a fence. */
  predicate FenceFree(json: string)
    decreases |json|
  {
    match Find(json, "\n")
    case None => Trim(json) != FENCE
    case Some(nl) => Trim(json[..nl]) != FENCE && FenceFree(json[nl + 1..])
  }

  lemma CloseLineStep(line: string, tail: string)
    requires '\n' !in line
    ensures CloseLine(line + "\n" + tail) ==
      if Trim(line) == FENCE then Some((0, |line| + 1))
      else match CloseLine(tail) case None => None case Some((a, b)) => Some((|line| + 1 + a, |line| + 1 + b))
  {
    var s := line + "\n" + tail;
    FindNewline(line, tail);
    assert s[..|line| + 1] == line + "\n" && s[|line| + 1..] == tail;
    TrimDropsEnd(line, '\n');
  }

  lemma FenceIsTrimmed()
    ensures Trim(FENCE) == FENCE && |FENCE| == 3 && '\n' !in FENCE
  {
    TrimFixed(FENCE);
  }

  lemma {:induction false} CloseAfterJson(json: string, rest: string)
    requires FenceFree(json)
    ensures CloseLine(json + "\n" + (FENCE + "\n" + rest)) == Some((|json| + 1, |json| + 5))
    decreases |json|
  {
    hide CloseLine, Trim, NoneBefore;
    var close := FENCE + "\n" + rest;
    NoNewlineToFind(json);
    match Find(json, "\n")
    case None =>
      FenceIsTrimmed();
      CloseLineStep(json, close);
      CloseLineStep(FENCE, rest);
    case Some(nl) =>
      NewlineAt(json, nl);
      forall j | 0 <= j < nl ensures json[j] != '\n' {
        NewlineAt(json, j);
      }
      var after := json[nl + 1..];
      assert json + "\n" + close == json[..nl] + "\n" + (after + "\n" + close);
      CloseLineStep(json[..nl], after + "\n" + close);
      CloseAfterJson(after, rest);
  }

  /** A state whose text the reader can delimit and decode. */
  predicate StateOk<S(==)>(codec: Codec<S>, state: S) {
    FenceFree(codec.encode(state)) && codec.decode(Trim(codec.encode(state))) == Some(state)
  }

  lemma Regroup(m: string, n: string, j: string, f: string, rest: string)
    ensures m + n + j + n + f + n + rest == m + n + (j + n + (f + n + rest))
  {
  }

  lemma MarkerIsOneLine()
    ensures '\n' !in MARKER && MARKER != ""
  {
    assert forall i :: 0 <= i < |MARKER| ==> MARKER[i] != '\n';
  }

  lemma BlockStartsWithMarker(json: string, after: string)
    ensures MARKER <= BlockText(json) + after
  {
    Regroup(MARKER, "\n", json, FENCE, after);
    PrefixOfSum(MARKER, "\n", json + "\n" + (FENCE + "\n" + after));
  }

  lemma PrefixOfSum(a: string, b: string, c: string)
    ensures a <= a + b + c
  {
  }

  lemma StartsAtZero(s: string, pat: string)
    requires pat <= s
    ensures Find(s, pat) == Some(0)
  {
    assert s[0..|pat|] == pat;
    FindIs(s, pat, 0);
  }

  /** A text that starts with a block is split at its lines. */
  lemma BlockLines(json: string, after: string, s: string)
    requires FenceFree(json) && s == BlockText(json) + after
    ensures Find(s, MARKER) == Some(0) && Find(s, "\n") == Some(|MARKER|)
    ensures CloseLine(s[|MARKER| + 1..]) == Some((|json| + 1, |json| + 5))
    ensures s[|MARKER| + 1..][..|json| + 1] == json + "\n"
    ensures |BlockText(json)| == |MARKER| + |json| + 6
  {
    var tail := json + "\n" + (FENCE + "\n" + after);
    Regroup(MARKER, "\n", json, FENCE, after);
    assert s == MARKER + "\n" + tail;
    BlockStartsWithMarker(json, after);
    StartsAtZero(s, MARKER);
    MarkerIsOneLine();
    FindNewline(MARKER, tail);
    assert s[|MARKER| + 1..] == tail;
    CloseAfterJson(json, after);
  }

  lemma BlockReadsBack<S>(codec: Codec<S>, before: string, state: S, block: string, after: string)
    requires StateOk(codec, state) && block == BlockText(codec.encode(state))
    requires NoneBefore(before + (block + after), MARKER, |before|)
    ensures StateBlock(codec, before + (block + after)) == Ok(Block(state, |before|, |before| + |block|))
  {
    hide BlockText, CloseLine, Find, NoneBefore, FenceFree, Trim;
    var json := codec.encode(state);
    var s := block + after;
    var content := before + s;
    BlockLines(json, after, s);
    FindSkip(before, s, MARKER);
    DropHead(before, s);
    SliceBehind(before, s, |MARKER| + 1, |json| + 1);
    TrimDropsEnd(json, '\n');
  }

  lemma SliceBehind(a: string, b: string, i: nat, n: nat)
    requires i <= |b| && n <= |b[i..]|
    ensures (a + b)[|a| + i..] == b[i..] && (a + b)[|a| + i..|a| + i + n] == b[i..][..n]
  {
  }

  // ----- the marker

  /** The marker of the new block is the first one, as the old one was: the new frontmatter has none, and
      what stands between them had none. */
  lemma MarkerStaysFirst(oldHead: string, between: string, oldRest: string, head: string, rest: string)
    requires MARKER <= oldRest && MARKER <= rest
    requires Find(oldHead + (between + oldRest), MARKER) == Some(|oldHead| + |between|)
    requires head != "" && head[|head| - 1] == '\n' && Find(head, MARKER).None?
    ensures NoneBefore((head + between) + rest, MARKER, |head + between|)
  {
    hide Find;
    assert (head + between) + rest == head + (between + rest);
    forall j: nat | j < |head + between| ensures !At(head + (between + rest), MARKER, j) {
      if j < |head| {
        NotAcrossNewline(head, between + rest, MARKER, j);
      } else {
        var i := j - |head|;
        SameStart(between, oldRest, rest);
        AtCommon(between + oldRest, between + rest, |between| + |MARKER|, MARKER, i);
        AtShift(head, between + rest, MARKER, i);
        AtShift(oldHead, between + oldRest, MARKER, i);
      }
    }
  }

  lemma SameStart(between: string, a: string, b: string)
    requires MARKER <= a && MARKER <= b
    ensures var n := |between| + |MARKER|;
      n <= |between + a| && n <= |between + b| && (between + a)[..n] == (between + b)[..n]
  {
    var n := |between| + |MARKER|;
    assert (between + a)[..n] == between + a[..|MARKER|];
    assert (between + b)[..n] == between + b[..|MARKER|];
  }

  lemma RenderEndsLine(fields: Fields)
    ensures Render(fields) != "" && Render(fields)[|Render(fields)| - 1] == '\n'
  {
  }

  /** Rendering what was read back renders the same text. */
  lemma RenderStable(fields: Fields)
    ensures Render(Canonical(fields)) == Render(fields)
  {
    CanonicalStable(fields);
  }

  // ----- the whole document

  /** `doc` is a document that was read from a file whose text is `oldHead + between + oldBlock + after`, split at
      the end of the frontmatter and around the state block; metadata and state may have been replaced since. */
  predicate Edited<S>(codec: Codec<S>, env: Env, doc: Doc<S>, oldHead: string, between: string, oldBlock: string,
                      after: string) {
    && doc.markdown == oldHead + (between + (oldBlock + after))
    && ParseFrontmatter(env, doc.markdown).Ok? && ParseFrontmatter(env, doc.markdown).value.1 == |oldHead|
    && Find(doc.markdown, MARKER) == Some(doc.start)
    && doc.start == |oldHead| + |between| && doc.end == doc.start + |oldBlock|
  }

  /** Values that a write can carry: settled metadata whose lines read back, a new frontmatter without the
      marker, and a state that can be delimited and decoded. */
  predicate Ready<S(==)>(codec: Codec<S>, env: Env, fields: Fields, state: S) {
    && Settled(env, fields) && Delimited(fields) && AllSurvive(fields)
    && Find(Render(fields), MARKER).None? && StateOk(codec, state)
  }

  /** A text of the shape that a write produces is read back. */
  lemma WrittenReadsBack<S>(codec: Codec<S>, env: Env, fields: Fields, state: S,
                            head: string, between: string, block: string, after: string)
    requires Ready(codec, env, fields, state) && head == Render(fields) && block == BlockText(codec.encode(state))
    requires NoneBefore((head + between) + (block + after), MARKER, |head + between|)
    ensures var content := head + (between + (block + after));
      var start := |head| + |between|;
      && ParseFrontmatter(env, content) == Ok((Canonical(fields), |head|))
      && Find(content, MARKER) == Some(start)
      && ReadDoc(codec, env, content) == Ok(Doc(Canonical(fields), state, content, start, start + |block|))
  {
    hide ParseFrontmatter, StateBlock, Render, BlockText, Settled, Delimited, AllSurvive, StateOk, Canonical,
      NoneBefore;
    var content := head + (between + (block + after));
    HeadReadsBackIff(env, fields, head, between + (block + after));
    WrittenBlock(codec, state, head, between, block, after);
  }

  lemma WrittenBlock<S>(codec: Codec<S>, state: S, head: string, between: string, block: string, after: string)
    requires StateOk(codec, state) && block == BlockText(codec.encode(state))
    requires NoneBefore((head + between) + (block + after), MARKER, |head + between|)
    ensures var start := |head| + |between|;
      StateBlock(codec, head + (between + (block + after))) == Ok(Block(state, start, start + |block|))
  {
    hide *;
    Assoc(head, between, block + after);
    BlockReadsBack(codec, head + between, state, block, after);
  }

  lemma Assoc(a: string, b: string, c: string)
    ensures (a + b) + c == a + (b + c) && |a + b| == |a| + |b|
  {
  }

  lemma SplitAround(a: string, b: string, c: string, d: string, x: string)
    ensures var text := a + (b + (c + d));
      text[..|a| + |b|] + x + text[|a| + |b| + |c|..] == a + (b + (x + d))
  {
    var text := a + (b + (c + d));
    assert text[..|a| + |b|] == a + b;
    assert text[|a| + |b| + |c|..] == d;
  }

  /** A write keeps the text around the block and puts the new frontmatter in place of the old one. */
  lemma WriteProduces<S>(codec: Codec<S>, env: Env, doc: Doc<S>, oldHead: string, between: string, oldBlock: string,
                         after: string)
    requires Edited(codec, env, doc, oldHead, between, oldBlock, after)
    ensures WriteContent(codec, env, doc)
      == Ok(Render(doc.fields) + (between + (BlockText(codec.encode(doc.state)) + after)))
  {
    hide ParseFrontmatter, BlockText, Render, Find;
    var block := BlockText(codec.encode(doc.state));
    var content := oldHead + (between + (block + after));
    SplitAround(oldHead, between, oldBlock, after, block);
    assert doc.markdown[..doc.start] + block + doc.markdown[doc.end..] == content;
    HeadKeepsFrontmatter(env, oldHead, between + (oldBlock + after), between + (block + after));
    DropHead(oldHead, between + (block + after));
  }

  lemma DropHead(a: string, b: string)
    ensures (a + b)[|a|..] == b && (a + b)[..|a|] == a
  {
  }

  lemma HeadKeepsFrontmatter(env: Env, head: string, rest: string, other: string)
    requires ParseFrontmatter(env, head + rest).Ok? && ParseFrontmatter(env, head + rest).value.1 == |head|
    requires rest != ""
    ensures ParseFrontmatter(env, head + other) == ParseFrontmatter(env, head + rest)
  {
    var text, content := head + rest, head + other;
    var span := FrontmatterSpan(text).value;
    DropHead(head, rest);
    DropHead(head, other);
    SpanOfPrefix(text, content, span);
    SliceOfHead(head, rest, span.start, span.close);
    SliceOfHead(head, other, span.start, span.close);
  }

  lemma SliceOfHead(a: string, b: string, i: nat, j: nat)
    requires i <= j <= |a|
    ensures (a + b)[i..j] == a[i..j]
  {
  }

  /** Writing succeeds, and reading the written file gives the state that was set, metadata that every accessor
      and every unknown key sees unchanged, and the untouched text around the block. A second write of what was
      read produces the same file. */
  lemma WriteReadsBack<S>(codec: Codec<S>, env: Env, doc: Doc<S>, oldHead: string, between: string, oldBlock: string,
                          after: string)
    requires Edited(codec, env, doc, oldHead, between, oldBlock, after)
    requires Ready(codec, env, doc.fields, doc.state)
    ensures var head, block := Render(doc.fields), BlockText(codec.encode(doc.state));
      var content := head + (between + (block + after));
      && WriteContent(codec, env, doc) == Ok(content)
      && var read := ReadDoc(codec, env, content);
      && read.Ok? && read.value.state == doc.state
      && SameToReaders(read.value.fields, doc.fields)
      && (forall key :: key !in KNOWN ==> Get(read.value.fields, key) == Get(doc.fields, key))
      && Edited(codec, env, read.value, head, between, block, after)
      && WriteContent(codec, env, read.value) == Ok(content)
  {
    hide ParseFrontmatter, StateBlock, BlockText, Render, ReadDoc, WriteContent, Find, NoneBefore;
    hide Settled, Delimited, AllSurvive, StateOk, Canonical, SameToReaders;
    var head, block := Render(doc.fields), BlockText(codec.encode(doc.state));
    var content := head + (between + (block + after));
    WriteProduces(codec, env, doc, oldHead, between, oldBlock, after);
    RenderEndsLine(doc.fields);
    BlockStartsWithMarker(codec.encode(doc.state), after);
    EditedMarker(codec, env, doc, oldHead, between, oldBlock, after, head, block + after);
    WrittenReadsBack(codec, env, doc.fields, doc.state, head, between, block, after);
    CanonicalSameToReaders(doc.fields);
    RenderStable(doc.fields);
    WriteProduces(codec, env, ReadDoc(codec, env, content).value, head, between, block, after);
  }

  lemma MarkerInHead(head: string, rest: string)
    requires Find(head, MARKER).Some?
    ensures Find(head + rest, MARKER).Some? && Find(head + rest, MARKER).value < |head|
  {
    var i := Find(head, MARKER).value;
    assert (head + rest)[..|head|] == head;
    AtCommon(head, head + rest, |head|, MARKER, i);
  }

  /** What reading gives, when it succeeds, begins its block at the first marker. */
  lemma ReadStartsAtMarker<S>(codec: Codec<S>, env: Env, content: string)
    requires ReadDoc(codec, env, content).Ok?
    ensures Find(content, MARKER) == Some(ReadDoc(codec, env, content).value.start)
    ensures ParseFrontmatter(env, content).Ok? &&
      ParseFrontmatter(env, content).value.0 == ReadDoc(codec, env, content).value.fields
  {
    hide ParseFrontmatter, StateBlock, Find;
  }

  lemma EndOfHead(env: Env, fields: Fields, head: string, rest: string)
    requires Delimited(fields) && head == Render(fields) && ParseFrontmatter(env, head + rest).Ok?
    ensures ParseFrontmatter(env, head + rest).value.1 == |head|
  {
    hide Normalized, Canonical, ParseFrontmatter;
    HeadRereads(env, fields, head, rest);
  }

  /** What was written reads back only if nothing was lost. */
  lemma ReadBackMeansReady<S>(codec: Codec<S>, env: Env, fields: Fields, state: S, head: string, rest: string,
                              start: nat, end: nat)
    requires '\n' !in env.now && head == Render(fields) && |head| <= start
    requires ReadDoc(codec, env, head + rest) == Ok(Doc(Canonical(fields), state, head + rest, start, end))
    ensures Settled(env, fields) && OneLined(fields) && AllSurvive(fields) && NoDashes(fields) &&
      Find(head, MARKER).None?
  {
    hide *;
    ReadStartsAtMarker(codec, env, head + rest);
    ReadIsCarriable(env, head + rest);
    OneLinedIs(fields);
    if !NoDashes(fields) {
      DashesAreLost(env, fields, head, rest);
    }
    DelimitedIs(fields);
    EndOfHead(env, fields, head, rest);
    HeadReadsBackIff(env, fields, head, rest);
    if Find(head, MARKER).Some? {
      MarkerInHead(head, rest);
    }
  }

  /** And it does if nothing was lost. */
  lemma ReadyReadsBack<S>(codec: Codec<S>, env: Env, doc: Doc<S>, oldHead: string, between: string, oldBlock: string,
                          after: string, head: string, block: string)
    requires Edited(codec, env, doc, oldHead, between, oldBlock, after) && Ready(codec, env, doc.fields, doc.state)
    requires head == Render(doc.fields) && block == BlockText(codec.encode(doc.state))
    ensures var content := head + (between + (block + after));
      var start := |head| + |between|;
      ReadDoc(codec, env, content) == Ok(Doc(Canonical(doc.fields), doc.state, content, start, start + |block|))
  {
    RenderEndsLine(doc.fields);
    BlockStartsWithMarker(codec.encode(doc.state), after);
    ReadyHasNoMarker(codec, env, doc.fields, doc.state);
    hide *;
    EditedMarker(codec, env, doc, oldHead, between, oldBlock, after, head, block + after);
    WrittenReadsBack(codec, env, doc.fields, doc.state, head, between, block, after);
  }

  lemma ReadyHasNoMarker<S>(codec: Codec<S>, env: Env, fields: Fields, state: S)
    requires Ready(codec, env, fields, state)
    ensures Find(Render(fields), MARKER).None?
  {
    hide Render, Find, Settled, Delimited, AllSurvive, StateOk;
  }

  lemma DelimitedIs(fields: Fields)
    ensures Delimited(fields) <==> OneLined(fields) && NoDashes(fields)
  {
    hide OneLined, NoDashes;
  }

  lemma OneLinedIs(fields: Fields)
    ensures OneLined(fields) <==> AllCarriable(Canonical(fields))
  {
    hide AllCarriable, Canonical;
  }

  /** The fields of a document that was read fit their lines when it is written, as long as the clock does. */
  lemma ReadIsOneLined(env: Env, content: string)
    requires '\n' !in env.now && ParseFrontmatter(env, content).Ok?
    ensures OneLined(ParseFrontmatter(env, content).value.0)
  {
    hide *;
    var fields := ParseFrontmatter(env, content).value.0;
    ReadIsCarriable(env, content);
    CanonicalCarriable(fields);
    OneLinedIs(fields);
  }

  lemma ReadyIs<S>(codec: Codec<S>, env: Env, fields: Fields, state: S)
    requires StateOk(codec, state)
    ensures Ready(codec, env, fields, state) <==>
      Settled(env, fields) && OneLined(fields) && AllSurvive(fields) && NoDashes(fields) &&
        Find(Render(fields), MARKER).None?
  {
    hide Render, Find, Settled, OneLined, NoDashes, AllSurvive, StateOk;
  }

  /** The exact condition: a write whose state can be delimited reads back as what was written if and only if the
      metadata is settled, every field fits one line and survives it, no key looks like the closing dashes, and the new
      frontmatter does not contain the marker of the state block. */
  lemma WriteReadsBackIff<S>(codec: Codec<S>, env: Env, doc: Doc<S>, oldHead: string, between: string,
                             oldBlock: string, after: string)
    requires Edited(codec, env, doc, oldHead, between, oldBlock, after)
    requires StateOk(codec, doc.state) && '\n' !in env.now
    ensures var head, block := Render(doc.fields), BlockText(codec.encode(doc.state));
      var content := head + (between + (block + after));
      var start := |head| + |between|;
      && WriteContent(codec, env, doc) == Ok(content)
      && (ReadDoc(codec, env, content) == Ok(Doc(Canonical(doc.fields), doc.state, content, start, start + |block|))
          <==> (Settled(env, doc.fields) && OneLined(doc.fields) && AllSurvive(doc.fields) && NoDashes(doc.fields)
                && Find(head, MARKER).None?))
  {
    hide *;
    var head, block := Render(doc.fields), BlockText(codec.encode(doc.state));
    var rest := between + (block + after);
    var start := |head| + |between|;
    WriteProduces(codec, env, doc, oldHead, between, oldBlock, after);
    ReadyIs(codec, env, doc.fields, doc.state);
    if Ready(codec, env, doc.fields, doc.state) {
      ReadyReadsBack(codec, env, doc, oldHead, between, oldBlock, after, head, block);
    }
    if ReadDoc(codec, env, head + rest)
        == Ok(Doc(Canonical(doc.fields), doc.state, head + rest, start, start + |block|)) {
      ReadBackMeansReady(codec, env, doc.fields, doc.state, head, rest, start, start + |block|);
    }
  }

  lemma EditedMarker<S>(codec: Codec<S>, env: Env, doc: Doc<S>, oldHead: string, between: string, oldBlock: string,
                        after: string, head: string, rest: string)
    requires Edited(codec, env, doc, oldHead, between, oldBlock, after) && MARKER <= rest
    requires head != "" && head[|head| - 1] == '\n' && Find(head, MARKER).None?
    ensures NoneBefore((head + between) + rest, MARKER, |head + between|)
  {
    hide ParseFrontmatter, Find, NoneBefore;
    MarkerAtBlock(doc.markdown, oldHead, between, oldBlock + after);
    MarkerStaysFirst(oldHead, between, oldBlock + after, head, rest);
  }

  lemma MarkerAtBlock(text: string, head: string, between: string, rest: string)
    requires text == head + (between + rest) && Find(text, MARKER) == Some(|head| + |between|)
    ensures MARKER <= rest
  {
    assert text == (head + between) + rest;
    AtShift(head + between, rest, MARKER, 0);
    assert rest[0..|MARKER|] == MARKER;
  }

  /** Reading splits a file in the way `Edited` says whenever the block lies behind the frontmatter. */
  lemma ReadIsEdited<S>(codec: Codec<S>, env: Env, content: string, fields: Fields, state: S)
    requires ReadDoc(codec, env, content).Ok?
    requires ParseFrontmatter(env, content).value.1 <= ReadDoc(codec, env, content).value.start
    ensures var read := ReadDoc(codec, env, content).value;
      var end := ParseFrontmatter(env, content).value.1;
      Edited(codec, env, read.(fields := fields, state := state), content[..end], content[end..read.start],
             content[read.start..read.end], content[read.end..])
  {
    var read := ReadDoc(codec, env, content).value;
    var end := ParseFrontmatter(env, content).value.1;
    var a, b, c, d := content[..end], content[end..read.start], content[read.start..read.end], content[read.end..];
    SplitFour(content, end, read.start, read.end);
  }

  lemma SplitFour(s: string, i: nat, j: nat, k: nat)
    requires i <= j <= k <= |s|
    ensures s == s[..i] + (s[i..j] + (s[j..k] + s[k..]))
  {
  }

  // ----- a title that hides the state block

  lemma {:induction false} JoinHolds(lines: seq<string>, i: nat, before: string, pat: string)
    requires i < |lines| && lines[i] == before + pat
    ensures exists k: nat :: At(Join(lines), pat, k)
  {
    if i == 0 {
      assert Join(lines) == before + (pat + ("\n" + Join(lines[1..])));
      HoldsAt(before, pat, "\n" + Join(lines[1..]));
    } else {
      JoinHolds(lines[1..], i - 1, before, pat);
      var k: nat :| At(Join(lines[1..]), pat, k);
      AtShift(lines[0] + "\n", Join(lines[1..]), pat, k);
      assert At(Join(lines), pat, |lines[0] + "\n"| + k);
    }
  }

  lemma HoldsAt(a: string, pat: string, b: string)
    ensures At(a + (pat + b), pat, |a|)
  {
    assert (pat + b)[0..|pat|] == pat;
    AtShift(a, pat + b, pat, 0);
  }

  lemma {:induction false} GetAt(fields: Fields, key: string) returns (i: nat)
    requires Get(fields, key).Some?
    ensures i < |fields| && fields[i] == Field(key, Get(fields, key).value)
  {
    if fields[0].key == key {
      i := 0;
    } else {
      i := GetAt(fields[1..], key);
      i := i + 1;
    }
  }

  lemma TitleLine(fields: Fields, title: string) returns (i: nat)
    requires Get(fields, "title") == Some(title)
    ensures i < |LinesOf(Canonical(fields))| && LinesOf(Canonical(fields))[i] == "title: " + title
  {
    GetCanonical(fields, "title");
    GetKnownFields(fields, "title");
    hide Canonical;
    i := GetAt(Canonical(fields), "title");
  }

  lemma RenderHolds(fields: Fields, k: nat)
    requires At(Join(LinesOf(Canonical(fields))), MARKER, k)
    ensures Find(Render(fields), MARKER).Some?
  {
    hide Find, Canonical, LinesOf, Join, At;
    MarkerWithin("---\n", Join(LinesOf(Canonical(fields))), "---\n", k);
  }

  /** The marker is a title that survives its line and is left alone by normalizing, but a file with this title has
      the marker in its frontmatter, so what was written does not read back, whatever else the document holds. */
  lemma MarkerTitleIsLost(fields: Fields)
    requires Get(fields, "title") == Some(MARKER)
    ensures Survives(Field("title", MARKER)) && CleanText(MARKER, 500) == Some(MARKER)
    ensures Find(Render(fields), MARKER).Some?
  {
    MarkerIsClean();
    hide *;
    var i := TitleLine(fields, MARKER);
    JoinHolds(LinesOf(Canonical(fields)), i, "title: ", MARKER);
    var k: nat :| At(Join(LinesOf(Canonical(fields))), MARKER, k);
    RenderHolds(fields, k);
  }

  lemma MarkerWithin(a: string, b: string, c: string, k: nat)
    requires At(b, MARKER, k)
    ensures Find(a + b + c, MARKER).Some?
  {
    AtShift(a, b, MARKER, k);
    assert (a + b + c)[..|a + b|] == a + b;
    AtCommon(a + b, a + b + c, |a + b|, MARKER, |a| + k);
  }

  lemma MarkerIsWord()
    ensures |MARKER| == 16 && MARKER[0] != '"' && MARKER[0] != '\''
      && forall i :: 0 <= i < |MARKER| ==> !IsWhitespace(MARKER[i])
  {
    assert MARKER == "```aspis-project";
  }

  lemma MarkerIsClean()
    ensures Survives(Field("title", MARKER)) && CleanText(MARKER, 500) == Some(MARKER)
  {
    MarkerIsWord();
    WordIsClean(MARKER, 500);
    hide CleanText, IsWhitespace;
    assert Trimmed(MARKER) && "title" in KNOWN;
  }
}
