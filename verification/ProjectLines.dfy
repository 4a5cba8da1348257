/**
 What reading puts into the frontmatter fits one line for each field (devboule-mcp/src/project_file.rs): keys without
 colons, and values without line breaks.
 */
module ProjectLines {
  import opened Results
  import opened Text
  import opened YamlScalar
  import opened Frontmatter
  import opened ProjectDocument
  import opened ProjectNormal

  predicate AllCarriable(fields: Fields) {
    forall i :: 0 <= i < |fields| ==> Carriable(fields[i])
  }

  // ----- one line

  lemma UnquoteKeepsOut(v: string, c: char)
    requires c !in v && c !in "\"\\'"
    ensures c !in Unquote(v)
  {
    if WrappedIn(v, '"') {
      var inner := v[1..|v| - 1];
      assert c !in inner && c !in "\"" && c !in "\\";
      ReplaceKeepsOut(inner, "\\\"", "\"", c);
      ReplaceKeepsOut(Replace(inner, "\\\"", "\""), "\\\\", "\\", c);
    } else if WrappedIn(v, '\'') {
      assert c !in v[1..|v| - 1] && c !in "'";
      ReplaceKeepsOut(v[1..|v| - 1], "''", "'", c);
    }
  }

  lemma ColonFirst(line: string, i: nat)
    requires Find(line, ":") == Some(i)
    ensures i < |line| && ':' !in line[..i]
  {
    assert line[i..i + 1] == ":";
    forall j | 0 <= j < i ensures line[j] != ':' {
      assert !At(line, ":", j);
      assert line[j..j + 1] == [line[j]];
    }
  }

  lemma LineIsCarriable(line: string)
    requires '\n' !in line
    ensures ParseLine(line).Some? ==> Carriable(ParseLine(line).value)
  {
    var colon := Find(line, ":");
    if colon.Some? {
      var i := colon.value;
      ColonFirst(line, i);
      assert '\n' !in line[..i] && '\n' !in line[i + 1..];
      hide Find, Trim, Unquote, Trimmed;
      TrimIsTrimmed(line[..i]);
      TrimKeepsOut(line[..i], ':');
      TrimKeepsOut(line[..i], '\n');
      TrimKeepsOut(line[i + 1..], '\n');
      UnquoteKeepsOut(Trim(line[i + 1..]), '\n');
    }
  }

  lemma {:induction false} LinesAreCarriable(lines: seq<string>)
    requires forall i :: 0 <= i < |lines| ==> '\n' !in lines[i]
    ensures AllCarriable(ParseLines(lines))
  {
    hide ParseLine, Carriable;
    if lines != [] {
      LinesAreCarriable(lines[1..]);
      LineIsCarriable(lines[0]);
    }
  }

  // ----- normalizing

  lemma {:induction false} SetCarriable(fields: Fields, key: string, value: string)
    requires AllCarriable(fields) && KeyOk(key) && '\n' !in value
    ensures AllCarriable(Set(fields, key, value))
  {
    hide KeyOk;
    if fields != [] && fields[0].key != key {
      SetCarriable(fields[1..], key, value);
    }
  }

  lemma {:induction false} RemoveCarriable(fields: Fields, key: string)
    requires AllCarriable(fields)
    ensures AllCarriable(Remove(fields, key))
  {
    hide Carriable;
    if fields != [] {
      RemoveCarriable(fields[1..], key);
    }
  }

  lemma {:induction false} GetCarriable(fields: Fields, key: string)
    requires AllCarriable(fields)
    ensures Get(fields, key).Some? ==> '\n' !in Get(fields, key).value
  {
    if fields != [] {
      GetCarriable(fields[1..], key);
    }
  }

  lemma WrittenKeysOk()
    ensures forall key :: key in {"id", "title", "status", "updated_at", "root_path", "censor_trusted"} ==> KeyOk(key)
  {
  }

  lemma TidyIsOneLine(s: string)
    requires Tidy(s)
    ensures '\n' !in s
  {
    assert IsWhitespace('\n');
  }

  lemma NormalValuesAreOneLine(env: Env, raw: Fields, id: string, title: string, status: string)
    requires Computes(env, raw, id, title, status)
    ensures '\n' !in id && '\n' !in title && '\n' !in status
  {
    hide NormalizeProjectId, NormalizeStatus, CleanText, Get;
    NormalIdFixed(GetOr(Get(raw, "id"), env.stem));
    NormalStatusFixed(GetOr(Get(raw, "status"), "active"));
    CleanIsOneLine(GetOr(Get(raw, "title"), id));
    assert !IsIdChar('\n');
  }

  lemma CleanIsOneLine(value: string)
    ensures CleanText(value, 500).Some? ==> '\n' !in CleanText(value, 500).value
  {
    var all := CollapseWhitespace(value);
    CollapseIsTidy(value);
    CleanTextShape(value, 500);
    hide CollapseWhitespace, CleanText;
    TidyIsOneLine(all);
  }

  lemma StampedCarriable(env: Env, fields: Fields)
    requires AllCarriable(fields) && '\n' !in env.now
    ensures AllCarriable(Stamped(env, fields))
  {
    WrittenKeysOk();
    hide KeyOk, AllCarriable, Set, Remove, Get;
    match Get(fields, "updatedAt")
    case None =>
      SetCarriable(fields, "updated_at", env.now);
    case Some(at) =>
      GetCarriable(fields, "updatedAt");
      SetCarriable(fields, "updated_at", at);
      RemoveCarriable(Set(fields, "updated_at", at), "updatedAt");
  }

  lemma NormalizedCarriable(env: Env, raw: Fields)
    requires AllCarriable(raw) && '\n' !in env.now && Normalized(env, raw).Ok?
    ensures AllCarriable(Normalized(env, raw).value)
  {
    WrittenKeysOk();
    hide KeyOk, AllCarriable, Set, Normalized, Stamped, Computes;
    var id, title, status := NormalizedValues(env, raw);
    NormalValuesAreOneLine(env, raw, id, title, status);
    SetCarriable(raw, "id", id);
    SetCarriable(Set(raw, "id", id), "title", title);
    SetCarriable(Set(Set(raw, "id", id), "title", title), "status", status);
    StampedCarriable(env, Required(raw, id, title, status));
  }

  /** Every field of a document that was read fits one line, as long as the clock does. */
  lemma ReadIsCarriable(env: Env, content: string)
    requires '\n' !in env.now && ParseFrontmatter(env, content).Ok?
    ensures AllCarriable(ParseFrontmatter(env, content).value.0)
  {
    hide FrontmatterSpan, Normalized, AllCarriable, Lines, ParseLines;
    var span := FrontmatterSpan(content).value;
    var text := content[span.start..span.close];
    LinesAreWhole(text);
    LinesAreCarriable(Lines(text));
    NormalizedCarriable(env, ParseYaml(text));
  }

  // ----- what is written of it

  lemma {:induction false} FirstOfEachCarriable(fields: Fields, seen: set<string>)
    requires AllCarriable(fields)
    ensures AllCarriable(FirstOfEach(fields, seen))
  {
    hide Carriable;
    FirstOfEachStable(fields, seen);
  }

  lemma PresentCarriable(key: string, value: Option<string>)
    requires KeyOk(key) && (value.Some? ==> '\n' !in value.value)
    ensures AllCarriable(Present(key, value))
  {
    hide KeyOk;
  }

  lemma AppendCarriable(a: Fields, b: Fields)
    requires AllCarriable(a) && AllCarriable(b)
    ensures AllCarriable(a + b)
  {
    hide Carriable;
  }

  lemma AppendSix(a: Fields, b: Fields, c: Fields, d: Fields, e: Fields, f: Fields)
    requires AllCarriable(a) && AllCarriable(b) && AllCarriable(c) && AllCarriable(d) && AllCarriable(e)
    requires AllCarriable(f)
    ensures AllCarriable(a + b + c + d + e + f)
  {
    hide AllCarriable;
    AppendCarriable(a, b);
    AppendCarriable(a + b, c);
    AppendCarriable(a + b + c, d);
    AppendCarriable(a + b + c + d, e);
    AppendCarriable(a + b + c + d + e, f);
  }

  lemma OneCarriable(key: string, value: string)
    requires KeyOk(key) && '\n' !in value
    ensures AllCarriable([Field(key, value)])
  {
    hide KeyOk;
  }

  lemma WrittenValuesFit(fields: Fields)
    requires AllCarriable(fields)
    ensures '\n' !in UpdatedAt(fields) && (RootPath(fields).Some? ==> '\n' !in RootPath(fields).value)
  {
    hide Get, AllCarriable;
    forall key ensures Get(fields, key).Some? ==> '\n' !in Get(fields, key).value {
      GetCarriable(fields, key);
    }
  }

  lemma KnownCarriable(fields: Fields)
    requires AllCarriable(fields)
    ensures AllCarriable(KnownFields(fields))
  {
    hide KeyOk, Get, CensorTrusted, UpdatedAt, RootPath, AllCarriable, Present;
    WrittenKeysOk();
    WrittenValuesFit(fields);
    GetCarriable(fields, "id");
    GetCarriable(fields, "title");
    GetCarriable(fields, "status");
    PresentCarriable("id", Get(fields, "id"));
    PresentCarriable("title", Get(fields, "title"));
    PresentCarriable("status", Get(fields, "status"));
    PresentCarriable("root_path", RootPath(fields));
    OneCarriable("updated_at", UpdatedAt(fields));
    OneCarriable("censor_trusted", "true");
    assert AllCarriable([]) by { NoneCarriable(); }
    AppendSix(Present("id", Get(fields, "id")), Present("title", Get(fields, "title")),
              Present("status", Get(fields, "status")), [Field("updated_at", UpdatedAt(fields))],
              Present("root_path", RootPath(fields)),
              if CensorTrusted(fields) then [Field("censor_trusted", "true")] else []);
  }

  lemma NoneCarriable()
    ensures AllCarriable([])
  {
  }

  lemma CanonicalCarriable(fields: Fields)
    requires AllCarriable(fields)
    ensures AllCarriable(Canonical(fields))
  {
    hide AllCarriable, KnownFields, FirstOfEach;
    KnownCarriable(fields);
    FirstOfEachCarriable(fields, KNOWN);
    AppendCarriable(KnownFields(fields), FirstOfEach(fields, KNOWN));
  }
}
