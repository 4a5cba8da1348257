/**
 The ordered frontmatter of a project file (devboule-mcp/src/project_file.rs): look-up with aliases, the
 order in which it is written, and reading it back.
 */
module Frontmatter {
  import opened Results
  import opened Text
  import opened YamlScalar

  type Fields = seq<Field>

  // ----- look-up

  function Get(fields: Fields, key: string): Option<string> {
    if fields == [] then None
    else if fields[0].key == key then Some(fields[0].value)
    else Get(fields[1..], key)
  }

  function Set(fields: Fields, key: string, value: string): Fields {
    if fields == [] then [Field(key, value)]
    else if fields[0].key == key then [Field(key, value)] + fields[1..]
    else [fields[0]] + Set(fields[1..], key, value)
  }

  function Remove(fields: Fields, key: string): Fields {
    if fields == [] then []
    else (if fields[0].key == key then [] else [fields[0]]) + Remove(fields[1..], key)
  }

  function OrElse(a: Option<string>, b: Option<string>): Option<string> {
    if a.Some? then a else b
  }

  function GetOr(o: Option<string>, default: string): string {
    if o.Some? then o.value else default
  }

  function Id(fields: Fields): string {
    GetOr(Get(fields, "id"), "")
  }

  function Title(fields: Fields): string {
    GetOr(Get(fields, "title"), Id(fields))
  }

  function Status(fields: Fields): string {
    GetOr(Get(fields, "status"), "active")
  }

  function UpdatedAt(fields: Fields): string {
    GetOr(OrElse(Get(fields, "updated_at"), Get(fields, "updatedAt")), "")
  }

  function RootPath(fields: Fields): Option<string> {
    var path := OrElse(OrElse(Get(fields, "root_path"), Get(fields, "rootPath")), Get(fields, "root"));
    if path == Some("") then None else path
  }

  function AsciiLower(s: string): string {
    seq(|s|, i requires 0 <= i < |s| => if 'A' <= s[i] <= 'Z' then s[i] - 'A' + 'a' else s[i])
  }

  function CensorTrusted(fields: Fields): bool {
    var flag := OrElse(Get(fields, "censor_trusted"), Get(fields, "censorTrusted"));
    flag.Some? && AsciiLower(Trim(flag.value)) == "true"
  }

  /** What every reader of a document can ask for. */
  predicate SameToReaders(a: Fields, b: Fields) {
    Id(a) == Id(b) && Title(a) == Title(b) && Status(a) == Status(b) && UpdatedAt(a) == UpdatedAt(b)
    && RootPath(a) == RootPath(b) && CensorTrusted(a) == CensorTrusted(b)
  }

  // ----- the fields that are written, in their order

  const KNOWN: set<string> := {"id", "title", "status", "updated_at", "updatedAt", "root_path", "rootPath", "root",
                               "censor_trusted", "censorTrusted"}

  function Present(key: string, value: Option<string>): Fields {
    if value.Some? then [Field(key, value.value)] else []
  }

  /** The first field of each key that is not in `seen`. */
  function FirstOfEach(fields: Fields, seen: set<string>): Fields {
    if fields == [] then []
    else if fields[0].key in seen then FirstOfEach(fields[1..], seen)
    else [fields[0]] + FirstOfEach(fields[1..], seen + {fields[0].key})
  }

  function KnownFields(fields: Fields): Fields {
    Present("id", Get(fields, "id")) + Present("title", Get(fields, "title")) + Present("status", Get(fields, "status"))
    + [Field("updated_at", UpdatedAt(fields))] + Present("root_path", RootPath(fields))
    + (if CensorTrusted(fields) then [Field("censor_trusted", "true")] else [])
  }

  function Canonical(fields: Fields): Fields {
    KnownFields(fields) + FirstOfEach(fields, KNOWN)
  }

  function FieldLine(f: Field): string {
    if f.key !in KNOWN then UnknownLine(f)
    else if f.key == "root_path" then QuotedLine(f)
    else RawLine(f)
  }

  function LinesOf(fields: Fields): seq<string> {
    seq(|fields|, i requires 0 <= i < |fields| => FieldLine(fields[i]))
  }

  function Render(fields: Fields): string {
    "---\n" + Join(LinesOf(Canonical(fields))) + "---\n"
  }

  function ParseLines(lines: seq<string>): Fields {
    if lines == [] then []
    else
      var f := ParseLine(lines[0]);
      (if f.Some? then [f.value] else []) + ParseLines(lines[1..])
  }

  function ParseYaml(raw: string): Fields {
    ParseLines(Lines(raw))
  }

  // ----- look-up after writing

  lemma {:induction false} GetAppend(a: Fields, b: Fields, key: string)
    ensures Get(a + b, key) == OrElse(Get(a, key), Get(b, key))
  {
    if a != [] {
      assert (a + b)[1..] == a[1..] + b;
      GetAppend(a[1..], b, key);
    } else {
      assert a + b == b;
    }
  }

  lemma {:induction false} GetFirstOfEach(fields: Fields, seen: set<string>, key: string)
    ensures Get(FirstOfEach(fields, seen), key) == if key in seen then None else Get(fields, key)
  {
    if fields != [] {
      GetFirstOfEach(fields[1..], seen, key);
      GetFirstOfEach(fields[1..], seen + {fields[0].key}, key);
    }
  }

  lemma GetPresent(key: string, value: Option<string>, wanted: string)
    ensures Get(Present(key, value), wanted) == if wanted == key then value else None
  {
  }

  /** Look-up in the known part: the canonical spellings carry what the accessors say. */
  lemma GetKnownFields(fields: Fields, key: string)
    ensures Get(KnownFields(fields), key) ==
      if key in {"id", "title", "status"} then Get(fields, key)
      else if key == "updated_at" then Some(UpdatedAt(fields))
      else if key == "root_path" then RootPath(fields)
      else if key == "censor_trusted" && CensorTrusted(fields) then Some("true")
      else None
  {
    var a, b, c := Present("id", Get(fields, "id")), Present("title", Get(fields, "title")),
      Present("status", Get(fields, "status"));
    var d, e := [Field("updated_at", UpdatedAt(fields))], Present("root_path", RootPath(fields));
    var f := if CensorTrusted(fields) then [Field("censor_trusted", "true")] else [];
    GetAppend(a, b, key);
    GetAppend(a + b, c, key);
    GetAppend(a + b + c, d, key);
    GetAppend(a + b + c + d, e, key);
    GetAppend(a + b + c + d + e, f, key);
    GetPresent("id", Get(fields, "id"), key);
    GetPresent("title", Get(fields, "title"), key);
    GetPresent("status", Get(fields, "status"), key);
    GetPresent("root_path", RootPath(fields), key);
  }

  lemma GetCanonical(fields: Fields, key: string)
    ensures Get(Canonical(fields), key) ==
      if key !in KNOWN then Get(fields, key) else Get(KnownFields(fields), key)
  {
    GetAppend(KnownFields(fields), FirstOfEach(fields, KNOWN), key);
    GetFirstOfEach(fields, KNOWN, key);
    GetKnownFields(fields, key);
  }

  /** Writing in canonical order changes nothing that a reader can see, unknown keys included. */
  lemma CanonicalSameToReaders(fields: Fields)
    ensures SameToReaders(Canonical(fields), fields)
    ensures forall key :: key !in KNOWN ==> Get(Canonical(fields), key) == Get(fields, key)
  {
    forall key
        ensures Get(Canonical(fields), key)
          == if key !in KNOWN then Get(fields, key) else Get(KnownFields(fields), key) {
      GetCanonical(fields, key);
    }
    forall key | key in KNOWN {
      GetKnownFields(fields, key);
    }
    TrueIsTrue();
  }

  lemma TrueIsTrue()
    ensures AsciiLower(Trim("true")) == "true"
  {
    TrimFixed("true");
  }

  // ----- what setting and removing mean to a look-up

  lemma {:induction false} GetAfterSet(fields: Fields, key: string, value: string, wanted: string)
    ensures Get(Set(fields, key, value), wanted) == if wanted == key then Some(value) else Get(fields, wanted)
  {
    if fields != [] && fields[0].key != key {
      GetAfterSet(fields[1..], key, value, wanted);
      assert Set(fields, key, value)[1..] == Set(fields[1..], key, value);
    } else if fields != [] {
      assert Set(fields, key, value)[1..] == fields[1..];
    }
  }

  lemma {:induction false} GetAfterRemove(fields: Fields, key: string, wanted: string)
    ensures Get(Remove(fields, key), wanted) == if wanted == key then None else Get(fields, wanted)
  {
    if fields != [] {
      GetAfterRemove(fields[1..], key, wanted);
      if fields[0].key == key {
        assert Remove(fields, key) == Remove(fields[1..], key);
      } else {
        assert Remove(fields, key)[1..] == Remove(fields[1..], key);
      }
    }
  }

  // ----- the canonical order is stable

  lemma {:induction false} FirstOfEachAppend(a: Fields, b: Fields, seen: set<string>)
    requires forall i :: 0 <= i < |a| ==> a[i].key in seen
    ensures FirstOfEach(a + b, seen) == FirstOfEach(b, seen)
  {
    if a != [] {
      assert (a + b)[1..] == a[1..] + b;
      FirstOfEachAppend(a[1..], b, seen);
    } else {
      assert a + b == b;
    }
  }

  lemma {:induction false} FirstOfEachStable(fields: Fields, seen: set<string>)
    ensures FirstOfEach(FirstOfEach(fields, seen), seen) == FirstOfEach(fields, seen)
    ensures forall i :: 0 <= i < |FirstOfEach(fields, seen)| ==> FirstOfEach(fields, seen)[i].key !in seen
    ensures forall i :: 0 <= i < |FirstOfEach(fields, seen)| ==> FirstOfEach(fields, seen)[i] in fields
  {
    if fields != [] {
      FirstOfEachStable(fields[1..], seen);
      FirstOfEachStable(fields[1..], seen + {fields[0].key});
    }
  }

  lemma KnownFieldsAreKnown(fields: Fields)
    ensures forall i :: 0 <= i < |KnownFields(fields)| ==> KnownFields(fields)[i].key in KNOWN
  {
  }

  /** Fields in canonical order are left as they are. */
  lemma CanonicalStable(fields: Fields)
    ensures Canonical(Canonical(fields)) == Canonical(fields)
  {
    var known, rest := KnownFields(fields), FirstOfEach(fields, KNOWN);
    KnownFieldsAreKnown(fields);
    FirstOfEachAppend(known, rest, KNOWN);
    FirstOfEachStable(fields, KNOWN);
    CanonicalSameToReaders(fields);
    GetCanonical(fields, "id");
    GetKnownFields(fields, "id");
    GetCanonical(fields, "title");
    GetKnownFields(fields, "title");
    GetCanonical(fields, "status");
    GetKnownFields(fields, "status");
    assert KnownFields(Canonical(fields)) == known;
  }

  // ----- reading the lines back

  /** Keys and values that keep their line one line. */
  predicate Carriable(f: Field) {
    KeyOk(f.key) && '\n' !in f.value
  }

  /** The values that survive being written, by the place that writes them. */
  predicate Survives(f: Field) {
    if f.key !in KNOWN then NeedsQuotes(f.value) || !WrappedIn(f.value, '\'')
    else f.key == "root_path" || RawSafe(f.value)
  }

  predicate Writable(f: Field) {
    Carriable(f) && Survives(f)
  }

  /** What stands behind the key in a written line. */
  function Scalar(f: Field): string {
    if (f.key !in KNOWN && NeedsQuotes(f.value)) || f.key == "root_path" then YamlQuote(f.value) else f.value
  }

  /** What a reader makes of a written field. */
  function Reread(f: Field): Field {
    Field(f.key, Unquote(Trim(Scalar(f))))
  }

  lemma FieldRereads(f: Field)
    requires KeyOk(f.key)
    ensures FieldLine(f) == f.key + ": " + Scalar(f) && ParseLine(FieldLine(f)) == Some(Reread(f))
  {
    ParseKeyed(f.key, Scalar(f));
  }

  lemma FieldRoundTripIff(f: Field)
    requires KeyOk(f.key)
    ensures Reread(f) == f <==> Survives(f)
  {
    FieldRereads(f);
    if f.key !in KNOWN {
      UnknownLineRoundTripIff(f);
    } else if f.key == "root_path" {
      QuotedLineRoundTrip(f);
    } else {
      RawLineRoundTripIff(f);
    }
  }

  lemma {:induction false} ReplaceKeepsOut(s: string, from: string, to: string, c: char)
    requires from != [] && c !in s && c !in to
    ensures c !in Replace(s, from, to)
    decreases |s|
  {
    if |s| >= |from| {
      if s[..|from|] == from {
        ReplaceKeepsOut(s[|from|..], from, to, c);
      } else {
        ReplaceKeepsOut(s[1..], from, to, c);
      }
    }
  }

  lemma LineIsWhole(f: Field)
    requires Carriable(f)
    ensures FieldLine(f) != "" && '\n' !in FieldLine(f)
  {
    ReplaceKeepsOut(f.value, "\\", "\\\\", '\n');
    ReplaceKeepsOut(Replace(f.value, "\\", "\\\\"), "\"", "\\\"", '\n');
  }

  lemma StripKeyed(key: string, scalar: string)
    requires key != ""
    ensures StripCr(key + ": " + scalar) == key + ": " + StripCr(scalar)
    ensures StripCr(scalar) == scalar || scalar == StripCr(scalar) + ['\r']
  {
    var line := key + ": " + scalar;
    if scalar == "" {
      assert line[|line| - 1] == ' ';
    } else {
      assert line[|line| - 1] == scalar[|scalar| - 1];
    }
  }

  /** A carriage return at the end of a written line is not missed. */
  lemma CrIsTrimmed(f: Field)
    requires KeyOk(f.key)
    ensures ParseLine(StripCr(FieldLine(f))) == ParseLine(FieldLine(f))
  {
    var scalar := Scalar(f);
    FieldRereads(f);
    assert f.key != "" && IsWhitespace('\r');
    hide ParseLine, FieldLine, Scalar, StripCr, Trim, Unquote, KeyOk;
    StripKeyed(f.key, scalar);
    ParseKeyed(f.key, scalar);
    ParseKeyed(f.key, StripCr(scalar));
    TrimDropsEnd(StripCr(scalar), '\r');
  }

  lemma {:induction false} ParseStrippedLines(fields: Fields)
    requires forall i :: 0 <= i < |fields| ==> KeyOk(fields[i].key)
    ensures ParseLines(StrippedLines(LinesOf(fields))) == ParseLines(LinesOf(fields))
  {
    hide ParseLine, StripCr, FieldLine, KeyOk;
    if |fields| > 1 {
      var lines := LinesOf(fields);
      assert lines[1..] == LinesOf(fields[1..]);
      ParseStrippedLines(fields[1..]);
      CrIsTrimmed(fields[0]);
      assert StrippedLines(lines)[1..] == StrippedLines(lines[1..]);
    }
  }

  /** What a reader makes of the fields. */
  function RereadAll(fields: Fields): Fields {
    seq(|fields|, i requires 0 <= i < |fields| => Reread(fields[i]))
  }

  lemma {:induction false} LinesReread(fields: Fields)
    requires forall i :: 0 <= i < |fields| ==> KeyOk(fields[i].key)
    ensures ParseLines(LinesOf(fields)) == RereadAll(fields)
  {
    hide ParseLine, FieldLine, KeyOk, Reread;
    if fields != [] {
      assert LinesOf(fields)[1..] == LinesOf(fields[1..]);
      LinesReread(fields[1..]);
      FieldRereads(fields[0]);
      assert RereadAll(fields) == [Reread(fields[0])] + RereadAll(fields[1..]);
    }
  }

  /** The text between the two dashed lines is read line by line. */
  lemma RenderedYamlRereads(fields: Fields)
    requires fields != [] && forall i :: 0 <= i < |fields| ==> Carriable(fields[i])
    ensures var text := Join(LinesOf(fields)); |text| > 1 && ParseYaml(text[..|text| - 1]) == RereadAll(fields)
  {
    var lines := LinesOf(fields);
    forall i | 0 <= i < |lines| ensures lines[i] != "" && '\n' !in lines[i] {
      LineIsWhole(fields[i]);
    }
    hide FieldLine, Reread, Lines, ParseLines, Join;
    LinesOfJoin(lines);
    ParseStrippedLines(fields);
    LinesReread(fields);
  }

  /** It reads back as the fields that were written exactly when every value survives. */
  lemma RenderedYamlReadsBackIff(fields: Fields)
    requires fields != [] && forall i :: 0 <= i < |fields| ==> Carriable(fields[i])
    ensures var text := Join(LinesOf(fields));
      |text| > 1 && (ParseYaml(text[..|text| - 1]) == fields <==> forall i :: 0 <= i < |fields| ==> Survives(fields[i]))
  {
    RenderedYamlRereads(fields);
    RereadAllIff(fields);
  }

  lemma RereadAllIff(fields: Fields)
    requires forall i :: 0 <= i < |fields| ==> KeyOk(fields[i].key)
    ensures RereadAll(fields) == fields <==> forall i :: 0 <= i < |fields| ==> Survives(fields[i])
  {
    hide Reread, Survives;
    forall i | 0 <= i < |fields| ensures Reread(fields[i]) == fields[i] <==> Survives(fields[i]) {
      FieldRoundTripIff(fields[i]);
    }
    if RereadAll(fields) == fields {
      assert forall i :: 0 <= i < |fields| ==> RereadAll(fields)[i] == fields[i];
    }
  }

  /** The written lines read back as the fields exactly when every value survives. */
  lemma LinesReadBackIff(fields: Fields)
    requires forall i :: 0 <= i < |fields| ==> KeyOk(fields[i].key)
    ensures ParseLines(LinesOf(fields)) == fields <==> forall i :: 0 <= i < |fields| ==> Survives(fields[i])
  {
    hide *;
    LinesReread(fields);
    RereadAllIff(fields);
  }

  lemma {:induction false} GetReread(fields: Fields, key: string)
    ensures Get(RereadAll(fields), key) ==
      match Get(fields, key) case None => None case Some(v) => Some(Reread(Field(key, v)).value)
  {
    hide Scalar, Unquote, Trim;
    if fields != [] {
      assert RereadAll(fields)[1..] == RereadAll(fields[1..]);
      GetReread(fields[1..], key);
    }
  }
}
