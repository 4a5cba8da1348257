/**
 The loops and buffers of the project file code (devboule-mcp/src/project_file.rs), each tied to the function
 that the round-trip theorems are about.
 */
module ProjectFile {
  import opened Results
  import opened Text
  import opened YamlScalar
  import F = Frontmatter
  import opened ProjectDocument

  // ----- appending one element to the recursive functions

  lemma {:induction false} RemoveAppend(a: F.Fields, f: Field, key: string)
    ensures F.Remove(a + [f], key) == F.Remove(a, key) + (if f.key == key then [] else [f])
  {
    if a != [] {
      assert (a + [f])[1..] == a[1..] + [f];
      RemoveAppend(a[1..], f, key);
    }
  }

  lemma {:induction false} SetAt(fields: F.Fields, key: string, value: string, i: nat)
    requires i <= |fields| && (i < |fields| ==> fields[i].key == key)
    requires forall j :: 0 <= j < i ==> fields[j].key != key
    ensures F.Set(fields, key, value)
      == fields[..i] + [Field(key, value)] + (if i < |fields| then fields[i + 1..] else [])
  {
    if i > 0 {
      SetAt(fields[1..], key, value, i - 1);
      assert fields[..i] == [fields[0]] + fields[1..][..i - 1];
    }
  }

  lemma {:induction false} ParseLinesAppend(a: seq<string>, line: string)
    ensures F.ParseLines(a + [line]) == F.ParseLines(a) + (var f := ParseLine(line); if f.Some? then [f.value] else [])
  {
    hide ParseLine;
    if a != [] {
      assert (a + [line])[1..] == a[1..] + [line];
      ParseLinesAppend(a[1..], line);
    }
  }

  lemma {:induction false} JoinAppend(a: seq<string>, line: string)
    ensures Join(a + [line]) == Join(a) + line + "\n"
  {
    if a != [] {
      assert (a + [line])[1..] == a[1..] + [line];
      JoinAppend(a[1..], line);
    }
  }

  lemma {:induction false} FirstOfEachAppendOne(a: F.Fields, f: Field, seen: set<string>)
    ensures F.FirstOfEach(a + [f], seen) ==
      F.FirstOfEach(a, seen) + (if f.key in seen || exists j :: 0 <= j < |a| && a[j].key == f.key then [] else [f])
  {
    if a != [] {
      assert (a + [f])[1..] == a[1..] + [f];
      var wider := if a[0].key in seen then seen else seen + {a[0].key};
      FirstOfEachAppendOne(a[1..], f, wider);
      assert forall j :: 0 <= j < |a| - 1 ==> a[1..][j].key == a[j + 1].key;
    }
  }

  // ----- the metadata object

  class Metadata {
    var fields: F.Fields

    constructor (fields: F.Fields)
      ensures this.fields == fields
    {
      this.fields := fields;
    }

    method Set(key: string, value: string)
      modifies this
      ensures fields == F.Set(old(fields), key, value)
    {
      var i := 0;
      while i < |fields| && fields[i].key != key
        invariant i <= |fields| && fields == old(fields)
        invariant forall j :: 0 <= j < i ==> fields[j].key != key
      {
        i := i + 1;
      }
      SetAt(fields, key, value, i);
      if i < |fields| {
        fields := fields[i := Field(key, value)];
      } else {
        fields := fields + [Field(key, value)];
      }
    }

    method Remove(key: string)
      modifies this
      ensures fields == F.Remove(old(fields), key)
    {
      var kept: F.Fields := [];
      for i := 0 to |fields|
        invariant fields == old(fields) && kept == F.Remove(fields[..i], key)
      {
        assert fields[..i + 1] == fields[..i] + [fields[i]];
        RemoveAppend(fields[..i], fields[i], key);
        if fields[i].key != key {
          kept := kept + [fields[i]];
        }
      }
      assert fields[..|fields|] == fields;
      fields := kept;
    }

    /** `render_frontmatter`: a text buffer, and the set of keys already emitted. */
    method Render() returns (out: string)
      ensures out == F.Render(fields)
    {
      hide F.FieldLine, F.KnownFields, F.FirstOfEach;
      ghost var done: F.Fields;
      var emitted: set<string>;
      out, emitted, done := RenderKnown();
      out, done := RenderRest(out, emitted, done);
      out := out + "---\n";
    }

    method RenderKnown() returns (out: string, emitted: set<string>, ghost done: F.Fields)
      ensures done == F.KnownFields(fields) && Emitted(out, done)
      ensures forall i :: 0 <= i < |fields| ==> (fields[i].key in emitted <==> fields[i].key in F.KNOWN)
    {
      hide Emitted, F.Get, F.UpdatedAt, F.RootPath, F.CensorTrusted, F.Present;
      out, emitted, done := "---\n", {}, [];
      NothingEmitted();
      out, emitted, done := EmitPresent(out, "id", F.Get(fields, "id"), emitted, done);
      out, emitted, done := EmitPresent(out, "title", F.Get(fields, "title"), emitted, done);
      out, emitted, done := EmitPresent(out, "status", F.Get(fields, "status"), emitted, done);
      out, emitted, done := Emit(out, Field("updated_at", F.UpdatedAt(fields)), emitted, done);
      emitted := emitted + {"updatedAt"};
      out, emitted, done := EmitPresent(out, "root_path", F.RootPath(fields), emitted, done);
      emitted := emitted + {"root_path", "rootPath", "root"};
      if F.CensorTrusted(fields) {
        out, emitted, done := Emit(out, Field("censor_trusted", "true"), emitted, done);
      }
      emitted := emitted + {"censor_trusted", "censorTrusted"};
      assert done == F.KnownFields(fields);
      EmittedKnown(fields, emitted);
    }

    static method EmitPresent(out: string, key: string, value: Option<string>, emitted: set<string>,
                              ghost done: F.Fields)
      returns (longer: string, more: set<string>, ghost written: F.Fields)
      requires Emitted(out, done)
      ensures written == done + F.Present(key, value) && Emitted(longer, written)
      ensures more == if value.Some? then emitted + {key} else emitted
    {
      hide Emitted;
      longer, more, written := out, emitted, done;
      if value.Some? {
        longer, more, written := Emit(out, Field(key, value.value), emitted, done);
      }
    }

    method RenderRest(start: string, known: set<string>, ghost before: F.Fields)
      returns (out: string, ghost done: F.Fields)
      requires Emitted(start, before)
      requires forall i :: 0 <= i < |fields| ==> (fields[i].key in known <==> fields[i].key in F.KNOWN)
      ensures done == before + F.FirstOfEach(fields, F.KNOWN) && Emitted(out, done)
    {
      hide Emitted, F.FirstOfEach;
      out, done := start, before;
      assert F.FirstOfEach(fields[..0], F.KNOWN) == [] by {
        NoneOfEach(F.KNOWN);
      }
      var emitted := known;
      for i := 0 to |fields|
        invariant done == before + F.FirstOfEach(fields[..i], F.KNOWN) && Emitted(out, done)
        invariant emitted == known + set j | 0 <= j < i :: fields[j].key
      {
        var f := fields[i];
        NextOfEach(fields, i, known, emitted);
        if f.key !in emitted {
          out, emitted, done := Emit(out, f, emitted, done);
        }
      }
      assert fields[..|fields|] == fields;
    }

    static method Emit(out: string, f: Field, emitted: set<string>, ghost done: F.Fields)
      returns (longer: string, more: set<string>, ghost written: F.Fields)
      requires Emitted(out, done)
      ensures written == done + [f] && Emitted(longer, written)
      ensures more == emitted + {f.key}
    {
      hide F.FieldLine;
      longer := out + F.FieldLine(f) + "\n";
      more, written := emitted + {f.key}, done + [f];
      assert F.LinesOf(written) == F.LinesOf(done) + [F.FieldLine(f)];
      JoinAppend(F.LinesOf(done), F.FieldLine(f));
    }
  }

  /** The buffer holds the opening dashes and the lines of the fields written so far. */
  predicate Emitted(out: string, done: F.Fields) {
    out == "---\n" + Join(F.LinesOf(done))
  }

  lemma NothingEmitted()
    ensures Emitted("---\n", [])
  {
  }

  lemma NoneOfEach(seen: set<string>)
    ensures F.FirstOfEach([], seen) == []
  {
  }

  /** Field `i` is the first of its key exactly when its key was not emitted before. */
  lemma NextOfEach(fields: F.Fields, i: nat, known: set<string>, emitted: set<string>)
    requires i < |fields|
    requires fields[i].key in known <==> fields[i].key in F.KNOWN
    requires emitted == known + set j | 0 <= j < i :: fields[j].key
    ensures F.FirstOfEach(fields[..i + 1], F.KNOWN) ==
      F.FirstOfEach(fields[..i], F.KNOWN) + (if fields[i].key in emitted then [] else [fields[i]])
  {
    hide F.FirstOfEach;
    var f := fields[i];
    assert fields[..i + 1] == fields[..i] + [f];
    FirstOfEachAppendOne(fields[..i], f, F.KNOWN);
    assert forall j :: 0 <= j < i ==> fields[..i][j] == fields[j];
  }

  lemma {:induction false} AbsentKey(fields: F.Fields, key: string)
    requires F.Get(fields, key).None?
    ensures forall i :: 0 <= i < |fields| ==> fields[i].key != key
  {
    if fields != [] {
      AbsentKey(fields[1..], key);
      assert forall i :: 0 < i < |fields| ==> fields[i] == fields[1..][i - 1];
    }
  }

  /** A known key that was not emitted is not there either. */
  lemma EmittedKnown(fields: F.Fields, emitted: set<string>)
    requires emitted <= F.KNOWN
    requires forall key :: key in F.KNOWN && key !in emitted ==> F.Get(fields, key).None?
    ensures forall i :: 0 <= i < |fields| ==> (fields[i].key in emitted <==> fields[i].key in F.KNOWN)
  {
    forall i | 0 <= i < |fields| && fields[i].key in F.KNOWN ensures fields[i].key in emitted {
      if fields[i].key !in emitted {
        AbsentKey(fields, fields[i].key);
      }
    }
  }

  // ----- parsing

  method ParseSimpleYaml(raw: string) returns (fields: F.Fields)
    ensures fields == F.ParseYaml(raw)
  {
    fields := [];
    var lines := Lines(raw);
    for i := 0 to |lines|
      invariant fields == F.ParseLines(lines[..i])
    {
      assert lines[..i + 1] == lines[..i] + [lines[i]];
      ParseLinesAppend(lines[..i], lines[i]);
      var f := ParseLine(lines[i]);
      if f.Some? {
        fields := fields + [f.value];
      }
    }
    assert lines[..|lines|] == lines;
  }

  /** Places counted from a later start. */
  function ShiftBy(r: Option<(nat, nat)>, k: nat): Option<(nat, nat)> {
    match r
    case None => None
    case Some((a, b)) => Some((k + a, k + b))
  }

  lemma ShiftTwice(r: Option<(nat, nat)>, i: nat, k: nat)
    ensures ShiftBy(ShiftBy(r, i), k) == ShiftBy(r, k + i)
  {
  }

  /** One line of the search from the cursor on. */
  lemma CloseFrom(content: string, cursor: nat, n: nat)
    requires cursor < |content| && n == LineLength(content[cursor..])
    ensures 0 < n && cursor + n <= |content|
    ensures ShiftBy(CloseLine(content[cursor..]), cursor) ==
      if Trim(content[cursor..cursor + n]) == FENCE then Some((cursor, cursor + n))
      else ShiftBy(CloseLine(content[cursor + n..]), cursor + n)
  {
    hide Find, Trim, LineLength;
    var s := content[cursor..];
    assert s[..n] == content[cursor..cursor + n] && s[n..] == content[cursor + n..];
    ShiftTwice(CloseLine(content[cursor + n..]), n, cursor);
  }

  lemma NothingCloses()
    ensures CloseLine("").None?
  {
  }

  /** The moving cursor of `find_state_block`: the first line from `body` on that is just a fence. */
  method FindClose(content: string, body: nat) returns (r: Option<(nat, nat)>)
    requires body <= |content|
    ensures r == ShiftBy(CloseLine(content[body..]), body)
  {
    hide Find, Trim, CloseLine, LineLength, ShiftBy;
    var cursor := body;
    while cursor < |content|
      invariant body <= cursor <= |content|
      invariant ShiftBy(CloseLine(content[body..]), body) == ShiftBy(CloseLine(content[cursor..]), cursor)
    {
      var lineStart := cursor;
      var n := LineLength(content[cursor..]);
      CloseFrom(content, lineStart, n);
      cursor := cursor + n;
      if Trim(content[lineStart..cursor]) == FENCE {
        return Some((lineStart, cursor));
      }
    }
    assert content[cursor..] == "";
    NothingCloses();
    r := None;
    assert ShiftBy(None, cursor) == None by { ShiftNothing(cursor); }
  }

  lemma ShiftNothing(k: nat)
    ensures ShiftBy(None, k) == None
  {
  }

  method FindStateBlock<S>(codec: Codec<S>, content: string) returns (r: Result<Block<S>, Error>)
    ensures r == StateBlock(codec, content)
  {
    hide CloseLine, Trim, Find;
    var start := Find(content, MARKER);
    if start.None? {
      return Err(MissingBlock);
    }
    var nl := Find(content[start.value..], "\n");
    if nl.None? {
      return Err(MalformedBlock);
    }
    var body := start.value + nl.value + 1;
    var close := FindClose(content, body);
    if close.None? {
      return Err(UnclosedBlock);
    }
    var state := codec.decode(Trim(content[body..close.value.0]));
    return if state.None? then Err(BadState) else Ok(Block(state.value, start.value, close.value.1));
  }

  // ----- the two file operations

  method ReadProjectFile<S>(codec: Codec<S>, env: Env, content: string) returns (r: Result<Doc<S>, Error>)
    ensures r == ReadDoc(codec, env, content)
  {
    var fm := ParseFrontmatter(env, content);
    if fm.Err? {
      return Err(fm.error);
    }
    var block := FindStateBlock(codec, content);
    if block.Err? {
      return Err(block.error);
    }
    return Ok(Doc(fm.value.0, block.value.state, content, block.value.start, block.value.end));
  }

  /** The new text of the file, and the document that the final re-read returns. */
  method WriteProjectFile<S>(codec: Codec<S>, env: Env, doc: Doc<S>) returns (text: string, r: Result<Doc<S>, Error>)
    requires doc.start <= doc.end <= |doc.markdown|
    ensures match WriteContent(codec, env, doc)
      case Err(e) => r == Err(e) && text == doc.markdown
      case Ok(content) => text == content && r == ReadDoc(codec, env, content)
  {
    hide ParseFrontmatter, BlockText, ReadDoc, F.Render;
    var content := "";
    content := content + doc.markdown[..doc.start];
    content := content + BlockText(codec.encode(doc.state));
    content := content + doc.markdown[doc.end..];
    assert content == doc.markdown[..doc.start] + BlockText(codec.encode(doc.state)) + doc.markdown[doc.end..];
    var fm := ParseFrontmatter(env, content);
    if fm.Err? {
      return doc.markdown, Err(fm.error);
    }
    var metadata := new Metadata(doc.fields);
    var head := metadata.Render();
    text := head + content[fm.value.1..];
    r := ReadProjectFile(codec, env, text);
  }
}
