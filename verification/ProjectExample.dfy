/** A small project file that meets every condition of the round-trip theorem. */
module ProjectExample {
  import opened Results
  import opened Text
  import opened YamlScalar
  import opened Frontmatter
  import opened ProjectDocument
  import opened ProjectNormal
  import opened ProjectRoundTrip

  const ENV := Env("ab", true, "now")

  const FIELDS: Fields := [Field("id", "ab"), Field("title", "T"), Field("status", "done"), Field("updated_at", "x")]

  function CODEC(): Codec<bool> {
    Codec(b => if b then "1" else "0", s => if s == "1" then Some(true) else if s == "0" then Some(false) else None)
  }

  lemma Lookups()
    ensures Get(FIELDS, "id") == Some("ab") && Get(FIELDS, "title") == Some("T") &&
      Get(FIELDS, "status") == Some("done")
    ensures Get(FIELDS, "updated_at") == Some("x")
    ensures forall key :: key !in {"id", "title", "status", "updated_at"} ==> Get(FIELDS, key) == None
  {
    var f1, f2, f3 := FIELDS[1..], FIELDS[2..], FIELDS[3..];
    assert f1[1..] == f2 && f2[1..] == f3 && f3[1..] == [];
    assert forall key :: Get(f3, key) == if key == "updated_at" then Some("x") else None;
    assert forall key :: Get(f2, key) == if key == "status" then Some("done") else Get(f3, key);
    assert forall key :: Get(f1, key) == if key == "title" then Some("T") else Get(f2, key);
  }

  lemma Normal()
    ensures NormalizeProjectId("ab") == Some("ab") && NormalizeStatus("done") == Some("done") &&
      CleanText("T", 500) == Some("T")
  {
    TrimFixed("ab");
    TrimFixed("done");
    TrimFixed("T");
    assert AsciiLower("ab") == "ab" && AsciiLower("done") == "done";
    assert "T"[1..] == "" && WordEnd("T") == 1;
    assert CollapseWhitespace("T") == "T";
  }

  lemma IsSettled()
    ensures Settled(ENV, FIELDS)
  {
    Lookups();
    Normal();
  }

  lemma InOrder()
    ensures Canonical(FIELDS) == FIELDS
  {
    Lookups();
    assert KnownFields(FIELDS) == FIELDS;
    assert FirstOfEach(FIELDS, KNOWN) == [] by {
      NoneLeft(FIELDS);
    }
  }

  lemma {:induction false} NoneLeft(fields: Fields)
    requires forall i :: 0 <= i < |fields| ==> fields[i].key in KNOWN
    ensures FirstOfEach(fields, KNOWN) == []
  {
    if fields != [] {
      NoneLeft(fields[1..]);
    }
  }

  lemma PlainField(f: Field)
    requires f.key in KNOWN && f.key != "root_path" && KeyOk(f.key) && !("---" <= f.key)
    requires RawSafe(f.value) && '\n' !in f.value
    ensures Writable(f) && FieldLine(f) == f.key + ": " + f.value
  {
  }

  lemma PlainFields()
    ensures forall i :: 0 <= i < |FIELDS| ==>
      Writable(FIELDS[i]) && !("---" <= FIELDS[i].key) && FieldLine(FIELDS[i]) == FIELDS[i].key + ": " + FIELDS[i].value
  {
    hide Writable, FieldLine;
    PlainField(Field("id", "ab"));
    PlainField(Field("title", "T"));
    PlainField(Field("status", "done"));
    PlainField(Field("updated_at", "x"));
  }

  lemma IsCarried()
    ensures Delimited(FIELDS) && AllSurvive(FIELDS)
  {
    InOrder();
    PlainFields();
    hide Carriable, Survives, Canonical;
  }

  predicate NoTicks(s: string) {
    forall i :: 0 <= i < |s| ==> s[i] != '`'
  }

  lemma {:induction false} JoinNoTicks(lines: seq<string>)
    requires forall i :: 0 <= i < |lines| ==> NoTicks(lines[i])
    ensures NoTicks(Join(lines))
  {
    if lines != [] {
      JoinNoTicks(lines[1..]);
    }
  }

  lemma NoMarker(s: string)
    requires NoTicks(s)
    ensures Find(s, MARKER).None?
  {
    forall j: nat ensures !At(s, MARKER, j) {
      if j < |s| {
        NotAtChar(s, MARKER, j);
      }
    }
  }

  lemma LinesHaveNoTicks()
    ensures forall i :: 0 <= i < |LinesOf(FIELDS)| ==> NoTicks(LinesOf(FIELDS)[i])
  {
    PlainFields();
    hide FieldLine, Writable;
    forall i | 0 <= i < |FIELDS| ensures NoTicks(LinesOf(FIELDS)[i]) {
      assert NoTicks(FIELDS[i].key) && NoTicks(": ") && NoTicks(FIELDS[i].value);
    }
  }

  lemma HeadHasNoMarker()
    ensures NoTicks(Render(FIELDS)) && Find(Render(FIELDS), MARKER).None?
  {
    InOrder();
    LinesHaveNoTicks();
    JoinNoTicks(LinesOf(FIELDS));
    assert NoTicks("---\n");
    hide LinesOf, Join, Canonical, Find;
    NoMarker(Render(FIELDS));
  }

  lemma StateIsOk(state: bool)
    ensures StateOk(CODEC(), state)
  {
    var json := CODEC().encode(state);
    NoNewlineToFind(json);
    TrimFixed(json);
  }

  lemma IsReady(state: bool)
    ensures Ready(CODEC(), ENV, FIELDS, state)
  {
    hide Settled, Delimited, AllSurvive, StateOk, Render;
    IsSettled();
    IsCarried();
    HeadHasNoMarker();
    StateIsOk(state);
  }

  lemma MarkerBehind(head: string, rest: string)
    requires NoTicks(head)
    ensures NoneBefore(head + rest, MARKER, |head|)
  {
    forall j: nat | j < |head| ensures !At(head + rest, MARKER, j) {
      NotAtChar(head + rest, MARKER, j);
    }
  }

  /** The file that holds these fields and a state meets the conditions of `WriteReadsBack`, for any new state. */
  lemma ConditionsAreMet(state: bool, other: bool)
    ensures Ready(CODEC(), ENV, FIELDS, other)
    ensures var head, block := Render(FIELDS), BlockText(CODEC().encode(state));
      Edited(CODEC(), ENV, Doc(FIELDS, other, head + ("" + (block + "")), |head|, |head| + |block|),
             head, "", block, "")
  {
    IsReady(state);
    IsReady(other);
    HeadHasNoMarker();
    InOrder();
    hide ParseFrontmatter, ReadDoc, Render, BlockText, Ready, Canonical, NoneBefore, Find, NoTicks;
    var head, block := Render(FIELDS), BlockText(CODEC().encode(state));
    MarkerBehind(head, block);
    assert head + "" == head && block + "" == block;
    WrittenReadsBack(CODEC(), ENV, FIELDS, state, head, "", block, "");
  }
}
