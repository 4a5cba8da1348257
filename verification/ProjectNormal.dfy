/**
 What reading does to the values of the frontmatter (devboule-mcp/src/project_file.rs): ids, titles and statuses are
 normalized, and exactly which values are left alone.
 */
module ProjectNormal {
  import opened Results
  import opened Text
  import opened YamlScalar
  import opened Frontmatter
  import opened ProjectDocument

  // ----- ids and statuses

  /** Lower-case letters, digits and hyphens need no quotes and no trimming. */
  lemma IdCharsAreSafe(v: string)
    requires forall i :: 0 <= i < |v| ==> IsIdChar(v[i])
    ensures RawSafe(v) && Trim(v) == v && AsciiLower(v) == v
  {
    TrimFixed(v);
  }

  lemma NormalIdFixed(v: string)
    ensures var id := NormalizeProjectId(v);
      id.Some? ==> NormalizeProjectId(id.value) == id && forall i :: 0 <= i < |id.value| ==> IsIdChar(id.value[i])
  {
    var id := NormalizeProjectId(v);
    if id.Some? {
      IdCharsAreSafe(id.value);
    }
  }

  lemma NormalStatusFixed(v: string)
    ensures var status := NormalizeStatus(v);
      status.Some? ==>
        && NormalizeStatus(status.value) == status
        && forall i :: 0 <= i < |status.value| ==> IsIdChar(status.value[i])
  {
    var status := NormalizeStatus(v);
    if status.Some? {
      StatusesAreIdChars();
      IdCharsAreSafe(status.value);
    }
  }

  lemma StatusesAreIdChars()
    ensures forall s :: s in {"active", "paused", "done", "archived", "draft"} ==>
      forall i :: 0 <= i < |s| ==> IsIdChar(s[i])
  {
  }

  // ----- titles

  /** Single blanks between words, and perhaps one at the end. */
  predicate Tidy(s: string) {
    forall i :: 0 <= i < |s| && IsWhitespace(s[i]) ==> s[i] == ' ' && i > 0 && (i + 1 < |s| ==> !IsWhitespace(s[i + 1]))
  }

  lemma {:induction false} WordIsWhole(s: string)
    ensures forall i :: 0 <= i < WordEnd(s) ==> !IsWhitespace(s[i])
    ensures WordEnd(s) < |s| ==> IsWhitespace(s[WordEnd(s)])
    decreases |s|
  {
    if s != [] && !IsWhitespace(s[0]) {
      WordIsWhole(s[1..]);
      assert forall i :: 0 < i < WordEnd(s) ==> s[i] == s[1..][i - 1];
    }
  }

  lemma TidyJoin(word: string, rest: string)
    requires word != [] && forall i :: 0 <= i < |word| ==> !IsWhitespace(word[i])
    requires Tidy(rest) && Trimmed(rest)
    ensures var s := word + (if rest == [] then [] else " " + rest); Tidy(s) && Trimmed(s)
  {
    var s := word + (if rest == [] then [] else " " + rest);
    assert word[|word| - 1] == s[|word| - 1];
    if rest != [] {
      assert s == word + " " + rest && s[|s| - 1] == rest[|rest| - 1];
      forall i | 0 <= i < |s| && IsWhitespace(s[i])
          ensures s[i] == ' ' && i > 0 && (i + 1 < |s| ==> !IsWhitespace(s[i + 1])) {
        if i > |word| {
          assert s[i] == rest[i - |word| - 1];
          assert i + 1 < |s| ==> s[i + 1] == rest[i - |word|];
        }
      }
    }
  }

  lemma {:induction false} CollapseIsTidy(s: string)
    ensures Tidy(CollapseWhitespace(s)) && Trimmed(CollapseWhitespace(s))
    decreases |s|
  {
    if s != [] {
      if IsWhitespace(s[0]) {
        CollapseIsTidy(s[1..]);
      } else {
        var n := WordEnd(s);
        WordIsWhole(s);
        CollapseIsTidy(s[n..]);
        TidyJoin(s[..n], CollapseWhitespace(s[n..]));
      }
    }
  }

  lemma {:induction false} CollapseNeverGrows(s: string)
    ensures |CollapseWhitespace(s)| <= |s|
    decreases |s|
  {
    if s != [] {
      if IsWhitespace(s[0]) {
        CollapseNeverGrows(s[1..]);
      } else {
        var n := WordEnd(s);
        WordIsWhole(s);
        CollapseNeverGrows(s[n..]);
        if n < |s| {
          CollapseNeverGrows(s[n + 1..]);
          assert s[n..][1..] == s[n + 1..];
        }
      }
    }
  }

  lemma TidyParts(s: string, n: nat)
    requires Tidy(s) && n < |s| && IsWhitespace(s[n])
    ensures s[n] == ' ' && Tidy(s[n + 1..]) && (n + 1 < |s| ==> !IsWhitespace(s[n + 1]))
    ensures s == s[..n] + (" " + s[n + 1..])
  {
    var rest := s[n + 1..];
    forall i | 0 <= i < |rest| && IsWhitespace(rest[i])
        ensures rest[i] == ' ' && i > 0 && (i + 1 < |rest| ==> !IsWhitespace(rest[i + 1])) {
      assert rest[i] == s[n + 1 + i];
    }
  }

  /** The text without a blank at its end. */
  function Chop(s: string): string {
    if s != [] && IsWhitespace(s[|s| - 1]) then s[..|s| - 1] else s
  }

  lemma ChopWord(word: string)
    ensures Chop(word + " ") == word
  {
    assert (word + " ")[..|word|] == word;
  }

  lemma ChopBehind(word: string, rest: string)
    requires rest != []
    ensures Chop(word + (" " + rest)) == word + (" " + Chop(rest))
  {
    var s := word + (" " + rest);
    assert s[|s| - 1] == rest[|rest| - 1];
    assert s[..|s| - 1] == word + (" " + rest[..|rest| - 1]);
  }

  lemma ChopStays(rest: string)
    requires rest != [] && !IsWhitespace(rest[0])
    ensures Chop(rest) != []
  {
  }

  /** Collapsing a tidy text takes off a blank at its end and changes nothing else. */
  lemma {:induction false} CollapseTidy(s: string)
    requires Tidy(s)
    ensures CollapseWhitespace(s) == Chop(s)
    decreases |s|
  {
    if s != [] {
      var n := WordEnd(s);
      WordIsWhole(s);
      if n < |s| {
        TidyParts(s, n);
        var word, rest := s[..n], s[n + 1..];
        CollapseTidy(rest);
        CollapseWord(s, n, rest);
        hide *;
        if rest == [] {
          ChopWord(word);
          assert " " + rest == " ";
        } else {
          ChopBehind(word, rest);
          ChopStays(rest);
        }
      } else {
        assert s[..n] == s && s[n..] == [];
      }
    }
  }

  lemma CollapseWord(s: string, n: nat, rest: string)
    requires 0 < n < |s| && n == WordEnd(s) && !IsWhitespace(s[0]) && IsWhitespace(s[n]) && rest == s[n + 1..]
    ensures CollapseWhitespace(s) == var c := CollapseWhitespace(rest); if c == [] then s[..n] else s[..n] + (" " + c)
  {
    assert s[n..][1..] == rest;
    assert s[..n] + [] == s[..n];
  }

  lemma CleanTextShape(value: string, limit: nat)
    ensures var all := CollapseWhitespace(value);
      CleanText(value, limit) == if all == "" then None else Some(if |all| <= limit then all else all[..limit])
  {
    CollapseIsTidy(value);
    TrimFixed(CollapseWhitespace(value));
  }

  lemma CleanTextNeverGrows(value: string, limit: nat)
    ensures CleanText(value, limit).Some? ==> |CleanText(value, limit).value| <= |value|
  {
    CleanTextShape(value, limit);
    CollapseNeverGrows(value);
  }

  /** A cleaned text is clean exactly when it does not end in a blank. */
  lemma CleanTextFixedIff(value: string, limit: nat)
    requires limit > 0
    ensures var t := CleanText(value, limit);
      t.Some? ==> (CleanText(t.value, limit) == t <==> Trimmed(t.value))
  {
    var all := CollapseWhitespace(value);
    CollapseIsTidy(value);
    CleanTextShape(value, limit);
    if all != "" {
      var t := if |all| <= limit then all else all[..limit];
      assert Tidy(t);
      CollapseTidy(t);
      CleanTextShape(t, limit);
      assert !IsWhitespace(t[0]);
    }
  }

  /** And it ends in one exactly when it was cut behind a blank. */
  lemma CutBehindBlankIff(value: string, limit: nat)
    requires limit > 0 && CleanText(value, limit).Some?
    ensures var all := CollapseWhitespace(value);
      !Trimmed(CleanText(value, limit).value) <==> |all| > limit && all[limit - 1] == ' '
  {
    CollapseIsTidy(value);
    CleanTextShape(value, limit);
    var all := CollapseWhitespace(value);
    assert all != "" && !IsWhitespace(all[0]);
  }

  lemma WordIsClean(word: string, limit: nat)
    requires word != "" && |word| <= limit && forall i :: 0 <= i < |word| ==> !IsWhitespace(word[i])
    ensures CleanText(word, limit) == Some(word) && Trimmed(word)
  {
    CollapseTidy(word);
    CleanTextShape(word, limit);
  }

  // ----- the metadata as a whole

  /** Values that normalizing leaves alone. */
  predicate Settled(env: Env, fields: Fields) {
    && Get(fields, "id").Some? && Get(fields, "title").Some? && Get(fields, "status").Some?
    && NormalizeProjectId(env.stem).Some? && NormalizeProjectId(Id(fields)) == Some(Id(fields))
    && (env.onDisk ==> NormalizeProjectId(env.stem) == Some(Id(fields)))
    && CleanText(Title(fields), 500) == Some(Title(fields))
    && NormalizeStatus(Status(fields)) == Some(Status(fields))
  }

  lemma {:induction false} SetSame(fields: Fields, key: string, value: string)
    requires Get(fields, key) == Some(value)
    ensures Set(fields, key, value) == fields
  {
    if fields != [] && fields[0].key != key {
      SetSame(fields[1..], key, value);
    }
  }

  lemma StampKeeps(env: Env, fields: Fields, key: string)
    requires key !in {"updated_at", "updatedAt"}
    ensures Get(Stamped(env, fields), key) == Get(fields, key)
  {
    match Get(fields, "updatedAt")
    case None =>
      GetAfterSet(fields, "updated_at", env.now, key);
    case Some(at) =>
      GetAfterSet(fields, "updated_at", at, key);
      GetAfterRemove(Set(fields, "updated_at", at), "updatedAt", key);
  }

  function Required(raw: Fields, id: string, title: string, status: string): Fields {
    Set(Set(Set(raw, "id", id), "title", title), "status", status)
  }

  lemma GetRequired(raw: Fields, id: string, title: string, status: string, key: string)
    ensures Get(Required(raw, id, title, status), key) ==
      if key == "id" then Some(id) else if key == "title" then Some(title)
      else if key == "status" then Some(status) else Get(raw, key)
  {
    hide Get, Set;
    var f1 := Set(raw, "id", id);
    GetAfterSet(raw, "id", id, key);
    GetAfterSet(f1, "title", title, key);
    GetAfterSet(Set(f1, "title", title), "status", status, key);
  }

  /** The three required values that normalizing computes. */
  predicate Computes(env: Env, raw: Fields, id: string, title: string, status: string) {
    && NormalizeProjectId(env.stem).Some? && NormalizeProjectId(GetOr(Get(raw, "id"), env.stem)) == Some(id)
    && (env.onDisk ==> NormalizeProjectId(env.stem) == Some(id))
    && CleanText(GetOr(Get(raw, "title"), id), 500) == Some(title)
    && NormalizeStatus(GetOr(Get(raw, "status"), "active")) == Some(status)
  }

  lemma NormalizedValues(env: Env, raw: Fields) returns (id: string, title: string, status: string)
    requires Normalized(env, raw).Ok?
    ensures Computes(env, raw, id, title, status)
    ensures Normalized(env, raw).value == Stamped(env, Required(raw, id, title, status))
  {
    hide Get, Set, Stamped, NormalizeProjectId, CleanText, NormalizeStatus;
    id := NormalizeProjectId(GetOr(Get(raw, "id"), env.stem)).value;
    var f1 := Set(raw, "id", id);
    GetAfterSet(raw, "id", id, "title");
    title := CleanText(GetOr(Get(f1, "title"), id), 500).value;
    GetAfterSet(raw, "id", id, "status");
    GetAfterSet(f1, "title", title, "status");
    status := NormalizeStatus(GetOr(Get(Set(f1, "title", title), "status"), "active")).value;
  }

  /** The three required keys, as normalizing leaves them. */
  lemma NormalizedLookups(env: Env, raw: Fields) returns (id: string, title: string, status: string)
    requires Normalized(env, raw).Ok?
    ensures Computes(env, raw, id, title, status)
    ensures var fields := Normalized(env, raw).value;
      && Get(fields, "id") == Some(id) && Get(fields, "title") == Some(title) && Get(fields, "status") == Some(status)
      && (Get(raw, "updated_at").Some? ==> fields == Required(raw, id, title, status))
  {
    hide Normalized, Required, Computes, Get, Set;
    id, title, status := NormalizedValues(env, raw);
    var required := Required(raw, id, title, status);
    GetRequired(raw, id, title, status, "id");
    GetRequired(raw, id, title, status, "title");
    GetRequired(raw, id, title, status, "status");
    GetRequired(raw, id, title, status, "updated_at");
    StampKeeps(env, required, "id");
    StampKeeps(env, required, "title");
    StampKeeps(env, required, "status");
  }

  /** Metadata that was just read is settled exactly when its title does not end in a blank, that is, when the title
      was not cut behind one. */
  lemma ReadSettledIff(env: Env, raw: Fields)
    requires Normalized(env, raw).Ok?
    ensures var fields := Normalized(env, raw).value; Settled(env, fields) <==> Trimmed(Title(fields))
  {
    var id, title, status := NormalizedLookups(env, raw);
    NormalIdFixed(GetOr(Get(raw, "id"), env.stem));
    NormalStatusFixed(GetOr(Get(raw, "status"), "active"));
    CleanTextFixedIff(GetOr(Get(raw, "title"), id), 500);
    hide NormalizeProjectId, CleanText, NormalizeStatus, Normalized, Trimmed;
  }

  /** Normalizing fields in canonical order leaves settled ones alone. */
  lemma CanonicalIsNormal(env: Env, fields: Fields)
    requires Settled(env, fields)
    ensures Normalized(env, Canonical(fields)) == Ok(Canonical(fields))
  {
    var written := Canonical(fields);
    forall key | key in {"id", "title", "status", "updated_at"} ensures Get(written, key) ==
        if key == "updated_at" then Some(UpdatedAt(fields)) else Get(fields, key) {
      GetCanonical(fields, key);
      GetKnownFields(fields, key);
    }
    SetSame(written, "id", Id(fields));
    SetSame(written, "title", Title(fields));
    SetSame(written, "status", Status(fields));
    hide NormalizeProjectId, CleanText, NormalizeStatus, Canonical, Set;
  }

  /** Rereading a required value and normalizing it cannot make up for a value that does not survive: only one that
      survives comes back. */
  lemma RequiredSurvives(key: string, value: string)
    requires key in {"id", "title", "status"}
    requires var read := Reread(Field(key, value)).value;
      if key == "id" then NormalizeProjectId(read) == Some(value)
      else if key == "title" then CleanText(read, 500) == Some(value)
      else NormalizeStatus(read) == Some(value)
    ensures Reread(Field(key, value)).value == value
  {
    var read := Unquote(Trim(value));
    assert Reread(Field(key, value)).value == read;
    if key == "title" {
      CleanTextNeverGrows(read, 500);
      UnquoteNeverGrows(Trim(value));
      TrimShortens(value);
    } else {
      NormalIdFixed(read);
      NormalStatusFixed(read);
      IdCharsAreSafe(value);
      UnquoteFixed(value);
    }
  }

  /** When normalizing what was reread gives the written fields, nothing was lost in rereading. */
  lemma NormalMeansReread(env: Env, fields: Fields)
    requires Normalized(env, RereadAll(Canonical(fields))) == Ok(Canonical(fields))
    ensures RereadAll(Canonical(fields)) == Canonical(fields) && Settled(env, fields)
  {
    var written := Canonical(fields);
    var read := RereadAll(written);
    forall key
        ensures Get(read, key) == match Get(written, key)
          case None => None
          case Some(v) => Some(Reread(Field(key, v)).value) {
      GetReread(written, key);
    }
    forall key | key in {"id", "title", "status", "updated_at"} ensures Get(written, key) ==
        if key == "updated_at" then Some(UpdatedAt(fields)) else Get(fields, key) {
      GetCanonical(fields, key);
      GetKnownFields(fields, key);
    }
    var id, title, status := NormalizedLookups(env, read);
    hide Canonical, RereadAll, Reread, NormalizeProjectId, CleanText, NormalizeStatus, Normalized;
    RequiredSurvives("id", Get(written, "id").value);
    RequiredSurvives("title", Get(written, "title").value);
    RequiredSurvives("status", Get(written, "status").value);
    SetSame(read, "id", Get(written, "id").value);
    SetSame(read, "title", Get(written, "title").value);
    SetSame(read, "status", Get(written, "status").value);
  }

  lemma RereadIsNormalIff(env: Env, fields: Fields)
    requires forall i :: 0 <= i < |Canonical(fields)| ==> KeyOk(Canonical(fields)[i].key)
    ensures Normalized(env, RereadAll(Canonical(fields))) == Ok(Canonical(fields)) <==>
      Settled(env, fields) && forall i :: 0 <= i < |Canonical(fields)| ==> Survives(Canonical(fields)[i])
  {
    hide Canonical, Survives, Settled, Normalized, RereadAll;
    RereadAllIff(Canonical(fields));
    if Settled(env, fields) {
      CanonicalIsNormal(env, fields);
    }
    if Normalized(env, RereadAll(Canonical(fields))) == Ok(Canonical(fields)) {
      NormalMeansReread(env, fields);
    }
  }

  // ----- values that do not come back

  /** A title with two blanks in a row survives its line, but reading collapses them. */
  lemma BlanksCollapse()
    ensures Survives(Field("title", "a  b")) && CleanText("a  b", 500) == Some("a b")
  {
    var s, rest := "a  b", " b";
    assert s[1..] == "  b" && s[1..][1..] == rest && rest[1..] == "b" && "b"[1..] == "";
    assert WordEnd("b") == 1 && CollapseWhitespace("b") == "b";
    assert CollapseWhitespace("  b") == CollapseWhitespace(rest) == CollapseWhitespace("b");
    assert WordEnd(s) == 1 && CollapseWhitespace(s) == "a" + (" " + "b") == "a b";
    TrimFixed("a b");
  }

  /** A long title that is cut behind a blank is read with the blank, and loses it when it is read again. */
  lemma CutTitleChanges(word: string)
    requires |word| == 499 && forall i :: 0 <= i < |word| ==> !IsWhitespace(word[i])
    ensures CleanText(word + " b", 500) == Some(word + " ") && CleanText(word + " ", 500) == Some(word)
  {
    var long, cut := word + " b", word + " ";
    assert Tidy(long) && Tidy(cut);
    CollapseTidy(long);
    CollapseTidy(cut);
    CleanTextShape(long, 500);
    CleanTextShape(cut, 500);
    assert long[..500] == cut && cut[..499] == word;
  }
}
