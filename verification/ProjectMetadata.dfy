/**
 The metadata that a reader gets for the frontmatter of a file (devboule-mcp/src/project_file.rs:295-327): key by key,
 and when there is any.
 */
module ProjectMetadata {
  import opened Results
  import opened Text
  import opened Frontmatter
  import opened ProjectDocument
  import opened ProjectNormal

  /** Reading succeeds exactly when the file name and the id are ids, the same one for a file on disk, the title has a
      word, and the status is one of the five. */
  lemma MetadataIsReadIff(env: Env, raw: Fields)
    ensures var stem, id := NormalizeProjectId(env.stem), NormalizeProjectId(GetOr(Get(raw, "id"), env.stem));
      Normalized(env, raw).Ok? <==>
        && stem.Some? && id.Some? && (env.onDisk ==> id == stem)
        && CleanText(GetOr(Get(raw, "title"), id.value), 500).Some?
        && NormalizeStatus(GetOr(Get(raw, "status"), "active")).Some?
  {
    hide Get, Set, Stamped, NormalizeProjectId, CleanText, NormalizeStatus;
    var id := NormalizeProjectId(GetOr(Get(raw, "id"), env.stem));
    if id.Some? {
      var f1 := Set(raw, "id", id.value);
      GetAfterSet(raw, "id", id.value, "title");
      GetAfterSet(raw, "id", id.value, "status");
      forall title ensures Get(Set(f1, "title", title), "status") == Get(raw, "status") {
        GetAfterSet(f1, "title", title, "status");
      }
    }
  }

  /** The time stamp keeps its value under its own key; one of the old key moves there; else it is now. */
  lemma StampLookups(env: Env, fields: Fields, key: string)
    ensures Get(Stamped(env, fields), key) ==
      if key == "updated_at" then Some(GetOr(OrElse(Get(fields, key), Get(fields, "updatedAt")), env.now))
      else if key == "updatedAt" && Get(fields, "updated_at").None? then None
      else Get(fields, key)
  {
    hide Get, Set, Remove;
    if Get(fields, "updated_at").None? {
      match Get(fields, "updatedAt")
      case None =>
        GetAfterSet(fields, "updated_at", env.now, key);
      case Some(at) =>
        GetAfterSet(fields, "updated_at", at, key);
        GetAfterRemove(Set(fields, "updated_at", at), "updatedAt", key);
    }
  }

  /** What each key looks up as after reading: the three required ones are computed, a time stamp is never lost and
      never replaced, and every other key keeps its value. */
  lemma MetadataLookups(env: Env, raw: Fields, key: string) returns (id: string, title: string, status: string)
    requires Normalized(env, raw).Ok?
    ensures Computes(env, raw, id, title, status)
    ensures Get(Normalized(env, raw).value, key) ==
      match key
      case "id" => Some(id)
      case "title" => Some(title)
      case "status" => Some(status)
      case "updated_at" => Some(GetOr(OrElse(Get(raw, "updated_at"), Get(raw, "updatedAt")), env.now))
      case "updatedAt" => if Get(raw, "updated_at").None? then None else Get(raw, key)
      case _ => Get(raw, key)
  {
    hide Normalized, Required, Computes, Get, Stamped;
    id, title, status := NormalizedValues(env, raw);
    var fields := Required(raw, id, title, status);
    StampLookups(env, fields, key);
    GetRequired(raw, id, title, status, key);
    GetRequired(raw, id, title, status, "updated_at");
    GetRequired(raw, id, title, status, "updatedAt");
  }

  /** What the accessors of a document that was read answer. */
  lemma ReadAccessors(env: Env, raw: Fields) returns (id: string, title: string, status: string)
    requires Normalized(env, raw).Ok?
    ensures Computes(env, raw, id, title, status)
    ensures var fields := Normalized(env, raw).value;
      && Id(fields) == id && Title(fields) == title && Status(fields) == status
      && UpdatedAt(fields) == GetOr(OrElse(Get(raw, "updated_at"), Get(raw, "updatedAt")), env.now)
      && RootPath(fields) == RootPath(raw) && CensorTrusted(fields) == CensorTrusted(raw)
  {
    hide Normalized, Computes, Get;
    id, title, status := NormalizedValues(env, raw);
    forall key ensures
        key in {"id", "title", "status", "updated_at", "root_path", "rootPath", "root", "censor_trusted",
                "censorTrusted"} ==>
          Get(Normalized(env, raw).value, key) ==
            match key
            case "id" => Some(id)
            case "title" => Some(title)
            case "status" => Some(status)
            case "updated_at" => Some(GetOr(OrElse(Get(raw, "updated_at"), Get(raw, "updatedAt")), env.now))
            case _ => Get(raw, key)
    {
      var i, t, s := MetadataLookups(env, raw, key);
      SameValues(env, raw, id, title, status, i, t, s);
    }
  }

  lemma SameValues(env: Env, raw: Fields, id: string, title: string, status: string, i: string, t: string, s: string)
    requires Computes(env, raw, id, title, status) && Computes(env, raw, i, t, s)
    ensures id == i && title == t && status == s
  {
    hide Get, NormalizeProjectId, CleanText, NormalizeStatus;
  }

  // ----- words

  /** The words of a text. */
  function Words(s: string): seq<string>
    decreases |s|
  {
    if s == "" then []
    else if IsWhitespace(s[0]) then Words(s[1..])
    else [s[..WordEnd(s)]] + Words(s[WordEnd(s)..])
  }

  lemma {:induction false} WordEndIs(word: string, rest: string)
    requires (forall i :: 0 <= i < |word| ==> !IsWhitespace(word[i])) && (rest != "" ==> IsWhitespace(rest[0]))
    ensures WordEnd(word + rest) == |word|
  {
    if word != "" {
      assert (word + rest)[1..] == word[1..] + rest;
      WordEndIs(word[1..], rest);
    } else {
      assert word + rest == rest;
    }
  }

  lemma FirstWord(word: string, rest: string)
    requires word != "" && forall i :: 0 <= i < |word| ==> !IsWhitespace(word[i])
    ensures Words(word + (if rest == "" then "" else " " + rest)) == [word] + Words(rest)
  {
    var tail := if rest == "" then "" else " " + rest;
    WordEndIs(word, tail);
    assert (word + tail)[..|word|] == word && (word + tail)[|word|..] == tail;
    if rest != "" {
      assert tail[1..] == rest;
    }
  }

  /** Collapsing blanks keeps the words. */
  lemma {:induction false} CollapseKeepsWords(s: string)
    ensures Words(CollapseWhitespace(s)) == Words(s)
    decreases |s|
  {
    if s != "" {
      if IsWhitespace(s[0]) {
        CollapseKeepsWords(s[1..]);
      } else {
        var n := WordEnd(s);
        WordIsWhole(s);
        CollapseKeepsWords(s[n..]);
        FirstWord(s[..n], CollapseWhitespace(s[n..]));
      }
    }
  }

  lemma NoWords(s: string)
    requires Tidy(s) && Words(s) == []
    ensures s == ""
  {
  }

  /** A cleaned text is missing exactly when there is no word; it has no blanks but single ones between words; and
      unless it was cut it has all the words, in order. */
  lemma CleanTextMeans(value: string, limit: nat)
    ensures var t := CleanText(value, limit);
      && (t.None? <==> Words(value) == [])
      && (t.Some? ==> Tidy(t.value) && |t.value| <= limit)
      && (t.Some? && |t.value| < limit ==> Words(t.value) == Words(value) && Trimmed(t.value))
      && (t.Some? ==> t.value <= CollapseWhitespace(value))
  {
    CleanTextShape(value, limit);
    CollapseIsTidy(value);
    CollapseKeepsWords(value);
    if Words(value) == [] {
      NoWords(CollapseWhitespace(value));
    }
  }

  // ----- ids and statuses

  /** An id is the trimmed value in lower case, if that is one. */
  lemma IdMeans(value: string, id: string)
    ensures NormalizeProjectId(value) == Some(id) <==>
      && id == AsciiLower(Trim(value)) && 2 <= |id| <= 80 && id[0] != '-'
      && forall i :: 0 <= i < |id| ==> 'a' <= id[i] <= 'z' || '0' <= id[i] <= '9' || id[i] == '-'
  {
  }

  /** A status is one of five, whatever its case. */
  lemma StatusMeans(value: string, status: string)
    ensures NormalizeStatus(value) == Some(status) <==>
      && status == AsciiLower(Trim(value))
      && (|| status == "active" || status == "paused" || status == "done" || status == "archived"
          || status == "draft")
  {
  }
}
