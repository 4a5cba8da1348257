/**
 Reading and writing a project file (devboule-mcp/src/project_file.rs): the frontmatter between dashed lines,
 the fenced state block, and the theorem that a write is read back as what was written.

 The JSON text of the state is abstract: a codec prints a state and parses a text, defaults and state
 validation included. Offsets count characters, and every offset the program uses is next to an ASCII one.
 */
module ProjectDocument {
  import opened Results
  import opened Text
  import opened Frontmatter

  const MARKER := "```aspis-project"
  const FENCE := "```"

  datatype Error =
    | MissingFrontmatter | MalformedFrontmatter | UnterminatedFrontmatter
    | BadId | IdMismatch | BadTitle | BadStatus
    | MissingBlock | MalformedBlock | UnclosedBlock | BadState

  /** The file name without its extension, whether the file exists under an absolute path, and the clock. */
  datatype Env = Env(stem: string, onDisk: bool, now: string)

  datatype Codec<!S> = Codec(encode: S -> string, decode: string -> Option<S>)

  datatype Doc<S> = Doc(fields: Fields, state: S, markdown: string, start: nat, end: nat)

  // ----- normalizers

  predicate IsIdChar(c: char) {
    'a' <= c <= 'z' || '0' <= c <= '9' || c == '-'
  }

  function NormalizeProjectId(value: string): Option<string> {
    var id := AsciiLower(Trim(value));
    if 2 <= |id| <= 80 && id[0] != '-' && (forall i :: 0 <= i < |id| ==> IsIdChar(id[i])) then Some(id) else None
  }

  function WordEnd(s: string): (n: nat)
    ensures n <= |s|
    ensures s != [] && !IsWhitespace(s[0]) ==> n > 0
  {
    if s == [] || IsWhitespace(s[0]) then 0 else 1 + WordEnd(s[1..])
  }

  /** `split_whitespace().join(" ")` */
  function CollapseWhitespace(s: string): string
    decreases |s|
  {
    if s == [] then []
    else if IsWhitespace(s[0]) then CollapseWhitespace(s[1..])
    else
      var n := WordEnd(s);
      var rest := CollapseWhitespace(s[n..]);
      s[..n] + (if rest == [] then [] else " " + rest)
  }

  function CleanText(value: string, limit: nat): Option<string> {
    var text := Trim(CollapseWhitespace(value));
    if text == "" then None else if |text| <= limit then Some(text) else Some(text[..limit])
  }

  function NormalizeStatus(value: string): Option<string> {
    var status := AsciiLower(Trim(value));
    if status in {"active", "paused", "done", "archived", "draft"} then Some(status) else None
  }

  // ----- reading

  datatype Span = Span(start: nat, close: nat, end: nat)

  function FrontmatterSpan(content: string): (r: Result<Span, Error>)
    ensures r.Ok? ==> r.value.start <= r.value.close < r.value.end <= |content|
  {
    if !("---" <= content) then Err(MissingFrontmatter)
    else match Find(content, "\n")
      case None => Err(MalformedFrontmatter)
      case Some(nl) =>
        match Find(content[nl + 1..], "\n---")
        case None => Err(UnterminatedFrontmatter)
        case Some(rel) =>
          var close := nl + 1 + rel;
          var tail := Find(content[close + 1..], "\n");
          Ok(Span(nl + 1, close, if tail.Some? then close + 1 + tail.value + 1 else |content|))
  }

  /** The time stamp moves to its snake-case key; a missing one is filled in. */
  function Stamped(env: Env, fields: Fields): Fields {
    if Get(fields, "updated_at").Some? then fields
    else match Get(fields, "updatedAt")
      case None => Set(fields, "updated_at", env.now)
      case Some(at) => Remove(Set(fields, "updated_at", at), "updatedAt")
  }

  function Normalized(env: Env, fields: Fields): Result<Fields, Error> {
    var canonical := NormalizeProjectId(env.stem);
    var id := NormalizeProjectId(GetOr(Get(fields, "id"), env.stem));
    if canonical.None? || id.None? then Err(BadId)
    else if env.onDisk && id != canonical then Err(IdMismatch)
    else
      var f1 := Set(fields, "id", id.value);
      var title := CleanText(GetOr(Get(f1, "title"), id.value), 500);
      if title.None? then Err(BadTitle)
      else
        var f2 := Set(f1, "title", title.value);
        var status := NormalizeStatus(GetOr(Get(f2, "status"), "active"));
        if status.None? then Err(BadStatus)
        else
          Ok(Stamped(env, Set(f2, "status", status.value)))
  }

  function ParseFrontmatter(env: Env, content: string): (r: Result<(Fields, nat), Error>)
    ensures r.Ok? ==> r.value.1 <= |content|
  {
    match FrontmatterSpan(content)
    case Err(e) => Err(e)
    case Ok(span) =>
      match Normalized(env, ParseYaml(content[span.start..span.close]))
      case Err(e) => Err(e)
      case Ok(fields) => Ok((fields, span.end))
  }

  function LineLength(s: string): (n: nat)
    requires s != ""
    ensures 0 < n <= |s|
  {
    var nl := Find(s, "\n");
    if nl.Some? then nl.value + 1 else |s|
  }

  /** Where the first line that is just a fence begins and ends. */
  function CloseLine(s: string): (r: Option<(nat, nat)>)
    ensures r.Some? ==> r.value.0 <= r.value.1 <= |s|
    decreases |s|
  {
    if s == "" then None
    else
      var n := LineLength(s);
      if Trim(s[..n]) == FENCE then Some((0, n))
      else match CloseLine(s[n..])
        case None => None
        case Some((a, b)) => Some((n + a, n + b))
  }

  datatype Block<S> = Block(state: S, start: nat, end: nat)

  function StateBlock<S>(codec: Codec<S>, content: string): (r: Result<Block<S>, Error>)
    ensures r.Ok? ==> Find(content, MARKER) == Some(r.value.start) && r.value.start <= r.value.end <= |content|
  {
    match Find(content, MARKER)
    case None => Err(MissingBlock)
    case Some(start) =>
      match Find(content[start..], "\n")
      case None => Err(MalformedBlock)
      case Some(nl) =>
        var body := start + nl + 1;
        match CloseLine(content[body..])
        case None => Err(UnclosedBlock)
        case Some((a, b)) =>
          match codec.decode(Trim(content[body..body + a]))
          case None => Err(BadState)
          case Some(state) => Ok(Block(state, start, body + b))
  }

  function ReadDoc<S>(codec: Codec<S>, env: Env, content: string): Result<Doc<S>, Error> {
    match ParseFrontmatter(env, content)
    case Err(e) => Err(e)
    case Ok((fields, _)) =>
      match StateBlock(codec, content)
      case Err(e) => Err(e)
      case Ok(block) => Ok(Doc(fields, block.state, content, block.start, block.end))
  }

  // ----- writing

  function BlockText(json: string): string {
    MARKER + "\n" + json + "\n" + FENCE + "\n"
  }

  function WriteContent<S>(codec: Codec<S>, env: Env, doc: Doc<S>): Result<string, Error>
    requires doc.start <= doc.end <= |doc.markdown|
  {
    var content := doc.markdown[..doc.start] + BlockText(codec.encode(doc.state)) + doc.markdown[doc.end..];
    match ParseFrontmatter(env, content)
    case Err(e) => Err(e)
    case Ok((_, fmEnd)) => Ok(Render(doc.fields) + content[fmEnd..])
  }
}

/** Facts about first occurrences in concatenated texts. */
module TextSearch {
  import opened Results
  import opened Text

  lemma AtShift(a: string, b: string, pat: string, j: nat)
    ensures At(a + b, pat, |a| + j) <==> At(b, pat, j)
  {
    if j + |pat| <= |b| {
      assert (a + b)[|a| + j..|a| + j + |pat|] == b[j..j + |pat|];
    }
  }

  /** When nothing begins inside `a`, the search goes on behind it. */
  lemma FindSkip(a: string, b: string, pat: string)
    requires NoneBefore(a + b, pat, |a|)
    ensures Find(a + b, pat) == var r := Find(b, pat); if r.Some? then Some(|a| + r.value) else None
  {
    forall j: nat ensures At(a + b, pat, |a| + j) <==> At(b, pat, j) {
      AtShift(a, b, pat, j);
    }
    match Find(b, pat)
    case Some(i) =>
      forall j: nat | j < |a| + i ensures !At(a + b, pat, j) {
        if j >= |a| {
          assert !At(b, pat, j - |a|);
        }
      }
      FindIs(a + b, pat, |a| + i);
    case None =>
      forall j: nat ensures !At(a + b, pat, j) {
        if j >= |a| {
          assert !At(b, pat, j - |a|);
        }
      }
  }

  /** An occurrence that ends within the common part of two texts is in both. */
  lemma AtCommon(s: string, t: string, n: nat, pat: string, j: nat)
    requires n <= |s| && n <= |t| && s[..n] == t[..n] && j + |pat| <= n
    ensures At(s, pat, j) <==> At(t, pat, j)
  {
    assert s[j..j + |pat|] == s[..n][j..j + |pat|];
    assert t[j..j + |pat|] == t[..n][j..j + |pat|];
  }

  lemma FindCommon(s: string, t: string, n: nat, pat: string, i: nat)
    requires n <= |s| && n <= |t| && s[..n] == t[..n] && Find(s, pat) == Some(i) && i + |pat| <= n
    ensures Find(t, pat) == Some(i)
  {
    forall j: nat | j <= i ensures At(s, pat, j) <==> At(t, pat, j) {
      AtCommon(s, t, n, pat, j);
    }
    FindIs(t, pat, i);
  }

  /** A one-line pattern cannot run over a line break. */
  lemma NotAcrossNewline(a: string, b: string, pat: string, j: nat)
    requires a != "" && a[|a| - 1] == '\n' && '\n' !in pat && j < |a| && Find(a, pat).None?
    ensures !At(a + b, pat, j)
  {
    if j + |pat| <= |a| {
      AtCommon(a + b, a, |a|, pat, j);
    } else if j + |pat| <= |a + b| {
      var found := (a + b)[j..j + |pat|];
      assert found[|a| - 1 - j] == '\n';
      assert '\n' in found;
    }
  }
}
