/**
 Where the parts of a project file lie (devboule-mcp/src/project_file.rs:270-294, 395-425), told by its characters and
 lines.
 */
module ProjectLayout {
  import opened Results
  import opened Text
  import opened ProjectDocument

  predicate NoBreak(s: string, a: nat, b: nat) {
    forall i: nat :: a <= i < b && i < |s| ==> s[i] != '\n'
  }

  predicate BreakAt(s: string, i: nat) {
    i < |s| && s[i] == '\n'
  }

  lemma NewlineIsAt(s: string, i: nat)
    ensures At(s, "\n", i) <==> BreakAt(s, i)
  {
    if i < |s| {
      assert s[i..i + 1] == [s[i]];
    }
  }

  lemma AtBehind(s: string, pat: string, n: nat, i: nat)
    requires n <= |s|
    ensures At(s[n..], pat, i) <==> At(s, pat, n + i)
  {
    if n + i + |pat| <= |s| {
      assert s[n..][i..i + |pat|] == s[n + i..n + i + |pat|];
    }
  }

  /** A search behind `n` finds the first place from there on. */
  lemma FirstBehind(s: string, pat: string, n: nat)
    requires n <= |s|
    ensures match Find(s[n..], pat)
      case None => forall i: nat :: n <= i ==> !At(s, pat, i)
      case Some(k) => At(s, pat, n + k) && forall i: nat :: n <= i < n + k ==> !At(s, pat, i)
  {
    forall i: nat ensures At(s[n..], pat, i) <==> At(s, pat, n + i) {
      AtBehind(s, pat, n, i);
    }
    match Find(s[n..], pat)
    case None =>
      forall i: nat | n <= i ensures !At(s, pat, i) {
        assert !At(s[n..], pat, i - n);
      }
    case Some(k) =>
      forall i: nat | n <= i < n + k ensures !At(s, pat, i) {
        assert !At(s[n..], pat, i - n);
      }
  }

  lemma FirstBreak(s: string, n: nat)
    requires n <= |s|
    ensures match Find(s[n..], "\n")
      case None => NoBreak(s, n, |s|)
      case Some(k) => BreakAt(s, n + k) && NoBreak(s, n, n + k)
  {
    FirstBehind(s, "\n", n);
    forall i: nat ensures At(s, "\n", i) <==> BreakAt(s, i) {
      NewlineIsAt(s, i);
    }
    hide At;
    match Find(s[n..], "\n")
    case None =>
      forall i: nat | n <= i < |s| ensures s[i] != '\n' {
        assert !At(s, "\n", i);
      }
    case Some(k) =>
      forall i: nat | n <= i < n + k && i < |s| ensures s[i] != '\n' {
        assert !At(s, "\n", i);
      }
  }

  // ----- the frontmatter

  /** It begins behind the first line, which begins with dashes, and closes at the first line break from there on that
      is followed by dashes; the file goes on behind that line. */
  ghost predicate LiesAt(content: string, span: Span) {
    && "---" <= content && 0 < span.start <= span.close && span.close + 1 < span.end <= |content|
    && BreakAt(content, span.start - 1) && NoBreak(content, 0, span.start - 1)
    && At(content, "\n---", span.close) && (forall i: nat :: span.start <= i < span.close ==> !At(content, "\n---", i))
    && NoBreak(content, span.close + 1, span.end - 1) && (BreakAt(content, span.end - 1) || span.end == |content|)
  }

  lemma CloseHasDash(content: string, close: nat)
    requires At(content, "\n---", close)
    ensures close + 4 <= |content| && content[close + 1] == '-'
  {
    assert content[close..close + 4][1] == '-';
  }

  /** The frontmatter that is found lies like that. */
  lemma SpanLies(content: string)
    requires FrontmatterSpan(content).Ok?
    ensures LiesAt(content, FrontmatterSpan(content).value)
  {
    var span := FrontmatterSpan(content).value;
    assert content[0..] == content;
    FirstBreak(content, 0);
    FirstBehind(content, "\n---", span.start);
    CloseHasDash(content, span.close);
    FirstBreak(content, span.close + 1);
    hide Find, At, NoBreak;
  }

  /** And only one part of a file does. */
  lemma OneLies(content: string, a: Span, b: Span)
    requires LiesAt(content, a) && LiesAt(content, b)
    ensures a == b
  {
    hide At;
    assert a.start == b.start;
    assert a.close == b.close;
    assert a.end == b.end;
  }

  lemma SpanFound(content: string, span: Span)
    requires LiesAt(content, span)
    ensures FrontmatterSpan(content).Ok?
  {
    assert content[0..] == content;
    FirstBreak(content, 0);
    FirstBehind(content, "\n---", span.start);
    hide At;
  }

  /** The frontmatter of a file is the part that lies like that, if there is one. */
  lemma SpanIff(content: string, span: Span)
    ensures FrontmatterSpan(content) == Ok(span) <==> LiesAt(content, span)
  {
    hide *;
    if FrontmatterSpan(content).Ok? {
      SpanLies(content);
      if LiesAt(content, span) {
        OneLies(content, span, FrontmatterSpan(content).value);
      }
    }
    if LiesAt(content, span) {
      SpanFound(content, span);
    }
  }

  // ----- the end of the block

  /** From `a` to `b` is one line, its line break included. */
  predicate LineAt(s: string, a: nat, b: nat) {
    && a < b <= |s| && (a == 0 || BreakAt(s, a - 1)) && NoBreak(s, a, b - 1)
    && (BreakAt(s, b - 1) || b == |s|)
  }

  predicate IsFence(s: string, a: nat, b: nat) {
    LineAt(s, a, b) && Trim(s[a..b]) == FENCE
  }

  /** The first line that holds nothing but a fence. */
  ghost predicate FirstFence(s: string, a: nat, b: nat) {
    IsFence(s, a, b) && forall c: nat, d: nat :: IsFence(s, c, d) ==> a <= c
  }

  lemma FirstLineIs(s: string)
    requires s != ""
    ensures LineAt(s, 0, LineLength(s)) && (BreakAt(s, LineLength(s) - 1) || LineLength(s) == |s|)
  {
    assert s[0..] == s;
    FirstBreak(s, 0);
    hide NoBreak, Find;
  }

  lemma NoOtherFirst(s: string, n: nat, c: nat, d: nat)
    requires LineAt(s, 0, n) && LineAt(s, c, d) && c < n
    ensures c == 0 && d == n
  {
    assert forall i: nat :: i + 1 < n ==> !BreakAt(s, i);
    assert forall i: nat :: c <= i && i + 1 < d ==> !BreakAt(s, i);
  }

  lemma FenceBehind(s: string, n: nat, a: nat, b: nat)
    requires 0 < n <= |s| && BreakAt(s, n - 1)
    ensures IsFence(s[n..], a, b) <==> IsFence(s, n + a, n + b)
  {
    if a < b && n + b <= |s| {
      assert s[n..][a..b] == s[n + a..n + b];
      assert forall i: nat :: i < |s| - n ==> s[n..][i] == s[n + i];
      NoBreakBehind(s, n, a, b - 1);
    }
    hide Trim, NoBreak;
  }

  lemma NoBreakBehind(s: string, n: nat, a: nat, b: nat)
    requires n <= |s|
    ensures NoBreak(s[n..], a, b) <==> NoBreak(s, n + a, n + b)
  {
    if NoBreak(s[n..], a, b) {
      forall i: nat | n + a <= i < n + b && i < |s| ensures s[i] != '\n' {
        assert s[n..][i - n] != '\n';
      }
    }
    if NoBreak(s, n + a, n + b) {
      forall i: nat | a <= i < b && i < |s[n..]| ensures s[n..][i] != '\n' {
        assert s[n + i] != '\n';
      }
    }
  }

  /** When the first line is no fence, the search goes on behind it. */
  lemma FencesBehind(s: string, n: nat)
    requires LineAt(s, 0, n) && !IsFence(s, 0, n) && BreakAt(s, n - 1)
    ensures forall c: nat, d: nat :: IsFence(s, c, d) ==> c >= n && d >= n && IsFence(s[n..], c - n, d - n)
    ensures forall c: nat, d: nat :: IsFence(s[n..], c, d) ==> IsFence(s, n + c, n + d)
  {
    hide Trim, NoBreak;
    forall c: nat, d: nat | IsFence(s, c, d) ensures c >= n && d >= n && IsFence(s[n..], c - n, d - n) {
      if c < n {
        NoOtherFirst(s, n, c, d);
      } else {
        FenceBehind(s, n, c - n, d - n);
      }
    }
    forall c: nat, d: nat | IsFence(s[n..], c, d) ensures IsFence(s, n + c, n + d) {
      FenceBehind(s, n, c, d);
    }
  }

  lemma LastLine(s: string)
    requires LineAt(s, 0, |s|) && !IsFence(s, 0, |s|)
    ensures forall c: nat, d: nat :: !IsFence(s, c, d)
  {
    hide Trim, NoBreak;
    forall c: nat, d: nat ensures !IsFence(s, c, d) {
      if IsFence(s, c, d) {
        NoOtherFirst(s, |s|, c, d);
      }
    }
  }

  ghost predicate Closes(s: string, r: Option<(nat, nat)>) {
    match r
    case Some((a, b)) => FirstFence(s, a, b)
    case None => forall a: nat, b: nat :: !IsFence(s, a, b)
  }

  lemma ClosesBehind(s: string, n: nat, r: Option<(nat, nat)>)
    requires LineAt(s, 0, n) && !IsFence(s, 0, n) && BreakAt(s, n - 1) && Closes(s[n..], r)
    ensures Closes(s, match r case None => None case Some((a, b)) => Some((n + a, n + b)))
  {
    FencesBehind(s, n);
    hide IsFence, LineAt;
  }

  lemma FirstCloses(s: string, n: nat)
    requires IsFence(s, 0, n)
    ensures Closes(s, Some((0, n)))
  {
  }

  lemma CloseLineUnfolds(s: string)
    requires s != ""
    ensures CloseLine(s) ==
      if Trim(s[..LineLength(s)]) == FENCE then Some((0, LineLength(s)))
      else match CloseLine(s[LineLength(s)..])
        case None => None
        case Some((a, b)) => Some((LineLength(s) + a, LineLength(s) + b))
  {
    hide Trim, LineLength;
  }

  lemma NothingCloses()
    ensures CloseLine("") == None && Closes("", None)
  {
  }

  /** The line that closes the block is the first one that is just a fence; and if none is found, there is none. */
  lemma {:induction false} CloseLineIs(s: string)
    ensures Closes(s, CloseLine(s))
    decreases |s|
  {
    hide LineAt, Closes, Trim, LineLength, BreakAt, CloseLine, Find;
    NothingCloses();
    if s != "" {
      var n := LineLength(s);
      FirstLineIs(s);
      assert s[0..n] == s[..n];
      CloseLineIs(s[n..]);
      CloseLineUnfolds(s);
      if IsFence(s, 0, n) {
        FirstCloses(s, n);
      } else if BreakAt(s, n - 1) {
        ClosesBehind(s, n, CloseLine(s[n..]));
      } else {
        LastLine(s);
        NoneCloses(s);
        assert s[n..] == "";
      }
    }
  }

  lemma NoneCloses(s: string)
    requires forall c: nat, d: nat :: !IsFence(s, c, d)
    ensures Closes(s, None)
  {
  }
}
