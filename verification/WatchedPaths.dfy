/** How a drained queue of changed paths becomes a batch (oracle-core/src/watch.rs): sort, dedup, filter. */
module WatchedPaths {
  import opened Results

  const EXTENSIONS: set<string> := {"js", "ts", "tsx", "py", "rs", "go", "json", "yaml", "yml", "md"}

  /** `Path` overlooks slashes and single dots at the end. */
  function TrimTail(path: string): string {
    if path != "" && path[|path| - 1] == '/' then TrimTail(path[..|path| - 1])
    else if |path| >= 2 && path[|path| - 1] == '.' && path[|path| - 2] == '/' then TrimTail(path[..|path| - 1])
    else path
  }

  /** What follows the last slash. */
  function LastPart(path: string): string {
    if path == "" || path[|path| - 1] == '/' then ""
    else LastPart(path[..|path| - 1]) + [path[|path| - 1]]
  }

  function FileName(path: string): string {
    LastPart(TrimTail(path))
  }

  /** `Path::extension`: what follows the last dot of the file name, unless the dot is its first character. */
  function Extension(name: string): Option<string> {
    if |name| < 2 then None
    else if name[|name| - 1] == '.' then Some("")
    else
      var e := Extension(name[..|name| - 1]);
      if e.Some? then Some(e.value + [name[|name| - 1]]) else None
  }

  predicate Watched(path: string) {
    var e := Extension(FileName(path));
    e.Some? && e.value in EXTENSIONS
  }

  lemma {:induction false} LastPartIs(dir: string, name: string)
    requires '/' !in name && (dir != "" ==> dir[|dir| - 1] == '/')
    ensures LastPart(dir + name) == name
  {
    if name == "" {
      assert dir + name == dir;
    } else {
      var m := |name| - 1;
      assert (dir + name)[..|dir + name| - 1] == dir + name[..m] && name == name[..m] + [name[m]];
      LastPartIs(dir, name[..m]);
    }
  }

  lemma {:induction false} LastPartSplits(path: string) returns (dir: string)
    ensures path == dir + LastPart(path) && '/' !in LastPart(path) && (dir != "" ==> dir[|dir| - 1] == '/')
  {
    if path == "" || path[|path| - 1] == '/' {
      dir := path;
    } else {
      dir := LastPartSplits(path[..|path| - 1]);
      assert path == path[..|path| - 1] + [path[|path| - 1]];
    }
  }

  lemma {:induction false} ExtensionIs(stem: string, ext: string)
    requires stem != "" && '.' !in ext
    ensures Extension(stem + "." + ext) == Some(ext)
  {
    var name := stem + "." + ext;
    if ext != "" {
      var m := |ext| - 1;
      assert name[..|name| - 1] == stem + "." + ext[..m] && ext == ext[..m] + [ext[m]];
      ExtensionIs(stem, ext[..m]);
    }
  }

  lemma {:induction false} ExtensionSplits(name: string) returns (stem: string)
    requires Extension(name).Some?
    ensures var ext := Extension(name).value;
      name == stem + "." + ext && stem != "" && '.' !in ext
  {
    var m := |name| - 1;
    if name[m] == '.' {
      stem := name[..m];
    } else {
      stem := ExtensionSplits(name[..m]);
      assert name == name[..m] + [name[m]];
    }
  }

  /** The path ends in a file name with one of the ten extensions behind a dot that is not the first character. */
  ghost predicate Named(path: string, dir: string, stem: string, ext: string) {
    && path == dir + (stem + "." + ext) && (dir != "" ==> dir[|dir| - 1] == '/')
    && stem != "" && '/' !in stem && '.' !in ext
    && ext in {"js", "ts", "tsx", "py", "rs", "go", "json", "yaml", "yml", "md"}
  }

  lemma NamedIsWatched(path: string, dir: string, stem: string, ext: string)
    requires Named(TrimTail(path), dir, stem, ext)
    ensures Watched(path)
  {
    hide LastPart, Extension, TrimTail;
    NoSlashInExtension(ext);
    LastPartIs(dir, stem + "." + ext);
    ExtensionIs(stem, ext);
  }

  lemma WatchedIsNamed(path: string) returns (dir: string, stem: string, ext: string)
    requires Watched(path)
    ensures Named(TrimTail(path), dir, stem, ext)
  {
    hide LastPart, Extension, TrimTail;
    var name := LastPart(TrimTail(path));
    dir := LastPartSplits(TrimTail(path));
    stem := ExtensionSplits(name);
    ext := Extension(name).value;
    assert name == stem + ("." + ext);
    assert '/' !in stem by {
      assert forall i :: 0 <= i < |stem| ==> name[i] == stem[i];
    }
    assert dir + name == dir + (stem + "." + ext);
  }

  /** These are exactly the paths that are watched. */
  lemma WatchedIff(path: string)
    ensures Watched(path) <==> exists dir, stem, ext :: Named(TrimTail(path), dir, stem, ext)
  {
    hide *;
    if Watched(path) {
      var dir, stem, ext := WatchedIsNamed(path);
    }
    forall dir, stem, ext | Named(TrimTail(path), dir, stem, ext) ensures Watched(path) {
      NamedIsWatched(path, dir, stem, ext);
    }
  }

  lemma NoSlashInExtension(ext: string)
    requires ext in EXTENSIONS
    ensures '/' !in ext
  {
  }

  // ----- the order of strings

  predicate Less(a: string, b: string) {
    b != "" && (a == "" || a[0] < b[0] || (a[0] == b[0] && Less(a[1..], b[1..])))
  }

  lemma {:induction false} LessTransitive(a: string, b: string, c: string)
    requires Less(a, b) && Less(b, c)
    ensures Less(a, c)
  {
    if a != "" && a[0] == b[0] && b[0] == c[0] {
      LessTransitive(a[1..], b[1..], c[1..]);
    }
  }

  lemma {:induction false} LessTotal(a: string, b: string)
    ensures Less(a, b) || a == b || Less(b, a)
  {
    if a != "" && b != "" && a[0] == b[0] {
      LessTotal(a[1..], b[1..]);
      assert a == [a[0]] + a[1..] && b == [b[0]] + b[1..];
    }
  }

  lemma {:induction false} LessIrreflexive(a: string)
    ensures !Less(a, a)
  {
    if a != "" {
      LessIrreflexive(a[1..]);
    }
  }

  // ----- the batch

  predicate Sorted(paths: seq<string>) {
    forall i, j :: 0 <= i < j < |paths| ==> paths[i] == paths[j] || Less(paths[i], paths[j])
  }

  predicate StrictlySorted(paths: seq<string>) {
    forall i, j :: 0 <= i < j < |paths| ==> Less(paths[i], paths[j])
  }

  function InsertPath(p: string, paths: seq<string>): seq<string> {
    if paths == [] || !Less(paths[0], p) then [p] + paths else [paths[0]] + InsertPath(p, paths[1..])
  }

  function Sort(paths: seq<string>): seq<string> {
    if paths == [] then [] else InsertPath(paths[0], Sort(paths[1..]))
  }

  /** `dedup`: of neighbours that are equal only the first stays. */
  function Dedup(paths: seq<string>): seq<string> {
    if |paths| < 2 then paths
    else if paths[0] == paths[1] then Dedup(paths[1..])
    else [paths[0]] + Dedup(paths[1..])
  }

  function KeepWatched(paths: seq<string>): seq<string> {
    if paths == [] then []
    else (if Watched(paths[0]) then [paths[0]] else []) + KeepWatched(paths[1..])
  }

  function Batch(queue: seq<string>): seq<string> {
    KeepWatched(Dedup(Sort(queue)))
  }

  lemma {:induction false} InsertSorts(p: string, paths: seq<string>)
    requires Sorted(paths)
    ensures Sorted(InsertPath(p, paths))
    ensures forall q :: q in InsertPath(p, paths) <==> q == p || q in paths
  {
    if paths != [] {
      var head, tail := paths[0], paths[1..];
      assert paths == [head] + tail;
      LessTotal(head, p);
      if Less(head, p) {
        InsertSorts(p, tail);
        var rest := InsertPath(p, tail);
        HeadBelowAll(head, rest);
      } else {
        forall q | q in paths ensures p == q || Less(p, q) {
          if p != head && q != head {
            LessTransitive(p, head, q);
          }
        }
        HeadBelowAll(p, paths);
      }
    }
  }

  lemma HeadBelowAll(head: string, rest: seq<string>)
    requires Sorted(rest) && forall q :: q in rest ==> head == q || Less(head, q)
    ensures Sorted([head] + rest)
  {
    var all := [head] + rest;
    forall i, j | 0 <= i < j < |all| ensures all[i] == all[j] || Less(all[i], all[j]) {
      if i == 0 {
        assert rest[j - 1] in rest;
      }
    }
  }

  lemma {:induction false} SortSorts(paths: seq<string>)
    ensures Sorted(Sort(paths)) && forall q :: q in Sort(paths) <==> q in paths
  {
    if paths != [] {
      SortSorts(paths[1..]);
      InsertSorts(paths[0], Sort(paths[1..]));
      assert paths == [paths[0]] + paths[1..];
    }
  }

  lemma {:induction false} DedupStrict(paths: seq<string>)
    requires Sorted(paths)
    ensures StrictlySorted(Dedup(paths)) && forall q :: q in Dedup(paths) <==> q in paths
  {
    if |paths| >= 2 {
      var tail, rest := paths[1..], Dedup(paths[1..]);
      DedupStrict(tail);
      assert paths == [paths[0]] + tail;
      if paths[0] != paths[1] {
        forall q | q in rest ensures Less(paths[0], q) {
          var j :| 0 <= j < |tail| && tail[j] == q;
          assert Less(paths[0], paths[1]);
          if j > 0 && tail[0] != tail[j] {
            LessTransitive(paths[0], tail[0], tail[j]);
          }
        }
        StrictCons(paths[0], rest);
      }
    }
  }

  lemma StrictCons(head: string, rest: seq<string>)
    requires StrictlySorted(rest) && forall q :: q in rest ==> Less(head, q)
    ensures StrictlySorted([head] + rest)
  {
    var all := [head] + rest;
    forall i, j | 0 <= i < j < |all| ensures Less(all[i], all[j]) {
      if i == 0 {
        assert rest[j - 1] in rest;
      }
    }
  }

  lemma {:induction false} KeepsWatched(paths: seq<string>)
    requires StrictlySorted(paths)
    ensures StrictlySorted(KeepWatched(paths)) && forall q :: q in KeepWatched(paths) <==> q in paths && Watched(q)
  {
    if paths != [] {
      KeepsWatched(paths[1..]);
      assert paths == [paths[0]] + paths[1..];
      var rest := KeepWatched(paths[1..]);
      forall q | q in rest ensures Less(paths[0], q) {
        var j :| 0 <= j < |paths[1..]| && paths[1..][j] == q;
        assert paths[j + 1] == q;
      }
      StrictCons(paths[0], rest);
    }
  }

  /** A batch lists exactly the watched paths of the queue, each once, in order. */
  lemma BatchExact(queue: seq<string>)
    ensures StrictlySorted(Batch(queue))
    ensures forall q :: q in Batch(queue) <==> q in queue && Watched(q)
  {
    SortSorts(queue);
    DedupStrict(Sort(queue));
    KeepsWatched(Dedup(Sort(queue)));
  }

  /** And it is the only such list. */
  lemma {:induction false} StrictListingUnique(a: seq<string>, b: seq<string>)
    requires StrictlySorted(a) && StrictlySorted(b) && forall q :: q in a <==> q in b
    ensures a == b
  {
    if a == [] {
      assert forall i :: 0 <= i < |b| ==> b[i] in b;
    } else {
      assert a[0] in b && b != [] && b[0] in a;
      if a[0] != b[0] {
        LessIrreflexive(a[0]);
        assert Less(b[0], a[0]) && Less(a[0], b[0]);
        LessTransitive(a[0], b[0], a[0]);
        assert false;
      }
      LessIrreflexive(a[0]);
      forall q ensures q in a[1..] <==> q in b[1..] {
        assert q in a[1..] ==> q in a && q != a[0];
        assert q in b[1..] ==> q in b && q != b[0];
        assert a == [a[0]] + a[1..] && b == [b[0]] + b[1..];
      }
      StrictListingUnique(a[1..], b[1..]);
    }
  }
}
