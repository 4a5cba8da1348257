/** Bounded breadth-first discovery of git repositories (oracle-core/src/watch.rs) over a finite directory tree. */
module RepoDiscovery {
  /** A directory as `read_dir` shows it; an unreadable one shows nothing. */
  datatype Node = Node(readable: bool, entries: seq<Entry>)

  /** `Other` is everything that is not a directory of its own: files, symbolic links, unreadable entries. */
  datatype Entry = SubDir(name: string, node: Node) | Other(name: string)

  datatype Item = Item(path: seq<string>, depth: nat, node: Node)

  const SKIP_DIRS: set<string> := {"node_modules", ".venv", "venv", "dist", "target"}

  predicate Skipped(name: string) {
    name == ".git" || name in SKIP_DIRS
  }

  predicate HasGit(node: Node) {
    node.readable && exists i :: 0 <= i < |node.entries| && node.entries[i].SubDir? && node.entries[i].name == ".git"
  }

  // ----- the directories in level order

  function ChildrenOf(item: Item, entries: seq<Entry>): seq<Item> {
    if entries == [] then []
    else
      var e := entries[0];
      (if e.SubDir? && !Skipped(e.name) then [Item(item.path + [e.name], item.depth + 1, e.node)] else [])
      + ChildrenOf(item, entries[1..])
  }

  function Children(item: Item): seq<Item> {
    if item.node.readable then ChildrenOf(item, item.node.entries) else []
  }

  function NextLevel(level: seq<Item>): seq<Item> {
    if level == [] then [] else Children(level[0]) + NextLevel(level[1..])
  }

  function LevelOrder(level: seq<Item>, left: nat): seq<Item>
    decreases left
  {
    level + (if left == 0 then [] else LevelOrder(NextLevel(level), left - 1))
  }

  /** The directories to look at: the root, then its children, and so on down to the depth limit. */
  function Dirs(root: Node, maxDepth: nat): seq<Item> {
    LevelOrder([Item([], 0, root)], maxDepth)
  }

  function Repos(dirs: seq<Item>): seq<seq<string>> {
    if dirs == [] then []
    else Repos(dirs[..|dirs| - 1]) + (if HasGit(dirs[|dirs| - 1].node) then [dirs[|dirs| - 1].path] else [])
  }

  // ----- which directories these are

  /** `path` leads from `node` to `target` through readable directories, by names that are not skipped. */
  predicate Reaches(node: Node, path: seq<string>, target: Node)
    decreases |path|
  {
    if path == [] then node == target
    else node.readable && exists i :: 0 <= i < |node.entries| && Steps(node.entries[i], path, target)
  }

  predicate Steps(e: Entry, path: seq<string>, target: Node)
    requires path != []
    decreases |path|, 0
  {
    e.SubDir? && e.name == path[0] && !Skipped(e.name) && Reaches(e.node, path[1..], target)
  }

  lemma {:induction false} ChildListed(item: Item, entries: seq<Entry>, i: nat)
    requires i < |entries| && entries[i].SubDir? && !Skipped(entries[i].name)
    ensures Item(item.path + [entries[i].name], item.depth + 1, entries[i].node) in ChildrenOf(item, entries)
  {
    if i > 0 {
      ChildListed(item, entries[1..], i - 1);
    }
  }

  lemma {:induction false} ChildFrom(item: Item, entries: seq<Entry>, child: Item) returns (i: nat)
    requires child in ChildrenOf(item, entries)
    ensures i < |entries| && entries[i].SubDir? && !Skipped(entries[i].name)
    ensures child == Item(item.path + [entries[i].name], item.depth + 1, entries[i].node)
  {
    var e := entries[0];
    if e.SubDir? && !Skipped(e.name) && child == Item(item.path + [e.name], item.depth + 1, e.node) {
      i := 0;
    } else {
      i := ChildFrom(item, entries[1..], child);
      i := i + 1;
    }
  }

  lemma {:induction false} NextLevelHas(level: seq<Item>, item: Item, child: Item)
    requires item in level && child in Children(item)
    ensures child in NextLevel(level)
  {
    if item != level[0] {
      assert level == [level[0]] + level[1..];
      NextLevelHas(level[1..], item, child);
    }
  }

  lemma {:induction false} NextLevelFrom(level: seq<Item>, child: Item) returns (item: Item)
    requires child in NextLevel(level)
    ensures item in level && child in Children(item)
  {
    if child in Children(level[0]) {
      item := level[0];
    } else {
      item := NextLevelFrom(level[1..], child);
    }
  }

  lemma Rejoin(a: seq<string>, name: string, b: seq<string>)
    ensures a + ([name] + b) == (a + [name]) + b
  {
  }

  /** A path below an item starts at one of its children. */
  lemma FirstStep(item: Item, path: seq<string>, target: Node) returns (child: Item)
    requires path != [] && Reaches(item.node, path, target)
    ensures child in Children(item) && Reaches(child.node, path[1..], target)
    ensures child.path == item.path + [path[0]] && child.depth == item.depth + 1
  {
    var i :| 0 <= i < |item.node.entries| && Steps(item.node.entries[i], path, target);
    var e := item.node.entries[i];
    ChildListed(item, item.node.entries, i);
    child := Item(item.path + [e.name], item.depth + 1, e.node);
  }

  /** And a path below a child extends to one below the item. */
  lemma StepDown(item: Item, child: Item, rest: seq<string>, target: Node) returns (name: string)
    requires child in Children(item) && Reaches(child.node, rest, target)
    ensures Reaches(item.node, [name] + rest, target)
    ensures child.path == item.path + [name] && child.depth == item.depth + 1
  {
    var i := ChildFrom(item, item.node.entries, child);
    name := item.node.entries[i].name;
    assert ([name] + rest)[1..] == rest;
    assert Steps(item.node.entries[i], [name] + rest, target);
  }

  lemma NoPathStays(node: Node, target: Node)
    ensures Reaches(node, [], target) <==> node == target
  {
  }

  lemma {:induction false} ReachableIsListed(level: seq<Item>, left: nat, item: Item, path: seq<string>, target: Node)
    requires item in level && |path| <= left && Reaches(item.node, path, target)
    ensures Item(item.path + path, item.depth + |path|, target) in LevelOrder(level, left)
    decreases |path|
  {
    hide Children, NextLevel, Steps, Reaches;
    if path == [] {
      assert target == item.node by {
        NoPathStays(item.node, target);
      }
      assert item.path + path == item.path;
      assert Item(item.path, item.depth, target) == item;
    } else {
      var child := FirstStep(item, path, target);
      NextLevelHas(level, item, child);
      ReachableIsListed(NextLevel(level), left - 1, child, path[1..], target);
      Rejoin(item.path, path[0], path[1..]);
      assert path == [path[0]] + path[1..];
    }
  }

  lemma {:induction false} ListedIsReachable(level: seq<Item>, left: nat, found: Item)
    returns (item: Item, path: seq<string>)
    requires found in LevelOrder(level, left)
    ensures item in level && |path| <= left && Reaches(item.node, path, found.node)
    ensures found.path == item.path + path && found.depth == item.depth + |path|
    decreases left
  {
    hide Children, NextLevel, Steps;
    if found in level {
      item, path := found, [];
      assert found.path == item.path + path;
    } else {
      var child, rest := ListedIsReachable(NextLevel(level), left - 1, found);
      item := NextLevelFrom(level, child);
      var name := StepDown(item, child, rest, found.node);
      path := [name] + rest;
      Rejoin(item.path, name, rest);
    }
  }

  /** A path through readable directories, whatever their names. */
  predicate Leads(node: Node, path: seq<string>, target: Node)
    decreases |path|
  {
    if path == [] then node == target
    else node.readable && exists i :: 0 <= i < |node.entries| && Enters(node.entries[i], path, target)
  }

  predicate Enters(e: Entry, path: seq<string>, target: Node)
    requires path != []
    decreases |path|, 0
  {
    e.SubDir? && e.name == path[0] && Leads(e.node, path[1..], target)
  }

  /** No part is a `.git` or one of the five heavy directories. */
  predicate Plain(path: seq<string>) {
    forall i :: 0 <= i < |path| ==> path[i] !in {".git", "node_modules", ".venv", "venv", "dist", "target"}
  }

  /** The search follows exactly the paths whose names are plain. */
  lemma {:induction false} ReachesIff(node: Node, path: seq<string>, target: Node)
    ensures Reaches(node, path, target) <==> Leads(node, path, target) && Plain(path)
    decreases |path|
  {
    if path != [] {
      assert Plain(path) <==> !Skipped(path[0]) && Plain(path[1..]) by { PlainParts(path); }
      hide Plain;
      forall i | 0 <= i < |node.entries|
          ensures Steps(node.entries[i], path, target) <==> Enters(node.entries[i], path, target) && Plain(path) {
        if node.entries[i].SubDir? {
          ReachesIff(node.entries[i].node, path[1..], target);
        }
      }
    }
  }

  lemma PlainParts(path: seq<string>)
    requires path != []
    ensures Plain(path) <==> !Skipped(path[0]) && Plain(path[1..])
  {
    assert path == [path[0]] + path[1..];
  }

  /** The directories looked at are exactly those within the depth limit that can be reached. */
  lemma DirsExact(root: Node, maxDepth: nat, path: seq<string>, depth: nat, node: Node)
    ensures Item(path, depth, node) in Dirs(root, maxDepth) <==>
      depth == |path| && |path| <= maxDepth && Leads(root, path, node) && Plain(path)
  {
    ReachesIff(root, path, node);
    var start := Item([], 0, root);
    var found := Item(path, depth, node);
    if found in Dirs(root, maxDepth) {
      var item, rest := ListedIsReachable([start], maxDepth, found);
      assert rest == path;
    }
    if depth == |path| && |path| <= maxDepth && Reaches(root, path, node) {
      ReachableIsListed([start], maxDepth, start, path, node);
      assert start.path + path == path;
    }
  }

  lemma {:induction false} RepoListed(dirs: seq<Item>, path: seq<string>)
    ensures path in Repos(dirs) <==> exists item :: item in dirs && item.path == path && HasGit(item.node)
  {
    if dirs != [] {
      RepoListed(dirs[..|dirs| - 1], path);
      assert dirs == dirs[..|dirs| - 1] + [dirs[|dirs| - 1]];
    }
  }

  /** A directory that holds a `.git` leads there in one step. */
  lemma GitIsBelow(node: Node) returns (git: Node)
    requires HasGit(node)
    ensures Leads(node, [".git"], git)
  {
    var i :| 0 <= i < |node.entries| && node.entries[i].SubDir? && node.entries[i].name == ".git";
    git := node.entries[i].node;
    assert Enters(node.entries[i], [".git"], git);
  }

  lemma HoldsGit(node: Node, git: Node)
    requires Leads(node, [".git"], git)
    ensures HasGit(node)
  {
  }

  lemma {:induction false} LeadsOn(root: Node, path: seq<string>, node: Node, name: string, target: Node)
    requires Leads(root, path, node) && Leads(node, [name], target)
    ensures Leads(root, path + [name], target)
    decreases |path|
  {
    if path == [] {
      assert path + [name] == [name];
    } else {
      var i :| 0 <= i < |root.entries| && Enters(root.entries[i], path, node);
      var e := root.entries[i];
      LeadsOn(e.node, path[1..], node, name, target);
      assert (path + [name])[1..] == path[1..] + [name];
      assert Enters(e, path + [name], target);
    }
  }

  lemma {:induction false} LeadsVia(root: Node, path: seq<string>, name: string, target: Node) returns (node: Node)
    requires Leads(root, path + [name], target)
    ensures Leads(root, path, node) && Leads(node, [name], target)
    decreases |path|
  {
    if path == [] {
      assert path + [name] == [name];
      node := root;
    } else {
      var i :| 0 <= i < |root.entries| && Enters(root.entries[i], path + [name], target);
      var e := root.entries[i];
      assert (path + [name])[1..] == path[1..] + [name];
      node := LeadsVia(e.node, path[1..], name, target);
      assert Enters(e, path, node);
    }
  }

  /** The path leads on to a `.git` directory. */
  ghost predicate GitAt(root: Node, path: seq<string>) {
    exists git :: Leads(root, path + [".git"], git)
  }

  lemma RepoHasGit(root: Node, path: seq<string>, node: Node)
    requires Leads(root, path, node) && HasGit(node)
    ensures GitAt(root, path)
  {
    var git := GitIsBelow(node);
    LeadsOn(root, path, node, ".git", git);
  }

  lemma GitHasRepo(root: Node, path: seq<string>) returns (node: Node)
    requires GitAt(root, path)
    ensures Leads(root, path, node) && HasGit(node)
  {
    var git :| Leads(root, path + [".git"], git);
    node := LeadsVia(root, path, ".git", git);
    HoldsGit(node, git);
  }

  /** The repositories found without a cap: every directory within the limit that a plain path leads to and from which
      one more step leads to a `.git` directory. */
  lemma ReposExact(root: Node, maxDepth: nat, path: seq<string>)
    ensures path in Repos(Dirs(root, maxDepth)) <==> |path| <= maxDepth && Plain(path) && GitAt(root, path)
  {
    hide *;
    var dirs := Dirs(root, maxDepth);
    if path in Repos(dirs) {
      var item := ListedRepo(dirs, path);
      DirsExact(root, maxDepth, path, item.depth, item.node);
      RepoHasGit(root, path, item.node);
    }
    if |path| <= maxDepth && Plain(path) && GitAt(root, path) {
      var node := GitHasRepo(root, path);
      DirsExact(root, maxDepth, path, |path|, node);
      RepoIsListed(dirs, Item(path, |path|, node));
    }
  }

  lemma RepoIsListed(dirs: seq<Item>, item: Item)
    requires item in dirs && HasGit(item.node)
    ensures item.path in Repos(dirs)
  {
    RepoListed(dirs, item.path);
  }

  lemma ListedRepo(dirs: seq<Item>, path: seq<string>) returns (item: Item)
    requires path in Repos(dirs)
    ensures item in dirs && item.path == path && HasGit(item.node)
  {
    RepoListed(dirs, path);
    item :| item in dirs && item.path == path && HasGit(item.node);
  }

  predicate AllAtDepth(items: seq<Item>, depth: nat) {
    forall i :: 0 <= i < |items| ==> items[i].depth == depth
  }

  lemma {:induction false} ChildrenDepth(item: Item, entries: seq<Entry>)
    ensures AllAtDepth(ChildrenOf(item, entries), item.depth + 1)
  {
    if entries != [] {
      ChildrenDepth(item, entries[1..]);
    }
  }

  lemma {:induction false} NextLevelDepth(level: seq<Item>, depth: nat)
    requires AllAtDepth(level, depth)
    ensures AllAtDepth(NextLevel(level), depth + 1)
  {
    if level != [] {
      ChildrenDepth(level[0], level[0].node.entries);
      NextLevelDepth(level[1..], depth);
    }
  }

  /** Depths lie between the bounds and never decrease. */
  predicate ByDepth(dirs: seq<Item>, low: nat, high: nat) {
    && (forall i :: 0 <= i < |dirs| ==> low <= dirs[i].depth <= high)
    && (forall i, j :: 0 <= i <= j < |dirs| ==> dirs[i].depth <= dirs[j].depth)
  }

  lemma ByDepthAppend(level: seq<Item>, below: seq<Item>, depth: nat, high: nat)
    requires AllAtDepth(level, depth) && ByDepth(below, depth + 1, high) && depth <= high
    ensures ByDepth(level + below, depth, high)
  {
  }

  /** Nearer directories come first. */
  lemma {:induction false} LevelOrderByDepth(level: seq<Item>, depth: nat, left: nat)
    requires AllAtDepth(level, depth)
    ensures ByDepth(LevelOrder(level, left), depth, depth + left)
    decreases left
  {
    hide NextLevel, AllAtDepth, ByDepth;
    if left == 0 {
      OneLevelByDepth(level, depth);
      assert LevelOrder(level, left) == level;
    } else {
      NextLevelDepth(level, depth);
      LevelOrderByDepth(NextLevel(level), depth + 1, left - 1);
      ByDepthAppend(level, LevelOrder(NextLevel(level), left - 1), depth, depth + left);
    }
  }

  lemma OneLevelByDepth(level: seq<Item>, depth: nat)
    requires AllAtDepth(level, depth)
    ensures ByDepth(level, depth, depth)
  {
  }

  // ----- the search

  function Cap(maxRepos: nat): nat {
    if maxRepos == 0 then 1 else maxRepos
  }

  function Take(repos: seq<seq<string>>, n: nat): seq<seq<string>> {
    if n <= |repos| then repos[..n] else repos
  }

  /** The search stopped at the directory with index `p`, the one of the last repository it may return, and did not
      know that it was done: the directory has room for children, or others of the last level were left. */
  predicate StopsAt(dirs: seq<Item>, maxDepth: nat, cap: nat, p: nat) {
    p < |dirs| && HasGit(dirs[p].node) && |Repos(dirs[..p + 1])| == cap && (dirs[p].depth < maxDepth || p + 1 < |dirs|)
  }

  predicate Truncates(dirs: seq<Item>, maxDepth: nat, cap: nat) {
    exists p :: 0 <= p < |dirs| && StopsAt(dirs, maxDepth, cap, p)
  }

  lemma {:induction false} ReposAppend(a: seq<Item>, b: seq<Item>)
    ensures Repos(a + b) == Repos(a) + Repos(b)
  {
    if b == [] {
      assert a + b == a;
    } else {
      var last := |b| - 1;
      assert (a + b)[..|a + b| - 1] == a + b[..last];
      ReposAppend(a, b[..last]);
    }
  }

  /** Without truncation nothing was missed. */
  lemma NotTruncatedIsComplete(dirs: seq<Item>, maxDepth: nat, cap: nat)
    requires cap > 0
    ensures !Truncates(dirs, maxDepth, cap) ==> Take(Repos(dirs), cap) == Repos(dirs)
  {
    if |Repos(dirs)| > cap {
      var p := ReachesCount(dirs, cap);
      assert dirs[..|dirs|] == dirs;
      assert StopsAt(dirs, maxDepth, cap, p);
    }
  }

  lemma PrefixOfPrefix(dirs: seq<Item>, n: nat, k: nat)
    requires k <= n <= |dirs|
    ensures dirs[..n][..k] == dirs[..k]
  {
  }

  lemma {:induction false} ReachesCount(dirs: seq<Item>, cap: nat) returns (p: nat)
    requires 0 < cap <= |Repos(dirs)|
    ensures p < |dirs| && HasGit(dirs[p].node) && |Repos(dirs[..p + 1])| == cap
  {
    var init := dirs[..|dirs| - 1];
    if cap <= |Repos(init)| {
      p := ReachesCount(init, cap);
      PrefixOfPrefix(dirs, |dirs| - 1, p + 1);
    } else {
      p := |dirs| - 1;
      assert dirs[..p + 1] == dirs;
    }
  }

  /** The flag means that something was missed, except when there are exactly as many repositories as the cap. */
  lemma MissedIff(dirs: seq<Item>, maxDepth: nat, cap: nat)
    requires cap > 0
    ensures |Repos(dirs)| > cap <==> Truncates(dirs, maxDepth, cap) && |Repos(dirs)| != cap
  {
    NotTruncatedIsComplete(dirs, maxDepth, cap);
    if Truncates(dirs, maxDepth, cap) {
      var p :| 0 <= p < |dirs| && StopsAt(dirs, maxDepth, cap, p);
      assert dirs == dirs[..p + 1] + dirs[p + 1..];
      ReposAppend(dirs[..p + 1], dirs[p + 1..]);
    }
  }

  /** Exactly when the flag tells the truth: unless there are as many repositories as the cap, and then only if the
      very last directory holds the last of them and has no room for children. */
  lemma FlagIsTruthfulIff(dirs: seq<Item>, maxDepth: nat, cap: nat)
    requires cap > 0
    ensures (Truncates(dirs, maxDepth, cap) <==> |Repos(dirs)| > cap) <==>
      |Repos(dirs)| != cap || (dirs != [] && HasGit(dirs[|dirs| - 1].node) && dirs[|dirs| - 1].depth >= maxDepth)
  {
    hide HasGit, Repos;
    MissedIff(dirs, maxDepth, cap);
    if |Repos(dirs)| == cap {
      ExactlyCapIff(dirs, maxDepth, cap);
    }
  }

  lemma ExactlyCapIff(dirs: seq<Item>, maxDepth: nat, cap: nat)
    requires |Repos(dirs)| == cap > 0
    ensures !Truncates(dirs, maxDepth, cap) <==>
      dirs != [] && HasGit(dirs[|dirs| - 1].node) && dirs[|dirs| - 1].depth >= maxDepth
  {
    hide HasGit, Repos;
    var p := ReachesCount(dirs, cap);
    var last := |dirs| - 1;
    assert dirs[..last + 1] == dirs;
    if HasGit(dirs[last].node) {
      SameStop(dirs, cap, p, last);
    }
    if Truncates(dirs, maxDepth, cap) {
      var q :| 0 <= q < |dirs| && StopsAt(dirs, maxDepth, cap, q);
      SameStop(dirs, cap, p, q);
    } else {
      assert !StopsAt(dirs, maxDepth, cap, p);
    }
  }

  /** The flag may be raised although nothing was missed: a single repository at the root, with a cap of one. */
  lemma TruncationFalseAlarm(maxDepth: nat)
    requires maxDepth > 0
    ensures var root := Node(true, [SubDir(".git", Node(true, []))]);
      var dirs := Dirs(root, maxDepth);
      Truncates(dirs, maxDepth, 1) && Repos(dirs) == [[]]
  {
    var root := Node(true, [SubDir(".git", Node(true, []))]);
    var item := Item([], 0, root);
    assert HasGit(root) by {
      assert root.entries[0].SubDir? && root.entries[0].name == ".git";
    }
    assert NextLevel([item]) == [];
    NothingBelow(maxDepth - 1);
    var dirs := Dirs(root, maxDepth);
    assert dirs == [item];
    assert dirs[..0] == [] && dirs[..1] == dirs;
    assert StopsAt(dirs, maxDepth, 1, 0);
  }

  lemma {:induction false} NothingBelow(left: nat)
    ensures LevelOrder([], left) == []
  {
    if left > 0 {
      NothingBelow(left - 1);
    }
  }

  // ----- termination: the tree below the frontier shrinks

  function Size(node: Node): nat {
    1 + EntriesSize(node.entries)
  }

  function EntriesSize(entries: seq<Entry>): nat {
    if entries == [] then 0
    else (match entries[0] case SubDir(_, node) => Size(node) case Other(_) => 0) + EntriesSize(entries[1..])
  }

  function FrontierSize(items: seq<Item>): nat {
    if items == [] then 0 else Size(items[0].node) + FrontierSize(items[1..])
  }

  lemma {:induction false} FrontierSizeAppend(a: seq<Item>, b: seq<Item>)
    ensures FrontierSize(a + b) == FrontierSize(a) + FrontierSize(b)
  {
    if a == [] {
      assert a + b == b;
    } else {
      assert (a + b)[1..] == a[1..] + b;
      FrontierSizeAppend(a[1..], b);
    }
  }

  lemma {:induction false} ChildrenSize(item: Item, entries: seq<Entry>)
    ensures FrontierSize(ChildrenOf(item, entries)) <= EntriesSize(entries)
  {
    if entries != [] {
      ChildrenSize(item, entries[1..]);
      var e := entries[0];
      var rest := ChildrenOf(item, entries[1..]);
      if e.SubDir? && !Skipped(e.name) {
        var child := Item(item.path + [e.name], item.depth + 1, e.node);
        assert ChildrenOf(item, entries) == [child] + rest && ([child] + rest)[1..] == rest;
      } else {
        assert ChildrenOf(item, entries) == rest;
      }
    }
  }

  lemma {:induction false} ChildrenAppend(item: Item, entries: seq<Entry>, e: Entry)
    ensures ChildrenOf(item, entries + [e]) == ChildrenOf(item, entries)
      + (if e.SubDir? && !Skipped(e.name) then [Item(item.path + [e.name], item.depth + 1, e.node)] else [])
  {
    if entries != [] {
      assert (entries + [e])[1..] == entries[1..] + [e];
      ChildrenAppend(item, entries[1..], e);
    }
  }

  /** The inner loop: the directories of `item` that are worth a visit go to the back of the frontier. */
  method PushChildren(frontier: seq<Item>, item: Item) returns (r: seq<Item>)
    requires item.node.readable
    ensures r == frontier + Children(item)
  {
    r := frontier;
    var entries := item.node.entries;
    for i := 0 to |entries|
      invariant r == frontier + ChildrenOf(item, entries[..i])
    {
      var e := entries[i];
      assert entries[..i + 1] == entries[..i] + [e];
      ChildrenAppend(item, entries[..i], e);
      if e.SubDir? {
        if !Skipped(e.name) {
          r := r + [Item(item.path + [e.name], item.depth + 1, e.node)];
        }
      }
    }
    assert entries[..|entries|] == entries;
  }

  /** What the loop still has in front of it: the rest of the current level, then the levels below. */
  function Ahead(cur: seq<Item>, next: seq<Item>, left: nat): seq<Item> {
    cur + (if left == 0 then [] else LevelOrder(next + NextLevel(cur), left - 1))
  }

  lemma NextTurn(item: Item, rest: seq<Item>, next: seq<Item>, left: nat)
    ensures Ahead([item] + rest, next, left)
      == [item] + Ahead(rest, if left == 0 then next else next + Children(item), left)
  {
    hide Children, LevelOrder;
    var cur := [item] + rest;
    assert cur[1..] == rest;
    assert next + NextLevel(cur) == (next + Children(item)) + NextLevel(rest);
  }

  lemma LevelTurn(next: seq<Item>, left: nat)
    requires left > 0
    ensures Ahead([], next, left) == Ahead(next, [], left - 1)
  {
    assert NextLevel([]) == [];
    hide Children, NextLevel;
    assert next + NextLevel([]) == next && [] + NextLevel(next) == NextLevel(next);
  }

  /** What the search keeps: the frontier is the rest of a level followed by the children found so far, and the
      directories visited, together with those ahead, are all of them in level order. */
  predicate Searching(dirs: seq<Item>, maxDepth: nat, frontier: seq<Item>, visited: seq<Item>, cur: seq<Item>,
                      next: seq<Item>, left: nat) {
    && frontier == cur + next && left <= maxDepth && (left == 0 ==> next == [])
    && AllAtDepth(cur, maxDepth - left) && AllAtDepth(next, maxDepth - left + 1)
    && dirs == visited + Ahead(cur, next, left)
  }

  lemma SearchStarts(root: Node, maxDepth: nat)
    ensures var start := [Item([], 0, root)];
      Searching(Dirs(root, maxDepth), maxDepth, start, [], start, [], maxDepth)
  {
    var start := [Item([], 0, root)];
    assert [] + NextLevel(start) == NextLevel(start);
  }

  /** The front of the frontier belongs to the current level, once an exhausted level is left behind. */
  lemma FrontOfLevel(dirs: seq<Item>, maxDepth: nat, frontier: seq<Item>, visited: seq<Item>, cur: seq<Item>,
                     next: seq<Item>, left: nat)
    returns (cur': seq<Item>, next': seq<Item>, left': nat)
    requires frontier != [] && Searching(dirs, maxDepth, frontier, visited, cur, next, left)
    ensures Searching(dirs, maxDepth, frontier, visited, cur', next', left') && cur' != [] && cur'[0] == frontier[0]
  {
    cur', next', left' := cur, next, left;
    if cur == [] {
      LevelTurn(next, left);
      cur', next', left' := next, [], left - 1;
    }
  }

  /** Visiting the front: it is the next directory in level order, and its children go behind the others. */
  lemma VisitFront(dirs: seq<Item>, maxDepth: nat, frontier: seq<Item>, visited: seq<Item>, cur: seq<Item>,
                   next: seq<Item>, left: nat)
    requires cur != [] && Searching(dirs, maxDepth, frontier, visited, cur, next, left)
    ensures var item := cur[0];
      var below := if left == 0 then [] else Children(item);
      && item.depth == maxDepth - left
      && Searching(dirs, maxDepth, frontier[1..] + below, visited + [item], cur[1..], next + below, left)
  {
    hide Ahead, Children;
    var item := cur[0];
    var below := if left == 0 then [] else Children(item);
    assert cur == [item] + cur[1..];
    NextTurn(item, cur[1..], next, left);
    assert next + [] == next;
    ChildrenAreDeeper(item);
    assert frontier[1..] + below == cur[1..] + (next + below);
    assert visited + ([item] + Ahead(cur[1..], next + below, left))
      == (visited + [item]) + Ahead(cur[1..], next + below, left);
  }

  lemma ChildrenAreDeeper(item: Item)
    ensures AllAtDepth(Children(item), item.depth + 1)
  {
    ChildrenDepth(item, item.node.entries);
  }

  lemma FrontierShrinks(frontier: seq<Item>, below: seq<Item>)
    requires frontier != [] && (below == [] || below == Children(frontier[0]))
    ensures FrontierSize(frontier[1..] + below) < FrontierSize(frontier)
  {
    ChildrenSize(frontier[0], frontier[0].node.entries);
    FrontierSizeAppend(frontier[1..], below);
  }

  method DiscoverGitRepos(root: Node, maxDepth: nat, maxRepos: nat) returns (repos: seq<seq<string>>, truncated: bool)
    ensures repos == Take(Repos(Dirs(root, maxDepth)), Cap(maxRepos))
    ensures truncated <==> Truncates(Dirs(root, maxDepth), maxDepth, Cap(maxRepos))
  {
    hide Ahead, Dirs, FrontierSize, Truncates, Repos, HasGit, Children, Searching, Take;
    repos, truncated := [], false;
    var frontier := [Item([], 0, root)];
    ghost var dirs, visited: seq<Item> := Dirs(root, maxDepth), [];
    ghost var cur, next: seq<Item>, left: nat := frontier, [], maxDepth;
    SearchStarts(root, maxDepth);
    NothingVisited();
    while frontier != []
      invariant Searching(dirs, maxDepth, frontier, visited, cur, next, left)
      invariant repos == Repos(visited) && |repos| < Cap(maxRepos) && !truncated
      decreases FrontierSize(frontier)
    {
      cur, next, left := FrontOfLevel(dirs, maxDepth, frontier, visited, cur, next, left);
      VisitFront(dirs, maxDepth, frontier, visited, cur, next, left);
      var item := frontier[0];
      ghost var below := if left == 0 then [] else Children(item);
      FrontierShrinks(frontier, below);
      frontier := frontier[1..];
      assert frontier + [] == frontier;
      AddVisited(visited, item);
      cur, next, visited := cur[1..], next + below, visited + [item];
      if !item.node.readable {
        UnreadableHasNothing(item);
        continue;
      }
      if HasGit(item.node) {
        repos := repos + [item.path];
        if |repos| >= maxRepos {
          truncated := frontier != [] || item.depth < maxDepth;
          CapReached(dirs, visited, frontier + below, cur, next, left, maxDepth, Cap(maxRepos), item);
          return;
        }
      }
      if item.depth >= maxDepth {
        continue;
      }
      frontier := PushChildren(frontier, item);
    }
    AllVisited(dirs, maxDepth, visited, cur, next, left);
    NeverFull(dirs, maxDepth, Cap(maxRepos));
  }

  lemma NothingVisited()
    ensures Repos([]) == []
  {
  }

  lemma AddVisited(visited: seq<Item>, item: Item)
    ensures Repos(visited + [item]) == Repos(visited) + (if HasGit(item.node) then [item.path] else [])
  {
    assert (visited + [item])[..|visited|] == visited;
  }

  lemma UnreadableHasNothing(item: Item)
    requires !item.node.readable
    ensures Children(item) == [] && !HasGit(item.node)
  {
  }

  lemma AllVisited(dirs: seq<Item>, maxDepth: nat, visited: seq<Item>, cur: seq<Item>, next: seq<Item>, left: nat)
    requires Searching(dirs, maxDepth, [], visited, cur, next, left)
    ensures dirs == visited
  {
    if left > 0 {
      NothingBelow(left - 1);
    }
  }

  lemma CapReached(dirs: seq<Item>, visited: seq<Item>, frontier: seq<Item>, cur: seq<Item>, next: seq<Item>, left: nat,
                   maxDepth: nat, cap: nat, item: Item)
    requires Searching(dirs, maxDepth, frontier, visited, cur, next, left) && item.depth == maxDepth - left
    requires visited != [] && visited[|visited| - 1] == item && HasGit(item.node) && |Repos(visited)| == cap
    ensures Take(Repos(dirs), cap) == Repos(visited)
    ensures Truncates(dirs, maxDepth, cap) <==> frontier != [] || item.depth < maxDepth
  {
    hide HasGit, Repos;
    var ahead := Ahead(cur, next, left);
    ReposAppend(visited, ahead);
    var p := |visited| - 1;
    assert dirs[..p + 1] == visited && dirs[p] == item;
    if Truncates(dirs, maxDepth, cap) {
      var q :| 0 <= q < |dirs| && StopsAt(dirs, maxDepth, cap, q);
      SameStop(dirs, cap, p, q);
    }
    if frontier != [] || item.depth < maxDepth {
      assert StopsAt(dirs, maxDepth, cap, p);
    }
  }

  lemma CountGrows(dirs: seq<Item>, a: nat, b: nat)
    requires a < b < |dirs| && HasGit(dirs[b].node)
    ensures |Repos(dirs[..a + 1])| < |Repos(dirs[..b + 1])|
  {
    assert dirs[..b] == dirs[..a + 1] + dirs[a + 1..b];
    ReposAppend(dirs[..a + 1], dirs[a + 1..b]);
    assert dirs[..b + 1] == dirs[..b] + [dirs[b]];
    AddVisited(dirs[..b], dirs[b]);
  }

  /** Only one place has the repository that fills the cap. */
  lemma SameStop(dirs: seq<Item>, cap: nat, p: nat, q: nat)
    requires p < |dirs| && q < |dirs| && HasGit(dirs[p].node) && HasGit(dirs[q].node)
    requires |Repos(dirs[..p + 1])| == cap == |Repos(dirs[..q + 1])|
    ensures p == q
  {
    if p < q {
      CountGrows(dirs, p, q);
    } else if q < p {
      CountGrows(dirs, q, p);
    }
  }

  lemma NeverFull(dirs: seq<Item>, maxDepth: nat, cap: nat)
    requires |Repos(dirs)| < cap
    ensures Take(Repos(dirs), cap) == Repos(dirs) && !Truncates(dirs, maxDepth, cap)
  {
    forall p | 0 <= p < |dirs| ensures !StopsAt(dirs, maxDepth, cap, p) {
      assert dirs == dirs[..p + 1] + dirs[p + 1..];
      ReposAppend(dirs[..p + 1], dirs[p + 1..]);
    }
  }
}
