/**
 The tables of the code knowledge graph (oracle/store/ckg_store.py): every row belongs to a file, a key has one
 row, and `INSERT OR REPLACE` lets the last row of a key win.
 */
module CkgTables {
  datatype Row<K, V> = Row(key: K, file: string, data: V)

  /** What the table holds for a key. */
  datatype Owned<V> = Owned(file: string, data: V)

  type Table<K, V> = map<K, Owned<V>>

  function Load<K, V>(t: Table<K, V>, rows: seq<Row<K, V>>): Table<K, V> {
    if rows == [] then t
    else
      var last := rows[|rows| - 1];
      Load(t, rows[..|rows| - 1])[last.key := Owned(last.file, last.data)]
  }

  function Without<K, V>(t: Table<K, V>, files: set<string>): Table<K, V> {
    map k | k in t && t[k].file !in files :: t[k]
  }

  /** The incremental update: drop the rows of the files, then insert. */
  function Replace<K, V>(t: Table<K, V>, files: set<string>, rows: seq<Row<K, V>>): Table<K, V> {
    Load(Without(t, files), rows)
  }

  /** The full rebuild. */
  function Rebuild<K, V>(rows: seq<Row<K, V>>): Table<K, V> {
    Load(map[], rows)
  }

  ghost function Keys<K, V>(rows: seq<Row<K, V>>): set<K> {
    set r | r in rows :: r.key
  }

  /** The rows that do not belong to the files. */
  function Others<K, V>(rows: seq<Row<K, V>>, files: set<string>): seq<Row<K, V>> {
    if rows == [] then []
    else
      var last := rows[|rows| - 1];
      Others(rows[..|rows| - 1], files) + (if last.file in files then [] else [last])
  }

  lemma {:induction false} LoadAppend<K, V>(t: Table<K, V>, a: seq<Row<K, V>>, b: seq<Row<K, V>>)
    ensures Load(t, a + b) == Load(Load(t, a), b)
  {
    if b == [] {
      assert a + b == a;
    } else {
      var last := |b| - 1;
      assert (a + b)[..|a + b| - 1] == a + b[..last];
      LoadAppend(t, a, b[..last]);
    }
  }

  ghost predicate Same<K, V>(t: Table<K, V>, u: Table<K, V>, k: K) {
    (k in t <==> k in u) && (k in t ==> t[k] == u[k])
  }

  /** Two tables loaded with the same rows differ only on keys that no row has. */
  lemma {:induction false} LoadAgrees<K, V>(t: Table<K, V>, u: Table<K, V>, rows: seq<Row<K, V>>, k: K)
    ensures if k in Keys(rows) then k in Load(t, rows) && k in Load(u, rows) && Load(t, rows)[k] == Load(u, rows)[k]
      else Same(t, Load(t, rows), k) && Same(u, Load(u, rows), k)
  {
    if rows != [] {
      var init, last := rows[..|rows| - 1], rows[|rows| - 1];
      LoadAgrees(t, u, init, k);
      assert rows == init + [last];
      assert Keys(rows) == Keys(init) + {last.key};
    }
  }

  lemma SameTables<K, V>(t: Table<K, V>, u: Table<K, V>)
    requires forall k :: k in t ==> k in u && u[k] == t[k]
    requires forall k :: k in u ==> k in t
    ensures t == u
  {
    assert t.Keys == u.Keys;
  }

  /** Rows that another file does not overwrite are the same whether or not that file's rows were loaded. */
  lemma {:induction false} OthersLookup<K, V>(rows: seq<Row<K, V>>, files: set<string>, k: K)
    ensures var all, kept := Rebuild(rows), Rebuild(Others(rows, files));
      && (k in all && all[k].file !in files ==> k in kept && kept[k] == all[k])
      && (k in kept ==> k in all)
  {
    if rows != [] {
      var init, last := rows[..|rows| - 1], rows[|rows| - 1];
      OthersLookup(init, files, k);
      var kept := Others(init, files);
      assert (kept + [last])[..|kept|] == kept;
      assert kept + [] == kept;
    }
  }

  /** A key that a kept file also provides, hidden behind a row of the replaced files, and not provided anew. */
  ghost predicate Uncovered<K, V>(rows: seq<Row<K, V>>, files: set<string>, added: seq<Row<K, V>>, k: K) {
    && k in Rebuild(rows) && Rebuild(rows)[k].file in files
    && k in Rebuild(Others(rows, files)) && k !in Keys(added)
  }

  /** The incremental update agrees with the full rebuild exactly when it uncovers no key. */
  lemma ReplaceAgreesIff<K(!new), V>(rows: seq<Row<K, V>>, files: set<string>, added: seq<Row<K, V>>)
    ensures Replace(Rebuild(rows), files, added) == Rebuild(Others(rows, files) + added)
      <==> forall k :: k in Rebuild(rows) ==> !Uncovered(rows, files, added, k)
  {
    var all, kept := Rebuild(rows), Rebuild(Others(rows, files));
    var incremental, full := Replace(all, files, added), Rebuild(Others(rows, files) + added);
    LoadAppend(map[], Others(rows, files), added);
    forall k ensures (k in Without(all, files) ==> k in kept && kept[k] == all[k]) && (k in kept ==> k in all) {
      OthersLookup(rows, files, k);
    }
    forall k ensures Uncovered(rows, files, added, k) <==> (k in full && k !in incremental) {
      LoadAgrees(Without(all, files), kept, added, k);
    }
    if forall k :: k in all ==> !Uncovered(rows, files, added, k) {
      forall k
        ensures (k in full ==> k in incremental && incremental[k] == full[k]) && (k in incremental ==> k in full) {
        LoadAgrees(Without(all, files), kept, added, k);
      }
      SameTables(full, incremental);
    }
  }

  /** Every key belongs to one file. */
  ghost predicate KeysPerFile<K, V>(rows: seq<Row<K, V>>) {
    forall i, j :: 0 <= i < |rows| && 0 <= j < |rows| && rows[i].key == rows[j].key ==> rows[i].file == rows[j].file
  }

  lemma {:induction false} LoadedFrom<K, V>(rows: seq<Row<K, V>>, k: K) returns (i: nat)
    requires k in Rebuild(rows)
    ensures i < |rows| && rows[i].key == k && Rebuild(rows)[k] == Owned(rows[i].file, rows[i].data)
  {
    var last := |rows| - 1;
    if rows[last].key == k {
      i := last;
    } else {
      i := LoadedFrom(rows[..last], k);
    }
  }

  lemma {:induction false} OthersAreRows<K, V>(rows: seq<Row<K, V>>, files: set<string>)
    ensures forall r :: r in Others(rows, files) <==> r in rows && r.file !in files
  {
    if rows != [] {
      var init, last := rows[..|rows| - 1], rows[|rows| - 1];
      OthersAreRows(init, files);
      assert rows == init + [last];
    }
  }

  /** With keys that belong to one file each, updating some files in place is the same as rebuilding everything. */
  lemma ReplaceAgrees<K(!new), V>(rows: seq<Row<K, V>>, files: set<string>, added: seq<Row<K, V>>)
    requires KeysPerFile(rows)
    ensures Replace(Rebuild(rows), files, added) == Rebuild(Others(rows, files) + added)
  {
    forall k | k in Rebuild(rows) ensures !Uncovered(rows, files, added, k) {
      if k in Rebuild(Others(rows, files)) {
        var i := LoadedFrom(rows, k);
        var j := LoadedFrom(Others(rows, files), k);
        OthersAreRows(rows, files);
        var r := Others(rows, files)[j];
        assert r in Others(rows, files);
        var m :| 0 <= m < |rows| && rows[m] == r;
      }
    }
    ReplaceAgreesIff(rows, files, added);
  }

  type Update<K, V> = (set<string>, seq<Row<K, V>>)

  function UpdatedRows<K, V>(rows: seq<Row<K, V>>, updates: seq<Update<K, V>>): seq<Row<K, V>> {
    if updates == [] then rows
    else
      var (files, added) := updates[|updates| - 1];
      Others(UpdatedRows(rows, updates[..|updates| - 1]), files) + added
  }

  function Updated<K, V>(t: Table<K, V>, updates: seq<Update<K, V>>): Table<K, V> {
    if updates == [] then t
    else
      var (files, added) := updates[|updates| - 1];
      Replace(Updated(t, updates[..|updates| - 1]), files, added)
  }

  /** After any run of incremental updates the table is the one a full rebuild would give, as long as before each
      update every key belonged to one file. */
  lemma {:induction false} UpdatesAgree<K(!new), V>(rows: seq<Row<K, V>>, updates: seq<Update<K, V>>)
    requires forall i :: 0 <= i < |updates| ==> KeysPerFile(UpdatedRows(rows, updates[..i]))
    ensures Updated(Rebuild(rows), updates) == Rebuild(UpdatedRows(rows, updates))
  {
    if updates != [] {
      var init := updates[..|updates| - 1];
      assert forall i :: 0 <= i < |init| ==> init[..i] == updates[..i];
      UpdatesAgree(rows, init);
      ReplaceAgrees(UpdatedRows(rows, init), updates[|updates| - 1].0, updates[|updates| - 1].1);
    }
  }

  /** A key shared by two files is lost: the second file's row hides the first one's, and goes with it. */
  lemma SharedKeyIsLost<K, V>(k: K, v: V)
    ensures var rows := [Row(k, "a.py", v), Row(k, "b.py", v)];
      && k !in Replace(Rebuild(rows), {"b.py"}, [])
      && k in Rebuild(Others(rows, {"b.py"}) + [])
  {
    var a, b := Row(k, "a.py", v), Row(k, "b.py", v);
    var rows := [a, b];
    assert rows[..1] == [a] && [a][..0] == [];
    assert Rebuild(rows) == Load(map[], [a])[k := Owned("b.py", v)];
    assert Others(rows, {"b.py"}) == Others([a], {"b.py"}) + [] == [a];
    assert [a] + [] == [a];
  }

  /** Updates of disjoint sets of files commute exactly when they provide no common key. */
  lemma ReplacesCommuteIff<K(!new), V>(t: Table<K, V>, a: set<string>, rowsA: seq<Row<K, V>>, b: set<string>,
                                           rowsB: seq<Row<K, V>>)
    requires a !! b && (forall r :: r in rowsA ==> r.file in a) && (forall r :: r in rowsB ==> r.file in b)
    ensures Replace(Replace(t, a, rowsA), b, rowsB) == Replace(Replace(t, b, rowsB), a, rowsA) <==>
      Keys(rowsA) !! Keys(rowsB)
  {
    var ab, ba := Replace(Replace(t, a, rowsA), b, rowsB), Replace(Replace(t, b, rowsB), a, rowsA);
    forall k ensures Overlaid(t, a, rowsA, b, rowsB, ab, k) && Overlaid(t, b, rowsB, a, rowsA, ba, k) {
      TwoReplaces(t, a, rowsA, b, rowsB, k);
      TwoReplaces(t, b, rowsB, a, rowsA, k);
    }
    if k :| k in Keys(rowsA) && k in Keys(rowsB) {
      assert Overlaid(t, a, rowsA, b, rowsB, ab, k) && Overlaid(t, b, rowsB, a, rowsA, ba, k);
      FileOfLoaded(rowsA, a, k);
      FileOfLoaded(rowsB, b, k);
      assert ab[k].file in b && ba[k].file in a;
    } else {
      forall k ensures (k in ab ==> k in ba && ba[k] == ab[k]) && (k in ba ==> k in ab) {
        assert Overlaid(t, a, rowsA, b, rowsB, ab, k) && Overlaid(t, b, rowsB, a, rowsA, ba, k);
        RebuildHasKeys(rowsA, k);
        RebuildHasKeys(rowsB, k);
      }
      SameTables(ab, ba);
    }
  }

  /** What two updates leave at a key: the second update's row, else the first one's, else the old row if its file
      was in neither set. */
  ghost predicate Overlaid<K, V>(t: Table<K, V>, a: set<string>, rowsA: seq<Row<K, V>>, b: set<string>,
                                 rowsB: seq<Row<K, V>>, r: Table<K, V>, k: K) {
    if k in Rebuild(rowsB) then k in r && r[k] == Rebuild(rowsB)[k]
    else if k in Rebuild(rowsA) then k in r && r[k] == Rebuild(rowsA)[k]
    else if k in t && t[k].file !in a + b then k in r && r[k] == t[k]
    else k !in r
  }

  lemma {:induction false} RebuildHasKeys<K, V>(rows: seq<Row<K, V>>, k: K)
    ensures k in Rebuild(rows) <==> k in Keys(rows)
  {
    LoadAgrees(map[], map[], rows, k);
  }

  lemma FileOfLoaded<K, V>(rows: seq<Row<K, V>>, files: set<string>, k: K)
    requires k in Keys(rows) && forall r :: r in rows ==> r.file in files
    ensures k in Rebuild(rows) && Rebuild(rows)[k].file in files
  {
    RebuildHasKeys(rows, k);
    var i := LoadedFrom(rows, k);
    assert rows[i] in rows;
  }

  lemma TwoReplaces<K, V>(t: Table<K, V>, a: set<string>, rowsA: seq<Row<K, V>>, b: set<string>, rowsB: seq<Row<K, V>>,
                          k: K)
    requires a !! b && (forall r :: r in rowsA ==> r.file in a) && (forall r :: r in rowsB ==> r.file in b)
    ensures Overlaid(t, a, rowsA, b, rowsB, Replace(Replace(t, a, rowsA), b, rowsB), k)
  {
    var first := Replace(t, a, rowsA);
    LoadAgrees(Without(t, a), map[], rowsA, k);
    LoadAgrees(Without(first, b), map[], rowsB, k);
    RebuildHasKeys(rowsA, k);
    RebuildHasKeys(rowsB, k);
    if k in Keys(rowsA) {
      FileOfLoaded(rowsA, a, k);
    }
  }
}

/** Walks over the edges of the graph, and the bounded neighbourhood query. */
module CkgWalks {
  import opened Results
  import opened Sequences

  datatype Edge = Edge(src: string, dst: string, kind: string)

  predicate Matches(e: Edge, kind: Option<string>) {
    kind.None? || e.kind == kind.value
  }

  /** Where walks of exactly `d` matching edges lead from `start`. */
  function Reach(edges: set<Edge>, kind: Option<string>, start: string, d: nat): set<string> {
    if d == 0 then {start}
    else
      var before := Reach(edges, kind, start, d - 1);
      set e | e in edges && Matches(e, kind) && e.src in before :: e.dst
  }

  predicate IsWalk(edges: set<Edge>, kind: Option<string>, start: string, walk: seq<Edge>, end: string) {
    if walk == [] then start == end
    else
      var last := walk[|walk| - 1];
      last in edges && Matches(last, kind) && last.dst == end &&
        IsWalk(edges, kind, start, walk[..|walk| - 1], last.src)
  }

  /** Read from its edges: a walk is made of edges of the graph, of the asked kind if one is asked for, each of which
      starts where the one before it ends. */
  predicate Links(edges: set<Edge>, kind: Option<string>, start: string, walk: seq<Edge>, end: string) {
    && (forall i :: 0 <= i < |walk| ==> walk[i] in edges && (kind == None || kind == Some(walk[i].kind)))
    && (forall i :: 0 < i < |walk| ==> walk[i - 1].dst == walk[i].src)
    && (if walk == [] then start == end else walk[0].src == start && walk[|walk| - 1].dst == end)
  }

  lemma {:induction false} WalkIff(edges: set<Edge>, kind: Option<string>, start: string, walk: seq<Edge>, end: string)
    ensures IsWalk(edges, kind, start, walk, end) <==> Links(edges, kind, start, walk, end)
    decreases |walk|
  {
    if walk != [] {
      var m := |walk| - 1;
      WalkIff(edges, kind, start, walk[..m], walk[m].src);
      assert Links(edges, kind, start, walk, end) <==>
        Links(edges, kind, start, walk[..m], walk[m].src) && walk[m] in edges
        && (kind == None || kind == Some(walk[m].kind)) && walk[m].dst == end by {
        LinksMore(edges, kind, start, walk, end);
      }
    }
  }

  lemma LinksMore(edges: set<Edge>, kind: Option<string>, start: string, walk: seq<Edge>, end: string)
    requires walk != []
    ensures var m := |walk| - 1;
      Links(edges, kind, start, walk, end) <==>
        Links(edges, kind, start, walk[..m], walk[m].src) && walk[m] in edges
        && (kind == None || kind == Some(walk[m].kind)) && walk[m].dst == end
  {
    var m := |walk| - 1;
    var init := walk[..m];
    assert forall i :: 0 <= i < m ==> init[i] == walk[i];
    forall i | 0 < i < m ensures init[i - 1].dst == init[i].src <==> walk[i - 1].dst == walk[i].src {}
  }

  lemma {:induction false} ReachHasWalk(edges: set<Edge>, kind: Option<string>, start: string, d: nat, v: string)
    returns (walk: seq<Edge>)
    requires v in Reach(edges, kind, start, d)
    ensures |walk| == d && IsWalk(edges, kind, start, walk, v)
  {
    if d == 0 {
      walk := [];
    } else {
      var e :| e in edges && Matches(e, kind) && e.src in Reach(edges, kind, start, d - 1) && e.dst == v;
      var before := ReachHasWalk(edges, kind, start, d - 1, e.src);
      walk := before + [e];
      assert walk[..|walk| - 1] == before;
    }
  }

  lemma {:induction false} WalkIsReach(edges: set<Edge>, kind: Option<string>, start: string, walk: seq<Edge>,
                                       v: string)
    requires IsWalk(edges, kind, start, walk, v)
    ensures v in Reach(edges, kind, start, |walk|)
    decreases |walk|
  {
    if walk != [] {
      var last := walk[|walk| - 1];
      WalkIsReach(edges, kind, start, walk[..|walk| - 1], last.src);
    }
  }

  /** The pairs that `get_neighborhood` lists. */
  ghost predicate InNeighborhood(edges: set<Edge>, kind: Option<string>, start: string, k: int, v: string, d: nat) {
    v != start && d <= k && v in Reach(edges, kind, start, d)
  }

  /** A pair is listed exactly when a walk of that many edges, at most `k`, leads there. */
  lemma NeighborhoodIsWalks(edges: set<Edge>, kind: Option<string>, start: string, k: int, v: string, d: nat)
    ensures InNeighborhood(edges, kind, start, k, v, d) <==>
      v != start && d <= k && exists walk :: |walk| == d && Links(edges, kind, start, walk, v)
  {
    if v in Reach(edges, kind, start, d) {
      var walk := ReachHasWalk(edges, kind, start, d, v);
      WalkIff(edges, kind, start, walk, v);
    }
    forall walk | |walk| == d && Links(edges, kind, start, walk, v) ensures v in Reach(edges, kind, start, d) {
      WalkIff(edges, kind, start, walk, v);
      WalkIsReach(edges, kind, start, walk, v);
    }
  }

  /** The least depth listed for a node is its distance: no walk is shorter. */
  lemma LeastDepthIsDistance(edges: set<Edge>, kind: Option<string>, start: string, k: int, v: string, d: nat,
                             walk: seq<Edge>)
    requires InNeighborhood(edges, kind, start, k, v, d)
    requires forall m: nat :: InNeighborhood(edges, kind, start, k, v, m) ==> d <= m
    requires IsWalk(edges, kind, start, walk, v)
    ensures d <= |walk|
  {
    WalkIsReach(edges, kind, start, walk, v);
    if |walk| < d {
      assert InNeighborhood(edges, kind, start, k, v, |walk|);
    }
  }

  // ----- the worklist of the recursive query

  type Pair = (string, nat)

  function Targets(edges: set<Edge>, kind: Option<string>, v: string): set<string> {
    set e | e in edges && Matches(e, kind) && e.src == v :: e.dst
  }

  /** Every pair that can ever be listed. */
  function Universe(edges: set<Edge>, start: string, k: int): set<Pair> {
    var nodes := {start} + set e | e in edges :: e.dst;
    set v, d: nat | v in nodes && d <= (if k < 0 then 0 else k) :: (v, d)
  }

  /** What the worklist keeps: it lists walks only, and the first `done` rows have been followed. */
  ghost predicate Walked(edges: set<Edge>, kind: Option<string>, start: string, k: int, rows: seq<Pair>, done: nat) {
    && done <= |rows| && NoRepeats(rows) && |rows| > 0 && rows[0] == (start, 0)
    && (forall i :: 0 <= i < |rows| ==>
         rows[i] in Universe(edges, start, k) && rows[i].0 in Reach(edges, kind, start, rows[i].1))
    && (forall i, w :: 0 <= i < done && rows[i].1 < k && w in Targets(edges, kind, rows[i].0) ==>
         (w, rows[i].1 + 1) in rows)
  }

  lemma StepReaches(edges: set<Edge>, kind: Option<string>, start: string, k: int, v: string, d: nat, w: string)
    requires v in Reach(edges, kind, start, d) && w in Targets(edges, kind, v) && d < k
    ensures w in Reach(edges, kind, start, d + 1) && (w, d + 1) in Universe(edges, start, k)
  {
    var e :| e in edges && Matches(e, kind) && e.src == v && e.dst == w;
    assert w in {start} + set e | e in edges :: e.dst;
  }

  lemma {:induction false} AllListed(edges: set<Edge>, kind: Option<string>, start: string, k: int, rows: seq<Pair>,
                                     d: nat, w: string)
    requires Walked(edges, kind, start, k, rows, |rows|) && (d <= k || d == 0) && w in Reach(edges, kind, start, d)
    ensures (w, d) in rows
  {
    if d == 0 {
      assert rows[0] == (w, 0);
    } else {
      var e :| e in edges && Matches(e, kind) && e.src in Reach(edges, kind, start, d - 1) && e.dst == w;
      AllListed(edges, kind, start, k, rows, d - 1, e.src);
      var i :| 0 <= i < |rows| && rows[i] == (e.src, d - 1);
      assert w in Targets(edges, kind, rows[i].0);
    }
  }

  /** UNION: a pair is added unless it is there already. */
  method Follow(edges: set<Edge>, kind: Option<string>, start: string, k: int, rows: seq<Pair>, v: string, d: nat)
    returns (r: seq<Pair>)
    requires d < k && v in Reach(edges, kind, start, d) && NoRepeats(rows)
    requires forall i :: 0 <= i < |rows| ==>
      rows[i] in Universe(edges, start, k) && rows[i].0 in Reach(edges, kind, start, rows[i].1)
    ensures rows <= r && NoRepeats(r)
    ensures forall i :: 0 <= i < |r| ==>
      r[i] in Universe(edges, start, k) && r[i].0 in Reach(edges, kind, start, r[i].1)
    ensures forall w :: w in Targets(edges, kind, v) ==> (w, d + 1) in r
  {
    hide Universe, Reach;
    r := rows;
    var left := Targets(edges, kind, v);
    while left != {}
      invariant left <= Targets(edges, kind, v) && rows <= r && NoRepeats(r)
      invariant forall i :: 0 <= i < |r| ==>
        r[i] in Universe(edges, start, k) && r[i].0 in Reach(edges, kind, start, r[i].1)
      invariant forall w :: w in Targets(edges, kind, v) && w !in left ==> (w, d + 1) in r
      decreases left
    {
      var w :| w in left;
      left := left - {w};
      StepReaches(edges, kind, start, k, v, d, w);
      ghost var listed := r;
      if (w, d + 1) !in r {
        r := r + [(w, d + 1)];
      }
      assert listed <= r;
      forall p | p in listed ensures p in r {
        var i :| 0 <= i < |listed| && listed[i] == p;
        assert r[i] == p;
      }
      assert (w, d + 1) in r;
    }
  }
}

/** The store: two tables, replaced in place. */
module CkgStore {
  import opened Results
  import opened Sequences
  import opened CkgTables
  import opened CkgWalks

  datatype NodeData = NodeData(kind: string, name: Option<string>, startLine: Option<int>, endLine: Option<int>,
                               lang: Option<string>)

  class Store {
    var nodes: Table<string, NodeData>
    var edges: Table<Edge, ()>

    constructor ()
      ensures nodes == map[] && edges == map[]
    {
      nodes, edges := map[], map[];
    }

    method Insert(nodeRows: seq<Row<string, NodeData>>, edgeRows: seq<Row<Edge, ()>>)
      modifies this
      ensures nodes == Load(old(nodes), nodeRows) && edges == Load(old(edges), edgeRows)
    {
      for i := 0 to |nodeRows|
        invariant nodes == Load(old(nodes), nodeRows[..i]) && edges == old(edges)
      {
        assert nodeRows[..i + 1][..i] == nodeRows[..i];
        nodes := nodes[nodeRows[i].key := Owned(nodeRows[i].file, nodeRows[i].data)];
      }
      assert nodeRows[..|nodeRows|] == nodeRows;
      for i := 0 to |edgeRows|
        invariant edges == Load(old(edges), edgeRows[..i]) && nodes == Load(old(nodes), nodeRows)
      {
        assert edgeRows[..i + 1][..i] == edgeRows[..i];
        edges := edges[edgeRows[i].key := Owned(edgeRows[i].file, edgeRows[i].data)];
      }
      assert edgeRows[..|edgeRows|] == edgeRows;
    }

    method ReplaceForFiles(files: seq<string>, nodeRows: seq<Row<string, NodeData>>, edgeRows: seq<Row<Edge, ()>>)
      modifies this
      ensures var gone := set f | f in files;
        nodes == Replace(old(nodes), gone, nodeRows) && edges == Replace(old(edges), gone, edgeRows)
    {
      ghost var gone := set f | f in files;
      if files != [] {
        nodes := map k | k in nodes && nodes[k].file !in files :: nodes[k];
        edges := map k | k in edges && edges[k].file !in files :: edges[k];
      }
      assert nodes == Without(old(nodes), gone) && edges == Without(old(edges), gone);
      Insert(nodeRows, edgeRows);
    }

    method ReplaceAll(nodeRows: seq<Row<string, NodeData>>, edgeRows: seq<Row<Edge, ()>>)
      modifies this
      ensures nodes == Rebuild(nodeRows) && edges == Rebuild(edgeRows)
    {
      nodes, edges := map[], map[];
      Insert(nodeRows, edgeRows);
    }

    /** The recursive query: a queue of pairs, each followed once, for any `k` and on cyclic graphs too. */
    method GetNeighborhood(start: string, k: int, kind: Option<string>) returns (r: seq<Pair>)
      ensures NoRepeats(r)
      ensures forall v, d: nat :: (v, d) in r <==> InNeighborhood(edges.Keys, kind, start, k, v, d)
    {
      var es := edges.Keys;
      var rows: seq<Pair> := [(start, 0)];
      var done := 0;
      assert start in {start} + set e | e in es :: e.dst;
      while done < |rows|
        invariant Walked(es, kind, start, k, rows, done)
        decreases Universe(es, start, k) - Listed(rows), |rows| - done
      {
        var (v, d) := rows[done];
        ghost var before := rows;
        if d < k {
          rows := Follow(es, kind, start, k, rows, v, d);
          Grown(before, rows);
        }
        StillWalked(es, kind, start, k, before, rows, done);
        done := done + 1;
      }
      r := OtherThan(start, rows);
      ListedIff(es, kind, start, k, rows, r);
    }
  }

  /** When every row has been followed, the rows other than the start's are the neighbourhood. */
  lemma ListedIff(es: set<Edge>, kind: Option<string>, start: string, k: int, rows: seq<Pair>, r: seq<Pair>)
    requires Walked(es, kind, start, k, rows, |rows|) && forall p :: p in r <==> p in rows && p.0 != start
    ensures forall v, d: nat :: (v, d) in r <==> InNeighborhood(es, kind, start, k, v, d)
  {
    forall v, d: nat ensures (v, d) in r <==> InNeighborhood(es, kind, start, k, v, d) {
      if InNeighborhood(es, kind, start, k, v, d) {
        AllListed(es, kind, start, k, rows, d, v);
      }
      if (v, d) in rows {
        var i :| 0 <= i < |rows| && rows[i] == (v, d);
        assert d <= (if k < 0 then 0 else k);
      }
    }
  }

  ghost function Listed(rows: seq<Pair>): set<Pair> {
    set p | p in rows
  }

  lemma Grown(before: seq<Pair>, after: seq<Pair>)
    requires before <= after && NoRepeats(after)
    ensures after == before || Listed(before) < Listed(after)
  {
    if |before| < |after| {
      var p := after[|before|];
      assert forall i :: 0 <= i < |before| ==> before[i] == after[i];
      assert p !in Listed(before);
      assert p in Listed(after);
      forall q | q in before ensures q in after {
        var i :| 0 <= i < |before| && before[i] == q;
        assert after[i] == q;
      }
      assert Listed(before) <= Listed(after);
    } else {
      assert after == before;
    }
  }

  lemma StillWalked(edges: set<Edge>, kind: Option<string>, start: string, k: int, before: seq<Pair>, rows: seq<Pair>,
                    done: nat)
    requires done < |before| && Walked(edges, kind, start, k, before, done) && before <= rows && NoRepeats(rows)
    requires forall i :: 0 <= i < |rows| ==>
      rows[i] in Universe(edges, start, k) && rows[i].0 in Reach(edges, kind, start, rows[i].1)
    requires before[done].1 < k ==> forall w :: w in Targets(edges, kind, before[done].0) ==>
      (w, before[done].1 + 1) in rows
    ensures Walked(edges, kind, start, k, rows, done + 1)
  {
    hide Universe, Reach, Targets;
    forall i, w | 0 <= i < done + 1 && rows[i].1 < k && w in Targets(edges, kind, rows[i].0)
        ensures (w, rows[i].1 + 1) in rows {
      assert rows[i] == before[i];
      if i < done {
        assert (w, before[i].1 + 1) in before;
      }
    }
  }

  /** SELECT DISTINCT ... WHERE id != start */
  method OtherThan(start: string, rows: seq<Pair>) returns (r: seq<Pair>)
    requires NoRepeats(rows)
    ensures NoRepeats(r) && forall p :: p in r <==> p in rows && p.0 != start
  {
    r := [];
    for i := 0 to |rows|
      invariant NoRepeats(r) && forall p :: p in r <==> p in rows[..i] && p.0 != start
    {
      assert rows[..i + 1] == rows[..i] + [rows[i]];
      if rows[i].0 != start {
        r := r + [rows[i]];
      }
    }
    assert rows[..|rows|] == rows;
  }
}
