/** The seeded xorshift generator (oracle-core/src/cluster.rs:205-231); `f32` is modelled as an exact real. */
module SeededRandom {
  function Step13(s: bv32): bv32 {
    s ^ (s << 13)
  }

  function Xor(s: bv32, t: bv32): bv32 {
    s ^ t
  }

  function Shift17(s: bv32): bv32 {
    s >> 17
  }

  function Step17(s: bv32): bv32 {
    Xor(s, Shift17(s))
  }

  function Step5(s: bv32): bv32 {
    s ^ (s << 5)
  }

  function XorShift(s: bv32): bv32 {
    Step5(Step17(Step13(s)))
  }

  lemma Step13Injective(s: bv32, t: bv32)
    ensures Step13(s) == Step13(t) ==> s == t
  {
  }

  lemma Step17Inverse(s: bv32)
    ensures Step17(Step17(s)) == s
  {
    hide Xor, Shift17;
    ShiftedPart(s);
    CancelXor(s, Shift17(s));
  }

  /** The high bits, and with them the part that is mixed in, survive the step. */
  lemma ShiftedPart(s: bv32)
    ensures Shift17(Xor(s, Shift17(s))) == Shift17(s)
  {
  }

  lemma CancelXor(s: bv32, t: bv32)
    ensures Xor(Xor(s, t), t) == s
  {
  }

  lemma Step5Injective(s: bv32, t: bv32)
    ensures Step5(s) == Step5(t) ==> s == t
  {
  }

  /** The generator permutes its states, so it never repeats itself before it is back at the seed. */
  lemma XorShiftInjective(s: bv32, t: bv32)
    requires XorShift(s) == XorShift(t)
    ensures s == t
  {
    hide Step13, Step17, Step5;
    Step5Injective(Step17(Step13(s)), Step17(Step13(t)));
    Step17Inverse(Step13(s));
    Step17Inverse(Step13(t));
    Step13Injective(s, t);
  }

  /** It never gets stuck at 0. */
  lemma XorShiftNotZero(s: bv32)
    requires s != 0
    ensures XorShift(s) != 0
  {
    assert XorShift(0) == 0;
    if XorShift(s) == 0 {
      XorShiftInjective(s, 0);
    }
  }

  const U32_MAX: bv32 := 0xFFFF_FFFF

  /** The one state from which the generator reaches the largest word. */
  const BEFORE_MAX: bv32 := 0x5E6C_FCE7

  lemma MaxComesFrom(s: bv32)
    ensures XorShift(s) == U32_MAX <==> s == BEFORE_MAX
  {
    assert XorShift(BEFORE_MAX) == U32_MAX;
    if XorShift(s) == U32_MAX {
      XorShiftInjective(s, BEFORE_MAX);
    }
  }

  function Unit(n: int): real {
    n as real / 4294967295.0
  }

  lemma IntRange(s: bv32)
    ensures 0 <= s as int <= 4294967295
    ensures s as int == 0 <==> s == 0
    ensures s as int == 4294967295 <==> s == U32_MAX
  {
  }

  lemma UnitRange(n: int)
    requires 0 < n <= 4294967295
    ensures 0.0 < Unit(n) <= 1.0 && (Unit(n) == 1.0 <==> n == 4294967295)
  {
  }

  class Rng {
    var state: bv32

    predicate Valid() reads this { state != 0 }

    constructor (seed: bv32)
      ensures Valid() && state == if seed == 0 then 1 else seed
    {
      state := if seed == 0 then 1 else seed;
    }

    method NextU32() returns (r: bv32)
      requires Valid()
      modifies this
      ensures Valid() && state == XorShift(old(state)) && r == state
    {
      XorShiftNotZero(state);
      state := Step13(state);
      state := Step17(state);
      state := Step5(state);
      r := state;
    }

    method NextF32() returns (r: real)
      requires Valid()
      modifies this
      ensures Valid() && state == XorShift(old(state)) && r == Unit(state as int)
      ensures 0.0 < r <= 1.0 && (r == 1.0 <==> state == U32_MAX)
      ensures r == 1.0 <==> old(state) == BEFORE_MAX
    {
      hide XorShift;
      var n := NextU32();
      IntRange(n);
      UnitRange(n as int);
      MaxComesFrom(old(state));
      r := Unit(n as int);
    }
  }

  /** The documented range excludes 1.0, but from this state the generator returns it. */
  lemma NextF32CanBeOne()
    ensures Unit(XorShift(BEFORE_MAX) as int) == 1.0
  {
    NextF32IsOneIff(BEFORE_MAX);
  }

  /** And from no other. */
  lemma NextF32IsOneIff(s: bv32)
    requires s != 0
    ensures Unit(XorShift(s) as int) == 1.0 <==> s == BEFORE_MAX
  {
    hide *;
    MaxComesFrom(s);
    XorShiftNotZero(s);
    UnitIsOneIff(XorShift(s));
  }

  lemma UnitIsOneIff(s: bv32)
    requires s != 0
    ensures Unit(s as int) == 1.0 <==> s == U32_MAX
  {
    hide Unit;
    IntRange(s);
    UnitRange(s as int);
  }
}

/** k-means++ seeding (oracle-core/src/cluster.rs:236-284). */
module KMeansSeeding {
  import opened Sequences
  import opened ClusterModel
  import opened SeededRandom

  ghost function MinDist(p: Point, centroids: seq<Point>): real
    requires |centroids| > 0 && Rect(centroids, |p|)
  {
    SqDist(p, centroids[Nearest(p, centroids)])
  }

  lemma MinDistExtends(p: Point, centroids: seq<Point>, q: Point)
    requires |centroids| > 0 && Rect(centroids, |p|) && |q| == |p|
    ensures Rect(centroids + [q], |p|)
    ensures MinDist(p, centroids + [q])
      == if SqDist(p, q) < MinDist(p, centroids) then SqDist(p, q) else MinDist(p, centroids)
  {
    var more := centroids + [q];
    assert more[..|centroids|] == centroids;
  }

  lemma MinDistZero(p: Point, centroids: seq<Point>)
    requires |centroids| > 0 && Rect(centroids, |p|)
    ensures MinDist(p, centroids) >= 0.0
    ensures MinDist(p, centroids) == 0.0 <==> p in centroids
  {
    ZeroIffEqual(p, centroids[Nearest(p, centroids)]);
    if p in centroids {
      var c :| 0 <= c < |centroids| && centroids[c] == p;
      ZeroIffEqual(p, centroids[c]);
    }
  }

  function Total(ds: seq<real>): real {
    if ds == [] then 0.0 else Total(ds[..|ds| - 1]) + ds[|ds| - 1]
  }

  lemma {:induction false} TotalIsZero(ds: seq<real>)
    requires forall i :: 0 <= i < |ds| ==> ds[i] >= 0.0
    ensures Total(ds) >= 0.0
    ensures Total(ds) == 0.0 <==> forall i :: 0 <= i < |ds| ==> ds[i] == 0.0
  {
    if ds != [] {
      var m := |ds| - 1;
      TotalIsZero(ds[..m]);
      assert forall i :: 0 <= i < m ==> ds[..m][i] == ds[i];
    }
  }

  function RunningTotal(ds: seq<real>, n: nat): real
    requires n <= |ds|
  {
    Total(ds[..n])
  }

  lemma RunningTotalGrows(ds: seq<real>, n: nat)
    requires n < |ds|
    ensures RunningTotal(ds, n + 1) == RunningTotal(ds, n) + ds[n]
  {
    assert ds[..n + 1][..n] == ds[..n];
  }

  /** Roulette: the first index at which the running total reaches the threshold; 0 when it never does. */
  method Choose(ds: seq<real>, threshold: real) returns (chosen: nat)
    requires |ds| > 0
    ensures chosen < |ds|
    ensures threshold <= Total(ds) ==> threshold <= RunningTotal(ds, chosen + 1)
    ensures forall j :: 0 < j <= chosen ==> RunningTotal(ds, j) < threshold
    ensures (forall j :: 0 < j <= |ds| ==> RunningTotal(ds, j) < threshold) ==> chosen == 0
  {
    hide RunningTotal;
    var cumulative := 0.0;
    WholeTotal(ds);
    chosen := 0;
    for i := 0 to |ds|
      invariant chosen == 0 && cumulative == RunningTotal(ds, i)
      invariant forall j :: 0 < j <= i ==> RunningTotal(ds, j) < threshold
    {
      RunningTotalGrows(ds, i);
      cumulative := cumulative + ds[i];
      if cumulative >= threshold {
        return i;
      }
    }
  }

  lemma WholeTotal(ds: seq<real>)
    ensures RunningTotal(ds, |ds|) == Total(ds) && RunningTotal(ds, 0) == 0.0
  {
    assert ds[..|ds|] == ds;
  }

  lemma ChosenIsPositive(ds: seq<real>, threshold: real, chosen: nat)
    requires chosen < |ds| && 0.0 < threshold <= RunningTotal(ds, chosen + 1)
    requires forall j :: 0 < j <= chosen ==> RunningTotal(ds, j) < threshold
    ensures RunningTotal(ds, chosen) < threshold && ds[chosen] > 0.0
  {
    hide RunningTotal;
    WholeTotal(ds);
    RunningTotalGrows(ds, chosen);
    if chosen > 0 {
      assert RunningTotal(ds, chosen) < threshold;
    }
  }

  /** Pushes the first point that is no centroid yet. */
  method PushUnchosen(data: seq<Point>, centroids: seq<Point>) returns (r: seq<Point>)
    ensures (forall i :: 0 <= i < |data| ==> data[i] in centroids) ==> r == centroids
    ensures forall i ::
      0 <= i < |data| && data[i] !in centroids && (forall j :: 0 <= j < i ==> data[j] in centroids) ==>
      r == centroids + [data[i]]
  {
    for i := 0 to |data|
      invariant forall j :: 0 <= j < i ==> data[j] in centroids
    {
      if data[i] !in centroids {
        return centroids + [data[i]];
      }
    }
    r := centroids;
  }

  /** What seeding promises: distinct points of the data, `k` of them or all there are. */
  ghost predicate Seeds(data: seq<Point>, k: nat, centroids: seq<Point>) {
    && 0 < |centroids| <= (if k == 0 then 1 else k)
    && NoRepeats(centroids) && (forall c :: 0 <= c < |centroids| ==> centroids[c] in data)
    && (|centroids| < k ==> forall p :: p in data ==> p in centroids)
  }

  /** There are as many seeds as asked for, or as there are distinct points when these are fewer. */
  lemma SeedCount(data: seq<Point>, k: nat, centroids: seq<Point>)
    requires k > 0 && Seeds(data, k, centroids)
    ensures var points := |set p | p in data|; |centroids| == if points < k then points else k
  {
    NoRepeatsSize(centroids);
    var seeds, points := set p | p in centroids, set p | p in data;
    assert seeds <= points;
    SubsetSize(seeds, points);
    if |centroids| < k {
      assert seeds == points;
    }
  }

  lemma SubsetSize<T>(a: set<T>, b: set<T>)
    requires a <= b
    ensures |a| <= |b|
  {
    assert b == a + (b - a);
  }

  /** `minDists` holds every point's distance to the nearest centroid so far. */
  ghost predicate Measured(data: seq<Point>, centroids: seq<Point>, minDists: seq<real>, dims: nat) {
    && |centroids| > 0 && Rect(data, dims) && Rect(centroids, dims) && |minDists| == |data|
    && forall i :: 0 <= i < |data| ==> minDists[i] == MinDist(data[i], centroids)
  }

  /** The total is 0 exactly when every point is a centroid already: then nothing is left to push. */
  lemma TotalZeroIff(data: seq<Point>, centroids: seq<Point>, minDists: seq<real>, dims: nat)
    requires Measured(data, centroids, minDists, dims)
    ensures Total(minDists) >= 0.0
    ensures Total(minDists) == 0.0 <==> forall i :: 0 <= i < |data| ==> data[i] in centroids
  {
    forall i | 0 <= i < |data| ensures minDists[i] >= 0.0 && (minDists[i] == 0.0 <==> data[i] in centroids) {
      MinDistZero(data[i], centroids);
    }
    TotalIsZero(minDists);
  }

  method Measure(data: seq<Point>, centroids: seq<Point>, minDists: seq<real>, q: Point, ghost dims: nat)
    returns (r: seq<real>)
    requires Measured(data, centroids, minDists, dims) && |q| == dims
    ensures Measured(data, centroids + [q], r, dims)
  {
    hide MinDist;
    r := minDists;
    for i := 0 to |data|
      invariant |r| == |data| && r[i..] == minDists[i..]
      invariant Rect(centroids + [q], dims)
      invariant forall j :: 0 <= j < i ==> r[j] == MinDist(data[j], centroids + [q])
    {
      var d := SqDist(data[i], q);
      MinDistExtends(data[i], centroids, q);
      assert r[i] == minDists[i];
      if d < r[i] {
        r := r[i := d];
      }
    }
  }

  lemma FirstMeasured(data: seq<Point>, q: Point, minDists: seq<real>, dims: nat)
    requires Rect(data, dims) && |q| == dims && |minDists| == |data|
    requires forall i :: 0 <= i < |data| ==> minDists[i] == SqDist(data[i], q)
    ensures Measured(data, [q], minDists, dims)
  {
    assert Rect([q], dims);
    forall i | 0 <= i < |data| ensures minDists[i] == MinDist(data[i], [q]) {
      assert Nearest(data[i], [q]) == 0;
    }
  }

  // ----- which points are drawn

  /** The generator's state after `n` draws. */
  function StateAfter(s: bv32, n: nat): bv32 {
    if n == 0 then s else XorShift(StateAfter(s, n - 1))
  }

  ghost function Dists(data: seq<Point>, centroids: seq<Point>, dims: nat): seq<real>
    requires |centroids| > 0 && Rect(data, dims) && Rect(centroids, dims)
  {
    seq(|data|, i requires 0 <= i < |data| => MinDist(data[i], centroids))
  }

  /** The wheel stops at `i`, whose share of it is its weight. */
  ghost predicate StopsAt(ds: seq<real>, s: bv32, i: nat) {
    i < |ds| && RunningTotal(ds, i) < Unit(s as int) * Total(ds) <= RunningTotal(ds, i + 1)
  }

  ghost predicate Draws(data: seq<Point>, centroids: seq<Point>, s: bv32, dims: nat, p: Point)
    requires |centroids| > 0 && Rect(data, dims) && Rect(centroids, dims)
  {
    exists i: nat :: StopsAt(Dists(data, centroids, dims), s, i) && i < |data| && data[i] == p
  }

  /** The first seed is drawn evenly; each later one with its squared distance to the nearest seed before it as weight,
      by the next state of the generator. */
  ghost predicate Drawn(data: seq<Point>, centroids: seq<Point>, s: bv32, dims: nat) {
    && |data| > 0 && |centroids| > 0 && Rect(data, dims) && Rect(centroids, dims)
    && centroids[0] == data[StateAfter(s, 1) as int % |data|]
    && forall j :: 0 < j < |centroids| ==> Draws(data, centroids[..j], StateAfter(s, j + 1), dims, centroids[j])
  }

  lemma DistsAre(data: seq<Point>, centroids: seq<Point>, minDists: seq<real>, dims: nat)
    requires Measured(data, centroids, minDists, dims)
    ensures minDists == Dists(data, centroids, dims)
  {
    hide MinDist;
  }

  lemma FirstDrawn(data: seq<Point>, s: bv32, dims: nat, first: nat)
    requires |data| > 0 && Rect(data, dims) && first == XorShift(s) as int % |data|
    ensures Drawn(data, [data[first]], s, dims) && StateAfter(s, 1) == XorShift(s)
  {
    hide XorShift;
    assert StateAfter(s, 0) == s;
  }

  lemma NewDraw(data: seq<Point>, centroids: seq<Point>, minDists: seq<real>, s: bv32, dims: nat, chosen: nat)
    requires Measured(data, centroids, minDists, dims) && StopsAt(minDists, s, chosen)
    ensures chosen < |data| && Draws(data, centroids, s, dims, data[chosen])
  {
    DistsAre(data, centroids, minDists, dims);
    assert chosen < |minDists|;
    hide StopsAt, Dists, MinDist;
  }

  lemma DrawnMore(data: seq<Point>, centroids: seq<Point>, s: bv32, dims: nat, p: Point)
    requires Drawn(data, centroids, s, dims) && |p| == dims
    requires Draws(data, centroids, StateAfter(s, |centroids| + 1), dims, p)
    ensures Drawn(data, centroids + [p], s, dims)
  {
    hide StateAfter, Draws;
    var more, n := centroids + [p], |centroids|;
    assert more[..n] == centroids;
    forall j | 0 < j < |more| ensures Draws(data, more[..j], StateAfter(s, j + 1), dims, more[j]) {
      if j < n {
        assert more[..j] == centroids[..j];
      }
    }
  }

  lemma SpinStops(ds: seq<real>, s: bv32, u: real, chosen: nat)
    requires chosen < |ds| && u == Unit(s as int) && 0.0 < u <= 1.0 && Total(ds) > 0.0
    requires RunningTotal(ds, chosen) < Fraction(u, Total(ds)) <= RunningTotal(ds, chosen) + ds[chosen]
    ensures StopsAt(ds, s, chosen)
  {
    hide RunningTotal, Total, Unit;
    RunningTotalGrows(ds, chosen);
  }

  lemma {:induction false} RunningTotalMonotone(ds: seq<real>, i: nat, j: nat)
    requires i <= j <= |ds| && forall k :: 0 <= k < |ds| ==> ds[k] >= 0.0
    ensures RunningTotal(ds, i) <= RunningTotal(ds, j)
  {
    hide RunningTotal;
    if i < j {
      RunningTotalMonotone(ds, i, j - 1);
      RunningTotalGrows(ds, j - 1);
    }
  }

  /** The wheel stops at one index only. */
  lemma OneStop(ds: seq<real>, s: bv32, a: nat, b: nat)
    requires forall k :: 0 <= k < |ds| ==> ds[k] >= 0.0
    requires StopsAt(ds, s, a) && StopsAt(ds, s, b)
    ensures a == b
  {
    hide RunningTotal, Total, Unit;
    if a < b {
      RunningTotalMonotone(ds, a + 1, b);
    } else if b < a {
      RunningTotalMonotone(ds, b + 1, a);
    }
  }

  lemma DistsArePositive(data: seq<Point>, centroids: seq<Point>, dims: nat)
    requires |centroids| > 0 && Rect(data, dims) && Rect(centroids, dims)
    ensures forall k :: 0 <= k < |Dists(data, centroids, dims)| ==> Dists(data, centroids, dims)[k] >= 0.0
  {
    hide SqDist, Nearest;
  }

  lemma OneDraw(data: seq<Point>, centroids: seq<Point>, s: bv32, dims: nat, p: Point, q: Point)
    requires |centroids| > 0 && Rect(data, dims) && Rect(centroids, dims)
    requires Draws(data, centroids, s, dims, p) && Draws(data, centroids, s, dims, q)
    ensures p == q
  {
    hide StopsAt, Dists;
    var ds := Dists(data, centroids, dims);
    var a: nat :| StopsAt(ds, s, a) && a < |data| && data[a] == p;
    var b: nat :| StopsAt(ds, s, b) && b < |data| && data[b] == q;
    DistsArePositive(data, centroids, dims);
    OneStop(ds, s, a, b);
  }

  /** Data and generator determine the seeds, as far as there are any. */
  lemma {:induction false} DrawnIsUnique(data: seq<Point>, a: seq<Point>, b: seq<Point>, s: bv32, dims: nat, n: nat)
    requires Drawn(data, a, s, dims) && Drawn(data, b, s, dims) && n <= |a| && n <= |b|
    ensures a[..n] == b[..n]
  {
    hide Draws, StateAfter;
    if n > 0 {
      var m := n - 1;
      DrawnIsUnique(data, a, b, s, dims, m);
      if m > 0 {
        OneDraw(data, a[..m], StateAfter(s, n), dims, a[m], b[m]);
      }
      assert a[..n] == a[..m] + [a[m]] && b[..n] == b[..m] + [b[m]];
    }
  }

  /** So data, number and generator determine the seeds. */
  lemma SeedsAreUnique(data: seq<Point>, k: nat, a: seq<Point>, b: seq<Point>, s: bv32, dims: nat)
    requires k > 0 && Seeds(data, k, a) && Seeds(data, k, b) && Drawn(data, a, s, dims) && Drawn(data, b, s, dims)
    ensures a == b
  {
    hide Seeds, Drawn;
    SeedCount(data, k, a);
    SeedCount(data, k, b);
    DrawnIsUnique(data, a, b, s, dims, |a|);
    assert a[..|a|] == a && b[..|a|] == b;
  }

  method KmeansPpInit(data: seq<Point>, k: nat, rng: Rng, ghost dims: nat) returns (centroids: seq<Point>)
    requires |data| > 0 && Rect(data, dims) && rng.Valid()
    modifies rng
    ensures rng.Valid() && Rect(centroids, dims) && Seeds(data, k, centroids)
    ensures Drawn(data, centroids, old(rng.state), dims) && rng.state == StateAfter(old(rng.state), |centroids|)
  {
    hide SqDist, Nearest, MinDist, Total, XorShift, Fraction, StateAfter, StopsAt, Drawn, RunningTotal, Unit;
    ghost var s := rng.state;
    var draw := rng.NextU32();
    var first := (draw as int) % |data|;
    centroids := [data[first]];
    FirstDrawn(data, s, dims, first);
    var minDists :=
      seq(|data|, i requires 0 <= i < |data| && |data[i]| == |data[first]| => SqDist(data[i], data[first]));
    FirstMeasured(data, data[first], minDists, dims);
    var round := 1;
    while round < k
      invariant rng.Valid() && 1 <= round && |centroids| <= round && round <= (if k == 0 then 1 else k)
      invariant Measured(data, centroids, minDists, dims) && NoRepeats(centroids)
      invariant forall c :: 0 <= c < |centroids| ==> centroids[c] in data
      invariant |centroids| < round ==> forall i :: 0 <= i < |data| ==> data[i] in centroids
      invariant Drawn(data, centroids, s, dims) && rng.state == StateAfter(s, |centroids|)
    {
      var total := Total(minDists);
      TotalZeroIff(data, centroids, minDists, dims);
      if total <= 0.0 {
        centroids := PushUnchosen(data, centroids);
        if |centroids| >= k {
          break;
        }
      } else {
        var u := rng.NextF32();
        NextState(s, |centroids|);
        var chosen := Spin(data, centroids, minDists, Fraction(u, total), dims);
        SpinStops(minDists, rng.state, u, chosen);
        NewDraw(data, centroids, minDists, rng.state, dims, chosen);
        DrawnMore(data, centroids, s, dims, data[chosen]);
        minDists := Measure(data, centroids, minDists, data[chosen], dims);
        centroids := centroids + [data[chosen]];
      }
      round := round + 1;
    }
  }

  lemma NextState(s: bv32, n: nat)
    ensures StateAfter(s, n + 1) == XorShift(StateAfter(s, n))
  {
    hide XorShift;
  }

  /** Draws a point with its squared distance as weight; one that is a centroid already has weight 0. */
  method Spin(data: seq<Point>, centroids: seq<Point>, minDists: seq<real>, threshold: real, ghost dims: nat)
    returns (chosen: nat)
    requires Measured(data, centroids, minDists, dims) && |data| > 0 && 0.0 < threshold <= Total(minDists)
    ensures chosen < |data| && data[chosen] !in centroids
    ensures RunningTotal(minDists, chosen) < threshold <= RunningTotal(minDists, chosen) + minDists[chosen]
  {
    hide SqDist, Nearest, MinDist, Total, RunningTotal;
    chosen := Choose(minDists, threshold);
    ChosenIsPositive(minDists, threshold, chosen);
    RunningTotalGrows(minDists, chosen);
    MinDistZero(data[chosen], centroids);
  }

  function Fraction(u: real, total: real): (r: real)
    requires 0.0 < u <= 1.0 && total > 0.0
    ensures 0.0 < r <= total
  {
    u * total
  }
}

/** The clustering loop (oracle-core/src/cluster.rs:306-363). */
module KMeans {
  import opened ClusterModel
  import opened SeededRandom
  import opened KMeansSeeding

  method Assign(data: seq<Point>, centroids: seq<Point>, labels: seq<nat>, ghost dims: nat)
    returns (r: seq<nat>, changed: bool)
    requires |centroids| > 0 && Rect(data, dims) && Rect(centroids, dims) && |labels| == |data|
    ensures r == NearestLabels(data, centroids, dims) && (changed <==> r != labels)
  {
    hide Nearest, SqDist;
    r, changed := labels, false;
    for i := 0 to |data|
      invariant |r| == |data| && r[i..] == labels[i..]
      invariant forall j :: 0 <= j < i ==> r[j] == Nearest(data[j], centroids)
      invariant changed <==> exists j :: 0 <= j < i && r[j] != labels[j]
    {
      var best := Nearest(data[i], centroids);
      assert r[i] == labels[i];
      if r[i] != best {
        r := r[i := best];
        changed := true;
      }
    }
    assert r == NearestLabels(data, centroids, dims);
  }

  /** The sums and counts of the points labelled with each cluster. */
  ghost predicate Tallied(data: seq<Point>, labels: seq<nat>, k: nat, dims: nat, sums: seq<Point>, counts: seq<nat>) {
    && |labels| == |data| && Rect(data, dims) && |sums| == |counts| == k && Rect(sums, dims)
    && (forall c :: 0 <= c < k ==> counts[c] == Count(labels, c))
    && forall c, j :: 0 <= c < k && 0 <= j < dims ==> sums[c][j] == Sum(data, labels, c, j)
  }

  method AddPoint(sum: Point, p: Point) returns (r: Point)
    requires |p| == |sum|
    ensures |r| == |sum| && forall j :: 0 <= j < |sum| ==> r[j] == sum[j] + p[j]
  {
    r := sum;
    for j := 0 to |p|
      invariant |r| == |sum| && r[j..] == sum[j..]
      invariant forall l :: 0 <= l < j ==> r[l] == sum[l] + p[l]
    {
      assert r[j] == sum[j];
      r := r[j := r[j] + p[j]];
    }
  }

  lemma TalliedMore(data: seq<Point>, labels: seq<nat>, k: nat, dims: nat, sums: seq<Point>, counts: seq<nat>,
                    sum: Point)
    requires |data| > 0 && |labels| == |data| && Rect(data, dims) && labels[|data| - 1] < k
    requires Tallied(data[..|data| - 1], labels[..|data| - 1], k, dims, sums, counts)
    requires var c, p := labels[|data| - 1], data[|data| - 1];
      |sum| == dims && forall j :: 0 <= j < dims ==> sum[j] == sums[c][j] + p[j]
    ensures var c := labels[|data| - 1];
      Tallied(data, labels, k, dims, sums[c := sum], counts[c := counts[c] + 1])
  {
  }

  method Tally(data: seq<Point>, labels: seq<nat>, k: nat, dims: nat) returns (sums: seq<Point>, counts: seq<nat>)
    requires |labels| == |data| && Rect(data, dims) && forall i :: 0 <= i < |labels| ==> labels[i] < k
    ensures Tallied(data, labels, k, dims, sums, counts)
  {
    hide Count, Sum;
    sums := seq(k, c => seq(dims, j => 0.0));
    counts := seq(k, c => 0);
    NothingTallied(k, dims, sums, counts);
    for i := 0 to |data|
      invariant Rect(data[..i], dims) && Tallied(data[..i], labels[..i], k, dims, sums, counts)
    {
      var c := labels[i];
      var sum := AddPoint(sums[c], data[i]);
      assert data[..i + 1][..i] == data[..i] && labels[..i + 1][..i] == labels[..i];
      TalliedMore(data[..i + 1], labels[..i + 1], k, dims, sums, counts, sum);
      sums := sums[c := sum];
      counts := counts[c := counts[c] + 1];
    }
    assert data[..|data|] == data && labels[..|data|] == labels;
  }

  lemma NothingTallied(k: nat, dims: nat, sums: seq<Point>, counts: seq<nat>)
    requires |sums| == |counts| == k && forall c :: 0 <= c < k ==> counts[c] == 0 && |sums[c]| == dims
    requires forall c, j :: 0 <= c < k && 0 <= j < dims ==> sums[c][j] == 0.0
    ensures Tallied([], [], k, dims, sums, counts)
  {
  }

  lemma {:induction false} NoLabelNoCount(labels: seq<nat>, c: nat)
    requires forall i :: 0 <= i < |labels| ==> labels[i] != c
    ensures Count(labels, c) == 0
  {
    if labels != [] {
      NoLabelNoCount(labels[..|labels| - 1], c);
    }
  }

  /** Moves the centroids in place, coordinate by coordinate. Labels never reach past the centroids there are, even
      when fewer than `k` were seeded. */
  method UpdateCentroids(data: seq<Point>, labels: seq<nat>, centroids: seq<Point>, k: nat, dims: nat)
    returns (r: seq<Point>)
    requires Fits(data, labels, centroids, dims) && |centroids| <= k
    ensures r == Updated(data, labels, centroids, dims)
  {
    hide Count, Sum;
    var sums, counts := Tally(data, labels, k, dims);
    r := centroids;
    ghost var goal := Updated(data, labels, centroids, dims);
    for c := 0 to k
      invariant |r| == |centroids|
      invariant forall d :: 0 <= d < |r| ==> r[d] == if d < c then goal[d] else centroids[d]
    {
      if counts[c] > 0 {
        if |centroids| <= c {
          NoLabelNoCount(labels, c);
        }
        var mean := Divide(r[c], sums[c], counts[c]);
        assert mean == Mean(data, labels, c, dims);
        r := r[c := mean];
      }
    }
    assert r == goal;
  }

  method Divide(centroid: Point, sum: Point, count: nat) returns (r: Point)
    requires count > 0 && |sum| == |centroid|
    ensures |r| == |centroid| && forall j :: 0 <= j < |r| ==> r[j] == sum[j] / count as real
  {
    r := centroid;
    for j := 0 to |sum|
      invariant |r| == |centroid|
      invariant forall l :: 0 <= l < j ==> r[l] == sum[l] / count as real
    {
      r := r[j := sum[j] / count as real];
    }
  }

  function Dims(data: seq<Point>): nat {
    if data == [] then 0 else |data[0]|
  }

  function Start(data: seq<Point>, seeds: seq<Point>): Clustering {
    Clustering(seq(|data|, i => 0), seeds)
  }

  lemma SeedsStart(data: seq<Point>, k: nat, seeds: seq<Point>)
    requires Rect(data, Dims(data)) && Rect(seeds, Dims(data)) && Seeds(data, k, seeds)
    ensures Seeded(data, Start(data, seeds), Dims(data))
  {
  }

  /** The loop settled on this clustering, as far as it stopped by itself. */
  ghost predicate SettledIfStopped(data: seq<Point>, labels: seq<nat>, centroids: seq<Point>, dims: nat)
    requires Valid(data, Clustering(labels, centroids), dims)
  {
    NearestLabels(data, centroids, dims) == labels ==>
      Settled(data, Clustering(labels, centroids), dims) && AtMeans(data, Clustering(labels, centroids), dims)
  }

  /**
   Lloyd's loop: at most 300 rounds, left early when no label changes. The result is what 300 rounds give, and it
   costs at most what the seeds alone do. With two clusters or more, as the program asks for, it is settled when one
   more round would change nothing; a single cluster keeps its seed, and is settled exactly when that is the mean.
   */
  method KmeansFitPredict(data: seq<Point>, k: nat, seed: bv32)
    returns (labels: seq<nat>, centroids: seq<Point>, seeds: seq<Point>)
    requires Rect(data, Dims(data))
    ensures |data| == 0 || k == 0 ==> labels == []
    ensures |data| > 0 && k > 0 ==>
      && Rect(seeds, Dims(data)) && Seeds(data, k, seeds) && Valid(data, Start(data, seeds), Dims(data))
      && Clustering(labels, centroids) == Rounds(data, Start(data, seeds), Dims(data), 300)
    ensures |data| > 0 && k > 0 ==> Drawn(data, seeds, if seed == 0 then 1 else seed, Dims(data))
    ensures |data| > 0 && k > 0 ==>
      && Valid(data, Clustering(labels, centroids), Dims(data)) && |centroids| <= k
      && Loss(data, Clustering(labels, centroids), Dims(data))
           <= Cost(data, NearestLabels(data, seeds, Dims(data)), seeds, Dims(data))
    ensures |data| > 0 && k > 1 ==> SettledIfStopped(data, labels, centroids, Dims(data))
    ensures |data| > 0 && k == 1 ==>
      && Clustering(labels, centroids) == Start(data, seeds)
      && (Settled(data, Start(data, seeds), Dims(data)) <==> AtMeans(data, Start(data, seeds), Dims(data)))
  {
    var n := |data|;
    if n == 0 || k == 0 {
      return [], [], [];
    }
    hide *;
    var dims := |data[0]|;
    var rng := new Rng(seed);
    assert dims == Dims(data) by { DimsOf(data); }
    seeds := KmeansPpInit(data, k, rng, dims);
    SeedsStart(data, k, seeds);
    labels, centroids := Lloyd(data, seeds, k, dims);
    Outcome(data, k, seeds, Clustering(labels, centroids));
  }

  lemma DimsOf(data: seq<Point>)
    requires |data| > 0
    ensures Dims(data) == |data[0]|
  {
  }

  method Lloyd(data: seq<Point>, seeds: seq<Point>, k: nat, dims: nat) returns (labels: seq<nat>, centroids: seq<Point>)
    requires dims == Dims(data) && Seeded(data, Start(data, seeds), dims) && |seeds| <= k
    ensures Clustering(labels, centroids) == Rounds(data, Start(data, seeds), dims, 300)
  {
    ghost var start := Start(data, seeds);
    centroids, labels := seeds, seq(|data|, i => 0);
    assert Clustering(labels, centroids) == start;
    hide Cost, NearestLabels, Updated, Nearest, SqDist;
    var round := 0;
    while round < 300
      invariant round <= 300 && Clustering(labels, centroids) == Rounds(data, start, dims, round)
    {
      var next, changed := Assign(data, centroids, labels, dims);
      if !changed {
        StopsForGood(data, start, dims, round, 300);
        return;
      }
      labels := next;
      centroids := UpdateCentroids(data, labels, centroids, k, dims);
      round := round + 1;
    }
  }

  lemma Outcome(data: seq<Point>, k: nat, seeds: seq<Point>, s: Clustering)
    requires Seeded(data, Start(data, seeds), Dims(data)) && Seeds(data, k, seeds)
    requires s == Rounds(data, Start(data, seeds), Dims(data), 300) && k > 0
    ensures Valid(data, s, Dims(data)) && |s.centroids| <= k
    ensures Loss(data, s, Dims(data)) <= Cost(data, NearestLabels(data, seeds, Dims(data)), seeds, Dims(data))
    ensures k > 1 ==> SettledIfStopped(data, s.labels, s.centroids, Dims(data))
    ensures k == 1 ==>
      && s == Start(data, seeds)
      && (Settled(data, Start(data, seeds), Dims(data)) <==> AtMeans(data, Start(data, seeds), Dims(data)))
  {
    hide Cost, NearestLabels, Updated, Nearest, SqDist, Settled, AtMeans, Rounds;
    var start := Start(data, seeds);
    RoundsLower(data, start, Dims(data), 0, 300);
    if |seeds| == 1 {
      LoneSeedStays(data, start, Dims(data), 300);
      StoppedIsSettledIff(data, start, Dims(data), 0);
      NoRounds(data, start, Dims(data));
      if k > 1 {
        assert seeds[0] in data && forall i :: 0 <= i < |data| ==> data[i] in data;
        EqualPointsAtMean(data, start, Dims(data));
      }
    } else if NearestLabels(data, s.centroids, Dims(data)) == s.labels {
      StoppedIsSettledIff(data, start, Dims(data), 300);
      SettledIsAtMeans(data, s, Dims(data));
    }
  }

  lemma LoneSeedStays(data: seq<Point>, s: Clustering, dims: nat, n: nat)
    requires Seeded(data, s, dims) && |s.centroids| == 1
    ensures Rounds(data, s, dims, n) == s && Round(data, s, dims) == s
  {
    hide Round, Rounds;
    FirstRoundMovesIff(data, s, dims);
    NoRounds(data, s, dims);
    StopsForGood(data, s, dims, 0, n);
  }

  const TWO_POINTS: seq<Point> := [[0.0], [2.0]]

  lemma MeanOfTwoPoints(labels: seq<nat>)
    requires labels == [0, 0]
    ensures Count(labels, 0) == 2 && Mean(TWO_POINTS, labels, 0, 1) == [1.0]
  {
    var points, zero := TWO_POINTS[..1], labels[..1];
    assert |points| == |zero| == 1 && points[0] == [0.0] && zero[0] == 0;
    assert Count(zero[..0], 0) == 0 && Count(zero, 0) == 1 && Count(labels, 0) == 2;
    assert Sum(points[..0], zero[..0], 0, 0) == 0.0;
    assert Sum(points, zero, 0, 0) == 0.0 + 0.0;
    assert Sum(TWO_POINTS, labels, 0, 0) == Sum(points, zero, 0, 0) + 2.0;
  }

  /** With one cluster over these two points the result is not settled, whichever of them is the seed. */
  lemma LoneSeedOffMean(seeds: seq<Point>)
    requires Seeds(TWO_POINTS, 1, seeds)
    ensures Seeded(TWO_POINTS, Start(TWO_POINTS, seeds), 1) && !Settled(TWO_POINTS, Start(TWO_POINTS, seeds), 1)
  {
    var s := Start(TWO_POINTS, seeds);
    assert |seeds| == 1 && seeds[0] in TWO_POINTS;
    assert Seeded(TWO_POINTS, s, 1);
    MeanOfTwoPoints(s.labels);
    hide Settled, Count, Sum, Mean;
    assert Updated(TWO_POINTS, s.labels, s.centroids, 1)[0] == [1.0] != s.centroids[0];
    if Settled(TWO_POINTS, s, 1) {
      SettledIsAtMeans(TWO_POINTS, s, 1);
    }
  }
}
