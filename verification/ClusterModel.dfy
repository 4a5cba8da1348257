/**
 Lloyd's iteration over exact reals (oracle-core/src/cluster.rs:298-363): squared distances, the total cost of a
 labelling, and the two half steps of a round, each of which is optimal.
 */
module ClusterModel {
  import opened Sequences

  type Point = seq<real>

  ghost predicate Rect(points: seq<Point>, dims: nat) {
    forall i :: 0 <= i < |points| ==> |points[i]| == dims
  }

  function Square(d: real): (r: real)
    ensures if d == 0.0 then r == 0.0 else r > 0.0
  {
    var r := d * d;
    SignOfProduct(d, d, r);
    r
  }

  lemma SignOfProduct(x: real, y: real, p: real)
    requires p == x * y
    ensures (x < 0.0 && y < 0.0) || (x > 0.0 && y > 0.0) ==> p > 0.0
    ensures x == 0.0 ==> p == 0.0
  {
  }

  function SqDist(a: Point, b: Point): (r: real)
    requires |a| == |b|
    ensures r >= 0.0
  {
    if a == [] then 0.0
    else
      var m := |a| - 1;
      SqDist(a[..m], b[..m]) + Square(a[m] - b[m])
  }

  lemma {:induction false} ZeroIffEqual(a: Point, b: Point)
    requires |a| == |b|
    ensures SqDist(a, b) == 0.0 <==> a == b
  {
    hide Square;
    if a != [] {
      var m := |a| - 1;
      ZeroIffEqual(a[..m], b[..m]);
      assert a == a[..m] + [a[m]] && b == b[..m] + [b[m]];
    }
  }

  /** The first of the nearest centroids. */
  function Nearest(p: Point, centroids: seq<Point>): (r: nat)
    requires |centroids| > 0 && Rect(centroids, |p|)
    ensures r < |centroids|
    ensures forall c :: 0 <= c < |centroids| ==> SqDist(p, centroids[r]) <= SqDist(p, centroids[c])
    ensures forall c :: 0 <= c < r ==> SqDist(p, centroids[r]) < SqDist(p, centroids[c])
  {
    var last := |centroids| - 1;
    if last == 0 then 0
    else
      var best := Nearest(p, centroids[..last]);
      assert forall c :: 0 <= c < last ==> centroids[..last][c] == centroids[c];
      if SqDist(p, centroids[last]) < SqDist(p, centroids[best]) then last else best
  }

  ghost predicate Fits(data: seq<Point>, labels: seq<nat>, centroids: seq<Point>, dims: nat) {
    && |labels| == |data| && Rect(data, dims) && Rect(centroids, dims)
    && forall i :: 0 <= i < |labels| ==> labels[i] < |centroids|
  }

  /** The total squared distance of the points to the centroids they are labelled with. */
  ghost function Cost(data: seq<Point>, labels: seq<nat>, centroids: seq<Point>, dims: nat): real
    requires Fits(data, labels, centroids, dims)
  {
    if data == [] then 0.0
    else
      var m := |data| - 1;
      Cost(data[..m], labels[..m], centroids, dims) + SqDist(data[m], centroids[labels[m]])
  }

  ghost function NearestLabels(data: seq<Point>, centroids: seq<Point>, dims: nat): (labels: seq<nat>)
    requires |centroids| > 0 && Rect(data, dims) && Rect(centroids, dims)
    ensures Fits(data, labels, centroids, dims)
  {
    seq(|data|, i requires 0 <= i < |data| => Nearest(data[i], centroids))
  }

  /** No labelling costs less than labelling every point with its nearest centroid. */
  lemma {:induction false} NearestLabelsAreBest(data: seq<Point>, labels: seq<nat>, centroids: seq<Point>, dims: nat)
    requires |centroids| > 0 && Fits(data, labels, centroids, dims)
    ensures Cost(data, NearestLabels(data, centroids, dims), centroids, dims) <= Cost(data, labels, centroids, dims)
  {
    if data != [] {
      var m := |data| - 1;
      NearestLabelsAreBest(data[..m], labels[..m], centroids, dims);
      assert NearestLabels(data, centroids, dims)[..m] == NearestLabels(data[..m], centroids, dims);
    }
  }

  // ----- the mean update

  ghost function Count(labels: seq<nat>, c: nat): nat {
    if labels == [] then 0
    else
      var m := |labels| - 1;
      Count(labels[..m], c) + if labels[m] == c then 1 else 0
  }

  /** The sum of a coordinate over the points labelled `c`. */
  ghost function Sum(data: seq<Point>, labels: seq<nat>, c: nat, j: nat): real
    requires |labels| == |data| && forall i :: 0 <= i < |data| ==> j < |data[i]|
  {
    if data == [] then 0.0
    else
      var m := |data| - 1;
      Sum(data[..m], labels[..m], c, j) + if labels[m] == c then data[m][j] else 0.0
  }

  ghost function Mean(data: seq<Point>, labels: seq<nat>, c: nat, dims: nat): (r: Point)
    requires |labels| == |data| && Rect(data, dims) && Count(labels, c) > 0
    ensures |r| == dims
  {
    seq(dims, j requires 0 <= j < dims => Sum(data, labels, c, j) / Count(labels, c) as real)
  }

  /** Every centroid moved to the mean of its points; one without points stays. */
  ghost function Updated(data: seq<Point>, labels: seq<nat>, centroids: seq<Point>, dims: nat): (r: seq<Point>)
    requires Fits(data, labels, centroids, dims)
    ensures |r| == |centroids| && Rect(r, dims)
  {
    seq(|centroids|, c requires 0 <= c < |centroids| =>
      if Count(labels, c) > 0 then Mean(data, labels, c, dims) else centroids[c])
  }

  /** What a coordinate `x` of a centroid contributes to the cost, up to a constant: n x^2 - 2 s x. */
  ghost function Quad(n: real, s: real, x: real): real {
    n * (x * x) - 2.0 * (s * x)
  }

  lemma QuadGrows(n: real, s: real, p: real, x: real)
    ensures Quad(n + 1.0, s + p, x) == Quad(n, s, x) + Quad(1.0, p, x)
  {
    assert (n + 1.0) * (x * x) == n * (x * x) + x * x;
    assert (s + p) * x == s * x + p * x;
  }

  /** The mean minimises the contribution, and nothing else does. */
  lemma MeanIsLeast(n: real, s: real, u: real)
    requires n > 0.0
    ensures if u == s / n then Quad(n, s, s / n) == Quad(n, s, u) else Quad(n, s, s / n) < Quad(n, s, u)
  {
    var v := s / n;
    assert s == n * v;
    var w := u - v;
    assert s * v == n * (v * v) && s * u == n * (v * u);
    assert Quad(n, s, u) == n * (u * u) - 2.0 * (n * (v * u)) == n * (u * u - 2.0 * (v * u));
    assert Quad(n, s, v) == n * (v * v) - 2.0 * (n * (v * v)) == n * (v * v - 2.0 * (v * v));
    var gap := w * w;
    assert gap == (u * u - 2.0 * (v * u)) - (v * v - 2.0 * (v * v));
    SignOfProduct(w, w, gap);
    SignOfProduct(n, gap, n * gap);
    SubtractProducts(n, u * u - 2.0 * (v * u), v * v - 2.0 * (v * v), gap);
  }

  lemma SubtractProducts(n: real, a: real, b: real, gap: real)
    requires gap == a - b
    ensures n * a - n * b == n * gap
  {
  }

  lemma {:induction false} MovePoint(p: Point, q: Point, j: nat, x: real)
    requires |p| == |q| && j < |q|
    ensures SqDist(p, q[j := x]) == SqDist(p, q) + Quad(1.0, p[j], x) - Quad(1.0, p[j], q[j])
  {
    hide Square, Quad;
    var m := |p| - 1;
    if j == m {
      assert q[j := x][..m] == q[..m];
      SquareExpands(p[j], x);
      SquareExpands(p[j], q[j]);
    } else {
      assert q[j := x][..m] == q[..m][j := x];
      MovePoint(p[..m], q[..m], j, x);
    }
  }

  lemma SquareExpands(p: real, x: real)
    ensures Square(p - x) == p * p + Quad(1.0, p, x)
  {
  }

  ghost function Moved(centroids: seq<Point>, c: nat, j: nat, x: real): seq<Point>
    requires c < |centroids| && j < |centroids[c]|
  {
    centroids[c := centroids[c][j := x]]
  }

  lemma {:induction false} MoveCoordinate(data: seq<Point>, labels: seq<nat>, centroids: seq<Point>, dims: nat, c: nat,
                                          j: nat, x: real)
    requires Fits(data, labels, centroids, dims) && c < |centroids| && j < dims
    ensures Fits(data, labels, Moved(centroids, c, j, x), dims)
    ensures var n, s := Count(labels, c) as real, Sum(data, labels, c, j);
      Cost(data, labels, Moved(centroids, c, j, x), dims)
      == Cost(data, labels, centroids, dims) + Quad(n, s, x) - Quad(n, s, centroids[c][j])
  {
    if data != [] {
      var m := |data| - 1;
      var n, s := Count(labels[..m], c) as real, Sum(data[..m], labels[..m], c, j);
      MoveCoordinate(data[..m], labels[..m], centroids, dims, c, j, x);
      if labels[m] == c {
        MovePoint(data[m], centroids[c], j, x);
        QuadGrows(n, s, data[m][j], x);
        QuadGrows(n, s, data[m][j], centroids[c][j]);
      }
    }
  }

  /** Moving one coordinate of a centroid to the mean lowers the cost, unless it is there already. */
  lemma MoveToMean(data: seq<Point>, labels: seq<nat>, centroids: seq<Point>, dims: nat, c: nat, j: nat)
    requires Fits(data, labels, centroids, dims) && c < |centroids| && j < dims && Count(labels, c) > 0
    ensures var x := Mean(data, labels, c, dims)[j];
      && Fits(data, labels, Moved(centroids, c, j, x), dims)
      && Cost(data, labels, Moved(centroids, c, j, x), dims) <= Cost(data, labels, centroids, dims)
      && (centroids[c][j] != x ==>
           Cost(data, labels, Moved(centroids, c, j, x), dims) < Cost(data, labels, centroids, dims))
  {
    var n, s := Count(labels, c) as real, Sum(data, labels, c, j);
    MoveCoordinate(data, labels, centroids, dims, c, j, s / n);
    MeanIsLeast(n, s, centroids[c][j]);
  }

  lemma {:induction false} ClusterLowers(data: seq<Point>, labels: seq<nat>, centroids: seq<Point>, dims: nat, c: nat,
                                         j: nat)
    requires Fits(data, labels, centroids, dims) && c < |centroids| && j <= dims && Count(labels, c) > 0
    ensures var next := centroids[c := Mean(data, labels, c, dims)[..j] + centroids[c][j..]];
      Fits(data, labels, next, dims) && Cost(data, labels, next, dims) <= Cost(data, labels, centroids, dims)
  {
    var mean := Mean(data, labels, c, dims);
    hide Mean, Cost;
    if j == 0 {
      assert mean[..0] + centroids[c][0..] == centroids[c];
      assert centroids[c := centroids[c]] == centroids;
    } else {
      ClusterLowers(data, labels, centroids, dims, c, j - 1);
      var before := centroids[c := mean[..j - 1] + centroids[c][j - 1..]];
      MoveToMean(data, labels, before, dims, c, j - 1);
      assert before[c][j - 1 := mean[j - 1]] == mean[..j] + centroids[c][j..];
      assert Moved(before, c, j - 1, mean[j - 1]) == centroids[c := mean[..j] + centroids[c][j..]];
    }
  }

  lemma {:induction false} UpdateLowersUpTo(data: seq<Point>, labels: seq<nat>, centroids: seq<Point>, dims: nat,
                                            c: nat)
    requires Fits(data, labels, centroids, dims) && c <= |centroids|
    ensures var next := Updated(data, labels, centroids, dims)[..c] + centroids[c..];
      Fits(data, labels, next, dims) && Cost(data, labels, next, dims) <= Cost(data, labels, centroids, dims)
  {
    var all := Updated(data, labels, centroids, dims);
    if c == 0 {
      assert all[..0] == [] && [] + centroids[0..] == centroids;
    } else {
      UpdateLowersUpTo(data, labels, centroids, dims, c - 1);
      OneMoreCluster(data, labels, centroids, dims, c - 1, all[..c - 1] + centroids[c - 1..],
                     all[..c] + centroids[c..]);
    }
  }

  lemma OneMoreCluster(data: seq<Point>, labels: seq<nat>, centroids: seq<Point>, dims: nat, c: nat,
                       before: seq<Point>, next: seq<Point>)
    requires Fits(data, labels, centroids, dims) && c < |centroids| && Fits(data, labels, before, dims)
    requires |before| == |next| == |centroids| && before[c] == centroids[c]
    requires next == before[c := Updated(data, labels, centroids, dims)[c]]
    ensures Fits(data, labels, next, dims) && Cost(data, labels, next, dims) <= Cost(data, labels, before, dims)
  {
    if Count(labels, c) > 0 {
      ClusterLowers(data, labels, before, dims, c, dims);
      var mean := Mean(data, labels, c, dims);
      assert mean[..dims] + before[c][dims..] == mean;
    } else {
      assert before == next;
    }
  }

  /** The mean update never raises the cost. */
  lemma UpdateLowers(data: seq<Point>, labels: seq<nat>, centroids: seq<Point>, dims: nat)
    requires Fits(data, labels, centroids, dims)
    ensures Cost(data, labels, Updated(data, labels, centroids, dims), dims) <= Cost(data, labels, centroids, dims)
  {
    UpdateLowersUpTo(data, labels, centroids, dims, |centroids|);
    var all := Updated(data, labels, centroids, dims);
    assert all[..|centroids|] + centroids[|centroids|..] == all;
  }

  lemma {:induction false} LabelIsCounted(labels: seq<nat>, i: nat)
    requires i < |labels|
    ensures Count(labels, labels[i]) > 0
  {
    var m := |labels| - 1;
    if i < m {
      LabelIsCounted(labels[..m], i);
    }
  }

  lemma {:induction false} CostDependsOnUsed(data: seq<Point>, labels: seq<nat>, a: seq<Point>, b: seq<Point>,
                                             dims: nat)
    requires Fits(data, labels, a, dims) && Fits(data, labels, b, dims)
    requires forall i :: 0 <= i < |labels| ==> a[labels[i]] == b[labels[i]]
    ensures Cost(data, labels, a, dims) == Cost(data, labels, b, dims)
  {
    if data != [] {
      var m := |data| - 1;
      CostDependsOnUsed(data[..m], labels[..m], a, b, dims);
    }
  }

  /** No other centroids cost less, for the same labels, than the updated ones. */
  lemma MeansAreBest(data: seq<Point>, labels: seq<nat>, centroids: seq<Point>, other: seq<Point>, dims: nat)
    requires Fits(data, labels, centroids, dims) && Fits(data, labels, other, dims)
    ensures Cost(data, labels, Updated(data, labels, centroids, dims), dims) <= Cost(data, labels, other, dims)
  {
    forall i | 0 <= i < |labels|
      ensures Updated(data, labels, centroids, dims)[labels[i]] == Updated(data, labels, other, dims)[labels[i]]
    {
      LabelIsCounted(labels, i);
    }
    CostDependsOnUsed(data, labels, Updated(data, labels, centroids, dims), Updated(data, labels, other, dims), dims);
    UpdateLowers(data, labels, other, dims);
  }

  // ----- rounds

  datatype Clustering = Clustering(labels: seq<nat>, centroids: seq<Point>)

  ghost predicate Valid(data: seq<Point>, s: Clustering, dims: nat) {
    |s.centroids| > 0 && Fits(data, s.labels, s.centroids, dims)
  }

  ghost function Loss(data: seq<Point>, s: Clustering, dims: nat): real
    requires Valid(data, s, dims)
  {
    Cost(data, s.labels, s.centroids, dims)
  }

  /** One round: assign, and unless nothing changed, move the centroids. */
  ghost function Round(data: seq<Point>, s: Clustering, dims: nat): (r: Clustering)
    requires Valid(data, s, dims)
    ensures Valid(data, r, dims) && |r.centroids| == |s.centroids|
  {
    var labels := NearestLabels(data, s.centroids, dims);
    if labels == s.labels then s else Clustering(labels, Updated(data, labels, s.centroids, dims))
  }

  ghost function Rounds(data: seq<Point>, s: Clustering, dims: nat, n: nat): (r: Clustering)
    requires Valid(data, s, dims)
    ensures Valid(data, r, dims) && |r.centroids| == |s.centroids|
  {
    if n == 0 then s else Round(data, Rounds(data, s, dims, n - 1), dims)
  }

  lemma RoundLowers(data: seq<Point>, s: Clustering, dims: nat)
    requires Valid(data, s, dims)
    ensures Loss(data, Round(data, s, dims), dims) <= Loss(data, s, dims)
    ensures Loss(data, Round(data, s, dims), dims)
      <= Cost(data, NearestLabels(data, s.centroids, dims), s.centroids, dims)
  {
    var labels := NearestLabels(data, s.centroids, dims);
    NearestLabelsAreBest(data, s.labels, s.centroids, dims);
    UpdateLowers(data, labels, s.centroids, dims);
  }

  /** The cost never rises, over any number of rounds; and one round brings it below what the seeds alone give. */
  lemma {:induction false} RoundsLower(data: seq<Point>, s: Clustering, dims: nat, m: nat, n: nat)
    requires Valid(data, s, dims) && m <= n
    ensures Loss(data, Rounds(data, s, dims, n), dims) <= Loss(data, Rounds(data, s, dims, m), dims)
    ensures n > 0 ==>
      Loss(data, Rounds(data, s, dims, n), dims)
        <= Cost(data, NearestLabels(data, s.centroids, dims), s.centroids, dims)
    decreases n
  {
    hide Round, NearestLabels, Updated, Cost, Valid, Fits, Loss;
    if n > 0 {
      RoundLowers(data, Rounds(data, s, dims, n - 1), dims);
      if m < n {
        RoundsLower(data, s, dims, m, n - 1);
      }
      if m == n > 1 {
        RoundsLower(data, s, dims, n - 1, n - 1);
      }
    }
  }

  /** A round that changes nothing: all later ones change nothing either. */
  lemma {:induction false} StopsForGood(data: seq<Point>, s: Clustering, dims: nat, m: nat, n: nat)
    requires Valid(data, s, dims) && m <= n
    requires Round(data, Rounds(data, s, dims, m), dims) == Rounds(data, s, dims, m)
    ensures Rounds(data, s, dims, n) == Rounds(data, s, dims, m)
  {
    hide Round, Valid;
    if m < n {
      StopsForGood(data, s, dims, m, n - 1);
    }
  }

  /** Centroids with points are at the mean of their points. */
  ghost predicate AtMeans(data: seq<Point>, s: Clustering, dims: nat)
    requires Valid(data, s, dims)
  {
    Updated(data, s.labels, s.centroids, dims) == s.centroids
  }

  lemma {:induction false} StartOrMeans(data: seq<Point>, s: Clustering, dims: nat, n: nat)
    requires Valid(data, s, dims)
    ensures Rounds(data, s, dims, n) == s || AtMeans(data, Rounds(data, s, dims, n), dims)
  {
    if n > 0 {
      StartOrMeans(data, s, dims, n - 1);
      var before := Rounds(data, s, dims, n - 1);
      var labels := NearestLabels(data, before.centroids, dims);
      var moved := Updated(data, labels, before.centroids, dims);
      assert Updated(data, labels, moved, dims) == moved;
    }
  }

  /** Where the loop may start: every label 0, the seeds distinct points of the data. */
  ghost predicate Seeded(data: seq<Point>, s: Clustering, dims: nat) {
    && Valid(data, s, dims) && (forall i :: 0 <= i < |s.labels| ==> s.labels[i] == 0)
    && (forall c :: 0 <= c < |s.centroids| ==> s.centroids[c] in data)
    && NoRepeats(s.centroids)
  }

  /** The first round changes something exactly when there is more than one seed. */
  lemma FirstRoundMovesIff(data: seq<Point>, s: Clustering, dims: nat)
    requires Seeded(data, s, dims)
    ensures Round(data, s, dims) != s <==> |s.centroids| > 1
  {
    var labels := NearestLabels(data, s.centroids, dims);
    if |s.centroids| > 1 {
      var i :| 0 <= i < |data| && data[i] == s.centroids[1];
      ZeroIffEqual(data[i], s.centroids[1]);
      ZeroIffEqual(data[i], s.centroids[0]);
      assert labels[i] != 0;
    } else {
      assert labels == s.labels;
    }
  }

  /** A clustering in which neither half step can do better: no labels beat these for these centroids, and no
      centroids beat these for these labels. */
  ghost predicate Settled(data: seq<Point>, s: Clustering, dims: nat)
    requires Valid(data, s, dims)
  {
    && (forall i, c :: 0 <= i < |data| && 0 <= c < |s.centroids| ==>
          SqDist(data[i], s.centroids[s.labels[i]]) <= SqDist(data[i], s.centroids[c]))
    && (forall labels :: Fits(data, labels, s.centroids, dims) ==>
         Loss(data, s, dims) <= Cost(data, labels, s.centroids, dims))
    && (forall other :: Fits(data, s.labels, other, dims) ==> Loss(data, s, dims) <= Cost(data, s.labels, other, dims))
  }

  /** Settled centroids are at the means: moving any coordinate there would cost less. */
  lemma SettledIsAtMeans(data: seq<Point>, r: Clustering, dims: nat)
    requires Valid(data, r, dims) && Settled(data, r, dims)
    ensures AtMeans(data, r, dims)
  {
    var updated := Updated(data, r.labels, r.centroids, dims);
    hide Cost, SqDist;
    forall c | 0 <= c < |r.centroids| ensures updated[c] == r.centroids[c] {
      if Count(r.labels, c) > 0 {
        forall j | 0 <= j < dims ensures updated[c][j] == r.centroids[c][j] {
          MoveToMean(data, r.labels, r.centroids, dims, c, j);
          var x := Mean(data, r.labels, c, dims)[j];
          assert Fits(data, r.labels, Moved(r.centroids, c, j, x), dims);
        }
      }
    }
  }

  /** A loop that stopped is settled exactly if it had more than one seed, or its only seed is the mean of the data:
      a single centroid never moves. */
  lemma StoppedIsSettledIff(data: seq<Point>, s: Clustering, dims: nat, n: nat)
    requires Seeded(data, s, dims) && Round(data, Rounds(data, s, dims, n), dims) == Rounds(data, s, dims, n)
    ensures |s.centroids| == 1 ==> Rounds(data, s, dims, n) == s
    ensures Settled(data, Rounds(data, s, dims, n), dims) <==> |s.centroids| > 1 || AtMeans(data, s, dims)
  {
    var r := Rounds(data, s, dims, n);
    FirstRoundMovesIff(data, s, dims);
    hide Round, Rounds, AtMeans, Settled, Fits;
    if |s.centroids| == 1 {
      StopsForGood(data, s, dims, 0, n);
      assert r == s by { NoRounds(data, s, dims); }
      if AtMeans(data, s, dims) {
        AtRestIsSettled(data, s, dims);
      }
      if Settled(data, s, dims) {
        SettledIsAtMeans(data, s, dims);
      }
    } else {
      StartOrMeans(data, s, dims, n);
      AtRestIsSettled(data, r, dims);
    }
  }

  lemma NoRounds(data: seq<Point>, s: Clustering, dims: nat)
    requires Valid(data, s, dims)
    ensures Rounds(data, s, dims, 0) == s
  {
  }

  /** When all points are the same, a centroid there is at its mean. */
  lemma EqualPointsAtMean(data: seq<Point>, s: Clustering, dims: nat)
    requires Seeded(data, s, dims) && |s.centroids| == 1 && forall i :: 0 <= i < |data| ==> data[i] == s.centroids[0]
    ensures AtMeans(data, s, dims)
  {
    var q := s.centroids[0];
    var updated := Updated(data, s.labels, s.centroids, dims);
    if Count(s.labels, 0) > 0 {
      forall j | 0 <= j < dims ensures updated[0][j] == q[j] {
        SumOfEqual(data, s.labels, 0, j, q[j]);
        DivideBack(Count(s.labels, 0) as real, q[j]);
      }
      assert updated[0] == q;
    }
    assert updated == s.centroids;
  }

  lemma DivideBack(n: real, x: real)
    requires n > 0.0
    ensures n * x / n == x
  {
  }

  lemma {:induction false} SumOfEqual(data: seq<Point>, labels: seq<nat>, c: nat, j: nat, x: real)
    requires |labels| == |data| && forall i :: 0 <= i < |data| ==> j < |data[i]| && data[i][j] == x
    ensures Sum(data, labels, c, j) == Count(labels, c) as real * x
  {
    if data != [] {
      var m := |data| - 1;
      SumOfEqual(data[..m], labels[..m], c, j, x);
      OneMore(Count(labels[..m], c) as real, x);
      assert Count(labels, c) == if labels[m] == c then Count(labels[..m], c) + 1 else Count(labels[..m], c);
    }
  }

  lemma OneMore(n: real, x: real)
    ensures (n + 1.0) * x == n * x + x
  {
  }

  lemma AtRestIsSettled(data: seq<Point>, r: Clustering, dims: nat)
    requires Valid(data, r, dims) && Round(data, r, dims) == r && AtMeans(data, r, dims)
    ensures Settled(data, r, dims)
  {
    assert r.labels == NearestLabels(data, r.centroids, dims);
    forall labels | Fits(data, labels, r.centroids, dims)
        ensures Loss(data, r, dims) <= Cost(data, labels, r.centroids, dims) {
      NearestLabelsAreBest(data, labels, r.centroids, dims);
    }
    forall other | Fits(data, r.labels, other, dims) ensures Loss(data, r, dims) <= Cost(data, r.labels, other, dims) {
      MeansAreBest(data, r.labels, r.centroids, other, dims);
    }
  }
}
