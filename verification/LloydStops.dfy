/**
 Lloyd's loop ends by itself (oracle-core/src/cluster.rs:316-340): without the cap on the number of rounds it would
 still reach a round that changes nothing. No labelling comes twice, because each round lowers the best cost of the
 labelling, or keeps it and moves points to smaller labels; and there are only finitely many labellings.
 */
module LloydStops {
  import opened ClusterModel

  // ----- the labellings

  function Prepended(first: nat, tails: set<seq<nat>>): set<seq<nat>> {
    set t | t in tails :: [first] + t
  }

  /** The labellings that start with a label below `k`. */
  function StartingBelow(k: nat, tails: set<seq<nat>>): set<seq<nat>> {
    if k == 0 then {} else StartingBelow(k - 1, tails) + Prepended(k - 1, tails)
  }

  /** All labellings of `n` points with labels below `k`. */
  function Labellings(n: nat, k: nat): set<seq<nat>> {
    if n == 0 then {[]} else StartingBelow(k, Labellings(n - 1, k))
  }

  lemma {:induction false} StartsBelow(first: nat, k: nat, tail: seq<nat>, tails: set<seq<nat>>)
    requires first < k && tail in tails
    ensures [first] + tail in StartingBelow(k, tails)
  {
    if first < k - 1 {
      StartsBelow(first, k - 1, tail, tails);
    } else {
      assert [first] + tail in Prepended(first, tails);
    }
  }

  lemma {:induction false} IsLabelling(labels: seq<nat>, k: nat)
    requires forall i :: 0 <= i < |labels| ==> labels[i] < k
    ensures labels in Labellings(|labels|, k)
  {
    if labels == [] {
      assert labels == [];
    } else {
      IsLabelling(labels[1..], k);
      StartsBelow(labels[0], k, labels[1..], Labellings(|labels| - 1, k));
      assert labels == [labels[0]] + labels[1..];
    }
  }

  // ----- what goes down

  function LabelSum(labels: seq<nat>): nat {
    if labels == [] then 0 else LabelSum(labels[..|labels| - 1]) + labels[|labels| - 1]
  }

  lemma {:induction false} SmallerSum(a: seq<nat>, b: seq<nat>)
    requires |a| == |b| && forall i :: 0 <= i < |a| ==> a[i] <= b[i]
    ensures LabelSum(a) <= LabelSum(b)
    ensures a != b ==> LabelSum(a) < LabelSum(b)
  {
    if a != [] {
      var m := |a| - 1;
      SmallerSum(a[..m], b[..m]);
      assert a == a[..m] + [a[m]] && b == b[..m] + [b[m]];
    }
  }

  /** The least cost that a labelling can have; `any` only says how many centroids there are. */
  ghost function BestCost(data: seq<Point>, labels: seq<nat>, any: seq<Point>, dims: nat): real
    requires Fits(data, labels, any, dims)
  {
    Cost(data, labels, Updated(data, labels, any, dims), dims)
  }

  lemma BestCostOfAny(data: seq<Point>, labels: seq<nat>, a: seq<Point>, b: seq<Point>, dims: nat)
    requires Fits(data, labels, a, dims) && Fits(data, labels, b, dims) && |a| == |b|
    ensures BestCost(data, labels, a, dims) == BestCost(data, labels, b, dims)
  {
    hide Cost, Updated;
    MeansAreBest(data, labels, a, Updated(data, labels, b, dims), dims);
    MeansAreBest(data, labels, b, Updated(data, labels, a, dims), dims);
  }

  /** `b` comes after `a`: it costs less, or the same with a smaller sum of labels. */
  ghost predicate Descends(data: seq<Point>, any: seq<Point>, dims: nat, a: seq<nat>, b: seq<nat>) {
    && Fits(data, a, any, dims) && Fits(data, b, any, dims)
    && (BestCost(data, b, any, dims) < BestCost(data, a, any, dims)
        || (BestCost(data, b, any, dims) == BestCost(data, a, any, dims) && LabelSum(b) < LabelSum(a)))
  }

  /** The first of the nearest centroids is no worse than any other one, nor does an equally near one come before it. */
  ghost predicate NoWorse(p: Point, centroids: seq<Point>, a: nat, b: nat)
    requires Rect(centroids, |p|) && a < |centroids| && b < |centroids|
  {
    && SqDist(p, centroids[a]) <= SqDist(p, centroids[b])
    && (SqDist(p, centroids[a]) == SqDist(p, centroids[b]) ==> a <= b)
  }

  lemma NearestIsNoWorse(p: Point, centroids: seq<Point>, b: nat)
    requires Rect(centroids, |p|) && b < |centroids|
    ensures NoWorse(p, centroids, Nearest(p, centroids), b)
  {
    hide SqDist, Nearest;
  }

  lemma {:induction false} TieOf(data: seq<Point>, near: seq<nat>, labels: seq<nat>, centroids: seq<Point>, dims: nat)
    requires Fits(data, labels, centroids, dims) && Fits(data, near, centroids, dims)
    requires forall i :: 0 <= i < |data| ==> NoWorse(data[i], centroids, near[i], labels[i])
    ensures Cost(data, near, centroids, dims) <= Cost(data, labels, centroids, dims)
    ensures Cost(data, near, centroids, dims) == Cost(data, labels, centroids, dims) ==>
      forall i :: 0 <= i < |data| ==> near[i] <= labels[i]
  {
    if data != [] {
      var m := |data| - 1;
      LastCost(data, labels, centroids, dims);
      LastCost(data, near, centroids, dims);
      hide SqDist, Cost;
      TieOf(data[..m], near[..m], labels[..m], centroids, dims);
      assert forall i :: 0 <= i < m ==> near[..m][i] == near[i] && labels[..m][i] == labels[i];
    }
  }

  lemma LastCost(data: seq<Point>, labels: seq<nat>, centroids: seq<Point>, dims: nat)
    requires data != [] && Fits(data, labels, centroids, dims)
    ensures var m := |data| - 1;
      Cost(data, labels, centroids, dims)
      == Cost(data[..m], labels[..m], centroids, dims) + SqDist(data[m], centroids[labels[m]])
  {
    hide SqDist;
  }

  /** When assigning anew costs the same, every point was at one of its nearest centroids already, and the first of
      these has the smaller label. */
  lemma TieMovesDown(data: seq<Point>, labels: seq<nat>, centroids: seq<Point>, dims: nat)
    requires |centroids| > 0 && Fits(data, labels, centroids, dims)
    ensures var nearest := NearestLabels(data, centroids, dims);
      && Cost(data, nearest, centroids, dims) <= Cost(data, labels, centroids, dims)
      && (Cost(data, nearest, centroids, dims) == Cost(data, labels, centroids, dims) ==>
            forall i :: 0 <= i < |data| ==> nearest[i] <= labels[i])
  {
    hide Cost, SqDist, Nearest, NoWorse;
    var nearest := NearestLabels(data, centroids, dims);
    forall i | 0 <= i < |data| ensures NoWorse(data[i], centroids, nearest[i], labels[i]) {
      NearestIsNoWorse(data[i], centroids, labels[i]);
    }
    TieOf(data, nearest, labels, centroids, dims);
  }

  /** A round that changes a label goes down. */
  lemma RoundDescends(data: seq<Point>, any: seq<Point>, s: Clustering, dims: nat)
    requires Valid(data, s, dims) && AtMeans(data, s, dims) && Round(data, s, dims) != s
    requires |any| == |s.centroids| && Rect(any, dims)
    ensures Descends(data, any, dims, s.labels, Round(data, s, dims).labels)
  {
    var labels := NearestLabels(data, s.centroids, dims);
    TieMovesDown(data, s.labels, s.centroids, dims);
    UpdateLowers(data, labels, s.centroids, dims);
    BestCostOfAny(data, s.labels, s.centroids, any, dims);
    BestCostOfAny(data, labels, s.centroids, any, dims);
    assert labels != s.labels;
    hide Cost, Updated, NearestLabels, LabelSum;
    if forall i :: 0 <= i < |data| ==> labels[i] <= s.labels[i] {
      SmallerSum(labels, s.labels);
    }
  }

  /** After a round that changes something, the centroids are at the means. */
  lemma RoundToMeans(data: seq<Point>, s: Clustering, dims: nat)
    requires Valid(data, s, dims) && Round(data, s, dims) != s
    ensures AtMeans(data, Round(data, s, dims), dims)
  {
    hide AtMeans, Round;
    NoRounds(data, s, dims);
    StartOrMeans(data, s, dims, 1);
  }

  lemma {:induction false} RoundFirst(data: seq<Point>, s: Clustering, dims: nat, n: nat)
    requires Valid(data, s, dims)
    ensures Rounds(data, Round(data, s, dims), dims, n) == Rounds(data, s, dims, n + 1)
  {
    hide Round, Valid;
    if n > 0 {
      RoundFirst(data, s, dims, n - 1);
    }
  }

  /** From a labelling on which every labelling seen so far has descended. */
  lemma {:induction false} StopsFrom(data: seq<Point>, any: seq<Point>, s: Clustering, dims: nat, seen: set<seq<nat>>)
    returns (n: nat)
    requires Valid(data, s, dims) && AtMeans(data, s, dims) && |any| == |s.centroids| && Rect(any, dims)
    requires seen <= Labellings(|data|, |any|)
    requires forall labels :: labels in seen ==> Descends(data, any, dims, labels, s.labels)
    ensures Round(data, Rounds(data, s, dims, n), dims) == Rounds(data, s, dims, n)
    decreases Labellings(|data|, |any|) - seen
  {
    NoRounds(data, s, dims);
    var next := Round(data, s, dims);
    if next == s {
      n := 0;
    } else {
      IsLabelling(s.labels, |any|);
      RoundDescends(data, any, s, dims);
      RoundToMeans(data, s, dims);
      assert s.labels !in seen;
      hide Round, Rounds, BestCost, AtMeans, Labellings;
      n := StopsFrom(data, any, next, dims, seen + {s.labels});
      RoundFirst(data, s, dims, n);
      n := n + 1;
    }
  }

  /** From wherever it starts, the loop reaches a round that changes nothing. */
  lemma LoopStops(data: seq<Point>, s: Clustering, dims: nat) returns (n: nat)
    requires Valid(data, s, dims)
    ensures Round(data, Rounds(data, s, dims, n), dims) == Rounds(data, s, dims, n)
  {
    NoRounds(data, s, dims);
    var next := Round(data, s, dims);
    hide Round, Rounds;
    if next == s {
      n := 0;
    } else {
      RoundToMeans(data, s, dims);
      n := StopsFrom(data, s.centroids, next, dims, {});
      RoundFirst(data, s, dims, n);
      n := n + 1;
    }
  }
}
