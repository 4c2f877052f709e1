/** Lloyd's iteration over exact reals (clustering/kmeans/). */
module KMeans {
  type Vector = seq<real>

  // ----------------------------------------------------------------------------- distance

  function SquaredTo(v: Vector, w: Vector, n: nat): (r: real)
    requires n <= |v| && n <= |w|
    ensures r >= 0.0
  {
    if n == 0 then 0.0
    else
      var x := v[n - 1] - w[n - 1];
      SquareNotNegative(x);
      SquaredTo(v, w, n - 1) + x * x
  }

  lemma SquareNotNegative(x: real)
    ensures x * x >= 0.0
  {
  }

  /** The sum under the root; pairing stops at the shorter vector. */
  function Squared(v: Vector, w: Vector): real {
    SquaredTo(v, w, if |v| <= |w| then |v| else |w|)
  }

  /** All that is assumed of the square root. */
  ghost predicate StrictlyIncreasing(root: real -> real) {
    forall a, b :: 0.0 <= a < b ==> root(a) < root(b)
  }

  function Between(root: real -> real, v: Vector, w: Vector): real {
    root(Squared(v, w))
  }

  /** Comparing distances is comparing the sums under the root. */
  lemma BetweenOrders(root: real -> real, u: Vector, v: Vector, w: Vector)
    requires StrictlyIncreasing(root)
    ensures Between(root, u, v) < Between(root, u, w) <==> Squared(u, v) < Squared(u, w)
  {
  }

  // ------------------------------------------------------------------------------- means

  function ColumnSum(vs: seq<Vector>, d: nat): real
    requires forall v <- vs :: d < |v|
  {
    if vs == [] then 0.0 else ColumnSum(vs[..|vs| - 1], d) + vs[|vs| - 1][d]
  }

  predicate OfLength(vs: seq<Vector>, n: nat) {
    forall v <- vs :: |v| == n
  }

  /** The mean of some vectors; the zero vector when there are none. */
  function Mean(vs: seq<Vector>, n: nat): (m: Vector)
    requires OfLength(vs, n)
    ensures |m| == n
  {
    seq(n, d requires 0 <= d < n && OfLength(vs, n) => if vs == [] then 0.0 else ColumnSum(vs, d) / |vs| as real)
  }

  /** No vectors have the zero vector for a mean, whatever their length. */
  lemma MeanOfNone(n: nat)
    ensures forall d | 0 <= d < n :: Mean([], n)[d] == 0.0
  {
  }

  method Avg(vs: seq<Vector>, n: nat) returns (r: Vector)
    requires OfLength(vs, n)
    ensures r == Mean(vs, n)
  {
    var result := new real[n](_ => 0.0);
    if vs != [] {
      for j := 0 to |vs|
        invariant forall d | 0 <= d < n :: result[d] == ColumnSum(vs[..j], d)
      {
        assert vs[..j + 1][..j] == vs[..j] && vs[j] in vs;
        for i := 0 to n
          invariant forall d | 0 <= d < i :: result[d] == ColumnSum(vs[..j + 1], d)
          invariant forall d | i <= d < n :: result[d] == ColumnSum(vs[..j], d)
        {
          result[i] := result[i] + vs[j][i];
        }
      }
      assert vs[..|vs|] == vs;
      r := seq(n, d requires 0 <= d < n reads result => result[d] / |vs| as real);
    } else {
      r := result[..];
    }
  }

  // -------------------------------------------------------------------------- assignment

  /** The first centroid that no other is closer than. */
  ghost predicate FirstClosest(point: Vector, centroids: seq<Vector>, c: nat) {
    && c < |centroids|
    && (forall j | 0 <= j < |centroids| :: Squared(point, centroids[c]) <= Squared(point, centroids[j]))
    && (forall j | 0 <= j < c :: Squared(point, centroids[c]) < Squared(point, centroids[j]))
  }

  ghost predicate Closest(points: seq<Vector>, centroids: seq<Vector>, assignments: seq<nat>) {
    && |assignments| == |points|
    && forall p | 0 <= p < |points| :: FirstClosest(points[p], centroids, assignments[p])
  }

  method AssignOne(root: real -> real, point: Vector, centroids: seq<Vector>) returns (closest: nat)
    requires StrictlyIncreasing(root) && centroids != []
    ensures FirstClosest(point, centroids, closest)
  {
    hide StrictlyIncreasing, Between, Squared;
    closest := 0;
    var distance := Between(root, point, centroids[0]);
    for c := 1 to |centroids|
      invariant closest < c && distance == Between(root, point, centroids[closest])
      invariant FirstClosest(point, centroids[..c], closest)
    {
      var dist := Between(root, point, centroids[c]);
      BetweenOrders(root, point, centroids[c], centroids[closest]);
      if dist < distance {
        closest, distance := c, dist;
      }
    }
    assert centroids[..|centroids|] == centroids;
  }

  method Assign(root: real -> real, points: seq<Vector>, centroids: seq<Vector>) returns (assignments: seq<nat>)
    requires StrictlyIncreasing(root) && centroids != []
    ensures Closest(points, centroids, assignments)
  {
    hide FirstClosest;
    assignments := [];
    for p := 0 to |points|
      invariant Closest(points[..p], centroids, assignments)
    {
      var closest := AssignOne(root, points[p], centroids);
      assignments := assignments + [closest];
    }
    assert points[..|points|] == points;
  }

  // ------------------------------------------------------------------------ recalculation

  predicate Assigns(points: seq<Vector>, assignments: seq<nat>, k: nat) {
    |assignments| == |points| && forall p | 0 <= p < |assignments| :: assignments[p] < k
  }

  /** The points of a centroid, in the order of the data. */
  function Group(points: seq<Vector>, assignments: seq<nat>, c: nat): (g: seq<Vector>)
    requires |assignments| == |points|
    ensures forall v <- g :: v in points
  {
    if points == [] then []
    else
      var n := |points| - 1;
      Group(points[..n], assignments[..n], c) + if assignments[n] == c then [points[n]] else []
  }

  /** Every centroid is the mean of its points. */
  ghost predicate Means(points: seq<Vector>, assignments: seq<nat>, n: nat, centroids: seq<Vector>)
    requires OfLength(points, n) && |assignments| == |points|
  {
    forall c | 0 <= c < |centroids| :: centroids[c] == Mean(Group(points, assignments, c), n)
  }

  method Grouped(points: seq<Vector>, assignments: seq<nat>, k: nat) returns (grouped: seq<seq<Vector>>)
    requires Assigns(points, assignments, k)
    ensures |grouped| == k && forall c | 0 <= c < k :: grouped[c] == Group(points, assignments, c)
  {
    grouped := seq(k, _ => []);
    for p := 0 to |points|
      invariant |grouped| == k && forall c | 0 <= c < k :: grouped[c] == Group(points[..p], assignments[..p], c)
    {
      var c := assignments[p];
      assert points[..p + 1][..p] == points[..p] && assignments[..p + 1][..p] == assignments[..p];
      grouped := grouped[c := grouped[c] + [points[p]]];
    }
    assert points[..|points|] == points && assignments[..|points|] == assignments;
  }

  method Recalculate(points: seq<Vector>, assignments: seq<nat>, k: nat, n: nat) returns (centroids: seq<Vector>)
    requires OfLength(points, n) && Assigns(points, assignments, k)
    ensures |centroids| == k && Means(points, assignments, n, centroids) && OfLength(centroids, n)
  {
    hide Group, Mean;
    var grouped := Grouped(points, assignments, k);
    centroids := [];
    for c := 0 to k
      invariant |centroids| == c && Means(points, assignments, n, centroids) && OfLength(centroids, n)
    {
      var mean := Avg(grouped[c], n);
      centroids := centroids + [mean];
    }
  }

  // --------------------------------------------------------------------------- objective

  /** Squared distances of some vectors to one point. */
  function CostTo(vs: seq<Vector>, x: Vector, n: nat): real
    requires n <= |x| && forall v <- vs :: n <= |v|
  {
    if vs == [] then 0.0 else CostTo(vs[..|vs| - 1], x, n) + SquaredTo(vs[|vs| - 1], x, n)
  }

  /** Squared distances of the points to their centroids. */
  function Objective(points: seq<Vector>, assignments: seq<nat>, centroids: seq<Vector>): real
    requires Assigns(points, assignments, |centroids|)
  {
    if points == [] then 0.0
    else
      var p := |points| - 1;
      Objective(points[..p], assignments[..p], centroids) + Squared(points[p], centroids[assignments[p]])
  }

  /** What the points' centroids move by, as squared distances. */
  function Moved(assignments: seq<nat>, before: seq<Vector>, after: seq<Vector>): (r: real)
    requires (forall p | 0 <= p < |assignments| :: assignments[p] < |before|) && |before| == |after|
    ensures r >= 0.0
  {
    if assignments == [] then 0.0
    else
      var p := |assignments| - 1;
      Moved(assignments[..p], before, after) + Squared(before[assignments[p]], after[assignments[p]])
  }

  function Column(vs: seq<Vector>, x: real, d: nat): real
    requires forall v <- vs :: d < |v|
  {
    if vs == [] then 0.0
    else
      var y := vs[|vs| - 1][d] - x;
      Column(vs[..|vs| - 1], x, d) + y * y
  }

  lemma {:induction false} CostByColumns(vs: seq<Vector>, x: Vector, n: nat)
    requires n < |x| && forall v <- vs :: n < |v|
    ensures CostTo(vs, x, n + 1) == CostTo(vs, x, n) + Column(vs, x[n], n)
  {
    if vs != [] { CostByColumns(vs[..|vs| - 1], x, n); }
  }

  /** `(y - x)^2` about another centre `m`. */
  lemma ShiftSquare(y: real, m: real, x: real)
    ensures (y - x) * (y - x) == (y - m) * (y - m) + 2.0 * ((y - m) * (m - x)) + (x - m) * (x - m)
  {
    assert (y - x) == (y - m) + (m - x);
  }

  lemma Distribute(a: real, b: real, c: real)
    ensures (a + b) * c == a * c + b * c
  {
  }

  /** The excess of a sum over `k` times `m`, weighed by `w`, with one number more. */
  lemma ExcessStep(s: real, k: real, y: real, m: real, w: real)
    ensures (s + y - (k + 1.0) * m) * w == (s - k * m) * w + (y - m) * w
  {
    Distribute(k, 1.0, m);
    Distribute(s - k * m, y - m, w);
  }

  ghost function Gap(y: real, x: real): real {
    (y - x) * (y - x)
  }

  /** What `k` numbers with the sum `s` cost more at `x` than at `m`. */
  ghost function Shift(s: real, k: real, m: real, x: real): real {
    2.0 * ((s - k * m) * (m - x)) + k * ((x - m) * (x - m))
  }

  lemma {:induction false} ColumnShift(vs: seq<Vector>, m: real, x: real, d: nat)
    requires forall v <- vs :: d < |v|
    ensures Column(vs, x, d) == Column(vs, m, d) + Shift(ColumnSum(vs, d), |vs| as real, m, x)
  {
    if vs == [] {
    } else {
      hide *;
      var front := vs[..|vs| - 1];
      ColumnShift(front, m, x, d);
      OneMoreColumn(vs, m, d);
      OneMoreColumn(vs, x, d);
      OneMoreShift(Column(front, x, d), Column(front, m, d), ColumnSum(front, d), |front| as real, |vs| as real, vs[|vs| - 1][d], m, x);
    }
  }

  lemma OneMoreColumn(vs: seq<Vector>, x: real, d: nat)
    requires vs != [] && forall v <- vs :: d < |v|
    ensures var front, y := vs[..|vs| - 1], vs[|vs| - 1][d];
            && (forall v <- front :: d < |v|) && |vs| as real == |front| as real + 1.0
            && Column(vs, x, d) == Column(front, x, d) + Gap(y, x)
            && ColumnSum(vs, d) == ColumnSum(front, d) + y
  {
  }

  lemma OneMoreShift(atX: real, atM: real, s: real, k: real, more: real, y: real, m: real, x: real)
    requires atX == atM + Shift(s, k, m, x) && more == k + 1.0
    ensures atX + Gap(y, x) == atM + Gap(y, m) + Shift(s + y, more, m, x)
  {
    ShiftSquare(y, m, x);
    ExcessStep(s, k, y, m, m - x);
    Distribute(k, 1.0, (x - m) * (x - m));
  }

  /** The mean loses nothing to any other place but its distance to it, once a vector. */
  lemma {:induction false} MeanSplits(vs: seq<Vector>, x: Vector, n: nat, d: nat)
    requires OfLength(vs, n) && |x| == n && d <= n && vs != []
    ensures CostTo(vs, x, d) == CostTo(vs, Mean(vs, n), d) + |vs| as real * SquaredTo(x, Mean(vs, n), d)
  {
    hide Column, ColumnSum, SquaredTo, CostTo;
    var m := Mean(vs, n);
    if d == 0 {
      assert SquaredTo(x, m, 0) == 0.0 by { NoCoordinates(x, m); }
      NoColumns(vs, x);
      NoColumns(vs, m);
    } else {
      MeanSplits(vs, x, n, d - 1);
      CostByColumns(vs, x, d - 1);
      CostByColumns(vs, m, d - 1);
      AboutTheMean(vs, x[d - 1], d - 1);
      SquareOneMore(|vs| as real, x, m, d);
    }
  }

  lemma AboutTheMean(vs: seq<Vector>, x: real, d: nat)
    requires vs != [] && forall v <- vs :: d < |v|
    ensures var m := ColumnSum(vs, d) / |vs| as real;
            Column(vs, x, d) == Column(vs, m, d) + |vs| as real * ((x - m) * (x - m))
  {
    hide Column, ColumnSum;
    var s, k := ColumnSum(vs, d), |vs| as real;
    ColumnShift(vs, s / k, x, d);
    NoExcess(s, k, s / k - x);
  }

  lemma SquareOneMore(k: real, x: Vector, m: Vector, d: nat)
    requires 0 < d <= |x| && d <= |m|
    ensures k * SquaredTo(x, m, d) == k * SquaredTo(x, m, d - 1) + k * ((x[d - 1] - m[d - 1]) * (x[d - 1] - m[d - 1]))
  {
    var y := x[d - 1] - m[d - 1];
    assert SquaredTo(x, m, d) == SquaredTo(x, m, d - 1) + y * y;
    hide SquaredTo;
    DistributeLeft(k, SquaredTo(x, m, d - 1), y * y);
  }

  lemma {:induction false} NoColumns(vs: seq<Vector>, x: Vector)
    ensures CostTo(vs, x, 0) == 0.0
  {
    if vs != [] { NoColumns(vs[..|vs| - 1], x); }
  }

  lemma NoCoordinates(v: Vector, w: Vector)
    ensures SquaredTo(v, w, 0) == 0.0
  {
  }

  lemma NoExcess(s: real, k: real, w: real)
    requires k != 0.0
    ensures (s - k * (s / k)) * w == 0.0
  {
  }

  lemma DistributeLeft(c: real, a: real, b: real)
    ensures c * (a + b) == c * a + c * b
  {
  }

  // ------------------------------------------------------------- the objective by cluster

  /** The points of the first `k` centroids only, centroid by centroid. */
  ghost function ByCluster(points: seq<Vector>, assignments: seq<nat>, centroids: seq<Vector>, n: nat, k: nat): real
    requires OfLength(points, n) && |assignments| == |points| && OfLength(centroids, n) && k <= |centroids|
  {
    if k == 0 then 0.0
    else
      InRange(centroids, n, k - 1);
      ByCluster(points, assignments, centroids, n, k - 1) + CostTo(Group(points, assignments, k - 1), centroids[k - 1], n)
  }

  ghost function MovedByCluster(points: seq<Vector>, assignments: seq<nat>, before: seq<Vector>, after: seq<Vector>, k: nat): real
    requires |assignments| == |points| && k <= |before| == |after|
  {
    if k == 0 then 0.0
    else
      MovedByCluster(points, assignments, before, after, k - 1)
      + |Group(points, assignments, k - 1)| as real * Squared(before[k - 1], after[k - 1])
  }

  lemma InRange(vs: seq<Vector>, n: nat, k: nat)
    requires OfLength(vs, n) && k < |vs|
    ensures |vs[k]| == n
  {
  }

  lemma {:induction false} NoPoints(centroids: seq<Vector>, after: seq<Vector>, n: nat, k: nat)
    requires OfLength(centroids, n) && k <= |centroids| == |after|
    ensures ByCluster([], [], centroids, n, k) == 0.0 == MovedByCluster([], [], centroids, after, k)
  {
    if k > 0 { NoPoints(centroids, after, n, k - 1); }
  }

  lemma GroupOneMore(points: seq<Vector>, assignments: seq<nat>, c: nat, p: nat)
    requires |assignments| == |points| == p + 1
    ensures assignments[p] == c ==> Group(points, assignments, c) == Group(points[..p], assignments[..p], c) + [points[p]]
    ensures assignments[p] != c ==> Group(points, assignments, c) == Group(points[..p], assignments[..p], c)
  {
  }

  lemma CostOneMore(vs: seq<Vector>, v: Vector, x: Vector, n: nat)
    requires OfLength(vs + [v], n) && |x| == n && |v| == n
    ensures OfLength(vs, n) && CostTo(vs + [v], x, n) == CostTo(vs, x, n) + Squared(v, x)
  {
    assert (vs + [v])[..|vs|] == vs;
    assert forall w <- vs :: w in vs + [v];
  }

  lemma {:induction false} ClustersOneMore(points: seq<Vector>, assignments: seq<nat>, centroids: seq<Vector>, n: nat, k: nat, p: nat)
    requires OfLength(points, n) && |assignments| == |points| == p + 1 && OfLength(centroids, n) && k <= |centroids|
    requires assignments[p] < |centroids|
    ensures ByCluster(points, assignments, centroids, n, k)
         == ByCluster(points[..p], assignments[..p], centroids, n, k)
          + if assignments[p] < k then Squared(points[p], centroids[assignments[p]]) else 0.0
  {
    hide Group, Squared;
    if k > 0 {
      var c := k - 1;
      ClustersOneMore(points, assignments, centroids, n, c, p);
      GroupOneMore(points, assignments, c, p);
      if assignments[p] == c { CostOneMore(Group(points[..p], assignments[..p], c), points[p], centroids[c], n); }
    }
  }

  lemma {:induction false} MovedOneMore(points: seq<Vector>, assignments: seq<nat>, before: seq<Vector>, after: seq<Vector>, k: nat, p: nat)
    requires |assignments| == |points| == p + 1 && k <= |before| == |after| && assignments[p] < |before|
    ensures MovedByCluster(points, assignments, before, after, k)
         == MovedByCluster(points[..p], assignments[..p], before, after, k)
          + if assignments[p] < k then Squared(before[assignments[p]], after[assignments[p]]) else 0.0
  {
    hide Group, Squared;
    if k > 0 {
      var c := k - 1;
      MovedOneMore(points, assignments, before, after, c, p);
      GroupOneMore(points, assignments, c, p);
      Distribute(|Group(points[..p], assignments[..p], c)| as real, 1.0, Squared(before[c], after[c]));
    }
  }

  /** Every point is counted in exactly one cluster. */
  lemma {:induction false} ObjectiveByCluster(points: seq<Vector>, assignments: seq<nat>, centroids: seq<Vector>, after: seq<Vector>, n: nat)
    requires OfLength(points, n) && OfLength(centroids, n) && |centroids| == |after| && Assigns(points, assignments, |centroids|)
    ensures Objective(points, assignments, centroids) == ByCluster(points, assignments, centroids, n, |centroids|)
    ensures Moved(assignments, centroids, after) == MovedByCluster(points, assignments, centroids, after, |centroids|)
  {
    if points == [] {
      NoPoints(centroids, after, n, |centroids|);
    } else {
      var p := |points| - 1;
      ObjectiveByCluster(points[..p], assignments[..p], centroids, after, n);
      ClustersOneMore(points, assignments, centroids, n, |centroids|, p);
      MovedOneMore(points, assignments, centroids, after, |centroids|, p);
    }
  }

  lemma {:induction false} ClustersSplit(points: seq<Vector>, assignments: seq<nat>, centroids: seq<Vector>, means: seq<Vector>, n: nat, k: nat)
    requires OfLength(points, n) && OfLength(centroids, n) && OfLength(means, n) && |assignments| == |points|
    requires k <= |centroids| == |means| && Means(points, assignments, n, means)
    ensures ByCluster(points, assignments, centroids, n, k)
         == ByCluster(points, assignments, means, n, k) + MovedByCluster(points, assignments, centroids, means, k)
  {
    hide Group, Mean, Squared, CostTo;
    if k > 0 {
      ClustersSplit(points, assignments, centroids, means, n, k - 1);
      InRange(centroids, n, k - 1);
      ClusterSplits(Group(points, assignments, k - 1), centroids[k - 1], n);
    }
  }

  lemma ClusterSplits(g: seq<Vector>, x: Vector, n: nat)
    requires OfLength(g, n) && |x| == n
    ensures CostTo(g, x, n) == CostTo(g, Mean(g, n), n) + |g| as real * Squared(x, Mean(g, n))
  {
    hide Mean, Squared, SquaredTo;
    Paired(x, Mean(g, n));
    if g != [] { MeanSplits(g, x, n, n); }
  }

  lemma Paired(v: Vector, w: Vector)
    requires |v| == |w|
    ensures Squared(v, w) == SquaredTo(v, w, |v|)
  {
  }

  // -------------------------------------------------------------------------- main results

  /** Moving the centroids to the means lowers the objective by exactly the squared distances
      they move, counted once a point; empty clusters, sent to the zero vector, cost nothing. */
  lemma RecalculationGain(points: seq<Vector>, assignments: seq<nat>, centroids: seq<Vector>, means: seq<Vector>, n: nat)
    requires OfLength(points, n) && OfLength(centroids, n) && OfLength(means, n) && |centroids| == |means|
    requires Assigns(points, assignments, |centroids|) && Means(points, assignments, n, means)
    ensures Objective(points, assignments, centroids)
         == Objective(points, assignments, means) + Moved(assignments, centroids, means)
  {
    hide Objective, Moved, ByCluster, MovedByCluster;
    ObjectiveByCluster(points, assignments, centroids, means, n);
    ObjectiveByCluster(points, assignments, means, means, n);
    ClustersSplit(points, assignments, centroids, means, n, |centroids|);
  }

  lemma {:induction false} ZeroSquares(v: Vector, w: Vector, n: nat)
    requires n <= |v| && n <= |w|
    ensures SquaredTo(v, w, n) == 0.0 <==> v[..n] == w[..n]
  {
    if n > 0 {
      ZeroSquares(v, w, n - 1);
      ZeroSquare(v[n - 1] - w[n - 1]);
      assert v[..n] == v[..n - 1] + [v[n - 1]] && w[..n] == w[..n - 1] + [w[n - 1]];
    }
  }

  lemma ZeroSquare(x: real)
    ensures x * x == 0.0 <==> x == 0.0
  {
    if x != 0.0 { assert x * x / x == x; }
  }

  lemma {:induction false} NothingMoved(assignments: seq<nat>, before: seq<Vector>, after: seq<Vector>, n: nat)
    requires (forall p | 0 <= p < |assignments| :: assignments[p] < |before|) && |before| == |after|
    requires OfLength(before, n) && OfLength(after, n)
    ensures Moved(assignments, before, after) == 0.0 <==> forall p | 0 <= p < |assignments| :: before[assignments[p]] == after[assignments[p]]
  {
    if assignments != [] {
      var p := |assignments| - 1;
      var v, w := before[assignments[p]], after[assignments[p]];
      NothingMoved(assignments[..p], before, after, n);
      ZeroSquares(v, w, n);
      assert v[..n] == v && w[..n] == w;
    }
  }

  /** The means are the best centroids for an assignment, and the only best ones for the
      clusters that have points. */
  lemma MeansAreBest(points: seq<Vector>, assignments: seq<nat>, centroids: seq<Vector>, means: seq<Vector>, n: nat)
    requires OfLength(points, n) && OfLength(centroids, n) && OfLength(means, n) && |centroids| == |means|
    requires Assigns(points, assignments, |centroids|) && Means(points, assignments, n, means)
    ensures Objective(points, assignments, means) <= Objective(points, assignments, centroids)
    ensures Objective(points, assignments, means) == Objective(points, assignments, centroids)
            <==> forall p | 0 <= p < |assignments| :: centroids[assignments[p]] == means[assignments[p]]
  {
    hide Objective, Moved;
    RecalculationGain(points, assignments, centroids, means, n);
    NothingMoved(assignments, centroids, means, n);
  }

  /** The closest centroids are the best assignment. */
  lemma {:induction false} ClosestIsBest(points: seq<Vector>, centroids: seq<Vector>, closest: seq<nat>, other: seq<nat>)
    requires Closest(points, centroids, closest) && Assigns(points, other, |centroids|)
    ensures Assigns(points, closest, |centroids|)
    ensures Objective(points, closest, centroids) <= Objective(points, other, centroids)
  {
    hide Squared;
    if points != [] {
      var p := |points| - 1;
      ClosestIsBest(points[..p], centroids, closest[..p], other[..p]);
    }
  }

  /** One round never raises the objective: not when points change centroids, and not when
      centroids move to their means. */
  lemma Descent(points: seq<Vector>, assignments: seq<nat>, centroids: seq<Vector>, closest: seq<nat>, means: seq<Vector>, n: nat)
    requires OfLength(points, n) && OfLength(centroids, n) && OfLength(means, n) && |centroids| == |means|
    requires Assigns(points, assignments, |centroids|) && Closest(points, centroids, closest)
    requires Means(points, closest, n, means)
    ensures Assigns(points, closest, |means|)
    ensures Objective(points, closest, means) <= Objective(points, closest, centroids) <= Objective(points, assignments, centroids)
  {
    hide Objective;
    ClosestIsBest(points, centroids, closest, assignments);
    MeansAreBest(points, closest, centroids, means, n);
  }

  // -------------------------------------------------------------------- through the tables

  /** Python's `int` of a number. */
  function Whole(x: real): real {
    if x >= 0.0 then x.Floor as real else 0.0 - (0.0 - x).Floor as real
  }

  /** It is a whole number less than one away, on the side of zero. */
  lemma WholeIsNear(x: real)
    ensures Whole(x) == Whole(x).Floor as real
    ensures if x >= 0.0 then 0.0 <= Whole(x) <= x < Whole(x) + 1.0 else Whole(x) - 1.0 < x <= Whole(x) <= 0.0
  {
    assert x < 0.0 ==> Whole(x) == (0 - (0.0 - x).Floor) as real;
  }

  /** Vectors are annotated as lists of integers, and a table is read by its annotations. */
  function Reloaded(v: Vector): (r: Vector)
    ensures |r| == |v| && forall d | 0 <= d < |v| :: r[d] == Whole(v[d])
  {
    seq(|v|, d requires 0 <= d < |v| => Whole(v[d]))
  }

  function AllReloaded(vs: seq<Vector>): (r: seq<Vector>)
    ensures |r| == |vs| && forall c | 0 <= c < |vs| :: r[c] == Reloaded(vs[c])
  {
    seq(|vs|, c requires 0 <= c < |vs| => Reloaded(vs[c]))
  }

  lemma ReloadedLength(vs: seq<Vector>, n: nat)
    requires OfLength(vs, n)
    ensures OfLength(AllReloaded(vs), n)
  {
    forall v | v in AllReloaded(vs) ensures |v| == n {
      var c :| 0 <= c < |vs| && AllReloaded(vs)[c] == v;
      assert vs[c] in vs;
    }
  }

  lemma {:induction false} ReloadedNear(v: Vector, n: nat)
    requires n <= |v|
    ensures SquaredTo(Reloaded(v), v, n) <= n as real
  {
    if n > 0 {
      var x := Reloaded(v)[n - 1] - v[n - 1];
      ReloadedNear(v, n - 1);
      WholeIsNear(v[n - 1]);
      SmallSquare(x);
      assert SquaredTo(Reloaded(v), v, n) == SquaredTo(Reloaded(v), v, n - 1) + x * x;
    }
  }

  lemma SmallSquare(x: real)
    requires -1.0 <= x <= 1.0
    ensures x * x <= 1.0
  {
    var y := if x >= 0.0 then x else 0.0 - x;
    Scaled(y, 1.0, y);
    assert x * x == y * y;
  }

  lemma Scaled(a: real, b: real, c: real)
    requires a <= b && 0.0 <= c
    ensures a * c <= b * c
  {
  }

  lemma {:induction false} ReloadedMoves(assignments: seq<nat>, vs: seq<Vector>, n: nat)
    requires OfLength(vs, n) && forall p | 0 <= p < |assignments| :: assignments[p] < |vs|
    ensures Moved(assignments, AllReloaded(vs), vs) <= (|assignments| * n) as real
  {
    if assignments != [] {
      var p := |assignments| - 1;
      var v := vs[assignments[p]];
      ReloadedMoves(assignments[..p], vs, n);
      ReloadedNear(v, n);
      hide SquaredTo;
      OneMore(p, n);
    }
  }

  lemma OneMore(p: nat, n: nat)
    ensures ((p + 1) * n) as real == (p * n) as real + n as real
  {
    assert (p + 1) * n == p * n + n;
  }

  /** From one iteration to the next: `means` are the centroids of the assignment `before`,
      `next` those of the assignment to what is read back of them. The objective cannot rise by
      more than what reading back moves the centroids, which is at most one a coordinate; it
      rises exactly if that is more than what the new assignment and the new means gain. */
  lemma ReloadedRound(points: seq<Vector>, before: seq<nat>, means: seq<Vector>, closest: seq<nat>, next: seq<Vector>, n: nat)
    requires OfLength(points, n) && OfLength(means, n) && OfLength(next, n) && |means| == |next|
    requires Assigns(points, before, |means|) && Means(points, before, n, means)
    requires Closest(points, AllReloaded(means), closest) && Means(points, closest, n, next)
    ensures Assigns(points, closest, |next|)
    ensures var (read, rise) := (AllReloaded(means), Objective(points, closest, next) - Objective(points, before, means));
            && rise + Moved(closest, read, next) <= Moved(before, read, means) <= (|points| * n) as real
            && (rise > 0.0 <==>
                  Moved(before, read, means) >
                  Objective(points, before, read) - Objective(points, closest, read) + Moved(closest, read, next))
  {
    hide Objective, Moved, Closest;
    var read := AllReloaded(means);
    ReloadedLength(means, n);
    ClosestIsBest(points, read, closest, before);
    RecalculationGain(points, before, read, means, n);
    RecalculationGain(points, closest, read, next, n);
    ReloadedMoves(before, means, n);
  }

  /** It does not rise when the means that matter are whole. */
  lemma WholeMeansDescend(points: seq<Vector>, before: seq<nat>, means: seq<Vector>, closest: seq<nat>, next: seq<Vector>, n: nat)
    requires OfLength(points, n) && OfLength(means, n) && OfLength(next, n) && |means| == |next|
    requires Assigns(points, before, |means|) && Means(points, before, n, means)
    requires Closest(points, AllReloaded(means), closest) && Means(points, closest, n, next)
    requires forall p | 0 <= p < |before| :: Reloaded(means[before[p]]) == means[before[p]]
    ensures Assigns(points, closest, |next|) && Objective(points, closest, next) <= Objective(points, before, means)
  {
    hide Objective, Moved, Closest, Means;
    ReloadedRound(points, before, means, closest, next, n);
    ReloadedLength(means, n);
    NothingMoved(before, AllReloaded(means), means, n);
  }

  lemma OnLine(x: real, y: real)
    ensures Squared([x], [y]) == (x - y) * (x - y)
  {
    assert SquaredTo([x], [y], 0) == 0.0;
  }

  lemma GroupFour(p: seq<Vector>, a: seq<nat>, c: nat)
    requires |p| == |a| == 4
    ensures Group(p, a, c) ==
              (if a[0] == c then [p[0]] else []) + (if a[1] == c then [p[1]] else []) +
              (if a[2] == c then [p[2]] else []) + (if a[3] == c then [p[3]] else [])
  {
    assert p[..3][..2] == p[..2] && p[..2][..1] == p[..1] && p[..1][..0] == [];
    assert a[..3][..2] == a[..2] && a[..2][..1] == a[..1] && a[..1][..0] == [];
    assert Group(p[..1], a[..1], c) == if a[0] == c then [p[0]] else [];
    assert Group(p[..2], a[..2], c) == Group(p[..1], a[..1], c) + if a[1] == c then [p[1]] else [];
    assert Group(p[..3], a[..3], c) == Group(p[..2], a[..2], c) + if a[2] == c then [p[2]] else [];
  }

  lemma ObjectiveFour(p: seq<Vector>, a: seq<nat>, centroids: seq<Vector>)
    requires |p| == |a| == 4 && Assigns(p, a, |centroids|)
    ensures Objective(p, a, centroids)
         == Squared(p[0], centroids[a[0]]) + Squared(p[1], centroids[a[1]])
          + Squared(p[2], centroids[a[2]]) + Squared(p[3], centroids[a[3]])
  {
    hide Squared;
    assert p[..3][..2] == p[..2] && p[..2][..1] == p[..1] && p[..1][..0] == [];
    assert a[..3][..2] == a[..2] && a[..2][..1] == a[..1] && a[..1][..0] == [];
    assert Objective(p[..1], a[..1], centroids) == Squared(p[0], centroids[a[0]]);
    assert Objective(p[..2], a[..2], centroids) == Objective(p[..1], a[..1], centroids) + Squared(p[1], centroids[a[1]]);
    assert Objective(p[..3], a[..3], centroids) == Objective(p[..2], a[..2], centroids) + Squared(p[2], centroids[a[2]]);
  }

  lemma MeansOnLine(x: real, y: real, z: real)
    ensures Mean([[x]], 1) == [x]
    ensures Mean([[x], [y]], 1) == [(x + y) / 2.0]
    ensures Mean([[x], [y], [z]], 1) == [(x + y + z) / 3.0]
  {
    var vs := [[x], [y], [z]];
    assert vs[..2] == [[x], [y]] && [[x], [y]][..1] == [[x]] && [[x]][..0] == [];
    assert ColumnSum([[x]], 0) == x;
    assert ColumnSum([[x], [y]], 0) == x + y;
    assert ColumnSum(vs, 0) == x + y + z && |vs| as real == 3.0;
    assert Mean(vs, 1)[0] == (x + y + z) / 3.0;
  }

  const LINE: seq<Vector> := [[0.0], [1.0], [2.0], [2.0]]

  /** It can rise: of four points on a line, with the centroids 2 and 1, the means are 2 and a
      half; read back, these are 2 and 0, and the second point changes over. */
  lemma ReadingBackRaises()
    ensures OfLength(LINE, 1)
    ensures Closest(LINE, AllReloaded([[2.0], [1.0]]), [1, 1, 0, 0]) && Means(LINE, [1, 1, 0, 0], 1, [[2.0], [0.5]])
    ensures Closest(LINE, AllReloaded([[2.0], [0.5]]), [1, 0, 0, 0]) && Means(LINE, [1, 0, 0, 0], 1, [[5.0 / 3.0], [0.0]])
    ensures Objective(LINE, [1, 1, 0, 0], [[2.0], [0.5]]) == 0.5
    ensures Objective(LINE, [1, 0, 0, 0], [[5.0 / 3.0], [0.0]]) == 2.0 / 3.0
  {
    hide Squared, Group, Mean, Objective;
    assert Reloaded([2.0]) == [2.0] && Reloaded([1.0]) == [1.0] && Reloaded([0.5]) == [0.0];
    assert AllReloaded([[2.0], [1.0]]) == [[2.0], [1.0]];
    assert AllReloaded([[2.0], [0.5]]) == [[2.0], [0.0]];
    LineAssignments();
    LineMeans();
    LineObjectives();
  }

  lemma LineAssignments()
    ensures Closest(LINE, [[2.0], [1.0]], [1, 1, 0, 0]) && Closest(LINE, [[2.0], [0.0]], [1, 0, 0, 0])
  {
    hide Squared;
    OnLine(0.0, 2.0);
    OnLine(0.0, 1.0);
    OnLine(0.0, 0.0);
    OnLine(1.0, 2.0);
    OnLine(1.0, 1.0);
    OnLine(1.0, 0.0);
    OnLine(2.0, 2.0);
    OnLine(2.0, 1.0);
    OnLine(2.0, 0.0);
  }

  lemma LineMeans()
    ensures OfLength(LINE, 1)
    ensures Means(LINE, [1, 1, 0, 0], 1, [[2.0], [0.5]]) && Means(LINE, [1, 0, 0, 0], 1, [[5.0 / 3.0], [0.0]])
  {
    hide Mean, Group;
    GroupFour(LINE, [1, 1, 0, 0], 0);
    GroupFour(LINE, [1, 1, 0, 0], 1);
    GroupFour(LINE, [1, 0, 0, 0], 0);
    GroupFour(LINE, [1, 0, 0, 0], 1);
    MeansOnLine(2.0, 2.0, 0.0);
    MeansOnLine(0.0, 1.0, 0.0);
    MeansOnLine(1.0, 2.0, 2.0);
    assert Group(LINE, [1, 1, 0, 0], 0) == [[2.0], [2.0]] && Group(LINE, [1, 1, 0, 0], 1) == [[0.0], [1.0]];
    assert Group(LINE, [1, 0, 0, 0], 0) == [[1.0], [2.0], [2.0]] && Group(LINE, [1, 0, 0, 0], 1) == [[0.0]];
  }

  lemma LineObjectives()
    ensures Objective(LINE, [1, 1, 0, 0], [[2.0], [0.5]]) == 0.5
    ensures Objective(LINE, [1, 0, 0, 0], [[5.0 / 3.0], [0.0]]) == 2.0 / 3.0
  {
    hide Squared, Objective;
    ObjectiveFour(LINE, [1, 1, 0, 0], [[2.0], [0.5]]);
    ObjectiveFour(LINE, [1, 0, 0, 0], [[5.0 / 3.0], [0.0]]);
    OnLine(0.0, 0.5);
    OnLine(1.0, 0.5);
    OnLine(2.0, 2.0);
    OnLine(0.0, 0.0);
    OnLine(1.0, 5.0 / 3.0);
    OnLine(2.0, 5.0 / 3.0);
  }

  // ---------------------------------------------------------------------------- iterations

  /** What the first `t` iterations leave in the tables: each assigns the points to what is
      read back of the centroids before, and stores the means. */
  ghost predicate Rounds(points: seq<Vector>, n: nat, centroids: map<int, seq<Vector>>, assignments: map<int, seq<nat>>, t: nat, k: nat)
    requires OfLength(points, n)
  {
    && (forall i | -1 <= i < t :: i in centroids && |centroids[i]| == k && OfLength(centroids[i], n))
    && (forall i | 0 <= i < t ::
          && i in assignments && Closest(points, AllReloaded(centroids[i - 1]), assignments[i])
          && Means(points, assignments[i], n, centroids[i]))
  }

  /** The two tables, keyed by iteration; the initial centroids are those of iteration -1. */
  class Clusterizer {
    const root: real -> real
    const points: seq<Vector>
    const n: nat
    var centroids: map<int, seq<Vector>>
    var assignments: map<int, seq<nat>>

    constructor (root: real -> real, points: seq<Vector>, n: nat)
      ensures this.root == root && this.points == points && this.n == n
      ensures centroids == map[] && assignments == map[]
    {
      this.root, this.points, this.n := root, points, n;
      centroids, assignments := map[], map[];
    }

    method Iterate(iteration: nat, k: nat)
      requires StrictlyIncreasing(root) && OfLength(points, n) && k > 0 && Rounds(points, n, centroids, assignments, iteration, k)
      modifies this
      ensures Rounds(points, n, centroids, assignments, iteration + 1, k) && centroids[-1] == old(centroids[-1])
    {
      hide StrictlyIncreasing, Closest, Means, OfLength, Assigns;
      var previous := AllReloaded(centroids[iteration - 1]);
      var closest := Assign(root, points, previous);
      assignments := assignments[iteration := closest];
      ClosestAssigns(points, previous, closest);
      var recalculated := Recalculate(points, assignments[iteration], k, n);
      centroids := centroids[iteration := recalculated];
    }

    /** However the centroids are chosen at first, each iteration's centroids are the means of
        the closest assignment to the ones before as they are read back, and the objective rises
        from one iteration to the next by no more than reading back moves the centroids. */
    method Run(random: seq<Vector>, iterations: nat) returns (result: seq<Vector>)
      requires StrictlyIncreasing(root) && OfLength(points, n) && random != [] && OfLength(random, n)
      modifies this
      ensures Rounds(points, n, centroids, assignments, iterations, |random|) && centroids[-1] == random
      ensures result == AllReloaded(centroids[iterations - 1])
      ensures forall i | 0 <= i < iterations :: Assigns(points, assignments[i], |random|)
      ensures forall i | 0 < i < iterations ::
                Objective(points, assignments[i], centroids[i])
                <= Objective(points, assignments[i - 1], centroids[i - 1])
                   + Moved(assignments[i - 1], AllReloaded(centroids[i - 1]), centroids[i - 1])
    {
      hide StrictlyIncreasing, Closest, Means, Objective, Moved;
      centroids := centroids[-1 := random];
      for i := 0 to iterations
        invariant Rounds(points, n, centroids, assignments, i, |random|) && centroids[-1] == random
      {
        Iterate(i, |random|);
      }
      forall i | 0 <= i < iterations ensures Assigns(points, assignments[i], |random|) {
        ClosestAssigns(points, AllReloaded(centroids[i - 1]), assignments[i]);
      }
      forall i | 0 < i < iterations
        ensures Objective(points, assignments[i], centroids[i])
             <= Objective(points, assignments[i - 1], centroids[i - 1])
                + Moved(assignments[i - 1], AllReloaded(centroids[i - 1]), centroids[i - 1])
      {
        ReloadedRound(points, assignments[i - 1], centroids[i - 1], assignments[i], centroids[i], n);
      }
      result := AllReloaded(centroids[iterations - 1]);
    }
  }

  lemma ClosestAssigns(points: seq<Vector>, centroids: seq<Vector>, assignments: seq<nat>)
    requires Closest(points, centroids, assignments)
    ensures Assigns(points, assignments, |centroids|)
  {
  }
}
