/** The Gaussian-mixture estimator: k-means seeding, a bounded EM fit for two
    and three components, AIC model selection among one, two and three
    components, and the dominance rule that picks the reported setpoint. */
module GmmStatistics {
  import opened Wrappers
  import opened Numerics
  import opened Stats
  import opened Records

  const KMeansMaxIterations: nat := 50
  const EmMaxIterations: nat := 100
  const Tolerance := 0.001
  const VarianceFloor := 0.01
  const MinWeight := 0.001
  const EmptyProportion := 0.001
  const LikelihoodFloor := 0.0000000001

  /** `gaussianPDF(x, mean, variance)`: the density for a positive variance, and
      NaN for variance 0, where the source divides 0 by 0. */
  function GaussianPdf(num: Numerics, x: real, mu: real, v: real): JsNumber {
    if v > 0.0 then Finite(num.pdf(x, mu, v)) else NaN
  }

  // ---------------------------------------------------------------- k-means

  lemma SeedBound(i: nat, n: nat, k: nat)
    requires i < k && n > 0
    ensures (i + 1) * n / (k + 1) < n
  {
    var a := (i + 1) * n;
    var q := a / (k + 1);
    assert a < (k + 1) * n by { assert (k + 1) * n - a == (k - i) * n; }
    assert q * (k + 1) <= a;
  }

  /** `Math.floor((i + 1) * sorted.length / (k + 1))`: always a valid index. */
  function SeedIndex(i: nat, n: nat, k: nat): (r: nat)
    requires i < k && n > 0
    ensures r < n
  {
    SeedBound(i, n, k);
    (i + 1) * n / (k + 1)
  }

  /** The k initial centroids, spread over the sorted values. */
  function Seeds(sorted: seq<real>, k: nat): (cs: seq<real>)
    requires |sorted| > 0
    ensures |cs| == k
  {
    seq(k, i requires 0 <= i < k => sorted[SeedIndex(i, |sorted|, k)])
  }

  function Distances(cs: seq<real>, x: real): (d: seq<real>)
    ensures |d| == |cs| && forall i :: 0 <= i < |cs| ==> d[i] == Abs(x - cs[i])
  {
    seq(|cs|, i requires 0 <= i < |cs| => Abs(x - cs[i]))
  }

  /** `distances.indexOf(Math.min(...distances))`: the nearest centroid, the
      lowest index among equally near ones. */
  function Nearest(cs: seq<real>, x: real): (i: nat)
    requires |cs| > 0
    ensures i < |cs|
    ensures forall j :: 0 <= j < |cs| ==> Abs(x - cs[i]) <= Abs(x - cs[j])
    ensures forall j :: 0 <= j < i ==> Abs(x - cs[i]) < Abs(x - cs[j])
  {
    var d := Distances(cs, x);
    FirstArgMin(d)
  }

  /** The values, in input order, whose nearest centroid is number i. */
  function Cluster(values: seq<real>, cs: seq<real>, i: nat): (c: seq<real>)
    requires |cs| > 0
    ensures |c| <= |values|
    ensures forall v :: v in c ==> v in values && Nearest(cs, v) == i
  {
    if values == [] then []
    else
      var x := values[|values| - 1];
      Cluster(values[..|values| - 1], cs, i) + (if Nearest(cs, x) == i then [x] else [])
  }

  /** One assignment pass: cluster i holds the values nearest to centroid i. */
  function Assign(values: seq<real>, cs: seq<real>): (clusters: seq<seq<real>>)
    requires |cs| > 0
    ensures |clusters| == |cs|
  {
    seq(|cs|, i requires 0 <= i < |cs| => Cluster(values, cs, i))
  }

  function TotalSize(clusters: seq<seq<real>>): nat {
    if clusters == [] then 0
    else TotalSize(clusters[..|clusters| - 1]) + |clusters[|clusters| - 1]|
  }

  lemma {:induction false} TotalSizeGrow(a: seq<seq<real>>, b: seq<seq<real>>, j: nat)
    requires |a| == |b| && j < |a|
    requires forall i :: 0 <= i < |a| && i != j ==> |b[i]| == |a[i]|
    requires |b[j]| == |a[j]| + 1
    ensures TotalSize(b) == TotalSize(a) + 1
  {
    var n := |a|;
    if j == n - 1 {
      TotalSizeSame(a[..n - 1], b[..n - 1]);
    } else {
      TotalSizeGrow(a[..n - 1], b[..n - 1], j);
    }
  }

  lemma {:induction false} TotalSizeSame(a: seq<seq<real>>, b: seq<seq<real>>)
    requires |a| == |b| && forall i :: 0 <= i < |a| ==> |b[i]| == |a[i]|
    ensures TotalSize(b) == TotalSize(a)
  {
    if a != [] {
      TotalSizeSame(a[..|a| - 1], b[..|b| - 1]);
    }
  }

  lemma {:induction false} TotalSizeEmpty(clusters: seq<seq<real>>)
    requires forall i :: 0 <= i < |clusters| ==> clusters[i] == []
    ensures TotalSize(clusters) == 0
  {
    if clusters != [] {
      TotalSizeEmpty(clusters[..|clusters| - 1]);
    }
  }

  /** Appending x to cluster Nearest(cs, x) extends the assignment by x. */
  lemma AssignSnoc(values: seq<real>, cs: seq<real>, x: real)
    requires |cs| > 0
    ensures var a := Assign(values, cs);
      var j := Nearest(cs, x);
      Assign(values + [x], cs) == a[j := a[j] + [x]]
  {
    var a := Assign(values, cs);
    var j := Nearest(cs, x);
    assert (values + [x])[..|values|] == values;
    forall i | 0 <= i < |cs| ensures Assign(values + [x], cs)[i] == a[j := a[j] + [x]][i] {
      assert Cluster(values + [x], cs, i) == Cluster(values, cs, i) + (if j == i then [x] else []);
    }
  }

  /** Every assignment pass puts every value in exactly one cluster: the sizes
      add up to n, and each value is in the cluster of its nearest centroid. */
  lemma {:induction false} AssignPartition(values: seq<real>, cs: seq<real>)
    requires |cs| > 0
    ensures TotalSize(Assign(values, cs)) == |values|
    ensures forall v :: v in values ==> v in Assign(values, cs)[Nearest(cs, v)]
  {
    if values == [] {
      TotalSizeEmpty(Assign(values, cs));
    } else {
      var init, x := values[..|values| - 1], values[|values| - 1];
      assert values == init + [x];
      AssignPartition(init, cs);
      AssignSnoc(init, cs, x);
      var a := Assign(init, cs);
      var j := Nearest(cs, x);
      assert Assign(values, cs) == a[j := a[j] + [x]];
      TotalSizeGrow(a, a[j := a[j] + [x]], j);
      forall v | v in values ensures v in Assign(values, cs)[Nearest(cs, v)] {
        if v != x {
          assert v in init;
        }
      }
    }
  }

  /** `c.length > 0 ? mean(c) : centroids[i]`. */
  function UpdateCentroids(clusters: seq<seq<real>>, cs: seq<real>): (r: seq<real>)
    requires |clusters| == |cs|
    ensures |r| == |cs|
    ensures forall i :: 0 <= i < |cs| && clusters[i] == [] ==> r[i] == cs[i]
  {
    seq(|cs|, i requires 0 <= i < |cs| => if |clusters[i]| > 0 then Mean(clusters[i]) else cs[i])
  }

  /** A non-empty cluster's new centroid lies between its smallest and largest value. */
  lemma UpdatedCentroidWithinCluster(clusters: seq<seq<real>>, cs: seq<real>, i: nat)
    requires |clusters| == |cs| && i < |cs| && clusters[i] != []
    ensures Min(clusters[i]) <= UpdateCentroids(clusters, cs)[i] <= Max(clusters[i])
  {
    MeanBetweenMinMax(clusters[i]);
  }

  /** `every((c, i) => Math.abs(c - next[i]) < 0.001)`. */
  predicate Converged(old_: seq<real>, next: seq<real>)
    requires |old_| == |next|
  {
    forall i :: 0 <= i < |old_| ==> Abs(old_[i] - next[i]) < Tolerance
  }

  function EmptyClusters(k: nat): (c: seq<seq<real>>)
    ensures |c| == k && forall i :: 0 <= i < k ==> c[i] == []
  {
    seq(k, _ => [])
  }

  /** The clusters left by the Lloyd loop with `fuel` passes to go from
      centroids cs, the last assignment being `clusters`. */
  function Lloyd(values: seq<real>, cs: seq<real>, fuel: nat, clusters: seq<seq<real>>): (r: seq<seq<real>>)
    requires |cs| > 0 && |clusters| == |cs|
    ensures |r| == |cs|
    decreases fuel
  {
    if fuel == 0 then clusters
    else
      var grouped := Assign(values, cs);
      var next := UpdateCentroids(grouped, cs);
      if Converged(cs, next) then grouped else Lloyd(values, next, fuel - 1, grouped)
  }

  /** One pass of the Lloyd loop. */
  lemma LloydAdvance(values: seq<real>, cs: seq<real>, fuel: nat, rest: nat, clusters: seq<seq<real>>,
                     grouped: seq<seq<real>>, next: seq<real>, target: seq<seq<real>>)
    requires |cs| > 0 && |clusters| == |cs| && fuel == rest + 1
    requires grouped == Assign(values, cs) && next == UpdateCentroids(grouped, cs)
    requires target == Lloyd(values, cs, fuel, clusters)
    ensures Converged(cs, next) ==> target == grouped
    ensures !Converged(cs, next) ==> target == Lloyd(values, next, rest, grouped)
  {
    LloydUnfold(values, cs, rest, clusters);
  }

  /** A pass with `rest + 1` passes to go leaves `rest` for the next. */
  lemma LloydUnfold(values: seq<real>, cs: seq<real>, rest: nat, clusters: seq<seq<real>>)
    requires |cs| > 0 && |clusters| == |cs|
    ensures var grouped := Assign(values, cs);
      var next := UpdateCentroids(grouped, cs);
      Lloyd(values, cs, rest + 1, clusters) == if Converged(cs, next) then grouped else Lloyd(values, next, rest, grouped)
  {
  }

  /** The result of `kMeans(values, k, maxIter)`. */
  function KMeansResult(values: seq<real>, k: nat, maxIter: nat): (clusters: seq<seq<real>>)
    requires |values| > 0 && k > 0
    ensures |clusters| == k
  {
    Lloyd(values, Seeds(Sort(values), k), maxIter, EmptyClusters(k))
  }

  /** The centroids of the last assignment pass the Lloyd loop runs. */
  function LloydCentroids(values: seq<real>, cs: seq<real>, fuel: nat): (r: seq<real>)
    requires |cs| > 0 && fuel > 0
    ensures |r| == |cs|
    decreases fuel
  {
    var next := UpdateCentroids(Assign(values, cs), cs);
    if Converged(cs, next) || fuel == 1 then cs else LloydCentroids(values, next, fuel - 1)
  }

  /** After at least one pass the clusters are the assignment pass for the
      last centroids. */
  lemma {:induction false} LloydAssigns(values: seq<real>, cs: seq<real>, fuel: nat, clusters: seq<seq<real>>)
    requires |cs| > 0 && |clusters| == |cs| && fuel > 0
    ensures Lloyd(values, cs, fuel, clusters) == Assign(values, LloydCentroids(values, cs, fuel))
    decreases fuel
  {
    var grouped := Assign(values, cs);
    var next := UpdateCentroids(grouped, cs);
    if !Converged(cs, next) && fuel > 1 {
      LloydAssigns(values, next, fuel - 1, grouped);
    }
  }

  /** k-means with at least one pass keeps every value exactly once. */
  lemma KMeansTotal(values: seq<real>, k: nat, maxIter: nat)
    requires |values| > 0 && k > 0 && maxIter > 0
    ensures TotalSize(KMeansResult(values, k, maxIter)) == |values|
  {
    var seeds := Seeds(Sort(values), k);
    LloydAssigns(values, seeds, maxIter, EmptyClusters(k));
    AssignPartition(values, LloydCentroids(values, seeds, maxIter));
  }

  /** k-means with at least one pass returns k clusters that partition the values. */
  lemma KMeansPartition(values: seq<real>, k: nat, maxIter: nat)
    requires |values| > 0 && k > 0 && maxIter > 0
    ensures var clusters := KMeansResult(values, k, maxIter);
      && |clusters| == k
      && TotalSize(clusters) == |values|
      && forall v :: v in values ==> exists i :: 0 <= i < k && v in clusters[i]
  {
    var seeds := Seeds(Sort(values), k);
    LloydAssigns(values, seeds, maxIter, EmptyClusters(k));
    var cs' := LloydCentroids(values, seeds, maxIter);
    AssignPartition(values, cs');
    forall v | v in values ensures exists i :: 0 <= i < k && v in KMeansResult(values, k, maxIter)[i] {
      var i := Nearest(cs', v);
      assert v in KMeansResult(values, k, maxIter)[i];
    }
  }

  /** The seeding loop of kMeans: centroid i is the sorted value at SeedIndex(i). */
  method SeedCentroids(sorted: seq<real>, k: nat) returns (centroids: seq<real>)
    requires |sorted| > 0
    ensures centroids == Seeds(sorted, k)
  {
    centroids := [];
    for i := 0 to k
      invariant |centroids| == i
      invariant forall j :: 0 <= j < i ==> centroids[j] == sorted[SeedIndex(j, |sorted|, k)]
    {
      centroids := centroids + [sorted[SeedIndex(i, |sorted|, k)]];
    }
  }

  /** One assignment pass: `clusters[nearest].push(val)` for every value in turn. */
  method AssignPass(values: seq<real>, centroids: seq<real>) returns (clusters: seq<seq<real>>)
    requires |centroids| > 0
    ensures clusters == Assign(values, centroids)
  {
    clusters := EmptyClusters(|centroids|);
    assert clusters == Assign([], centroids);
    for j := 0 to |values|
      invariant clusters == Assign(values[..j], centroids)
    {
      assert values[..j + 1] == values[..j] + [values[j]];
      AssignSnoc(values[..j], centroids, values[j]);
      var nearest := Nearest(centroids, values[j]);
      clusters := clusters[nearest := clusters[nearest] + [values[j]]];
    }
    assert values[..|values|] == values;
  }

  /** One pass of the k-means loop: assign every value, move each centroid to
      its cluster's mean, and report whether some centroid moved by the
      tolerance or more. */
  method LloydPass(values: seq<real>, centroids: seq<real>) returns (clusters: seq<seq<real>>, next: seq<real>, changed: bool)
    requires |centroids| > 0
    ensures clusters == Assign(values, centroids) && next == UpdateCentroids(clusters, centroids)
    ensures changed <==> !Converged(centroids, next)
  {
    clusters := AssignPass(values, centroids);
    next := UpdateCentroids(clusters, centroids);
    changed := !Converged(centroids, next);
  }

  /** `kMeans(values, k, maxIter)`: seeds, then at most maxIter assignment passes,
      stopping after the first pass in which no centroid moved by 0.001 or more. */
  method KMeans(values: seq<real>, k: nat, maxIter: nat) returns (clusters: seq<seq<real>>)
    requires |values| > 0 && k > 0
    ensures clusters == KMeansResult(values, k, maxIter)
  {
    var centroids := SeedCentroids(Sort(values), k);
    clusters := EmptyClusters(k);
    ghost var target := KMeansResult(values, k, maxIter);
    ghost var fuel: nat := maxIter;
    var iter := 0;
    // `while (changed && iterations < maxIter)`, leaving as soon as a pass
    // leaves every centroid in place
    while iter < maxIter
      invariant 0 <= iter <= maxIter && fuel == maxIter - iter && |centroids| == k && |clusters| == k
      invariant target == Lloyd(values, centroids, fuel, clusters)
      decreases maxIter - iter
    {
      ghost var rest: nat := fuel - 1;
      ghost var previous := clusters;
      var newCentroids, changed;
      clusters, newCentroids, changed := LloydPass(values, centroids);
      LloydAdvance(values, centroids, fuel, rest, previous, clusters, newCentroids, target);
      if !changed {
        return;
      }
      centroids := newCentroids;
      iter := iter + 1;
      fuel := rest;
    }
  }

  // -------------------------------------------------------------------- EM

  /** The means, variances and mixing proportions of a mixture. */
  datatype Fit = Fit(means: seq<real>, variances: seq<real>, proportions: seq<real>)

  /** One entry per component in each of the three lists. */
  predicate Shaped(fit: Fit) {
    |fit.means| > 0 && |fit.variances| == |fit.means| && |fit.proportions| == |fit.means|
  }

  /** Shaped, with every variance at or above the floor 0.01. */
  predicate Floored(fit: Fit) {
    Shaped(fit) && forall i :: 0 <= i < |fit.variances| ==> fit.variances[i] >= VarianceFloor
  }

  /** `clusters.map(c => c.length / values.length)`. */
  function Shares(clusters: seq<seq<real>>, n: nat): (r: seq<real>)
    requires n > 0
    ensures |r| == |clusters| && forall i :: 0 <= i < |r| ==> 0.0 <= r[i]
  {
    seq(|clusters|, i requires 0 <= i < |clusters| => |clusters[i]| as real / n as real)
  }

  /** The shares of the clusters add up to their total size over n. */
  lemma {:induction false} SharesSum(clusters: seq<seq<real>>, n: nat)
    requires n > 0
    ensures Sum(Shares(clusters, n)) == TotalSize(clusters) as real / n as real
  {
    if clusters != [] {
      var m := |clusters|;
      SharesSum(clusters[..m - 1], n);
      assert Shares(clusters, n)[..m - 1] == Shares(clusters[..m - 1], n);
      assert (TotalSize(clusters[..m - 1]) + |clusters[m - 1]|) as real / n as real
          == TotalSize(clusters[..m - 1]) as real / n as real + |clusters[m - 1]| as real / n as real;
    }
  }

  /** The starting point of fitEMGMM: each cluster's mean (0 when empty), its
      variance (1 when empty) raised to the floor, and its share of the values. */
  function InitialFit(clusters: seq<seq<real>>, n: nat): (fit: Fit)
    requires n > 0 && |clusters| > 0
    ensures Floored(fit) && |fit.means| == |clusters|
    ensures fit.proportions == Shares(clusters, n)
  {
    var k := |clusters|;
    Fit(seq(k, i requires 0 <= i < k => if |clusters[i]| > 0 then Mean(clusters[i]) else 0.0),
        seq(k, i requires 0 <= i < k =>
          RealMax(if |clusters[i]| > 0 then PopVariance(clusters[i]) else 1.0, VarianceFloor)),
        Shares(clusters, n))
  }

  /** `proportions[i] * gaussianPDF(val, means[i], variances[i])` for every i. */
  function WeightedDensities(num: Numerics, x: real, fit: Fit): (probs: seq<real>)
    requires Floored(fit)
    ensures |probs| == |fit.means|
    ensures forall i :: 0 <= i < |probs| ==> probs[i] == fit.proportions[i] * num.pdf(x, fit.means[i], fit.variances[i])
  {
    seq(|fit.means|, i requires 0 <= i < |fit.means| =>
      fit.proportions[i] * num.pdf(x, fit.means[i], fit.variances[i]))
  }

  predicate NonNegative(s: seq<real>) {
    forall i :: 0 <= i < |s| ==> 0.0 <= s[i]
  }

  /** The E-step row for one value: the weighted densities normalised to sum 1,
      or the uniform row 1/k when they do not sum to a positive number. */
  function Row(num: Numerics, x: real, fit: Fit): (r: seq<real>)
    requires Floored(fit)
    ensures |r| == |fit.means|
    ensures Sum(r) == 1.0
    ensures Sum(WeightedDensities(num, x, fit)) <= 0.0 ==> r == Constant(|fit.means|, 1.0 / |fit.means| as real)
  {
    var k := |fit.means|;
    var probs := WeightedDensities(num, x, fit);
    var total := Sum(probs);
    if total > 0.0 then
      SumScale(probs, total);
      Scale(probs, total)
    else
      SumConstant(k, 1.0 / k as real);
      assert (k as real) * (1.0 / k as real) == 1.0;
      Constant(k, 1.0 / k as real)
  }

  /** With non-negative proportions every responsibility is non-negative. */
  lemma RowNonNegative(num: Numerics, x: real, fit: Fit)
    requires Floored(fit) && Lawful(num) && NonNegative(fit.proportions)
    ensures NonNegative(Row(num, x, fit))
  {
    var k := |fit.means|;
    var probs := WeightedDensities(num, x, fit);
    var total := Sum(probs);
    forall i | 0 <= i < k ensures 0.0 <= probs[i] {
      PdfNonNegative(num, x, fit.means[i], fit.variances[i]);
      NonNegProduct(fit.proportions[i], num.pdf(x, fit.means[i], fit.variances[i]));
    }
    if total > 0.0 {
      forall i | 0 <= i < k ensures 0.0 <= Row(num, x, fit)[i] {
        assert Row(num, x, fit)[i] == probs[i] / total;
      }
    }
  }

  lemma DivPositive(a: real, b: real)
    requires 0.0 < a && 0.0 < b
    ensures 0.0 < a / b
  {
  }

  lemma NonNegProduct(a: real, b: real)
    requires 0.0 <= a && 0.0 <= b
    ensures 0.0 <= a * b
  {
  }

  /** The responsibilities: one row per value. */
  function Responsibilities(num: Numerics, values: seq<real>, fit: Fit): (resp: seq<seq<real>>)
    requires Floored(fit)
    ensures |resp| == |values|
    ensures forall j :: 0 <= j < |values| ==> resp[j] == Row(num, values[j], fit)
  {
    seq(|values|, j requires 0 <= j < |values| => Row(num, values[j], fit))
  }

  /** `responsibilities.map(r => r[i])`. */
  function Column(resp: seq<seq<real>>, i: nat): (w: seq<real>)
    requires forall j :: 0 <= j < |resp| ==> i < |resp[j]|
    ensures |w| == |resp| && forall j :: 0 <= j < |resp| ==> w[j] == resp[j][i]
  {
    seq(|resp|, j requires 0 <= j < |resp| => resp[j][i])
  }

  /** `values.reduce((sum, val, j) => sum + weights[j] * val, 0)`. */
  function WeightedSum(values: seq<real>, w: seq<real>): real
    requires |w| == |values|
  {
    Sum(seq(|values|, j requires 0 <= j < |values| => w[j] * values[j]))
  }

  /** `values.reduce((sum, val, j) => sum + weights[j] * Math.pow(val - mu, 2), 0)`. */
  function WeightedSquares(values: seq<real>, w: seq<real>, mu: real): real
    requires |w| == |values|
  {
    Sum(seq(|values|, j requires 0 <= j < |values| => w[j] * Square(values[j] - mu)))
  }

  datatype Component = Component(mean: real, variance: real, proportion: real)

  /** Responsibilities with one row of k entries per value. */
  predicate RowsFit(resp: seq<seq<real>>, values: seq<real>, k: nat) {
    |resp| == |values| && forall j :: 0 <= j < |resp| ==> |resp[j]| == k
  }

  /** The M-step for component i. A component whose weights sum to less than
      0.001 keeps its mean and variance and gets proportion 0.001; any other
      gets the weighted mean, the weighted variance raised to the floor 0.01,
      and its weight sum over n. */
  function UpdateComponent(values: seq<real>, resp: seq<seq<real>>, fit: Fit, i: nat): (c: Component)
    requires |values| > 0 && Floored(fit) && i < |fit.means| && RowsFit(resp, values, |fit.means|)
    ensures c.variance >= VarianceFloor && c.proportion > 0.0
    ensures var ws := Sum(Column(resp, i));
      && (ws < MinWeight ==> c == Component(fit.means[i], fit.variances[i], EmptyProportion))
      && (ws >= MinWeight ==> c.proportion == ws / |values| as real)
  {
    var w := Column(resp, i);
    var ws := Sum(w);
    if ws < MinWeight then Component(fit.means[i], fit.variances[i], EmptyProportion)
    else
      var mu := WeightedSum(values, w) / ws;
      var v := WeightedSquares(values, w, mu) / ws;
      Component(mu, RealMax(v, VarianceFloor), ws / |values| as real)
  }

  /** The fit the M-step produces from the responsibilities. */
  function MStepFit(values: seq<real>, resp: seq<seq<real>>, fit: Fit): (next: Fit)
    requires |values| > 0 && Floored(fit) && RowsFit(resp, values, |fit.means|)
    ensures Floored(next) && |next.means| == |fit.means|
    ensures forall i :: 0 <= i < |next.proportions| ==> 0.0 < next.proportions[i]
  {
    var k := |fit.means|;
    Fit(seq(k, i requires 0 <= i < k => UpdateComponent(values, resp, fit, i).mean),
        seq(k, i requires 0 <= i < k => UpdateComponent(values, resp, fit, i).variance),
        seq(k, i requires 0 <= i < k => UpdateComponent(values, resp, fit, i).proportion))
  }

  /** The M-step loop: one push per component into the three new lists. */
  method MStep(values: seq<real>, resp: seq<seq<real>>, fit: Fit) returns (next: Fit)
    requires |values| > 0 && Floored(fit) && RowsFit(resp, values, |fit.means|)
    ensures next == MStepFit(values, resp, fit)
  {
    var k := |fit.means|;
    var newMeans: seq<real> := [];
    var newVariances: seq<real> := [];
    var newProportions: seq<real> := [];
    for i := 0 to k
      invariant |newMeans| == i && |newVariances| == i && |newProportions| == i
      invariant forall j :: 0 <= j < i ==> newMeans[j] == UpdateComponent(values, resp, fit, j).mean
      invariant forall j :: 0 <= j < i ==> newVariances[j] == UpdateComponent(values, resp, fit, j).variance
      invariant forall j :: 0 <= j < i ==> newProportions[j] == UpdateComponent(values, resp, fit, j).proportion
    {
      var weights := Column(resp, i);
      var weightSum := Sum(weights);
      if weightSum < MinWeight {
        newMeans := newMeans + [fit.means[i]];
        newVariances := newVariances + [fit.variances[i]];
        newProportions := newProportions + [EmptyProportion];
        continue;
      }
      var mu := WeightedSum(values, weights) / weightSum;
      var v := WeightedSquares(values, weights, mu) / weightSum;
      newMeans := newMeans + [mu];
      newVariances := newVariances + [RealMax(v, VarianceFloor)];
      newProportions := newProportions + [weightSum / |values| as real];
    }
    next := Fit(newMeans, newVariances, newProportions);
  }

  /** The EM loop with `fuel` iterations left: stop after the first iteration in
      which no mean moved by 0.001 or more. */
  function Em(num: Numerics, values: seq<real>, fit: Fit, fuel: nat): (r: Fit)
    requires |values| > 0 && Floored(fit)
    ensures Floored(r) && |r.means| == |fit.means|
    ensures fuel > 0 ==> forall i :: 0 <= i < |r.proportions| ==> 0.0 < r.proportions[i]
    ensures fuel == 0 ==> r == fit
    decreases fuel
  {
    if fuel == 0 then fit
    else
      var next := EmIteration(num, values, fit);
      if Converged(fit.means, next.means) then next else Em(num, values, next, fuel - 1)
  }

  /** One EM iteration: the E-step responsibilities, then the M-step. */
  function EmIteration(num: Numerics, values: seq<real>, fit: Fit): (next: Fit)
    requires |values| > 0 && Floored(fit)
    ensures Floored(next) && |next.means| == |fit.means|
    ensures forall i :: 0 <= i < |next.proportions| ==> 0.0 < next.proportions[i]
  {
    MStepFit(values, Responsibilities(num, values, fit), fit)
  }

  /** `proportions.map(p => p / sumProp)`. */
  function Renormalize(fit: Fit): (r: Fit)
    requires Sum(fit.proportions) != 0.0
    ensures r.means == fit.means && r.variances == fit.variances
    ensures |r.proportions| == |fit.proportions| && Sum(r.proportions) == 1.0
  {
    SumScale(fit.proportions, Sum(fit.proportions));
    Fit(fit.means, fit.variances, Scale(fit.proportions, Sum(fit.proportions)))
  }

  /** The EM fit before renormalisation, started from the k-means clusters. */
  function Fitted(num: Numerics, values: seq<real>, k: nat, maxIter: nat): (fit: Fit)
    requires |values| > 0 && k > 0
    ensures Floored(fit) && |fit.means| == k
  {
    Em(num, values, InitialFit(KMeansResult(values, k, KMeansMaxIterations), |values|), maxIter)
  }

  /** The proportions before renormalisation have a positive sum: without EM
      iterations they are the cluster shares, which add up to 1; after one they
      are all positive. */
  lemma FittedProportions(num: Numerics, values: seq<real>, k: nat, maxIter: nat)
    requires |values| > 0 && k > 0
    ensures Sum(Fitted(num, values, k, maxIter).proportions) > 0.0
    ensures maxIter > 0 ==> forall i :: 0 <= i < k ==> 0.0 < Fitted(num, values, k, maxIter).proportions[i]
  {
    var fit := Fitted(num, values, k, maxIter);
    if maxIter == 0 {
      InitialSharesSum(values, k, KMeansMaxIterations);
    } else {
      SumNonNegative(fit.proportions);
      assert 0.0 < fit.proportions[0];
    }
  }

  lemma InitialSharesSum(values: seq<real>, k: nat, passes: nat)
    requires |values| > 0 && k > 0 && passes > 0
    ensures Sum(InitialFit(KMeansResult(values, k, passes), |values|).proportions) == 1.0
  {
    var clusters := KMeansResult(values, k, passes);
    KMeansTotal(values, k, passes);
    SharesOfAll(clusters, |values|);
  }

  /** Clusters that hold all n values have shares adding up to 1. */
  lemma SharesOfAll(clusters: seq<seq<real>>, n: nat)
    requires n > 0 && TotalSize(clusters) == n
    ensures Sum(Shares(clusters, n)) == 1.0
  {
    SharesSum(clusters, n);
    DivSelf(n);
  }

  lemma DivSelf(n: nat)
    requires n > 0
    ensures n as real / n as real == 1.0
  {
  }

  /** The result of `fitEMGMM(values, k, maxIter)`: k components whose variances
      are at least 0.01 and whose proportions sum to 1, all positive once at
      least one EM iteration ran. */
  function FitEMResult(num: Numerics, values: seq<real>, k: nat, maxIter: nat): (fit: Fit)
    requires |values| > 0 && k > 0
    ensures Floored(fit) && |fit.means| == k && Sum(fit.proportions) == 1.0
    ensures maxIter > 0 ==> forall i :: 0 <= i < k ==> 0.0 < fit.proportions[i]
  {
    FittedProportions(num, values, k, maxIter);
    var fitted := Fitted(num, values, k, maxIter);
    var r := Renormalize(fitted);
    forall i | 0 <= i < k && maxIter > 0 ensures 0.0 < r.proportions[i] {
      DivPositive(fitted.proportions[i], Sum(fitted.proportions));
    }
    r
  }

  /** The EM iterations of fitEMGMM: at most maxIter, leaving the loop after the
      iteration whose new means are all within 0.001 of the old ones. */
  method RunEm(num: Numerics, values: seq<real>, start: Fit, maxIter: nat) returns (fit: Fit)
    requires |values| > 0 && Floored(start)
    ensures fit == Em(num, values, start, maxIter)
  {
    ghost var target := Em(num, values, start, maxIter);
    ghost var fuel: nat := maxIter;
    fit := start;
    var iter := 0;
    while iter < maxIter
      invariant 0 <= iter <= maxIter && fuel == maxIter - iter
      invariant Floored(fit) && Em(num, values, fit, fuel) == target
      decreases maxIter - iter
    {
      var next := EmStep(num, values, fit);
      ghost var rest: nat := fuel - 1;
      EmAdvance(num, values, fit, next, fuel, rest, target);
      if Converged(fit.means, next.means) {
        return next;
      }
      fit := next;
      iter := iter + 1;
      fuel := rest;
    }
  }

  /** One pass of the EM loop body: the responsibilities, then the M-step. */
  method EmStep(num: Numerics, values: seq<real>, fit: Fit) returns (next: Fit)
    requires |values| > 0 && Floored(fit)
    ensures next == EmIteration(num, values, fit)
  {
    var responsibilities := Responsibilities(num, values, fit);
    next := MStep(values, responsibilities, fit);
  }

  /** With iterations left, EM runs one iteration and stops when the means moved
      by less than the tolerance. */
  lemma EmUnfold(num: Numerics, values: seq<real>, fit: Fit, fuel: nat)
    requires |values| > 0 && Floored(fit) && fuel > 0
    ensures Converged(fit.means, EmIteration(num, values, fit).means) ==>
      Em(num, values, fit, fuel) == EmIteration(num, values, fit)
    ensures !Converged(fit.means, EmIteration(num, values, fit).means) ==>
      Em(num, values, fit, fuel) == Em(num, values, EmIteration(num, values, fit), fuel - 1)
  {
  }

  /** The loop's target is kept across one iteration. */
  lemma EmAdvance(num: Numerics, values: seq<real>, fit: Fit, next: Fit, fuel: nat, rest: nat, target: Fit)
    requires |values| > 0 && Floored(fit) && fuel == rest + 1
    requires next == EmIteration(num, values, fit) && Em(num, values, fit, fuel) == target
    ensures Floored(next) && |next.means| == |fit.means|
    ensures Converged(fit.means, next.means) ==> next == target
    ensures !Converged(fit.means, next.means) ==> Em(num, values, next, rest) == target
  {
    EmUnfold(num, values, fit, rest + 1);
  }

  /** `fitEMGMM(values, k, maxIter)`. */
  method FitEM(num: Numerics, values: seq<real>, k: nat, maxIter: nat) returns (fit: Fit)
    requires |values| > 0 && k > 0
    ensures fit == FitEMResult(num, values, k, maxIter)
  {
    var clusters := KMeans(values, k, KMeansMaxIterations);
    fit := InitialFit(clusters, |values|);
    fit := RunEm(num, values, fit, maxIter);
    FittedProportions(num, values, k, maxIter);
    fit := Renormalize(fit);
  }

  // ---------------------------------------------------------------- AIC

  predicate Positive(s: seq<real>) {
    forall i :: 0 <= i < |s| ==> 0.0 < s[i]
  }

  /** `likelihood` after the inner loop of calculateAIC has added the first i
      components' `proportions[i] * gaussianPDF(val, means[i], variances[i])`. */
  function Likelihood(num: Numerics, x: real, fit: Fit, i: nat): JsNumber
    requires Shaped(fit) && i <= |fit.means|
  {
    if i == 0 then Finite(0.0)
    else
      Plus(Likelihood(num, x, fit, i - 1),
           Times(Finite(fit.proportions[i - 1]), GaussianPdf(num, x, fit.means[i - 1], fit.variances[i - 1])))
  }

  /** `logL` after the first j values: each adds `Math.log(Math.max(likelihood, 1e-10))`. */
  function LogLikelihood(num: Numerics, values: seq<real>, fit: Fit, j: nat): JsNumber
    requires Shaped(fit) && j <= |values|
  {
    if j == 0 then Finite(0.0)
    else
      Plus(LogLikelihood(num, values, fit, j - 1),
           Log(num, JsMax(Likelihood(num, values[j - 1], fit, |fit.means|), Finite(LikelihoodFloor))))
  }

  /** `k * 3 - 1`: k means, k variances and k - 1 free proportions. */
  function ParameterCount(k: nat): int { 3 * k - 1 }

  /** `calculateAIC(values, means, variances, proportions)`: `2 * nParams - 2 * logL`. */
  function Aic(num: Numerics, values: seq<real>, fit: Fit): JsNumber
    requires Shaped(fit)
  {
    Minus(Times(Finite(2.0), Finite(ParameterCount(|fit.means|) as real)),
          Times(Finite(2.0), LogLikelihood(num, values, fit, |values|)))
  }

  lemma {:induction false} LikelihoodFinite(num: Numerics, x: real, fit: Fit, i: nat)
    requires Shaped(fit) && i <= |fit.means| && Positive(fit.variances)
    ensures Likelihood(num, x, fit, i).Finite?
  {
    if i > 0 {
      LikelihoodFinite(num, x, fit, i - 1);
    }
  }

  lemma {:induction false} LogLikelihoodFinite(num: Numerics, values: seq<real>, fit: Fit, j: nat)
    requires Shaped(fit) && j <= |values| && Positive(fit.variances)
    ensures LogLikelihood(num, values, fit, j).Finite?
  {
    if j > 0 {
      LogLikelihoodFinite(num, values, fit, j - 1);
      LikelihoodFinite(num, values[j - 1], fit, |fit.means|);
    }
  }

  /** With every variance positive the AIC is the finite number 2(3k - 1) - 2 logL. */
  lemma AicFinite(num: Numerics, values: seq<real>, fit: Fit)
    requires Shaped(fit) && Positive(fit.variances)
    ensures LogLikelihood(num, values, fit, |values|).Finite?
    ensures Aic(num, values, fit)
         == Finite(2.0 * (3 * |fit.means| - 1) as real - 2.0 * LogLikelihood(num, values, fit, |values|).value)
  {
    LogLikelihoodFinite(num, values, fit, |values|);
  }

  /** A component with variance 0 makes every likelihood NaN (the density divides 0 by 0). */
  lemma {:induction false} LikelihoodNaN(num: Numerics, x: real, fit: Fit, i: nat, c: nat)
    requires Shaped(fit) && c < i <= |fit.means| && fit.variances[c] <= 0.0
    ensures Likelihood(num, x, fit, i).NaN?
  {
    if c < i - 1 {
      LikelihoodNaN(num, x, fit, i - 1, c);
    }
  }

  lemma {:induction false} LogLikelihoodNaN(num: Numerics, values: seq<real>, fit: Fit, j: nat, c: nat)
    requires Shaped(fit) && 0 < j <= |values| && c < |fit.means| && fit.variances[c] <= 0.0
    ensures LogLikelihood(num, values, fit, j).NaN?
  {
    LikelihoodNaN(num, values[j - 1], fit, |fit.means|, c);
    if j > 1 {
      LogLikelihoodNaN(num, values, fit, j - 1, c);
    }
  }

  /** On non-empty data a component of variance 0 makes the AIC NaN, which is
      never below the running minimum. */
  lemma AicNaN(num: Numerics, values: seq<real>, fit: Fit, c: nat)
    requires Shaped(fit) && |values| > 0 && c < |fit.means| && fit.variances[c] <= 0.0
    ensures Aic(num, values, fit).NaN?
  {
    LogLikelihoodNaN(num, values, fit, |values|, c);
  }

  /** `calculateAIC(values, means, variances, proportions)`. */
  method CalculateAic(num: Numerics, values: seq<real>, fit: Fit) returns (aic: JsNumber)
    requires Shaped(fit)
    ensures aic == Aic(num, values, fit)
  {
    var k := |fit.means|;
    var logL := Finite(0.0);
    for j := 0 to |values|
      invariant logL == LogLikelihood(num, values, fit, j)
    {
      var likelihood := Finite(0.0);
      for i := 0 to k
        invariant likelihood == Likelihood(num, values[j], fit, i)
      {
        likelihood := Plus(likelihood, Times(Finite(fit.proportions[i]),
                                             GaussianPdf(num, values[j], fit.means[i], fit.variances[i])));
      }
      logL := Plus(logL, Log(num, JsMax(likelihood, Finite(LikelihoodFloor))));
    }
    var nParams := k * 3 - 1;
    aic := Minus(Times(Finite(2.0), Finite(nParams as real)), Times(Finite(2.0), logL));
  }

  // ------------------------------------------------------- model selection

  datatype Model = Model(nComponents: nat, fit: Fit, aic: JsNumber)

  /** `minAIC` for the model chosen so far: its AIC, or Infinity before any. */
  function MinAic(models: seq<Model>, best: Option<nat>): JsNumber
    requires best.Some? ==> best.value < |models|
  {
    if best.Some? then models[best.value].aic else PosInfinity
  }

  /** The index `models.forEach` settles on: a model replaces the best so far
      only when its AIC is strictly below the running minimum. */
  function Selected(models: seq<Model>): (r: Option<nat>)
    ensures r.Some? ==> r.value < |models|
  {
    if models == [] then None
    else
      var last := |models| - 1;
      var prev := Selected(models[..last]);
      if Less(models[last].aic, MinAic(models, prev)) then Some(last) else prev
  }

  /** The selection is the first model with the strictly smallest AIC among
      those below Infinity, and there is none exactly when every AIC is NaN or
      Infinity. */
  lemma {:induction false} SelectedIsFirstMinimum(models: seq<Model>)
    ensures Selected(models).None? <==> forall j :: 0 <= j < |models| ==> !Less(models[j].aic, PosInfinity)
    ensures Selected(models).Some? ==>
      var b := Selected(models).value;
      && Less(models[b].aic, PosInfinity)
      && (forall j :: 0 <= j < |models| ==> !Less(models[j].aic, models[b].aic))
      && (forall j :: 0 <= j < b && Less(models[j].aic, PosInfinity) ==> Less(models[b].aic, models[j].aic))
  {
    if models != [] {
      var last := |models| - 1;
      var init := models[..last];
      SelectedIsFirstMinimum(init);
      assert forall j :: 0 <= j < last ==> init[j] == models[j];
      var prev := Selected(init);
      var a := models[last].aic;
      LessOrder(a, a, PosInfinity);
      if Less(a, MinAic(models, prev)) {
        if prev.Some? {
          var b := prev.value;
          forall j | 0 <= j < last
            ensures !Less(models[j].aic, a)
            ensures Less(models[j].aic, PosInfinity) ==> Less(a, models[j].aic)
          {
            assert !Less(init[j].aic, init[b].aic);
            LessOrder(models[j].aic, a, models[b].aic);
            LessOrder(models[j].aic, models[j].aic, PosInfinity);
            LessOrder(models[b].aic, models[b].aic, PosInfinity);
            LessOrder(models[b].aic, models[j].aic, PosInfinity);
            LessOrder(a, models[b].aic, models[j].aic);
          }
        } else {
          forall j | 0 <= j < last ensures !Less(models[j].aic, a) {
            assert !Less(init[j].aic, PosInfinity);
            LessOrder(models[j].aic, a, PosInfinity);
          }
        }
      } else if prev.Some? {
        assert !Less(a, models[prev.value].aic);
      }
    }
  }

  /** The `forEach` over the candidate models. */
  method SelectModel(models: seq<Model>) returns (best: Option<nat>)
    ensures best == Selected(models)
  {
    best := None;
    var minAic := PosInfinity;
    for idx := 0 to |models|
      invariant best == Selected(models[..idx])
      invariant best.Some? ==> best.value < idx
      invariant minAic == MinAic(models, best)
    {
      assert models[..idx + 1][..idx] == models[..idx];
      if Less(models[idx].aic, minAic) {
        minAic := models[idx].aic;
        best := Some(idx);
      }
    }
    assert models[..|models|] == models;
  }

  // ------------------------------------------------------ setpoint choice

  const TwoDominance := 0.7
  const ThreeDominance := 0.45
  const HighShare := 0.8

  /** `(nComponents === 2 && maxProportion > 0.7) || (nComponents === 3 && maxProportion > 0.45)`. */
  predicate IsDominant(k: nat, p: real) {
    (k == 2 && p > TwoDominance) || (k == 3 && p > ThreeDominance)
  }

  /** The chosen setpoint, its standard deviation `Math.sqrt(variance)`, the
      confidence and the 1-based dominant component. */
  datatype Choice = Choice(setpoint: real, sd: real, confidence: Confidence, dominantCluster: Option<nat>)

  /** The setpoint rule of calculateGMMSetpoint for the selected fit. */
  function Choose(num: Numerics, values: seq<real>, fit: Fit): (c: Choice)
    requires |values| > 0 && Shaped(fit)
    ensures c.confidence == High || c.confidence == Medium
    ensures |fit.means| == 1 ==>
      c == Choice(fit.means[0], num.sqrt(fit.variances[0]), High, None)
    ensures |fit.means| > 1 ==>
      (c.dominantCluster.Some? <==> IsDominant(|fit.means|, Max(fit.proportions)))
    ensures c.dominantCluster.Some? ==>
      var d := c.dominantCluster.value;
      && 1 <= d <= |fit.means|
      && fit.proportions[d - 1] == Max(fit.proportions)
      && (forall j :: 0 <= j < d - 1 ==> fit.proportions[j] < fit.proportions[d - 1])
      && c.setpoint == fit.means[d - 1] && c.sd == num.sqrt(fit.variances[d - 1])
      && (c.confidence == High <==> fit.proportions[d - 1] > HighShare)
    ensures |fit.means| > 1 && c.dominantCluster.None? ==>
      c == Choice(Mean(values), num.sqrt(PopVariance(values)), Medium, None)
  {
    var k := |fit.means|;
    if k == 1 then Choice(fit.means[0], num.sqrt(fit.variances[0]), High, None)
    else
      var idx := FirstArgMax(fit.proportions);
      var p := fit.proportions[idx];
      MaxAtFirstArgMax(fit.proportions);
      if IsDominant(k, p) then
        Choice(fit.means[idx], num.sqrt(fit.variances[idx]), if p > HighShare then High else Medium, Some(idx + 1))
      else
        Choice(Mean(values), num.sqrt(PopVariance(values)), Medium, None)
  }

  // ------------------------------------------------------------- the report

  /** `Number((cv * 100).toFixed(2))` with `cv = sd / setpoint`. */
  function ReportedCv(num: Numerics, setpoint: real, sd: real): JsNumber {
    Round(num, Times(Divide(Finite(sd), Finite(setpoint)), Finite(100.0)), 2)
  }

  /** `Number(Math.sqrt(cv * cv * setpoint * setpoint / 10000).toFixed(2))`. */
  function ReportedStd(num: Numerics, setpoint: real, sd: real): JsNumber {
    var cv := Divide(Finite(sd), Finite(setpoint));
    var sp := Finite(setpoint);
    Round(num, Sqrt(num, Divide(Times(Times(Times(cv, cv), sp), sp), Finite(10000.0))), 2)
  }

  lemma QuotientSquare(sd: real, sp: real)
    requires sp != 0.0
    ensures (sd / sp) * (sd / sp) * sp * sp / 10000.0 == Square(sd / 100.0)
  {
    var q := sd / sp;
    assert q * sp == sd;
    assert q * q * sp * sp == (q * sp) * (q * sp);
  }

  /** The reported GMM std is the standard deviation divided by 100: the
      formula squares the unscaled fraction cv and divides by 10000 as if cv
      were a percentage. */
  lemma StdQuirk(num: Numerics, setpoint: real, sd: real)
    requires Lawful(num) && setpoint != 0.0 && 0.0 <= sd
    ensures ReportedStd(num, setpoint, sd) == Finite(num.round(sd / 100.0, 2))
    ensures ReportedCv(num, setpoint, sd) == Finite(num.round(sd / setpoint * 100.0, 2))
  {
    var q := sd / setpoint;
    var sp := Finite(setpoint);
    assert Divide(Finite(sd), sp) == Finite(q);
    assert Times(Times(Times(Finite(q), Finite(q)), sp), sp) == Finite(q * q * setpoint * setpoint);
    QuotientSquare(sd, setpoint);
    var w := Square(sd / 100.0);
    assert Divide(Finite(q * q * setpoint * setpoint), Finite(10000.0)) == Finite(w);
    assert 0.0 <= w;
    assert num.sqrt(w) == sd / 100.0;
    assert Sqrt(num, Finite(w)) == Finite(sd / 100.0);
  }

  /** With setpoint 0 the cv is NaN or Infinity, and the reported std is NaN. */
  lemma ZeroSetpointStd(num: Numerics, sd: real)
    requires 0.0 <= sd
    ensures ReportedStd(num, 0.0, sd).NaN?
    ensures !ReportedCv(num, 0.0, sd).Finite?
  {
    DivideByZero(sd);
  }

  datatype ClusterSummary = ClusterSummary(
    nClusters: nat,
    means: seq<real>,
    stds: seq<real>,
    cvs: seq<JsNumber>,
    proportions: seq<real>)

  /** The object calculateGMMSetpoint returns; `method: 'gmm'` is implied. */
  datatype GmmResult = GmmResult(
    setpoint: real,
    cv: JsNumber,
    std: JsNumber,
    confidence: Confidence,
    nComponents: nat,
    dominantCluster: Option<nat>,
    clusters: ClusterSummary,
    aic: JsNumber,
    aicScores: seq<JsNumber>)

  /** A candidate whose fit has nComponents components and non-negative variances. */
  predicate WellFormed(m: Model) {
    Shaped(m.fit) && |m.fit.means| == m.nComponents && NonNegative(m.fit.variances)
  }

  /** The per-component figures of the selected model. */
  function Summary(num: Numerics, fit: Fit): (s: ClusterSummary)
    requires Shaped(fit)
    ensures s.nClusters == |fit.means| == |s.means| == |s.stds| == |s.cvs| == |s.proportions|
    ensures forall i :: 0 <= i < |fit.means| ==>
      && s.means[i] == num.round(fit.means[i], 2)
      && s.stds[i] == num.round(num.sqrt(fit.variances[i]), 2)
      && s.cvs[i] == ReportedCv(num, fit.means[i], num.sqrt(fit.variances[i]))
      && s.proportions[i] == num.round(fit.proportions[i] * 100.0, 1)
  {
    var k := |fit.means|;
    ClusterSummary(
      k,
      RoundAll(num, fit.means, 2),
      seq(k, i requires 0 <= i < k => num.round(num.sqrt(fit.variances[i]), 2)),
      seq(k, i requires 0 <= i < k => ReportedCv(num, fit.means[i], num.sqrt(fit.variances[i]))),
      seq(k, i requires 0 <= i < k => num.round(fit.proportions[i] * 100.0, 1)))
  }

  /** `Number(m.aic.toFixed(2))` for every candidate. */
  function AicScores(num: Numerics, models: seq<Model>): (r: seq<JsNumber>)
    ensures |r| == |models| && forall i :: 0 <= i < |models| ==> r[i] == Round(num, models[i].aic, 2)
  {
    seq(|models|, i requires 0 <= i < |models| => Round(num, models[i].aic, 2))
  }

  /** The report for the selected candidate b. */
  function Report(num: Numerics, values: seq<real>, models: seq<Model>, b: nat): (g: GmmResult)
    requires |values| > 0 && b < |models| && WellFormed(models[b])
    ensures var c := Choose(num, values, models[b].fit);
      && g.setpoint == num.round(c.setpoint, 2)
      && g.cv == ReportedCv(num, c.setpoint, c.sd)
      && g.std == ReportedStd(num, c.setpoint, c.sd)
      && g.confidence == c.confidence && g.dominantCluster == c.dominantCluster
    ensures g.nComponents == models[b].nComponents && g.clusters == Summary(num, models[b].fit)
    ensures g.aic == Round(num, models[b].aic, 2) && g.aicScores == AicScores(num, models)
  {
    var m := models[b];
    var c := Choose(num, values, m.fit);
    GmmResult(num.round(c.setpoint, 2), ReportedCv(num, c.setpoint, c.sd), ReportedStd(num, c.setpoint, c.sd),
              c.confidence, m.nComponents, c.dominantCluster, Summary(num, m.fit),
              Round(num, m.aic, 2), AicScores(num, models))
  }

  // ------------------------------------------------- calculateGMMSetpoint

  const MinValues: nat := 10
  const TooFewMessage := "GMM richiede almeno 10 misurazioni"
  const NoModelMessage := "Impossibile fittare GMM"

  /** The one-component model: the mean and the population variance of all values. */
  function SingleFit(values: seq<real>): (fit: Fit)
    requires |values| > 0
    ensures Shaped(fit) && NonNegative(fit.variances)
  {
    Fit([Mean(values)], [PopVariance(values)], [1.0])
  }

  /** The fit of the candidate with k components (1, 2 or 3). */
  function CandidateFit(num: Numerics, values: seq<real>, k: nat): (fit: Fit)
    requires |values| > 0 && 1 <= k <= 3
    ensures Shaped(fit) && |fit.means| == k && NonNegative(fit.variances)
    ensures k > 1 ==> Floored(fit) && Sum(fit.proportions) == 1.0
  {
    if k == 1 then SingleFit(values)
    else
      var fit := FitEMResult(num, values, k, EmMaxIterations);
      FlooredNonNegative(fit);
      fit
  }

  lemma FlooredNonNegative(fit: Fit)
    requires Floored(fit)
    ensures Positive(fit.variances) && NonNegative(fit.variances)
  {
    forall i | 0 <= i < |fit.variances| ensures 0.0 < fit.variances[i] {
      assert fit.variances[i] >= VarianceFloor;
    }
  }

  /** The candidate with k components (1, 2 or 3) and its AIC. */
  function Candidate(num: Numerics, values: seq<real>, k: nat): (m: Model)
    requires |values| > 0 && 1 <= k <= 3
    ensures WellFormed(m) && m.nComponents == k
  {
    var fit := CandidateFit(num, values, k);
    Model(k, fit, Aic(num, values, fit))
  }

  function Candidates(num: Numerics, values: seq<real>): (models: seq<Model>)
    requires |values| > 0
    ensures |models| == 3 && forall i :: 0 <= i < 3 ==> models[i] == Candidate(num, values, i + 1)
  {
    seq(3, i requires 0 <= i < 3 => Candidate(num, values, i + 1))
  }

  /** `calculateGMMSetpoint(values)`, a thrown error becoming a Failure. */
  function GmmSetpoint(num: Numerics, values: seq<real>): Result<GmmResult> {
    if |values| < MinValues then Failure(TooFewMessage)
    else
      var models := Candidates(num, values);
      var best := Selected(models);
      if best.None? then Failure(NoModelMessage)
      else Success(Report(num, values, models, best.value))
  }

  /** The first |models| candidates, in the order k = 1, 2, 3. */
  predicate FirstCandidates(num: Numerics, values: seq<real>, models: seq<Model>)
    requires |values| > 0 && |models| <= 3
  {
    models == Candidates(num, values)[..|models|]
  }

  /** One turn of the candidate loop: fit the next k components, score them and
      push the model. */
  method PushCandidate(num: Numerics, values: seq<real>, models: seq<Model>) returns (next: seq<Model>)
    requires |values| > 0 && |models| < 3 && FirstCandidates(num, values, models)
    ensures |next| == |models| + 1 && FirstCandidates(num, values, next)
  {
    var model := FitCandidate(num, values, |models| + 1);
    next := models + [model];
    PrefixGrow(Candidates(num, values), |models|);
  }

  /** The body of the candidate loop for k components: the fit, then its AIC. */
  method FitCandidate(num: Numerics, values: seq<real>, k: nat) returns (model: Model)
    requires |values| > 0 && 1 <= k <= 3
    ensures model == Candidate(num, values, k)
  {
    var fit: Fit;
    if k == 1 {
      var m := Mean(values);
      var v := PopVariance(values);
      fit := Fit([m], [v], [1.0]);
    } else {
      fit := FitEM(num, values, k, EmMaxIterations);
    }
    var aic := CalculateAic(num, values, fit);
    model := Model(k, fit, aic);
  }

  /** A prefix followed by the next element is the longer prefix. */
  lemma PrefixGrow<T>(s: seq<T>, n: nat)
    requires n < |s|
    ensures s[..n] + [s[n]] == s[..n + 1]
  {
  }

  /** `calculateGMMSetpoint(values)`. */
  method CalculateGmmSetpoint(num: Numerics, values: seq<real>) returns (r: Result<GmmResult>)
    ensures r == GmmSetpoint(num, values)
  {
    if |values| < MinValues {
      return Failure(TooFewMessage);
    }
    var models: seq<Model> := [];
    for k := 1 to 4
      invariant |models| == k - 1 && FirstCandidates(num, values, models)
    {
      models := PushCandidate(num, values, models);
    }
    assert models == Candidates(num, values);
    var best := SelectModel(models);
    if best.None? {
      return Failure(NoModelMessage);
    }
    r := Success(Report(num, values, models, best.value));
  }

  /** The error for fewer than 10 values is raised exactly then, before any fitting. */
  lemma TooFewGuard(num: Numerics, values: seq<real>)
    ensures GmmSetpoint(num, values) == Failure(TooFewMessage) <==> |values| < MinValues
  {
    if |values| >= MinValues && Selected(Candidates(num, values)).None? {
      assert TooFewMessage[0] != NoModelMessage[0];
    }
  }

  /** With at least 10 values a model is always selected: the two-component
      fit has variances at least 0.01, so its AIC is finite. */
  lemma AlwaysFits(num: Numerics, values: seq<real>)
    requires |values| >= MinValues
    ensures GmmSetpoint(num, values).Success?
  {
    var models := Candidates(num, values);
    var two := models[1];
    FlooredNonNegative(two.fit);
    AicFinite(num, values, two.fit);
    LessOrder(two.aic, two.aic, PosInfinity);
    SelectedIsFirstMinimum(models);
  }

  /** What every success reports: 1 to 3 components, confidence high or
      medium, high whenever one component is selected, and a dominant cluster
      only for two or three components, numbered from 1. */
  lemma ResultShape(num: Numerics, values: seq<real>)
    requires GmmSetpoint(num, values).Success?
    ensures var g := GmmSetpoint(num, values).value;
      && 1 <= g.nComponents <= 3 && g.clusters.nClusters == g.nComponents
      && |g.clusters.means| == g.nComponents && |g.aicScores| == 3
      && (g.confidence == High || g.confidence == Medium)
      && (g.nComponents == 1 ==> g.confidence == High && g.dominantCluster.None?)
      && (g.dominantCluster.Some? ==> 2 <= g.nComponents && 1 <= g.dominantCluster.value <= g.nComponents)
  {
    var models := Candidates(num, values);
    var b := Selected(models).value;
    assert models[b] == Candidate(num, values, b + 1);
  }

  /** Constant data never selects one component: its variance 0 makes the
      one-component AIC NaN. */
  lemma ConstantDataSplits(num: Numerics, values: seq<real>)
    requires |values| >= MinValues && PopVariance(values) == 0.0
    ensures GmmSetpoint(num, values).Success? && GmmSetpoint(num, values).value.nComponents >= 2
  {
    AlwaysFits(num, values);
    var models := Candidates(num, values);
    var one := models[0];
    assert one.fit == SingleFit(values);
    AicNaN(num, values, one.fit, 0);
    SelectedIsFirstMinimum(models);
    var b := Selected(models).value;
    assert b != 0;
    assert models[b] == Candidate(num, values, b + 1);
  }
}
