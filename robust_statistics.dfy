/** The robust estimator: quartiles by linear interpolation, Tukey's IQR fences,
    and the mean and population standard deviation of the values inside the
    fences, falling back to all values when no value is inside. */
module RobustStatistics {
  import opened Numerics
  import opened Stats

  /** The linear-interpolation quantile of a sorted sequence: the order statistic
      at rank floor((n-1)q), moved towards the next one by the fractional part. */
  function Quantile(sorted: seq<real>, q: real): real
    requires |sorted| > 0 && 0.0 <= q <= 1.0
  {
    QuantileAt(sorted, Rank(|sorted|, q))
  }

  /** `(sortedArray.length - 1) * q`. */
  function Rank(n: nat, q: real): (p: real)
    requires n > 0 && 0.0 <= q <= 1.0
    ensures 0.0 <= p <= (n - 1) as real
  {
    MulBounds((n - 1) as real, q);
    (n - 1) as real * q
  }

  lemma RankMonotone(n: nat, q: real, q': real)
    requires n > 0 && 0.0 <= q <= q' <= 1.0
    ensures Rank(n, q) <= Rank(n, q')
  {
    MulMonotone((n - 1) as real, q, q');
  }

  /** The interpolated value at fractional rank pos. */
  function QuantileAt(sorted: seq<real>, pos: real): real
    requires |sorted| > 0 && 0.0 <= pos <= (|sorted| - 1) as real
  {
    var base := pos.Floor;
    var rest := pos - base as real;
    if base + 1 < |sorted| then Interpolate(sorted[base], sorted[base + 1], rest)
    else sorted[base]
  }

  function Interpolate(lo: real, hi: real, t: real): real {
    lo + (hi - lo) * t
  }

  lemma MulBounds(n: real, q: real)
    requires 0.0 <= n && 0.0 <= q <= 1.0
    ensures 0.0 <= n * q <= n
  {
    assert n * q <= n * 1.0;
  }

  lemma MulMonotone(n: real, q: real, q': real)
    requires 0.0 <= n && q <= q'
    ensures n * q <= n * q'
  {
    assert n * q' - n * q == n * (q' - q);
  }

  /** Interpolation stays between its end points and grows with t. */
  lemma InterpolateFacts(lo: real, hi: real, t: real, t': real)
    requires lo <= hi && 0.0 <= t <= t' <= 1.0
    ensures lo <= Interpolate(lo, hi, t) <= Interpolate(lo, hi, t') <= hi
  {
    var d := hi - lo;
    MulBounds(d, t);
    MulBounds(d, t');
    MulMonotone(d, t, t');
    assert Interpolate(lo, hi, t) == lo + d * t;
    assert Interpolate(lo, hi, t') == lo + d * t';
  }

  /** The value at rank pos lies between the order statistic at floor(pos) and the
      next one, or is the last element when there is no next one. */
  lemma QuantileAtBetween(sorted: seq<real>, pos: real)
    requires |sorted| > 0 && 0.0 <= pos <= (|sorted| - 1) as real && Sorted(sorted)
    ensures var b := pos.Floor;
      && 0 <= b < |sorted|
      && (b + 1 < |sorted| ==> sorted[b] <= QuantileAt(sorted, pos) <= sorted[b + 1])
      && (b + 1 >= |sorted| ==> QuantileAt(sorted, pos) == sorted[|sorted| - 1])
  {
    var b := pos.Floor;
    if b + 1 < |sorted| {
      InterpolateFacts(sorted[b], sorted[b + 1], pos - b as real, pos - b as real);
    }
  }

  /** The quantile lies between the order statistic at rank floor((n-1)q) and the
      next one, or is the last element when there is no next one. */
  lemma QuantileBetween(sorted: seq<real>, q: real)
    requires |sorted| > 0 && 0.0 <= q <= 1.0 && Sorted(sorted)
    ensures var b := Rank(|sorted|, q).Floor;
      && 0 <= b < |sorted|
      && (b + 1 < |sorted| ==> sorted[b] <= Quantile(sorted, q) <= sorted[b + 1])
      && (b + 1 >= |sorted| ==> Quantile(sorted, q) == sorted[|sorted| - 1])
  {
    QuantileAtBetween(sorted, Rank(|sorted|, q));
  }

  /** The quantile is within [min, max] of the data. */
  lemma QuantileInRange(sorted: seq<real>, q: real)
    requires |sorted| > 0 && 0.0 <= q <= 1.0 && Sorted(sorted)
    ensures sorted[0] <= Quantile(sorted, q) <= sorted[|sorted| - 1]
  {
    QuantileBetween(sorted, q);
  }

  lemma QuantileAtMonotone(sorted: seq<real>, pos: real, pos': real)
    requires |sorted| > 0 && 0.0 <= pos <= pos' <= (|sorted| - 1) as real && Sorted(sorted)
    ensures QuantileAt(sorted, pos) <= QuantileAt(sorted, pos')
  {
    var b, b' := pos.Floor, pos'.Floor;
    QuantileAtBetween(sorted, pos);
    QuantileAtBetween(sorted, pos');
    if b == b' && b + 1 < |sorted| {
      InterpolateFacts(sorted[b], sorted[b + 1], pos - b as real, pos' - b as real);
    } else if b < b' {
      assert sorted[b + 1] <= sorted[b'];
    }
  }

  /** On sorted data a larger q never gives a smaller quantile. */
  lemma QuantileMonotone(sorted: seq<real>, q: real, q': real)
    requires |sorted| > 0 && 0.0 <= q <= q' <= 1.0 && Sorted(sorted)
    ensures Quantile(sorted, q) <= Quantile(sorted, q')
  {
    RankMonotone(|sorted|, q, q');
    QuantileAtMonotone(sorted, Rank(|sorted|, q), Rank(|sorted|, q'));
  }

  /** The quartiles, the interquartile range and the fences of calculateRobustMean. */
  datatype Fences = Fences(q1: real, q2: real, q3: real, iqr: real, lower: real, upper: real)

  /** The quartiles of the sorted values and the fences `q1 - m·iqr`, `q3 + m·iqr`. */
  function TukeyFences(values: seq<real>, multiplier: real): (f: Fences)
    requires |values| > 0
    ensures f.q1 <= f.q2 <= f.q3 && f.iqr >= 0.0
    ensures 0.0 <= multiplier ==> f.lower <= f.q1 && f.q3 <= f.upper
  {
    SortedFences(Sort(values), multiplier)
  }

  function SortedFences(sorted: seq<real>, multiplier: real): (f: Fences)
    requires |sorted| > 0 && Sorted(sorted)
    ensures f.q1 <= f.q2 <= f.q3 && f.iqr >= 0.0
    ensures 0.0 <= multiplier ==> f.lower <= f.q1 && f.q3 <= f.upper
  {
    QuantileMonotone(sorted, 0.25, 0.5);
    QuantileMonotone(sorted, 0.5, 0.75);
    var q1, q2, q3 := Quantile(sorted, 0.25), Quantile(sorted, 0.50), Quantile(sorted, 0.75);
    var iqr := q3 - q1;
    assert 0.0 <= multiplier ==> 0.0 <= multiplier * iqr by {
      if 0.0 <= multiplier { NonNegProduct(multiplier, iqr); }
    }
    Fences(q1, q2, q3, iqr, q1 - multiplier * iqr, q3 + multiplier * iqr)
  }

  lemma NonNegProduct(a: real, b: real)
    requires 0.0 <= a && 0.0 <= b
    ensures 0.0 <= a * b
  {
  }

  predicate InFence(v: real, f: Fences) {
    v >= f.lower && v <= f.upper
  }

  /** `values.filter(v => v >= lowerBound && v <= upperBound)`. */
  function Kept(values: seq<real>, f: Fences): seq<real> {
    if values == [] then []
    else (if InFence(values[0], f) then [values[0]] else []) + Kept(values[1..], f)
  }

  /** `values.filter(v => v < lowerBound || v > upperBound)`. */
  function Outliers(values: seq<real>, f: Fences): seq<real> {
    if values == [] then []
    else (if !InFence(values[0], f) then [values[0]] else []) + Outliers(values[1..], f)
  }

  /** Kept values and outliers split the input: every value lands in exactly one
      of them, according to the fence test, so their sizes add up to n. */
  lemma {:induction false} Partition(values: seq<real>, f: Fences)
    ensures |Kept(values, f)| + |Outliers(values, f)| == |values|
    ensures multiset(Kept(values, f)) + multiset(Outliers(values, f)) == multiset(values)
    ensures forall v :: v in Kept(values, f) <==> v in values && InFence(v, f)
    ensures forall v :: v in Outliers(values, f) <==> v in values && !InFence(v, f)
  {
    if values != [] {
      Partition(values[1..], f);
      assert values == [values[0]] + values[1..];
    }
  }

  /** `filtered.length > 0 ? filtered : values`. */
  function DataUsed(values: seq<real>, f: Fences): (d: seq<real>)
    requires |values| > 0
    ensures |d| > 0
    ensures forall v :: v in d ==> v in values
  {
    Partition(values, f);
    var kept := Kept(values, f);
    if |kept| > 0 then kept else values
  }

  /** Every value between the first and the third quartile survives the fences. */
  lemma InterquartileKept(values: seq<real>, multiplier: real, v: real)
    requires |values| > 0 && 0.0 <= multiplier
    requires v in values
    requires var f := TukeyFences(values, multiplier); f.q1 <= v <= f.q3
    ensures v in Kept(values, TukeyFences(values, multiplier))
    ensures DataUsed(values, TukeyFences(values, multiplier)) == Kept(values, TukeyFences(values, multiplier))
  {
    Partition(values, TukeyFences(values, multiplier));
  }

  /** Some value always survives the fences, so the fallback to all values is
      never taken: from three values on a sorted value lies between q1 and q3;
      a single value is both quartiles; of two values the lower survives once
      the multiplier is at least 0.5 (the default is 1.5). */
  lemma KeptNonEmpty(values: seq<real>, multiplier: real)
    requires |values| > 0 && 0.0 <= multiplier
    requires |values| == 2 ==> 0.5 <= multiplier
    ensures |Kept(values, TukeyFences(values, multiplier))| > 0
    ensures DataUsed(values, TukeyFences(values, multiplier)) == Kept(values, TukeyFences(values, multiplier))
  {
    var f := TukeyFences(values, multiplier);
    var sorted := Sort(values);
    var v := SurvivingValue(sorted, multiplier);
    assert v in multiset(values);
    Partition(values, f);
    assert v in Kept(values, f);
  }

  /** A value of the sorted data inside the fences. */
  lemma SurvivingValue(sorted: seq<real>, multiplier: real) returns (v: real)
    requires |sorted| > 0 && Sorted(sorted) && 0.0 <= multiplier
    requires |sorted| == 2 ==> 0.5 <= multiplier
    ensures v in sorted && InFence(v, SortedFences(sorted, multiplier))
  {
    var n := |sorted|;
    var f := SortedFences(sorted, multiplier);
    QuantileBetween(sorted, 0.25);
    QuantileBetween(sorted, 0.75);
    if n == 1 {
      v := sorted[0];
    } else if n == 2 {
      v := sorted[0];
      LowerOfTwo(sorted[0], sorted[1], multiplier);
    } else {
      var b1, b3 := Rank(n, 0.25).Floor, Rank(n, 0.75).Floor;
      assert Rank(n, 0.75) == Rank(n, 0.25) + (n - 1) as real * 0.5;
      assert (b1 + 1) as real <= Rank(n, 0.75);
      assert b1 + 1 <= b3;
      v := sorted[b1 + 1];
      assert sorted[b1 + 1] <= sorted[b3];
    }
  }

  /** Of two sorted readings, the lower one lies inside fences of multiplier
      at least 0.5. */
  lemma LowerOfTwo(lo: real, hi: real, multiplier: real)
    requires lo <= hi && 0.5 <= multiplier
    ensures var q1, q3 := Interpolate(lo, hi, 0.25), Interpolate(lo, hi, 0.75);
      q1 - multiplier * (q3 - q1) <= lo <= q3 + multiplier * (q3 - q1)
  {
    var d := hi - lo;
    var q1, q3 := Interpolate(lo, hi, 0.25), Interpolate(lo, hi, 0.75);
    assert q1 == lo + d * 0.25 && q3 == lo + d * 0.75;
    var iqr := q3 - q1;
    assert iqr == d * 0.5 && iqr * 0.5 == d * 0.25 && 0.0 <= iqr;
    var spread := multiplier * iqr;
    assert d * 0.25 <= spread by {
      MulMonotone(iqr, 0.5, multiplier);
      assert iqr * multiplier == spread;
    }
    assert 0.0 <= d * 0.75;
  }

  /** Below a multiplier of 0.5 two distinct readings can both fall outside:
      nothing is kept and all values are used. */
  lemma TwoReadingsNoneKept()
    ensures Kept([1.0, 3.0], TukeyFences([1.0, 3.0], 0.0)) == []
    ensures DataUsed([1.0, 3.0], TukeyFences([1.0, 3.0], 0.0)) == [1.0, 3.0]
  {
    SortedInputFences([1.0, 3.0], 0.0);
    var f := SortedFences([1.0, 3.0], 0.0);
    assert Rank(2, 0.25) == 0.25 && (0.25).Floor == 0;
    assert Rank(2, 0.75) == 0.75 && (0.75).Floor == 0;
    assert f.q1 == 1.5 && f.q3 == 2.5;
  }

  /** The estimate: the mean of the values used lies between their extremes. */
  lemma SetpointWithinData(values: seq<real>, f: Fences)
    requires |values| > 0
    ensures var d := DataUsed(values, f); Min(d) <= Mean(d) <= Max(d)
  {
    MeanBetweenMinMax(DataUsed(values, f));
  }

  datatype Quartiles = Quartiles(q1: real, q2: real, q3: real)
  datatype Bounds = Bounds(lower: real, upper: real)

  /** The object calculateRobustMean returns. */
  datatype RobustResult = RobustResult(
    setpoint: real, std: real, cv: JsNumber,
    quartiles: Quartiles, iqr: real, bounds: Bounds,
    nValues: nat, nFiltered: nat, nOutliers: nat, outliers: seq<real>)

  /** calculateRobustMean(values, multiplier): rounded to two decimals for display. */
  function CalculateRobustMean(values: seq<real>, multiplier: real, num: Numerics): (r: RobustResult)
    requires |values| > 0
    ensures var f := TukeyFences(values, multiplier);
      var d := DataUsed(values, f);
      && r.nValues == |values|
      && r.nFiltered == |d| >= 1
      && r.nOutliers == |Outliers(values, f)|
      && (r.nOutliers < |values| ==> r.nFiltered + r.nOutliers == |values|)
      && r.setpoint == num.round(Mean(d), 2)
      && r.std == num.round(num.sqrt(PopVariance(d)), 2)
      && r.outliers == RoundAll(num, Outliers(values, f), 2)
      && r.cv == Round(num, Times(Divide(Finite(num.sqrt(PopVariance(d))), Finite(Mean(d))), Finite(100.0)), 2)
      && r.quartiles == Quartiles(num.round(f.q1, 2), num.round(f.q2, 2), num.round(f.q3, 2))
      && r.iqr == num.round(f.iqr, 2)
      && r.bounds == Bounds(num.round(f.lower, 2), num.round(f.upper, 2))
  {
    var f := TukeyFences(values, multiplier);
    Partition(values, f);
    var data := DataUsed(values, f);
    var outliers := Outliers(values, f);
    var robustMean := Mean(data);
    var robustStd := num.sqrt(PopVariance(data));
    var cv := Times(Divide(Finite(robustStd), Finite(robustMean)), Finite(100.0));
    RobustResult(
      num.round(robustMean, 2), num.round(robustStd, 2), Round(num, cv, 2),
      Quartiles(num.round(f.q1, 2), num.round(f.q2, 2), num.round(f.q3, 2)),
      num.round(f.iqr, 2), Bounds(num.round(f.lower, 2), num.round(f.upper, 2)),
      |values|, |data|, |outliers|, RoundAll(num, outliers, 2))
  }

  /** The fences depend only on the values, not on the order they come in. */
  lemma FencesIgnoreOrder(a: seq<real>, b: seq<real>, multiplier: real)
    requires |a| > 0 && multiset(a) == multiset(b)
    ensures |b| == |a| && TukeyFences(a, multiplier) == TukeyFences(b, multiplier)
  {
    assert |b| == |multiset(b)| == |multiset(a)| == |a|;
    SortIsUnique(b, Sort(a));
  }

  /** Sorted input goes through the estimator unchanged by the sort. */
  lemma SortedInputFences(values: seq<real>, multiplier: real)
    requires |values| > 0 && Sorted(values)
    ensures TukeyFences(values, multiplier) == SortedFences(values, multiplier)
  {
    SortSorted(values);
  }

  /** The fences of the worked example (eight readings, one of them extreme). */
  lemma ExampleFences(values: seq<real>)
    requires values == [68.0, 69.0, 70.0, 70.0, 71.0, 72.0, 73.0, 500.0]
    ensures Sorted(values)
    ensures SortedFences(values, 1.5) == Fences(69.75, 70.5, 72.25, 2.5, 66.0, 76.0)
  {
    assert |values| == 8;
    assert Quantile(values, 0.25) == 69.75 by {
      assert Rank(8, 0.25) == 1.75 && (1.75).Floor == 1;
      assert QuantileAt(values, 1.75) == 69.75;
    }
    assert Quantile(values, 0.5) == 70.5 by {
      assert Rank(8, 0.5) == 3.5 && (3.5).Floor == 3;
      assert QuantileAt(values, 3.5) == 70.5;
    }
    assert Quantile(values, 0.75) == 72.25 by {
      assert Rank(8, 0.75) == 5.25 && (5.25).Floor == 5;
      assert QuantileAt(values, 5.25) == 72.25;
    }
  }

  /** The worked example on the input [70, 72, 68, 71, 69, 73, 70, 500], in
      that order: the fences are those of the sorted readings, the extreme reading is the only outlier, the
      other seven are kept in input order, and the setpoint is their mean,
      493/7. */
  lemma ExampleSplit(values: seq<real>)
    requires values == [70.0, 72.0, 68.0, 71.0, 69.0, 73.0, 70.0, 500.0]
    ensures var f := TukeyFences(values, 1.5);
      && f == Fences(69.75, 70.5, 72.25, 2.5, 66.0, 76.0)
      && Kept(values, f) == [70.0, 72.0, 68.0, 71.0, 69.0, 73.0, 70.0]
      && Outliers(values, f) == [500.0]
      && Mean(Kept(values, f)) == 493.0 / 7.0
  {
    var sorted := [68.0, 69.0, 70.0, 70.0, 71.0, 72.0, 73.0, 500.0];
    ExampleReadings(values, sorted);
    ExampleInputFences(values, sorted);
    ExampleSplitFences();
    ExampleSum();
  }

  /** The input holds the example's eight readings. */
  lemma ExampleReadings(values: seq<real>, sorted: seq<real>)
    requires values == [70.0, 72.0, 68.0, 71.0, 69.0, 73.0, 70.0, 500.0]
    requires sorted == [68.0, 69.0, 70.0, 70.0, 71.0, 72.0, 73.0, 500.0]
    ensures multiset(values) == multiset(sorted)
  {
    SameReadings(values, sorted);
  }

  /** The example's readings, one by one, and the same readings sorted. */
  lemma SameReadings(values: seq<real>, sorted: seq<real>)
    requires |values| == 8 && values[0] == 70.0 && values[1] == 72.0 && values[2] == 68.0 && values[3] == 71.0
      && values[4] == 69.0 && values[5] == 73.0 && values[6] == 70.0 && values[7] == 500.0
    requires |sorted| == 8 && sorted[0] == 68.0 && sorted[1] == 69.0 && sorted[2] == 70.0 && sorted[3] == 70.0
      && sorted[4] == 71.0 && sorted[5] == 72.0 && sorted[6] == 73.0 && sorted[7] == 500.0
    ensures multiset(values) == multiset(sorted)
  {
    EightSingletons(values);
    EightSingletons(sorted);
  }

  /** The multiset of eight values is the sum of their singletons. */
  lemma EightSingletons(s: seq<real>)
    requires |s| == 8
    ensures multiset(s) == multiset{s[0]} + multiset{s[1]} + multiset{s[2]} + multiset{s[3]}
      + multiset{s[4]} + multiset{s[5]} + multiset{s[6]} + multiset{s[7]}
  {
    var t := s;
    MultisetHead(t); t := t[1..];
    MultisetHead(t); t := t[1..];
    MultisetHead(t); t := t[1..];
    MultisetHead(t); t := t[1..];
    MultisetHead(t); t := t[1..];
    MultisetHead(t); t := t[1..];
    MultisetHead(t); t := t[1..];
    assert t == [s[7]];
  }

  /** The multiset of a non-empty sequence is its head plus the rest. */
  lemma MultisetHead(s: seq<real>)
    requires |s| > 0
    ensures multiset(s) == multiset{s[0]} + multiset(s[1..])
  {
    assert s == [s[0]] + s[1..];
  }

  /** Any order of the example's readings, [70, 72, 68, 71, 69, 73, 70, 500]
      among them, has the fences of the sorted readings. */
  lemma ExampleInputFences(values: seq<real>, sorted: seq<real>)
    requires sorted == [68.0, 69.0, 70.0, 70.0, 71.0, 72.0, 73.0, 500.0]
    requires multiset(values) == multiset(sorted)
    ensures |values| == 8 && TukeyFences(values, 1.5) == Fences(69.75, 70.5, 72.25, 2.5, 66.0, 76.0)
  {
    assert |values| == |multiset(values)| == |multiset(sorted)| == 8;
    ExampleFences(sorted);
    PermutationFences(values, sorted, 1.5);
  }

  /** Input with the multiset of a sorted list has that list's fences. */
  lemma PermutationFences(values: seq<real>, sorted: seq<real>, multiplier: real)
    requires 0 < |values| && 0 < |sorted| && Sorted(sorted) && multiset(sorted) == multiset(values)
    ensures TukeyFences(values, multiplier) == SortedFences(sorted, multiplier)
  {
    FencesIgnoreOrder(sorted, values, multiplier);
    SortedInputFences(sorted, multiplier);
  }

  /** The fences of the example keep the first seven readings and drop the last. */
  lemma ExampleSplitFences()
    ensures var f := Fences(69.75, 70.5, 72.25, 2.5, 66.0, 76.0);
      && Kept([70.0, 72.0, 68.0, 71.0, 69.0, 73.0, 70.0, 500.0], f) == [70.0, 72.0, 68.0, 71.0, 69.0, 73.0, 70.0]
      && Outliers([70.0, 72.0, 68.0, 71.0, 69.0, 73.0, 70.0, 500.0], f) == [500.0]
  {
    var f := Fences(69.75, 70.5, 72.25, 2.5, 66.0, 76.0);
    var values := [70.0, 72.0, 68.0, 71.0, 69.0, 73.0, 70.0, 500.0];
    assert Kept(values[8..], f) == [] && Outliers(values[8..], f) == [];
    assert Kept(values[7..], f) == [] && Outliers(values[7..], f) == [500.0];
    assert Kept(values[6..], f) == values[6..7] && Outliers(values[6..], f) == [500.0];
    assert Kept(values[5..], f) == values[5..7] && Outliers(values[5..], f) == [500.0];
    assert Kept(values[4..], f) == values[4..7] && Outliers(values[4..], f) == [500.0];
    assert Kept(values[3..], f) == values[3..7] && Outliers(values[3..], f) == [500.0];
    assert Kept(values[2..], f) == values[2..7] && Outliers(values[2..], f) == [500.0];
    assert Kept(values[1..], f) == values[1..7] && Outliers(values[1..], f) == [500.0];
  }

  /** The seven kept readings add up to 493. */
  lemma ExampleSum()
    ensures Mean([70.0, 72.0, 68.0, 71.0, 69.0, 73.0, 70.0]) == 493.0 / 7.0
  {
    var kept := [70.0, 72.0, 68.0, 71.0, 69.0, 73.0, 70.0];
    assert Sum(kept[..1]) == 70.0;
    assert Sum(kept[..2]) == 142.0;
    assert kept[..3][..2] == kept[..2];
    assert Sum(kept[..3]) == 210.0;
    assert kept[..4][..3] == kept[..3];
    assert Sum(kept[..4]) == 281.0;
    assert kept[..5][..4] == kept[..4];
    assert Sum(kept[..5]) == 350.0;
    assert kept[..6][..5] == kept[..5];
    assert Sum(kept[..6]) == 423.0;
    assert kept[..6] == kept[..|kept| - 1];
  }
}
