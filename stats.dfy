/** Descriptive statistics shared by the estimators and the pages: sums, the
    arithmetic mean, the population variance (divided by n), minimum, maximum
    and an ascending sort of numbers. */
module Stats {

  /** `arr.reduce((a, b) => a + b, 0)`. */
  function Sum(s: seq<real>): real {
    if s == [] then 0.0 else Sum(s[..|s| - 1]) + s[|s| - 1]
  }

  /** The sum of squared deviations from `m`. */
  function SumSquares(s: seq<real>, m: real): (r: real)
    ensures r >= 0.0
  {
    if s == [] then 0.0
    else
      var d := s[|s| - 1] - m;
      assert d * d >= 0.0 by { if d < 0.0 { assert d * d == (-d) * (-d); } }
      SumSquares(s[..|s| - 1], m) + d * d
  }

  function Mean(s: seq<real>): real
    requires |s| > 0
  {
    Sum(s) / (|s| as real)
  }

  /** The population variance: squared deviations from the mean, divided by n. */
  function PopVariance(s: seq<real>): (r: real)
    requires |s| > 0
    ensures r >= 0.0
  {
    SumSquares(s, Mean(s)) / (|s| as real)
  }

  /** `Math.min(...s)`. */
  function Min(s: seq<real>): real
    requires |s| > 0
  {
    if |s| == 1 then s[0] else var m := Min(s[..|s| - 1]); if s[|s| - 1] < m then s[|s| - 1] else m
  }

  /** `Math.max(...s)`. */
  function Max(s: seq<real>): real
    requires |s| > 0
  {
    if |s| == 1 then s[0] else var m := Max(s[..|s| - 1]); if s[|s| - 1] > m then s[|s| - 1] else m
  }

  predicate InRange(s: seq<real>, lo: real, hi: real) {
    forall i :: 0 <= i < |s| ==> lo <= s[i] <= hi
  }

  /** The minimum and maximum are elements of the sequence and bound all of it. */
  lemma {:induction false} MinMaxBound(s: seq<real>)
    requires |s| > 0
    ensures InRange(s, Min(s), Max(s))
    ensures Min(s) in s && Max(s) in s
  {
    if |s| > 1 {
      MinMaxBound(s[..|s| - 1]);
      forall i | 0 <= i < |s| - 1 ensures Min(s) <= s[i] <= Max(s) {
        assert s[i] == s[..|s| - 1][i];
      }
    }
  }

  /** A sum of n values in [lo, hi] lies between n·lo and n·hi. */
  lemma {:induction false} SumBounds(s: seq<real>, lo: real, hi: real)
    requires InRange(s, lo, hi)
    ensures (|s| as real) * lo <= Sum(s) <= (|s| as real) * hi
  {
    if s != [] {
      var init := s[..|s| - 1];
      assert InRange(init, lo, hi) by {
        forall i | 0 <= i < |init| ensures lo <= init[i] <= hi { assert init[i] == s[i]; }
      }
      SumBounds(init, lo, hi);
    }
  }

  /** The mean of values in [lo, hi] is in [lo, hi]. */
  lemma MeanInRange(s: seq<real>, lo: real, hi: real)
    requires |s| > 0 && InRange(s, lo, hi)
    ensures lo <= Mean(s) <= hi
  {
    SumBounds(s, lo, hi);
    DivideBounds(Sum(s), |s| as real, lo, hi);
  }

  lemma DivideBounds(a: real, n: real, lo: real, hi: real)
    requires n > 0.0 && n * lo <= a <= n * hi
    ensures lo <= a / n <= hi
  {
    assert a / n * n == a;
  }

  /** The mean lies between the minimum and the maximum. */
  lemma MeanBetweenMinMax(s: seq<real>)
    requires |s| > 0
    ensures Min(s) <= Mean(s) <= Max(s)
  {
    MinMaxBound(s);
    MeanInRange(s, Min(s), Max(s));
  }

  predicate Sorted(s: seq<real>) {
    forall i, j :: 0 <= i <= j < |s| ==> s[i] <= s[j]
  }

  /** Inserts `x` into a sorted sequence before the first larger element. */
  function Insert(x: real, s: seq<real>): (r: seq<real>)
    requires Sorted(s)
    ensures Sorted(r) && multiset(r) == multiset(s) + multiset{x} && |r| == |s| + 1
    ensures forall k :: 0 <= k < |r| ==> r[k] == x || r[k] in s
  {
    if s == [] then [x]
    else if x <= s[0] then [x] + s
    else
      var rest := Insert(x, s[1..]);
      assert forall k :: 0 <= k < |rest| ==> s[0] <= rest[k];
      assert s == [s[0]] + s[1..];
      [s[0]] + rest
  }

  /** `[...values].sort((a, b) => a - b)`: the values in ascending order. */
  function Sort(s: seq<real>): (r: seq<real>)
    ensures Sorted(r) && multiset(r) == multiset(s) && |r| == |s|
  {
    if s == [] then []
    else
      assert s == [s[0]] + s[1..];
      Insert(s[0], Sort(s[1..]))
  }

  /** The first element of the sorted sequence is the minimum, the last the maximum. */
  lemma SortEnds(s: seq<real>)
    requires |s| > 0
    ensures Sort(s)[0] == Min(s) && Sort(s)[|s| - 1] == Max(s)
  {
    MinMaxBound(s);
    SortedHead(Sort(s), s);
    SortedLast(Sort(s), s);
  }

  /** A sorted arrangement of s starts with the minimum of s. */
  lemma SortedHead(t: seq<real>, s: seq<real>)
    requires Sorted(t) && multiset(t) == multiset(s) && |s| > 0
    requires InRange(s, Min(s), Max(s)) && Min(s) in s
    ensures |t| == |s| && t[0] == Min(s)
  {
    assert |t| == |multiset(t)| == |multiset(s)| == |s|;
    assert Min(s) in multiset(t);
    var a :| 0 <= a < |t| && t[a] == Min(s);
    assert t[0] in multiset(s);
    var i :| 0 <= i < |s| && s[i] == t[0];
  }

  /** A sorted arrangement of s ends with the maximum of s. */
  lemma SortedLast(t: seq<real>, s: seq<real>)
    requires Sorted(t) && multiset(t) == multiset(s) && |s| > 0
    requires InRange(s, Min(s), Max(s)) && Max(s) in s
    ensures |t| == |s| && t[|s| - 1] == Max(s)
  {
    assert |t| == |multiset(t)| == |multiset(s)| == |s|;
    assert Max(s) in multiset(t);
    var b :| 0 <= b < |t| && t[b] == Max(s);
    assert t[|s| - 1] in multiset(s);
    var j :| 0 <= j < |s| && s[j] == t[|s| - 1];
  }

  /** Two sorted sequences holding the same values are equal. */
  lemma {:induction false} SortedUnique(a: seq<real>, b: seq<real>)
    requires Sorted(a) && Sorted(b) && multiset(a) == multiset(b)
    ensures a == b
  {
    assert |a| == |multiset(a)| == |multiset(b)| == |b|;
    if a != [] {
      SameHead(a, b);
      SortedUnique(a[1..], b[1..]);
      assert a == [a[0]] + a[1..] && b == [b[0]] + b[1..];
    }
  }

  lemma HeadIsLeast(a: seq<real>, b: seq<real>)
    requires Sorted(b) && multiset(a) == multiset(b) && |a| > 0
    ensures |b| > 0 && b[0] <= a[0]
  {
    assert a[0] in multiset(a);
    assert a[0] in multiset(b);
    var i :| 0 <= i < |b| && b[i] == a[0];
  }
  /** Sorted arrangements of the same values start alike. */
  lemma SameHead(a: seq<real>, b: seq<real>)
    requires Sorted(a) && Sorted(b) && multiset(a) == multiset(b) && |a| > 0
    ensures |b| > 0 && a[0] == b[0] && multiset(a[1..]) == multiset(b[1..])
    ensures Sorted(a[1..]) && Sorted(b[1..])
  {
    HeadIsLeast(a, b);
    HeadIsLeast(b, a);
    assert a == [a[0]] + a[1..];
    assert b == [b[0]] + b[1..];
    assert multiset(a) == multiset{a[0]} + multiset(a[1..]);
    assert multiset(b) == multiset{a[0]} + multiset(b[1..]);
    var ta, tb := multiset(a[1..]), multiset(b[1..]);
    assert multiset{a[0]} + ta == multiset{a[0]} + tb;
    forall x ensures ta[x] == tb[x] {
      assert (multiset{a[0]} + ta)[x] == (multiset{a[0]} + tb)[x];
    }
  }

  /** Sort returns the one sorted arrangement of its input. */
  lemma SortIsUnique(s: seq<real>, t: seq<real>)
    requires Sorted(t) && multiset(t) == multiset(s)
    ensures Sort(s) == t
  {
    SortedUnique(Sort(s), t);
  }

  /** Sorting a sorted sequence leaves it as it is. */
  lemma {:induction false} SortSorted(s: seq<real>)
    requires Sorted(s)
    ensures Sort(s) == s
  {
    if s != [] {
      SortSorted(s[1..]);
      assert s == [s[0]] + s[1..];
    }
  }

  function Abs(x: real): real { if x < 0.0 then -x else x }

  function RealMax(a: real, b: real): real { if a < b then b else a }

  /** `s.indexOf(Math.min(...s))`: the first index holding the minimum. */
  function FirstArgMin(s: seq<real>): (i: nat)
    requires |s| > 0
    ensures i < |s|
    ensures forall j :: 0 <= j < |s| ==> s[i] <= s[j]
    ensures forall j :: 0 <= j < i ==> s[i] < s[j]
  {
    if |s| == 1 then 0
    else
      var init := s[..|s| - 1];
      var b := FirstArgMin(init);
      assert forall j :: 0 <= j < |init| ==> init[j] == s[j];
      if s[|s| - 1] < s[b] then |s| - 1 else b
  }

  /** `s.indexOf(Math.max(...s))`: the first index holding the maximum. */
  function FirstArgMax(s: seq<real>): (i: nat)
    requires |s| > 0
    ensures i < |s|
    ensures forall j :: 0 <= j < |s| ==> s[j] <= s[i]
    ensures forall j :: 0 <= j < i ==> s[j] < s[i]
  {
    if |s| == 1 then 0
    else
      var init := s[..|s| - 1];
      var b := FirstArgMax(init);
      assert forall j :: 0 <= j < |init| ==> init[j] == s[j];
      if s[|s| - 1] > s[b] then |s| - 1 else b
  }

  /** The maximum is the value at the first index of the maximum. */
  lemma MaxAtFirstArgMax(s: seq<real>)
    requires |s| > 0
    ensures Max(s) == s[FirstArgMax(s)]
  {
    MinMaxBound(s);
    var i := FirstArgMax(s);
    var j :| 0 <= j < |s| && s[j] == Max(s);
  }

  /** `s.map(x => x / c)`. */
  function Scale(s: seq<real>, c: real): (r: seq<real>)
    requires c != 0.0
    ensures |r| == |s| && forall i :: 0 <= i < |s| ==> r[i] == s[i] / c
  {
    seq(|s|, i requires 0 <= i < |s| => s[i] / c)
  }

  /** Dividing every term by c divides the sum by c. */
  lemma {:induction false} SumScale(s: seq<real>, c: real)
    requires c != 0.0
    ensures Sum(Scale(s, c)) == Sum(s) / c
  {
    if s != [] {
      var init := s[..|s| - 1];
      SumScale(init, c);
      assert Scale(s, c)[..|s| - 1] == Scale(init, c);
      assert Sum(s) / c == Sum(init) / c + s[|s| - 1] / c;
    }
  }

  function Constant(k: nat, c: real): (r: seq<real>)
    ensures |r| == k && forall i :: 0 <= i < k ==> r[i] == c
  {
    seq(k, _ => c)
  }

  lemma {:induction false} SumConstant(k: nat, c: real)
    ensures Sum(Constant(k, c)) == (k as real) * c
  {
    if k > 0 {
      SumConstant(k - 1, c);
      assert Constant(k, c)[..k - 1] == Constant(k - 1, c);
    }
  }

  /** A sum of non-negative terms is non-negative, and positive if one term is. */
  lemma {:induction false} SumNonNegative(s: seq<real>)
    requires forall i :: 0 <= i < |s| ==> 0.0 <= s[i]
    ensures 0.0 <= Sum(s)
    ensures (exists i :: 0 <= i < |s| && 0.0 < s[i]) ==> 0.0 < Sum(s)
  {
    if s != [] {
      var init := s[..|s| - 1];
      assert forall i :: 0 <= i < |init| ==> init[i] == s[i];
      SumNonNegative(init);
      if exists i :: 0 <= i < |s| && 0.0 < s[i] {
        var i :| 0 <= i < |s| && 0.0 < s[i];
        if i < |s| - 1 { assert 0.0 < init[i]; }
      }
    }
  }
}
