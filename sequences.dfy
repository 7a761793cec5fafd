/** `Array.prototype.filter`, `find` and counting, over sequences. */
module Sequences {
  import opened Wrappers

  /** `s.filter(keep)`: the elements that pass, in their order. */
  function Filter<T>(s: seq<T>, keep: T -> bool): (r: seq<T>)
    ensures |r| <= |s|
    ensures forall i :: 0 <= i < |r| ==> r[i] in s && keep(r[i])
    ensures forall i :: 0 <= i < |s| && keep(s[i]) ==> s[i] in r
  {
    if s == [] then []
    else
      assert s == [s[0]] + s[1..];
      (if keep(s[0]) then [s[0]] else []) + Filter(s[1..], keep)
  }

  /** An element of a filtered sequence is an element of the input that passes. */
  lemma FilterMember<T>(s: seq<T>, keep: T -> bool, x: T)
    requires x in Filter(s, keep)
    ensures x in s && keep(x)
  {
    var r := Filter(s, keep);
    var j :| 0 <= j < |r| && r[j] == x;
  }

  /** Filtering looks at the head, then filters the rest. */
  lemma FilterCons<T>(x: T, s: seq<T>, keep: T -> bool)
    ensures Filter([x] + s, keep) == (if keep(x) then [x] else []) + Filter(s, keep)
  {
    assert ([x] + s)[0] == x && ([x] + s)[1..] == s;
  }

  /** Filtering keeps a sequence whose every element passes. */
  lemma {:induction false} FilterKeepsAll<T>(s: seq<T>, keep: T -> bool)
    requires forall i :: 0 <= i < |s| ==> keep(s[i])
    ensures Filter(s, keep) == s
  {
    if s != [] {
      FilterKeepsAll(s[1..], keep);
    }
  }

  /** Filtering empties a sequence whose every element fails. */
  lemma {:induction false} FilterDropsAll<T>(s: seq<T>, keep: T -> bool)
    requires forall i :: 0 <= i < |s| ==> !keep(s[i])
    ensures Filter(s, keep) == []
  {
    if s != [] {
      FilterDropsAll(s[1..], keep);
    }
  }

  /** Filtering distributes over concatenation, so order is kept. */
  lemma {:induction false} FilterAppend<T>(a: seq<T>, b: seq<T>, keep: T -> bool)
    ensures Filter(a + b, keep) == Filter(a, keep) + Filter(b, keep)
  {
    if a == [] {
      assert a + b == b;
    } else {
      assert (a + b)[0] == a[0] && (a + b)[1..] == a[1..] + b;
      FilterAppend(a[1..], b, keep);
    }
  }

  /** The number of elements that pass. */
  function Count<T>(s: seq<T>, p: T -> bool): nat {
    if s == [] then 0 else (if p(s[0]) then 1 else 0) + Count(s[1..], p)
  }

  /** The count is the length of the filtered sequence. */
  lemma {:induction false} CountIsFilterLength<T>(s: seq<T>, p: T -> bool)
    ensures Count(s, p) == |Filter(s, p)|
  {
    if s != [] { CountIsFilterLength(s[1..], p); }
  }

  /** Counting distributes over concatenation. */
  lemma CountAppend<T>(a: seq<T>, b: seq<T>, p: T -> bool)
    ensures Count(a + b, p) == Count(a, p) + Count(b, p)
  {
    CountIsFilterLength(a + b, p);
    CountIsFilterLength(a, p);
    CountIsFilterLength(b, p);
    FilterAppend(a, b, p);
  }

  /** Filtering away only elements that do not count leaves the count unchanged. */
  lemma {:induction false} CountFiltered<T>(s: seq<T>, keep: T -> bool, p: T -> bool)
    requires forall i :: 0 <= i < |s| && p(s[i]) ==> keep(s[i])
    ensures Count(Filter(s, keep), p) == Count(s, p)
  {
    if s != [] {
      CountFiltered(s[1..], keep, p);
      var head := if keep(s[0]) then [s[0]] else [];
      CountAppend(head, Filter(s[1..], keep), p);
    }
  }

  /** No two elements share a key. */
  predicate UniqueBy<T, K(==)>(s: seq<T>, key: T -> K) {
    forall i, j :: 0 <= i < j < |s| ==> key(s[i]) != key(s[j])
  }

  /** Filtering keeps keys unique. */
  lemma {:induction false} FilterUnique<T, K>(s: seq<T>, keep: T -> bool, key: T -> K)
    requires UniqueBy(s, key)
    ensures UniqueBy(Filter(s, keep), key)
  {
    if s != [] {
      var tail := s[1..];
      assert UniqueBy(tail, key) by {
        forall i, j | 0 <= i < j < |tail| ensures key(tail[i]) != key(tail[j]) {
          assert tail[i] == s[i + 1] && tail[j] == s[j + 1];
        }
      }
      FilterUnique(tail, keep, key);
      var rest := Filter(tail, keep);
      forall k | 0 <= k < |rest| ensures key(s[0]) != key(rest[k]) {
        var j :| 0 <= j < |tail| && tail[j] == rest[k];
        assert s[j + 1] == tail[j];
      }
    }
  }

  /** Filtering away exactly the element at k lowers a count by one exactly
      when that element counted. */
  lemma {:induction false} CountWithout<T>(s: seq<T>, k: nat, keep: T -> bool, p: T -> bool)
    requires k < |s| && forall i :: 0 <= i < |s| ==> (keep(s[i]) <==> i != k)
    ensures Count(Filter(s, keep), p) == Count(s, p) - (if p(s[k]) then 1 else 0)
  {
    var tail := s[1..];
    if k == 0 {
      assert forall i :: 0 <= i < |tail| ==> keep(tail[i]) by {
        forall i | 0 <= i < |tail| ensures keep(tail[i]) { assert tail[i] == s[i + 1]; }
      }
      FilterKeepsAll(tail, keep);
      assert Filter(s, keep) == [] + Filter(tail, keep);
      assert Filter(s, keep) == tail;
      assert Count(s, p) == (if p(s[0]) then 1 else 0) + Count(tail, p);
    } else {
      assert forall i :: 0 <= i < |tail| ==> (keep(tail[i]) <==> i != k - 1) by {
        forall i | 0 <= i < |tail| ensures keep(tail[i]) <==> i != k - 1 { assert tail[i] == s[i + 1]; }
      }
      CountWithout(tail, k - 1, keep, p);
      var rest := Filter(tail, keep);
      assert ([s[0]] + rest)[1..] == rest;
    }
  }

  /** The index of the first element that passes, or |s| when none does. */
  function FirstIndex<T>(s: seq<T>, p: T -> bool): (i: nat)
    ensures i <= |s| && (i < |s| ==> p(s[i]))
    ensures forall j :: 0 <= j < i ==> !p(s[j])
  {
    if s == [] then 0
    else if p(s[0]) then 0
    else 1 + FirstIndex(s[1..], p)
  }

  /** `s.find(p)`, absent standing for `undefined`. */
  function Find<T>(s: seq<T>, p: T -> bool): (r: Option<T>)
    ensures r.Some? ==> r.value in s && p(r.value)
    ensures r.None? <==> forall i :: 0 <= i < |s| ==> !p(s[i])
  {
    var i := FirstIndex(s, p);
    if i < |s| then Some(s[i]) else None
  }

  // -------------------------------------------------------------- sorting

  /** Ascending by an integer key. */
  predicate Ascending<T>(s: seq<T>, key: T -> int) {
    forall i, j :: 0 <= i <= j < |s| ==> key(s[i]) <= key(s[j])
  }

  /** Descending by an integer key. */
  predicate Descending<T>(s: seq<T>, key: T -> int) {
    forall i, j :: 0 <= i <= j < |s| ==> key(s[j]) <= key(s[i])
  }

  /** Inserts x before the first element of the same or a greater key, so
      that x, which came first, stays ahead of the elements of its key. */
  function InsertAscending<T>(x: T, s: seq<T>, key: T -> int): (r: seq<T>)
    requires Ascending(s, key)
    ensures Ascending(r, key) && multiset(r) == multiset(s) + multiset{x} && |r| == |s| + 1
  {
    if s == [] then [x]
    else if key(x) <= key(s[0]) then
      AscendingCons(x, s, key);
      [x] + s
    else
      var rest := InsertAscending(x, s[1..], key);
      assert s == [s[0]] + s[1..];
      assert key(s[0]) <= key(rest[0]) by {
        assert rest[0] in multiset(rest);
        if rest[0] != x {
          assert rest[0] in multiset(s[1..]);
          var k :| 0 <= k < |s[1..]| && s[1..][k] == rest[0];
          assert s[1..][k] == s[k + 1];
        }
      }
      AscendingCons(s[0], rest, key);
      [s[0]] + rest
  }


  /** Inserts x before the first element of the same or a smaller key. */
  function InsertDescending<T>(x: T, s: seq<T>, key: T -> int): (r: seq<T>)
    requires Descending(s, key)
    ensures Descending(r, key) && multiset(r) == multiset(s) + multiset{x} && |r| == |s| + 1
  {
    if s == [] then [x]
    else if key(x) >= key(s[0]) then
      DescendingCons(x, s, key);
      [x] + s
    else
      var rest := InsertDescending(x, s[1..], key);
      assert s == [s[0]] + s[1..];
      assert key(s[0]) >= key(rest[0]) by {
        assert rest[0] in multiset(rest);
        if rest[0] != x {
          assert rest[0] in multiset(s[1..]);
          var k :| 0 <= k < |s[1..]| && s[1..][k] == rest[0];
          assert s[1..][k] == s[k + 1];
        }
      }
      DescendingCons(s[0], rest, key);
      [s[0]] + rest
  }


  /** An element no greater than the head of an ascending sequence can go in front. */
  lemma AscendingCons<T>(x: T, s: seq<T>, key: T -> int)
    requires Ascending(s, key) && (s == [] || key(x) <= key(s[0]))
    ensures Ascending([x] + s, key)
  {
    var r := [x] + s;
    forall i, j | 0 <= i <= j < |r| ensures key(r[i]) <= key(r[j]) {
      if 0 < i {
        assert r[i] == s[i - 1] && r[j] == s[j - 1];
      } else if 0 < j {
        assert r[j] == s[j - 1];
        assert key(s[0]) <= key(s[j - 1]);
      }
    }
  }

  /** An element no smaller than the head of a descending sequence can go in front. */
  lemma DescendingCons<T>(x: T, s: seq<T>, key: T -> int)
    requires Descending(s, key) && (s == [] || key(x) >= key(s[0]))
    ensures Descending([x] + s, key)
  {
    var r := [x] + s;
    forall i, j | 0 <= i <= j < |r| ensures key(r[j]) <= key(r[i]) {
      if 0 < i {
        assert r[i] == s[i - 1] && r[j] == s[j - 1];
      } else if 0 < j {
        assert r[j] == s[j - 1];
        assert key(s[j - 1]) <= key(s[0]);
      }
    }
  }

  /** `[...s].sort((a, b) => key(a) - key(b))`: an ascending sort, stable as
      `Array.prototype.sort` is (see `SortAscendingStable`). */
  function SortAscending<T>(s: seq<T>, key: T -> int): (r: seq<T>)
    ensures Ascending(r, key) && multiset(r) == multiset(s) && |r| == |s|
  {
    if s == [] then []
    else
      assert s == [s[0]] + s[1..];
      InsertAscending(s[0], SortAscending(s[1..], key), key)
  }

  /** `[...s].sort((a, b) => key(b) - key(a))`: a descending sort, stable as
      `Array.prototype.sort` is (see `SortDescendingStable`). */
  function SortDescending<T>(s: seq<T>, key: T -> int): (r: seq<T>)
    ensures Descending(r, key) && multiset(r) == multiset(s) && |r| == |s|
  {
    if s == [] then []
    else
      assert s == [s[0]] + s[1..];
      InsertDescending(s[0], SortDescending(s[1..], key), key)
  }

  /** The elements whose key is v. */
  function KeyIs<T>(key: T -> int, v: int): T -> bool {
    (e: T) => key(e) == v
  }

  /** r lists the elements of every key in the order s lists them. */
  ghost predicate StableBy<T>(r: seq<T>, s: seq<T>, key: T -> int) {
    forall v {:trigger KeyIs(key, v)} :: Filter(r, KeyIs(key, v)) == Filter(s, KeyIs(key, v))
  }

  /** Putting y in front of two sequences keeps a relation between what they
      let through, when y does not pass or nothing stands before it. */
  lemma PrependOther<T>(y: T, r: seq<T>, s: seq<T>, h: seq<T>, keep: T -> bool)
    requires Filter(r, keep) == h + Filter(s, keep)
    requires !keep(y) || h == []
    ensures Filter([y] + r, keep) == h + Filter([y] + s, keep)
  {
    FilterCons(y, r, keep);
    FilterCons(y, s, keep);
    if keep(y) {
      assert h + Filter(s, keep) == Filter(s, keep);
    }
  }

  /** Inserting x adds it in front of the elements of its key. */
  lemma {:induction false} InsertAscendingGroups<T>(x: T, s: seq<T>, key: T -> int, v: int)
    requires Ascending(s, key)
    ensures Filter(InsertAscending(x, s, key), KeyIs(key, v))
      == (if key(x) == v then [x] else []) + Filter(s, KeyIs(key, v))
  {
    var same := KeyIs(key, v);
    if s == [] {
      FilterCons(x, [], same);
    } else if key(x) <= key(s[0]) {
      FilterCons(x, s, same);
    } else {
      InsertAscendingGroups(x, s[1..], key, v);
      var rest := InsertAscending(x, s[1..], key);
      PrependOther(s[0], rest, s[1..], if same(x) then [x] else [], same);
      assert [s[0]] + s[1..] == s;
      assert InsertAscending(x, s, key) == [s[0]] + rest;
    }
  }

  /** Inserting x adds it in front of the elements of its key. */
  lemma {:induction false} InsertDescendingGroups<T>(x: T, s: seq<T>, key: T -> int, v: int)
    requires Descending(s, key)
    ensures Filter(InsertDescending(x, s, key), KeyIs(key, v))
      == (if key(x) == v then [x] else []) + Filter(s, KeyIs(key, v))
  {
    var same := KeyIs(key, v);
    if s == [] {
      FilterCons(x, [], same);
    } else if key(x) >= key(s[0]) {
      FilterCons(x, s, same);
    } else {
      InsertDescendingGroups(x, s[1..], key, v);
      var rest := InsertDescending(x, s[1..], key);
      PrependOther(s[0], rest, s[1..], if same(x) then [x] else [], same);
      assert [s[0]] + s[1..] == s;
      assert InsertDescending(x, s, key) == [s[0]] + rest;
    }
  }

  /** The ascending sort is stable: elements of the same key keep their order. */
  lemma {:induction false} SortAscendingStable<T>(s: seq<T>, key: T -> int)
    ensures StableBy(SortAscending(s, key), s, key)
  {
    if s != [] {
      SortAscendingStable(s[1..], key);
      forall v ensures Filter(SortAscending(s, key), KeyIs(key, v)) == Filter(s, KeyIs(key, v)) {
        InsertAscendingGroups(s[0], SortAscending(s[1..], key), key, v);
      }
    }
  }

  /** The descending sort is stable: elements of the same key keep their order. */
  lemma {:induction false} SortDescendingStable<T>(s: seq<T>, key: T -> int)
    ensures StableBy(SortDescending(s, key), s, key)
  {
    if s != [] {
      SortDescendingStable(s[1..], key);
      forall v ensures Filter(SortDescending(s, key), KeyIs(key, v)) == Filter(s, KeyIs(key, v)) {
        InsertDescendingGroups(s[0], SortDescending(s[1..], key), key, v);
      }
    }
  }

  /** Searching only among the elements of key v finds the same element when
      everything searched for has key v. */
  lemma {:induction false} FindWithinKey<T>(s: seq<T>, p: T -> bool, key: T -> int, v: int)
    requires forall i :: 0 <= i < |s| && p(s[i]) ==> key(s[i]) == v
    ensures Find(Filter(s, KeyIs(key, v)), p) == Find(s, p)
  {
    if s != [] {
      var rest := Filter(s[1..], KeyIs(key, v));
      FindWithinKey(s[1..], p, key, v);
      FindCons(s, p);
      if key(s[0]) == v {
        var g := [s[0]] + rest;
        assert Filter(s, KeyIs(key, v)) == g;
        assert g[1..] == rest;
        FindCons(g, p);
      } else {
        assert Filter(s, KeyIs(key, v)) == rest;
      }
    }
  }

  /** `find` looks at the head first. */
  lemma FindCons<T>(s: seq<T>, p: T -> bool)
    requires s != []
    ensures Find(s, p) == if p(s[0]) then Some(s[0]) else Find(s[1..], p)
  {
    if !p(s[0]) {
      assert FirstIndex(s, p) == 1 + FirstIndex(s[1..], p);
    }
  }

  /** A stable rearrangement finds, among elements of one key, the element
      the original order finds. */
  lemma FindStable<T>(r: seq<T>, s: seq<T>, p: T -> bool, key: T -> int, v: int)
    requires StableBy(r, s, key) && multiset(r) == multiset(s)
    requires forall i :: 0 <= i < |s| && p(s[i]) ==> key(s[i]) == v
    ensures Find(r, p) == Find(s, p)
  {
    forall i | 0 <= i < |r| && p(r[i]) ensures key(r[i]) == v {
      assert r[i] in multiset(s);
    }
    FindWithinKey(r, p, key, v);
    FindWithinKey(s, p, key, v);
    assert Filter(r, KeyIs(key, v)) == Filter(s, KeyIs(key, v));
  }

  /** The last element is the last of its key. */
  lemma LastOfItsKey<T>(s: seq<T>, key: T -> int)
    requires |s| > 0
    ensures var g := Filter(s, KeyIs(key, key(s[|s| - 1])));
      |g| > 0 && g[|g| - 1] == s[|s| - 1]
  {
    var n := |s|;
    var same := KeyIs(key, key(s[n - 1]));
    assert s == s[..n - 1] + [s[n - 1]];
    FilterAppend(s[..n - 1], [s[n - 1]], same);
    assert Filter([s[n - 1]], same) == [s[n - 1]] by {
      assert [s[n - 1]][1..] == [];
    }
  }

  /** r lists, of every key, a prefix of the elements s lists, in order. */
  ghost predicate KeepsFirst<T>(r: seq<T>, s: seq<T>, key: T -> int) {
    forall v {:trigger KeyIs(key, v)} :: Filter(r, KeyIs(key, v)) <= Filter(s, KeyIs(key, v))
  }

  /** Cutting a stable rearrangement keeps, of every key, the first elements. */
  lemma TakeStable<T>(d: seq<T>, n: nat, s: seq<T>, key: T -> int)
    requires StableBy(d, s, key)
    ensures KeepsFirst(Take(d, n), s, key)
  {
    forall v ensures Filter(Take(d, n), KeyIs(key, v)) <= Filter(s, KeyIs(key, v)) {
      TakeFilterPrefix(d, n, KeyIs(key, v));
    }
  }

  /** The first n elements keep, for every predicate, a prefix of the
      elements that pass. */
  lemma TakeFilterPrefix<T>(s: seq<T>, n: nat, p: T -> bool)
    ensures Filter(Take(s, n), p) <= Filter(s, p)
  {
    if n < |s| {
      assert s == s[..n] + s[n..];
      FilterAppend(s[..n], s[n..], p);
    }
  }

  /** Sorting a filtered sequence lists exactly the elements that pass. */
  lemma SortedFilterMembers<T>(s: seq<T>, keep: T -> bool, key: T -> int)
    ensures var d := SortDescending(Filter(s, keep), key);
      (forall i :: 0 <= i < |d| ==> d[i] in s && keep(d[i]))
      && (forall i :: 0 <= i < |s| && keep(s[i]) ==> s[i] in d)
  {
    var own := Filter(s, keep);
    var d := SortDescending(own, key);
    forall i | 0 <= i < |d| ensures d[i] in s && keep(d[i]) {
      assert d[i] in multiset(d);
      assert d[i] in own;
      FilterMember(s, keep, d[i]);
    }
    forall i | 0 <= i < |s| && keep(s[i]) ensures s[i] in d {
      assert s[i] in own;
      assert s[i] in multiset(own);
    }
  }

  /** `s.slice(0, n)`. */
  function Take<T>(s: seq<T>, n: nat): (r: seq<T>)
    ensures |r| <= n && |r| <= |s| && (|s| <= n ==> r == s)
    ensures forall i :: 0 <= i < |r| ==> r[i] == s[i]
  {
    if |s| <= n then s else s[..n]
  }

  /** A prefix of a descending sequence is descending. */
  lemma TakeDescending<T>(s: seq<T>, n: nat, key: T -> int)
    requires Descending(s, key)
    ensures Descending(Take(s, n), key)
  {
    var r := Take(s, n);
    forall i, j | 0 <= i <= j < |r| ensures key(r[j]) <= key(r[i]) {
      assert r[i] == s[i] && r[j] == s[j];
    }
  }

  /** The first n of the passing elements sorted newest first are passing
      elements, and every passing element is among them or no greater than
      the last of them, which then are n. */
  lemma TopFacts<T>(s: seq<T>, keep: T -> bool, key: T -> int, n: nat)
    requires n > 0
    ensures var r := Take(SortDescending(Filter(s, keep), key), n);
      (forall i :: 0 <= i < |r| ==> r[i] in s && keep(r[i]))
      && (forall k :: 0 <= k < |s| && keep(s[k]) ==> s[k] in r || (|r| == n && key(s[k]) <= key(r[n - 1])))
  {
    var sorted := SortDescending(Filter(s, keep), key);
    SortedFilterMembers(s, keep, key);
    var r := Take(sorted, n);
    forall k | 0 <= k < |s| && keep(s[k])
      ensures s[k] in r || (|r| == n && key(s[k]) <= key(r[n - 1]))
    {
      var j :| 0 <= j < |sorted| && sorted[j] == s[k];
      if j < |r| {
        assert r[j] == s[k];
      } else {
        assert key(sorted[j]) <= key(sorted[n - 1]);
      }
    }
  }
}
