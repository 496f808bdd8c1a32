/** A stable sort by a total preorder, as Python's `list.sort` and pandas'
    multi-key `sort_values` both are: the result is ordered, is a permutation
    of the input, and elements that tie keep their input order.
    `atLeast(a, b)` says that `a` may come before `b`. */
module StableSort {

  ghost predicate TotalPreorder<T(!new)>(atLeast: (T, T) -> bool) {
    && (forall a, b :: atLeast(a, b) || atLeast(b, a))
    && (forall a, b, c :: atLeast(a, b) && atLeast(b, c) ==> atLeast(a, c))
  }

  ghost predicate SortedBy<T>(s: seq<T>, atLeast: (T, T) -> bool) {
    forall i, j :: 0 <= i < j < |s| ==> atLeast(s[i], s[j])
  }

  /** Sorted by `atLeast`, and by `earlier` among elements that tie. */
  ghost predicate SortedThenBy<T>(s: seq<T>, atLeast: (T, T) -> bool, earlier: (T, T) -> bool) {
    forall i, j :: 0 <= i < j < |s| ==>
      atLeast(s[i], s[j]) && (atLeast(s[j], s[i]) ==> earlier(s[i], s[j]))
  }

  predicate Tied<T>(a: T, b: T, atLeast: (T, T) -> bool) {
    atLeast(a, b) && atLeast(b, a)
  }

  /** The elements of `s` that tie with `x`, in their order in `s`. */
  function TiedWith<T>(s: seq<T>, x: T, atLeast: (T, T) -> bool): seq<T>
  {
    if s == [] then []
    else (if Tied(s[0], x, atLeast) then [s[0]] else []) + TiedWith(s[1..], x, atLeast)
  }

  /** Places `x` in front of the first element it may precede. */
  function Insert<T>(x: T, s: seq<T>, atLeast: (T, T) -> bool): (r: seq<T>)
    ensures |r| == |s| + 1
    ensures multiset(r) == multiset(s) + multiset{x}
  {
    if s == [] || atLeast(x, s[0]) then [x] + s
    else
      assert s == [s[0]] + s[1..];
      [s[0]] + Insert(x, s[1..], atLeast)
  }

  function SortBy<T>(s: seq<T>, atLeast: (T, T) -> bool): (r: seq<T>)
    ensures |r| == |s|
    ensures multiset(r) == multiset(s)
  {
    if s == [] then []
    else
      assert s == [s[0]] + s[1..];
      Insert(s[0], SortBy(s[1..], atLeast), atLeast)
  }

  /** Python's `s[:n]`: the first `n` elements, or for a negative `n` all
      but the last `-n`. */
  function Take<T>(s: seq<T>, n: int): (r: seq<T>)
    ensures 0 <= n ==> |r| == if n <= |s| then n else |s|
    ensures n < 0 ==> |r| == if -n <= |s| then |s| + n else 0
    ensures r == s[..|r|]
  {
    if 0 <= n then (if n <= |s| then s[..n] else s)
    else if -n <= |s| then s[..|s| + n] else []
  }

  lemma {:induction false} InsertSorted<T(!new)>(x: T, s: seq<T>, atLeast: (T, T) -> bool)
    requires TotalPreorder(atLeast)
    requires SortedBy(s, atLeast)
    ensures SortedBy(Insert(x, s, atLeast), atLeast)
  {
    if s == [] || atLeast(x, s[0]) {
    } else {
      var tail := Insert(x, s[1..], atLeast);
      InsertSorted(x, s[1..], atLeast);
      forall z | z in tail
        ensures atLeast(s[0], z)
      {
        assert z in multiset(tail);
        if z != x {
          assert z in s[1..];
        }
      }
    }
  }

  /** The result of `SortBy` is in non-increasing `atLeast` order. */
  lemma {:induction false} SortBySorted<T(!new)>(s: seq<T>, atLeast: (T, T) -> bool)
    requires TotalPreorder(atLeast)
    ensures SortedBy(SortBy(s, atLeast), atLeast)
  {
    if s != [] {
      SortBySorted(s[1..], atLeast);
      InsertSorted(s[0], SortBy(s[1..], atLeast), atLeast);
    }
  }

  lemma {:induction false} InsertTied<T(!new)>(y: T, s: seq<T>, x: T, atLeast: (T, T) -> bool)
    requires TotalPreorder(atLeast)
    ensures TiedWith(Insert(y, s, atLeast), x, atLeast)
         == (if Tied(y, x, atLeast) then [y] else []) + TiedWith(s, x, atLeast)
  {
    var r := Insert(y, s, atLeast);
    var head := if Tied(y, x, atLeast) then [y] else [];
    if s == [] || atLeast(y, s[0]) {
      assert r == [y] + s;
      assert r[0] == y && r[1..] == s;
    } else {
      var tail := Insert(y, s[1..], atLeast);
      assert r == [s[0]] + tail;
      assert r[0] == s[0] && r[1..] == tail;
      InsertTied(y, s[1..], x, atLeast);
      assert TiedWith(tail, x, atLeast) == head + TiedWith(s[1..], x, atLeast);
      var lead := if Tied(s[0], x, atLeast) then [s[0]] else [];
      assert TiedWith(r, x, atLeast) == lead + TiedWith(tail, x, atLeast);
      assert TiedWith(s, x, atLeast) == lead + TiedWith(s[1..], x, atLeast);
      if Tied(y, x, atLeast) {
        assert !atLeast(y, s[0]);
        // x ranks with y, and y ranks strictly below s[0]
        assert !atLeast(x, s[0]);
      }
    }
  }

  /** Stability: the elements tying with any `x` come out in their input order. */
  lemma {:induction false} SortByStable<T(!new)>(s: seq<T>, x: T, atLeast: (T, T) -> bool)
    requires TotalPreorder(atLeast)
    ensures TiedWith(SortBy(s, atLeast), x, atLeast) == TiedWith(s, x, atLeast)
  {
    if s != [] {
      SortByStable(s[1..], x, atLeast);
      InsertTied(s[0], SortBy(s[1..], atLeast), x, atLeast);
    }
  }

  lemma {:induction false} InsertThenBy<T(!new)>(x: T, s: seq<T>, atLeast: (T, T) -> bool, earlier: (T, T) -> bool)
    requires TotalPreorder(atLeast)
    requires SortedThenBy(s, atLeast, earlier)
    requires forall z :: z in s ==> earlier(x, z)
    ensures SortedThenBy(Insert(x, s, atLeast), atLeast, earlier)
  {
    if s == [] || atLeast(x, s[0]) {
      var r := Insert(x, s, atLeast);
      forall i, j | 0 <= i < j < |r|
        ensures atLeast(r[i], r[j]) && (atLeast(r[j], r[i]) ==> earlier(r[i], r[j]))
      {
        if i == 0 {
          assert r[j] == s[j - 1] && r[j] in s;
          if j > 1 {
            assert atLeast(s[0], s[j - 1]);
          }
        } else {
          assert r[i] == s[i - 1] && r[j] == s[j - 1];
        }
      }
    } else {
      var tail := Insert(x, s[1..], atLeast);
      assert SortedThenBy(s[1..], atLeast, earlier) by {
        forall i, j | 0 <= i < j < |s[1..]|
          ensures atLeast(s[1..][i], s[1..][j]) && (atLeast(s[1..][j], s[1..][i]) ==> earlier(s[1..][i], s[1..][j]))
        {
          assert s[1..][i] == s[i + 1] && s[1..][j] == s[j + 1];
        }
      }
      InsertThenBy(x, s[1..], atLeast, earlier);
      var r := [s[0]] + tail;
      assert r == Insert(x, s, atLeast);
      forall i, j | 0 <= i < j < |r|
        ensures atLeast(r[i], r[j]) && (atLeast(r[j], r[i]) ==> earlier(r[i], r[j]))
      {
        if i == 0 {
          var z := r[j];
          assert z == tail[j - 1] && z in multiset(tail);
          if z != x {
            assert z in s[1..];
            var k :| 1 <= k < |s| && s[k] == z;
            assert atLeast(s[0], s[k]) && (atLeast(s[k], s[0]) ==> earlier(s[0], s[k]));
          }
        } else {
          assert r[i] == tail[i - 1] && r[j] == tail[j - 1];
        }
      }
    }
  }

  /** Sorting an input already ordered by `earlier` leaves ties in `earlier` order. */
  lemma {:induction false} SortByThenBy<T(!new)>(s: seq<T>, atLeast: (T, T) -> bool, earlier: (T, T) -> bool)
    requires TotalPreorder(atLeast)
    requires SortedBy(s, earlier)
    ensures SortedThenBy(SortBy(s, atLeast), atLeast, earlier)
  {
    if s != [] {
      assert SortedBy(s[1..], earlier) by {
        forall i, j | 0 <= i < j < |s[1..]|
          ensures earlier(s[1..][i], s[1..][j])
        {
          assert s[1..][i] == s[i + 1] && s[1..][j] == s[j + 1];
        }
      }
      SortByThenBy(s[1..], atLeast, earlier);
      var t := SortBy(s[1..], atLeast);
      forall z | z in t
        ensures earlier(s[0], z)
      {
        assert z in multiset(t);
        assert z in s[1..];
        var k :| 1 <= k < |s| && s[k] == z;
      }
      InsertThenBy(s[0], t, atLeast, earlier);
    }
  }

  lemma {:induction false} TiedWithAppend<T>(a: seq<T>, b: seq<T>, x: T, atLeast: (T, T) -> bool)
    ensures TiedWith(a + b, x, atLeast) == TiedWith(a, x, atLeast) + TiedWith(b, x, atLeast)
  {
    if a == [] {
      assert a + b == b;
    } else {
      assert (a + b)[0] == a[0] && (a + b)[1..] == a[1..] + b;
      TiedWithAppend(a[1..], b, x, atLeast);
    }
  }

  /** Truncating keeps a prefix of every tie group. */
  lemma TiedWithTake<T>(s: seq<T>, n: int, x: T, atLeast: (T, T) -> bool)
    ensures var t, full := TiedWith(Take(s, n), x, atLeast), TiedWith(s, x, atLeast);
            |t| <= |full| && t == full[..|t|]
  {
    var k := |Take(s, n)|;
    assert s == s[..k] + s[k..];
    TiedWithAppend(s[..k], s[k..], x, atLeast);
  }

  /** The first `k` of a stable sort are the best `k`: they come out in
      order, and every element left behind ranks no higher than any kept one. */
  lemma TakeSortedBest<T(!new)>(all: seq<T>, k: int, atLeast: (T, T) -> bool)
    requires TotalPreorder(atLeast)
    ensures |Take(SortBy(all, atLeast), k)| <= |all|
    ensures 0 <= k ==> |Take(SortBy(all, atLeast), k)| == if k <= |all| then k else |all|
    ensures multiset(Take(SortBy(all, atLeast), k)) <= multiset(all)
    ensures SortedBy(Take(SortBy(all, atLeast), k), atLeast)
    ensures forall x :: x in all && x !in Take(SortBy(all, atLeast), k) ==>
      forall i :: 0 <= i < |Take(SortBy(all, atLeast), k)| ==> atLeast(Take(SortBy(all, atLeast), k)[i], x)
  {
    var sorted := SortBy(all, atLeast);
    var r := Take(sorted, k);
    SortBySorted(all, atLeast);
    assert sorted == r + sorted[|r|..];
    assert multiset(sorted) == multiset(r) + multiset(sorted[|r|..]);
    forall x | x in all && x !in r
      ensures forall i :: 0 <= i < |r| ==> atLeast(r[i], x)
    {
      assert x in multiset(sorted);
      var p :| 0 <= p < |sorted| && sorted[p] == x;
      assert p >= |r|;
    }
  }

  /** Within each tie group, the kept elements are the first ones of that
      group in input order. */
  lemma TakeSortedStable<T(!new)>(all: seq<T>, k: int, atLeast: (T, T) -> bool, x: T)
    requires TotalPreorder(atLeast)
    ensures |TiedWith(Take(SortBy(all, atLeast), k), x, atLeast)| <= |TiedWith(all, x, atLeast)|
    ensures TiedWith(Take(SortBy(all, atLeast), k), x, atLeast)
         == TiedWith(all, x, atLeast)[..|TiedWith(Take(SortBy(all, atLeast), k), x, atLeast)|]
  {
    SortByStable(all, x, atLeast);
    TiedWithTake(SortBy(all, atLeast), k, x, atLeast);
  }
}
