/**
 * LINQ's `OrderByDescending(key)`: a stable sort, largest key first, that keeps
 * elements with equal keys in their original order. Modelled as an insertion sort
 * that places each element before every later element whose key is not larger.
 */
module Sorting {
  /** Keys never increase from left to right. */
  ghost predicate SortedDesc<T>(xs: seq<T>, key: T -> real) {
    forall i, j :: 0 <= i < j < |xs| ==> key(xs[i]) >= key(xs[j])
  }

  /** Insert `x` in front of the first element whose key is not larger than `x`'s. */
  function InsertDesc<T>(x: T, ys: seq<T>, key: T -> real): seq<T>
    decreases |ys|
  {
    if |ys| == 0 || key(x) >= key(ys[0]) then [x] + ys
    else [ys[0]] + InsertDesc(x, ys[1..], key)
  }

  /** `xs.OrderByDescending(key)`. */
  function SortDesc<T>(xs: seq<T>, key: T -> real): seq<T>
    decreases |xs|
  {
    if |xs| == 0 then [] else InsertDesc(xs[0], SortDesc(xs[1..], key), key)
  }

  /** The elements of `xs` whose key is `k`, in their order. */
  function WithKey<T>(xs: seq<T>, key: T -> real, k: real): seq<T>
    decreases |xs|
  {
    if |xs| == 0 then []
    else (if key(xs[0]) == k then [xs[0]] else []) + WithKey(xs[1..], key, k)
  }

  /** The sum of `f` over `xs`. */
  function SumBy<T>(xs: seq<T>, f: T -> real): real
    decreases |xs|
  {
    if |xs| == 0 then 0.0 else f(xs[0]) + SumBy(xs[1..], f)
  }

  lemma {:induction false} InsertDescPermutes<T>(x: T, ys: seq<T>, key: T -> real)
    ensures multiset(InsertDesc(x, ys, key)) == multiset{x} + multiset(ys)
    decreases |ys|
  {
    if |ys| > 0 && key(x) < key(ys[0]) {
      InsertDescPermutes(x, ys[1..], key);
      assert ys == [ys[0]] + ys[1..];
    }
  }

  lemma {:induction false} InsertDescSum<T>(x: T, ys: seq<T>, key: T -> real, f: T -> real)
    ensures SumBy(InsertDesc(x, ys, key), f) == f(x) + SumBy(ys, f)
    decreases |ys|
  {
    if |ys| > 0 && key(x) < key(ys[0]) {
      InsertDescSum(x, ys[1..], key, f);
      assert InsertDesc(x, ys, key)[1..] == InsertDesc(x, ys[1..], key);
    } else {
      assert InsertDesc(x, ys, key)[1..] == ys;
    }
  }

  lemma {:induction false} InsertDescSorted<T>(x: T, ys: seq<T>, key: T -> real)
    requires SortedDesc(ys, key)
    ensures SortedDesc(InsertDesc(x, ys, key), key)
    decreases |ys|
  {
    var r := InsertDesc(x, ys, key);
    if |ys| == 0 || key(x) >= key(ys[0]) {
      assert r[1..] == ys;
      forall i, j | 0 <= i < j < |r| ensures key(r[i]) >= key(r[j]) {
        if i == 0 {
          assert key(ys[0]) >= key(ys[j - 1]);
        }
      }
    } else {
      var rest := InsertDesc(x, ys[1..], key);
      assert SortedDesc(ys[1..], key);
      InsertDescSorted(x, ys[1..], key);
      InsertDescPermutes(x, ys[1..], key);
      assert r[1..] == rest;
      forall i, j | 0 <= i < j < |r| ensures key(r[i]) >= key(r[j]) {
        if i == 0 {
          assert r[j] in multiset(rest);
          if r[j] != x {
            assert r[j] in ys[1..];
          }
        }
      }
    }
  }

  lemma {:induction false} InsertDescWithKey<T>(x: T, ys: seq<T>, key: T -> real, k: real)
    ensures WithKey(InsertDesc(x, ys, key), key, k) == (if key(x) == k then [x] else []) + WithKey(ys, key, k)
    decreases |ys|
  {
    if |ys| > 0 && key(x) < key(ys[0]) {
      var rest := InsertDesc(x, ys[1..], key);
      InsertDescWithKey(x, ys[1..], key, k);
      assert InsertDesc(x, ys, key)[1..] == rest;
    } else {
      assert InsertDesc(x, ys, key)[1..] == ys;
    }
  }

  lemma {:induction false} SortDescSorted<T>(xs: seq<T>, key: T -> real)
    ensures SortedDesc(SortDesc(xs, key), key)
    decreases |xs|
  {
    if |xs| > 0 {
      SortDescSorted(xs[1..], key);
      InsertDescSorted(xs[0], SortDesc(xs[1..], key), key);
    }
  }

  lemma {:induction false} SortDescPermutes<T>(xs: seq<T>, key: T -> real)
    ensures multiset(SortDesc(xs, key)) == multiset(xs)
    decreases |xs|
  {
    if |xs| > 0 {
      SortDescPermutes(xs[1..], key);
      InsertDescPermutes(xs[0], SortDesc(xs[1..], key), key);
      assert xs == [xs[0]] + xs[1..];
    }
  }

  lemma {:induction false} SortDescStable<T>(xs: seq<T>, key: T -> real, k: real)
    ensures WithKey(SortDesc(xs, key), key, k) == WithKey(xs, key, k)
    decreases |xs|
  {
    if |xs| > 0 {
      SortDescStable(xs[1..], key, k);
      InsertDescWithKey(xs[0], SortDesc(xs[1..], key), key, k);
    }
  }

  /**
   * The sort is sorted, a permutation of its input, and stable: for every key
   * value the elements carrying it come out in the order they went in.
   */
  lemma SortDescCorrect<T>(xs: seq<T>, key: T -> real)
    ensures SortedDesc(SortDesc(xs, key), key)
    ensures multiset(SortDesc(xs, key)) == multiset(xs)
    ensures forall k :: WithKey(SortDesc(xs, key), key, k) == WithKey(xs, key, k)
  {
    SortDescSorted(xs, key);
    SortDescPermutes(xs, key);
    forall k ensures WithKey(SortDesc(xs, key), key, k) == WithKey(xs, key, k) {
      SortDescStable(xs, key, k);
    }
  }

  /** Sorting changes neither the length nor any sum over the elements. */
  lemma {:induction false} SortDescKeepsSums<T>(xs: seq<T>, key: T -> real, f: T -> real)
    ensures |SortDesc(xs, key)| == |xs|
    ensures SumBy(SortDesc(xs, key), f) == SumBy(xs, f)
    decreases |xs|
  {
    if |xs| > 0 {
      var rest := SortDesc(xs[1..], key);
      SortDescKeepsSums(xs[1..], key, f);
      InsertDescSum(xs[0], rest, key, f);
      InsertDescPermutes(xs[0], rest, key);
      assert |multiset(SortDesc(xs, key))| == |SortDesc(xs, key)|;
    }
  }

  lemma {:induction false} SumByAppend<T>(xs: seq<T>, e: T, f: T -> real)
    ensures SumBy(xs + [e], f) == SumBy(xs, f) + f(e)
    decreases |xs|
  {
    if |xs| > 0 {
      SumByAppend(xs[1..], e, f);
      assert (xs + [e])[1..] == xs[1..] + [e];
    }
  }

  lemma {:induction false} SumByUpdate<T>(xs: seq<T>, k: nat, e: T, f: T -> real)
    requires k < |xs|
    ensures SumBy(xs[k := e], f) == SumBy(xs, f) - f(xs[k]) + f(e)
    decreases |xs|
  {
    if k > 0 {
      SumByUpdate(xs[1..], k - 1, e, f);
      assert xs[k := e][1..] == xs[1..][k - 1 := e];
    } else {
      assert xs[k := e][1..] == xs[1..];
    }
  }

  /** No two elements share an `id`. */
  ghost predicate DistinctBy<T, K>(xs: seq<T>, id: T -> K) {
    forall i, j :: 0 <= i < j < |xs| ==> id(xs[i]) != id(xs[j])
  }

  /** Every element of an insertion is the inserted one or was already there. */
  lemma InsertDescFrom<T>(x: T, ys: seq<T>, key: T -> real, z: T)
    requires z in InsertDesc(x, ys, key)
    ensures z == x || z in ys
  {
    InsertDescPermutes(x, ys, key);
    assert z in multiset(InsertDesc(x, ys, key));
  }

  /** In a list with distinct ids, the head's id occurs nowhere in the tail. */
  lemma HeadIdNotInTail<T, K>(ys: seq<T>, id: T -> K)
    requires |ys| > 0 && DistinctBy(ys, id)
    ensures forall y :: y in ys[1..] ==> id(y) != id(ys[0])
  {
    forall y | y in ys[1..] ensures id(y) != id(ys[0]) {
      var k :| 0 <= k < |ys| - 1 && ys[1..][k] == y;
      assert ys[k + 1] == y;
    }
  }

  lemma {:induction false} InsertDescDistinct<T, K>(x: T, ys: seq<T>, key: T -> real, id: T -> K)
    requires DistinctBy(ys, id)
    requires forall y :: y in ys ==> id(y) != id(x)
    ensures DistinctBy(InsertDesc(x, ys, key), id)
    decreases |ys|
  {
    var r := InsertDesc(x, ys, key);
    if |ys| == 0 || key(x) >= key(ys[0]) {
      assert r == [x] + ys;
      forall i, j | 0 <= i < j < |r| ensures id(r[i]) != id(r[j]) {
        if i == 0 {
          assert r[j] == ys[j - 1];
        } else {
          assert r[i] == ys[i - 1] && r[j] == ys[j - 1];
        }
      }
    } else {
      var tail := ys[1..];
      var rest := InsertDesc(x, tail, key);
      assert DistinctBy(tail, id);
      assert forall y :: y in tail ==> y in ys;
      InsertDescDistinct(x, tail, key, id);
      HeadIdNotInTail(ys, id);
      assert ys[0] in ys;
      assert r == [ys[0]] + rest;
      forall i, j | 0 <= i < j < |r| ensures id(r[i]) != id(r[j]) {
        assert r[j] == rest[j - 1] && rest[j - 1] in rest;
        if i == 0 {
          assert r[i] == ys[0];
          if r[j] == x {
            assert id(ys[0]) != id(x);
          } else {
            InsertDescFrom(x, tail, key, rest[j - 1]);
          }
        } else {
          assert r[i] == rest[i - 1];
        }
      }
    }
  }

  /** Sorting neither adds nor drops an element. */
  lemma SortDescMembers<T>(xs: seq<T>, key: T -> real)
    ensures |SortDesc(xs, key)| == |xs|
    ensures forall x :: x in SortDesc(xs, key) <==> x in xs
  {
    SortDescCorrect(xs, key);
    SortDescKeepsSums(xs, key, key);
    forall x ensures x in SortDesc(xs, key) <==> x in xs {
      assert x in SortDesc(xs, key) <==> x in multiset(SortDesc(xs, key));
      assert x in xs <==> x in multiset(xs);
    }
  }

  /** Elements with distinct ids keep distinct ids once sorted. */
  lemma {:induction false} SortDescKeepsDistinct<T, K>(xs: seq<T>, key: T -> real, id: T -> K)
    requires DistinctBy(xs, id)
    ensures DistinctBy(SortDesc(xs, key), id)
    decreases |xs|
  {
    if |xs| > 0 {
      var rest := SortDesc(xs[1..], key);
      assert DistinctBy(xs[1..], id);
      SortDescKeepsDistinct(xs[1..], key, id);
      SortDescCorrect(xs[1..], key);
      forall y | y in rest ensures id(y) != id(xs[0]) {
        assert y in multiset(rest);
        assert y in multiset(xs[1..]);
        var k :| 0 <= k < |xs| - 1 && xs[1..][k] == y;
        assert xs[k + 1] == y;
      }
      InsertDescDistinct(xs[0], rest, key, id);
    }
  }
}
