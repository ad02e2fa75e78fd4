/**
 * The JavaScript array built-ins the marketplace page relies on: `Array.prototype.includes`,
 * `Array.prototype.filter`, and `Array.from(new Set(xs))`, which keeps the first occurrence of
 * each value in insertion order.
 */
module JsArray {

  /** JavaScript's `includes`: a left-to-right scan for an equal element. */
  function Includes<T(==)>(xs: seq<T>, x: T): (b: bool)
    ensures b <==> exists i :: 0 <= i < |xs| && xs[i] == x
  {
    if xs == [] then false else xs[0] == x || Includes(xs[1..], x)
  }

  /** JavaScript's `filter`: the elements of `xs` that satisfy `p`, in their original order. */
  function Filter<T(!new)>(xs: seq<T>, p: T -> bool): (r: seq<T>)
    ensures |r| <= |xs|
    ensures forall x {:trigger x in r} :: x in r <==> x in xs && p(x)
  {
    if xs == [] then [] else (if p(xs[0]) then [xs[0]] else []) + Filter(xs[1..], p)
  }

  /** Every element `filter` keeps passes the predicate. */
  lemma FilterKeeps<T(!new)>(xs: seq<T>, p: T -> bool)
    ensures forall i :: 0 <= i < |Filter(xs, p)| ==> p(Filter(xs, p)[i])
  {
    var r := Filter(xs, p);
    assert forall i :: 0 <= i < |r| ==> r[i] in r;
  }

  /** `r` is obtained from `xs` by deleting elements, without reordering the rest. */
  ghost predicate Subsequence<T>(r: seq<T>, xs: seq<T>) {
    if r == [] then true
    else if xs == [] then false
    else (r[0] == xs[0] && Subsequence(r[1..], xs[1..])) || Subsequence(r, xs[1..])
  }

  predicate NoDuplicates<T(==)>(xs: seq<T>) {
    forall i, j :: 0 <= i < j < |xs| ==> xs[i] != xs[j]
  }

  /** The position of the first occurrence of `x` in `xs`. */
  function FirstIndex<T(==)>(xs: seq<T>, x: T): (k: nat)
    requires x in xs
    ensures k < |xs| && xs[k] == x && x !in xs[..k]
  {
    if xs[0] == x then 0 else 1 + FirstIndex(xs[1..], x)
  }

  /** An array built from a `Set` of `xs`: each value once, at the place of its first occurrence. */
  function Distinct<T(==,!new)>(xs: seq<T>): (r: seq<T>)
    ensures NoDuplicates(r)
    ensures forall x :: x in r <==> x in xs
  {
    if xs == [] then []
    else
      var d := Distinct(xs[..|xs| - 1]);
      var last := xs[|xs| - 1];
      assert forall x :: x in xs <==> x in xs[..|xs| - 1] || x == last;
      if last in d then d else d + [last]
  }

  lemma SubsequenceReflexive<T(!new)>(xs: seq<T>)
    ensures Subsequence(xs, xs)
  {
    if xs != [] {
      SubsequenceReflexive(xs[1..]);
    }
  }

  /** Filtering deletes elements and never reorders the ones it keeps. */
  lemma {:induction false} FilterSubsequence<T(!new)>(xs: seq<T>, p: T -> bool)
    ensures Subsequence(Filter(xs, p), xs)
  {
    if xs != [] {
      FilterSubsequence(xs[1..], p);
      var r := Filter(xs, p);
      if p(xs[0]) {
        assert r[0] == xs[0] && r[1..] == Filter(xs[1..], p);
      } else {
        assert r == Filter(xs[1..], p);
      }
    }
  }

  /** A filter whose predicate holds of every element keeps the whole array. */
  lemma {:induction false} FilterAll<T(!new)>(xs: seq<T>, p: T -> bool)
    requires forall x :: x in xs ==> p(x)
    ensures Filter(xs, p) == xs
  {
    if xs != [] {
      FilterAll(xs[1..], p);
      assert xs == [xs[0]] + xs[1..];
    }
  }

  /** A filter whose predicate holds of no element yields the empty array. */
  lemma {:induction false} FilterNone<T(!new)>(xs: seq<T>, p: T -> bool)
    requires forall x :: x in xs ==> !p(x)
    ensures Filter(xs, p) == []
  {
    if xs != [] {
      FilterNone(xs[1..], p);
    }
  }

  /** Two filters in a row are one filter by the conjunction of their predicates. */
  lemma {:induction false} FilterFilter<T(!new)>(xs: seq<T>, p: T -> bool, q: T -> bool, pq: T -> bool)
    requires forall x :: pq(x) == (p(x) && q(x))
    ensures Filter(Filter(xs, p), q) == Filter(xs, pq)
  {
    if xs != [] {
      FilterFilter(xs[1..], p, q, pq);
      var h, t := xs[0], Filter(xs[1..], p);
      if p(h) {
        assert Filter(xs, p) == [h] + t;
        assert ([h] + t)[0] == h && ([h] + t)[1..] == t;
      } else {
        assert Filter(xs, p) == t;
      }
    }
  }

  /** Filtering a second time by the same predicate changes nothing. */
  lemma FilterIdempotent<T(!new)>(xs: seq<T>, p: T -> bool)
    ensures Filter(Filter(xs, p), p) == Filter(xs, p)
  {
    FilterAll(Filter(xs, p), p);
  }

  lemma FilterCons<T(!new)>(h: T, xs: seq<T>, p: T -> bool)
    ensures Filter([h] + xs, p) == (if p(h) then [h] else []) + Filter(xs, p)
  {
    assert ([h] + xs)[0] == h && ([h] + xs)[1..] == xs;
  }

  lemma {:induction false} FilterAppend<T(!new)>(xs: seq<T>, ys: seq<T>, p: T -> bool)
    ensures Filter(xs + ys, p) == Filter(xs, p) + Filter(ys, p)
  {
    if xs == [] {
      assert xs + ys == ys;
    } else {
      var h, t := xs[0], xs[1..];
      assert xs == [h] + t;
      assert xs + ys == [h] + (t + ys);
      FilterAppend(t, ys, p);
      FilterCons(h, t + ys, p);
      FilterCons(h, t, p);
    }
  }

  /** A filter keeps every occurrence of a value it accepts and none of one it rejects. */
  lemma {:induction false} FilterCount<T(!new)>(xs: seq<T>, p: T -> bool, x: T)
    ensures multiset(Filter(xs, p))[x] == if p(x) then multiset(xs)[x] else 0
  {
    if xs != [] {
      FilterCount(xs[1..], p, x);
      assert xs == [xs[0]] + xs[1..];
      assert multiset(xs) == multiset([xs[0]]) + multiset(xs[1..]);
      var h := if p(xs[0]) then [xs[0]] else [];
      assert multiset(Filter(xs, p)) == multiset(h) + multiset(Filter(xs[1..], p));
    }
  }

  lemma {:induction false} FilterNoDuplicates<T(!new)>(xs: seq<T>, p: T -> bool)
    requires NoDuplicates(xs)
    ensures NoDuplicates(Filter(xs, p))
  {
    if xs != [] {
      assert NoDuplicates(xs[1..]) by {
        forall i, j | 0 <= i < j < |xs[1..]| ensures xs[1..][i] != xs[1..][j] {
          assert xs[1..][i] == xs[i + 1] && xs[1..][j] == xs[j + 1];
        }
      }
      FilterNoDuplicates(xs[1..], p);
      var t := Filter(xs[1..], p);
      if p(xs[0]) {
        assert xs[0] !in xs[1..] by {
          forall k | 0 <= k < |xs[1..]| ensures xs[1..][k] != xs[0] {
            assert xs[1..][k] == xs[k + 1];
          }
        }
        assert xs[0] !in t;
        var r := [xs[0]] + t;
        forall i, j | 0 <= i < j < |r| ensures r[i] != r[j] {
          if i == 0 {
            assert r[j] == t[j - 1] && r[j] in t;
          } else {
            assert r[i] == t[i - 1] && r[j] == t[j - 1];
          }
        }
      }
    }
  }

  /** A value's first occurrence in a prefix is its first occurrence in the whole array. */
  lemma {:induction false} FirstIndexPrefix<T>(xs: seq<T>, n: nat, x: T)
    requires n <= |xs| && x in xs[..n]
    ensures FirstIndex(xs, x) == FirstIndex(xs[..n], x)
  {
    var k, k' := FirstIndex(xs, x), FirstIndex(xs[..n], x);
    assert xs[..n][k'] == xs[k'];
    assert xs[..n][..k'] == xs[..k'];
  }

  /** The values of an array built from a `Set` appear in the order of their first occurrences in `xs`. */
  lemma {:induction false} DistinctFirstOccurrenceOrder<T(!new)>(xs: seq<T>)
    ensures forall i, j :: 0 <= i < j < |Distinct(xs)| ==>
      FirstIndex(xs, Distinct(xs)[i]) < FirstIndex(xs, Distinct(xs)[j])
  {
    if xs != [] {
      var n := |xs| - 1;
      var init := xs[..n];
      var d := Distinct(init);
      var last := xs[n];
      DistinctFirstOccurrenceOrder(init);
      forall x | x in d ensures FirstIndex(xs, x) == FirstIndex(init, x) < n {
        FirstIndexPrefix(xs, n, x);
      }
      if last !in d {
        assert last !in init;
        assert FirstIndex(xs, last) == n by {
          assert xs[..FirstIndex(xs, last)] == init[..FirstIndex(xs, last)];
        }
        var r := d + [last];
        assert Distinct(xs) == r;
        assert forall k :: 0 <= k < |r| ==> r[k] in xs;
        forall i, j | 0 <= i < j < |r| ensures FirstIndex(xs, r[i]) < FirstIndex(xs, r[j]) {
          assert r[i] == d[i] && r[i] in d;
          if j < |d| {
            assert r[j] == d[j] && r[j] in d;
          } else {
            assert r[j] == last;
          }
        }
      }
    }
  }
}
