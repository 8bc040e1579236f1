/**
 * The stable sort that the program obtains from `Collections.sort`: elements
 * are ordered by a non-decreasing integer key and elements with equal keys
 * keep their input order.  `SortBy` is a reference insertion sort; the
 * lemmas below show that it is a permutation, that it is sorted, that it is
 * stable, and that these properties determine its result, so any stable sort
 * of the same input (merge sort included) returns the same sequence.
 */
module Sorting {

  ghost predicate SortedBy<T>(s: seq<T>, key: T -> int) {
    forall i, j | 0 <= i < j < |s| :: key(s[i]) <= key(s[j])
  }

  /** The subsequence of the elements of `s` whose key is `k`, in their order in `s`. */
  function Filter<T>(s: seq<T>, key: T -> int, k: int): seq<T> {
    if |s| == 0 then []
    else (if key(s[0]) == k then [s[0]] else []) + Filter(s[1..], key, k)
  }

  /** `t` orders every group of equal keys exactly as `s` does. */
  ghost predicate StableFor<T>(t: seq<T>, s: seq<T>, key: T -> int) {
    forall k :: Filter(t, key, k) == Filter(s, key, k)
  }

  /** Inserts `x` in front of the first element whose key is not smaller. */
  function Insert<T>(x: T, s: seq<T>, key: T -> int): seq<T> {
    if |s| == 0 then [x]
    else if key(x) <= key(s[0]) then [x] + s
    else [s[0]] + Insert(x, s[1..], key)
  }

  function SortBy<T>(s: seq<T>, key: T -> int): seq<T> {
    if |s| == 0 then [] else Insert(s[0], SortBy(s[1..], key), key)
  }

  lemma {:induction false} InsertPermutes<T>(x: T, s: seq<T>, key: T -> int)
    ensures multiset(Insert(x, s, key)) == multiset(s) + multiset{x}
  {
    if |s| != 0 && key(x) > key(s[0]) {
      InsertPermutes(x, s[1..], key);
      assert s == [s[0]] + s[1..];
    }
  }

  lemma {:induction false} SortByPermutes<T>(s: seq<T>, key: T -> int)
    ensures multiset(SortBy(s, key)) == multiset(s)
    ensures |SortBy(s, key)| == |s|
  {
    if |s| != 0 {
      SortByPermutes(s[1..], key);
      InsertPermutes(s[0], SortBy(s[1..], key), key);
      assert s == [s[0]] + s[1..];
    }
    assert |multiset(SortBy(s, key))| == |multiset(s)|;
  }

  lemma {:induction false} InsertSorted<T>(x: T, s: seq<T>, key: T -> int)
    requires SortedBy(s, key)
    ensures SortedBy(Insert(x, s, key), key)
    ensures |Insert(x, s, key)| != 0 && key(Insert(x, s, key)[0]) == (if |s| == 0 || key(x) <= key(s[0]) then key(x) else key(s[0]))
  {
    if |s| != 0 && key(x) > key(s[0]) {
      InsertSorted(x, s[1..], key);
    }
  }

  lemma {:induction false} SortBySorted<T>(s: seq<T>, key: T -> int)
    ensures SortedBy(SortBy(s, key), key)
  {
    if |s| != 0 {
      SortBySorted(s[1..], key);
      InsertSorted(s[0], SortBy(s[1..], key), key);
    }
  }

  lemma {:induction false} FilterAppend<T>(a: seq<T>, b: seq<T>, key: T -> int, k: int)
    ensures Filter(a + b, key, k) == Filter(a, key, k) + Filter(b, key, k)
  {
    if |a| != 0 {
      FilterAppend(a[1..], b, key, k);
      assert (a + b)[1..] == a[1..] + b;
    } else {
      assert a + b == b;
    }
  }

  lemma {:induction false} FilterMember<T>(s: seq<T>, key: T -> int, k: int, y: T)
    requires y in Filter(s, key, k)
    ensures y in s && key(y) == k
  {
    if |s| != 0 && !(y == s[0] && key(s[0]) == k) {
      FilterMember(s[1..], key, k, y);
    }
  }

  lemma {:induction false} FilterHas<T>(s: seq<T>, key: T -> int, i: nat)
    requires i < |s|
    ensures s[i] in Filter(s, key, key(s[i]))
  {
    if i > 0 {
      FilterHas(s[1..], key, i - 1);
    }
  }

  lemma FilterSingle<T>(y: T, key: T -> int, k: int)
    ensures Filter([y], key, k) == if key(y) == k then [y] else []
  {
    assert [y][1..] == [];
  }

  /** Every element of `s` with key `k` precedes `x` when `x`'s key is k. */
  lemma {:induction false} InsertStable<T>(x: T, s: seq<T>, key: T -> int, k: int)
    requires SortedBy(s, key)
    ensures Filter(Insert(x, s, key), key, k) == (if key(x) == k then [x] else []) + Filter(s, key, k)
  {
    FilterSingle(x, key, k);
    if |s| == 0 {
      assert Insert(x, s, key) == [x];
    } else if key(x) <= key(s[0]) {
      FilterAppend([x], s, key, k);
    } else {
      var r := Insert(x, s[1..], key);
      assert SortedBy(s[1..], key);
      InsertStable(x, s[1..], key, k);
      FilterAppend([s[0]], r, key, k);
      FilterAppend([s[0]], s[1..], key, k);
      FilterSingle(s[0], key, k);
      assert [s[0]] + s[1..] == s;
      if key(x) == k {
        assert |Filter([s[0]], key, k)| == 0;
        assert Filter(s, key, k) == Filter(s[1..], key, k);
      } else {
        assert Filter(r, key, k) == Filter(s[1..], key, k);
      }
    }
  }

  lemma {:induction false} SortByStable<T>(s: seq<T>, key: T -> int)
    ensures StableFor(SortBy(s, key), s, key)
  {
    if |s| != 0 {
      SortByStable(s[1..], key);
      SortBySorted(s[1..], key);
      forall k ensures Filter(SortBy(s, key), key, k) == Filter(s, key, k) {
        InsertStable(s[0], SortBy(s[1..], key), key, k);
      }
    }
  }

  lemma HeadGroupNonEmpty<T>(s: seq<T>, key: T -> int)
    ensures |s| != 0 ==> |Filter(s, key, key(s[0]))| != 0
  {
  }

  /** Two sorted sequences with the same groups of equal keys are equal. */
  lemma {:induction false} SortedStableUnique<T>(t: seq<T>, u: seq<T>, key: T -> int)
    requires SortedBy(t, key) && SortedBy(u, key)
    requires StableFor(t, u, key)
    ensures t == u
  {
    if |t| == 0 || |u| == 0 {
      HeadGroupNonEmpty(t, key);
      HeadGroupNonEmpty(u, key);
    } else {
      var a, b := key(t[0]), key(u[0]);
      FilterHas(t, key, 0);
      FilterMember(u, key, a, t[0]);
      var j :| 0 <= j < |u| && u[j] == t[0];
      assert b <= a;
      FilterHas(u, key, 0);
      FilterMember(t, key, b, u[0]);
      var i :| 0 <= i < |t| && t[i] == u[0];
      assert a <= b;
      assert Filter(t, key, a)[0] == t[0];
      assert Filter(u, key, a)[0] == u[0];
      forall k ensures Filter(t[1..], key, k) == Filter(u[1..], key, k) {
        assert Filter(t, key, k) == Filter(u, key, k);
        assert Filter(t, key, k) == (if a == k then [t[0]] else []) + Filter(t[1..], key, k);
        assert Filter(u, key, k) == (if a == k then [u[0]] else []) + Filter(u[1..], key, k);
        if a == k {
          assert Filter(t[1..], key, k) == Filter(t, key, k)[1..];
          assert Filter(u[1..], key, k) == Filter(u, key, k)[1..];
        } else {
          assert Filter(t[1..], key, k) == Filter(t, key, k);
          assert Filter(u[1..], key, k) == Filter(u, key, k);
        }
      }
      SortedStableUnique(t[1..], u[1..], key);
      assert t == [t[0]] + t[1..] && u == [u[0]] + u[1..];
    }
  }

  /**
   * SortBy is THE stable sort: any sequence sorted by `key` whose groups of
   * equal keys are ordered as in `s` is `SortBy(s, key)`.
   */
  lemma SortByUnique<T>(s: seq<T>, t: seq<T>, key: T -> int)
    requires SortedBy(t, key) && StableFor(t, s, key)
    ensures t == SortBy(s, key)
  {
    SortBySorted(s, key);
    SortByStable(s, key);
    SortedStableUnique(t, SortBy(s, key), key);
  }

  /** The first element of a sorted permutation is an element with the least key. */
  lemma SortByHeadIsLeast<T>(s: seq<T>, key: T -> int)
    requires |s| != 0
    ensures |SortBy(s, key)| == |s|
    ensures SortBy(s, key)[0] in s
    ensures forall x | x in s :: key(SortBy(s, key)[0]) <= key(x)
  {
    var t := SortBy(s, key);
    SortByPermutes(s, key);
    SortBySorted(s, key);
    assert t[0] in multiset(t);
    forall x | x in s ensures key(t[0]) <= key(x) {
      assert x in multiset(s);
      var k :| 0 <= k < |t| && t[k] == x;
      if k > 0 {
        assert key(t[0]) <= key(t[k]);
      }
    }
  }

  /** Applies `f` to every element. */
  function MapSeq<A, B>(s: seq<A>, f: A -> B): (r: seq<B>)
    ensures |r| == |s| && forall i | 0 <= i < |s| :: r[i] == f(s[i])
  {
    seq(|s|, i requires 0 <= i < |s| => f(s[i]))
  }

  lemma MapSeqHas<A, B>(s: seq<A>, f: A -> B, x: A)
    requires x in s
    ensures f(x) in MapSeq(s, f)
  {
    var j :| 0 <= j < |s| && s[j] == x;
    assert MapSeq(s, f)[j] == f(x);
  }

  ghost predicate Distinct<T>(s: seq<T>) {
    forall i, j | 0 <= i < j < |s| :: s[i] != s[j]
  }

  lemma {:induction false} DistinctOccursOnce<T>(s: seq<T>, x: T)
    requires Distinct(s)
    ensures multiset(s)[x] <= 1
  {
    if |s| != 0 {
      DistinctOccursOnce(s[1..], x);
      assert s == [s[0]] + s[1..];
      if s[0] == x {
        assert x !in s[1..];
      }
    }
  }

  /** A permutation of a sequence without repetitions has none either. */
  lemma PermutationKeepsDistinct<T>(s: seq<T>, t: seq<T>)
    requires Distinct(s) && multiset(s) == multiset(t)
    ensures Distinct(t)
  {
    forall i, j | 0 <= i < j < |t| ensures t[i] != t[j] {
      if t[i] == t[j] {
        assert t == t[..j] + t[j..];
        assert t[i] in t[..j];
        assert t[j] in t[j..];
        assert multiset(t)[t[i]] == multiset(t[..j])[t[i]] + multiset(t[j..])[t[i]];
        DistinctOccursOnce(s, t[i]);
      }
    }
  }

  /** Sorting commutes with a projection that carries the key along. */
  lemma {:induction false} InsertProject<A, B>(x: A, s: seq<A>, f: A -> B, keyA: A -> int, keyB: B -> int)
    requires forall y :: keyA(y) == keyB(f(y))
    ensures MapSeq(Insert(x, s, keyA), f) == Insert(f(x), MapSeq(s, f), keyB)
  {
    if |s| != 0 {
      assert MapSeq(s, f)[0] == f(s[0]);
      assert MapSeq(s, f)[1..] == MapSeq(s[1..], f);
      if keyA(x) > keyA(s[0]) {
        InsertProject(x, s[1..], f, keyA, keyB);
        assert MapSeq([s[0]] + Insert(x, s[1..], keyA), f) == [f(s[0])] + MapSeq(Insert(x, s[1..], keyA), f);
      } else {
        assert MapSeq([x] + s, f) == [f(x)] + MapSeq(s, f);
      }
    }
  }

  lemma {:induction false} SortByProject<A, B>(s: seq<A>, f: A -> B, keyA: A -> int, keyB: B -> int)
    requires forall y :: keyA(y) == keyB(f(y))
    ensures MapSeq(SortBy(s, keyA), f) == SortBy(MapSeq(s, f), keyB)
  {
    if |s| != 0 {
      SortByProject(s[1..], f, keyA, keyB);
      InsertProject(s[0], SortBy(s[1..], keyA), f, keyA, keyB);
      assert MapSeq(s, f)[0] == f(s[0]);
      assert MapSeq(s, f)[1..] == MapSeq(s[1..], f);
    }
  }
}
