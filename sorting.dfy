/** Python's `sorted(xs, key=key, reverse=True)`: a stable sort into
    non-increasing key order, where elements with equal keys keep their
    input order. */
module Sorting {
  import opened Seqs

  /** Keys never increase from left to right. */
  ghost predicate NonIncreasing<T>(s: seq<T>, key: T -> int) {
    forall i, j :: 0 <= i < j < |s| ==> key(s[i]) >= key(s[j])
  }

  /** A sequence with one more element in front is sorted exactly when the
      rest is sorted and the new element's key is not below the old head's. */
  lemma ConsNonIncreasing<T>(h: T, t: seq<T>, key: T -> int)
    ensures NonIncreasing([h] + t, key) <==> NonIncreasing(t, key) && (t == [] || key(h) >= key(t[0]))
  {
    var s := [h] + t;
    if NonIncreasing(t, key) && (t == [] || key(h) >= key(t[0])) {
      forall i, j | 0 <= i < j < |s| ensures key(s[i]) >= key(s[j]) {
        if i == 0 && j > 1 {
          assert key(s[1]) >= key(s[j]);
        }
      }
    }
    if NonIncreasing(s, key) {
      assert forall i, j :: 0 <= i < j < |t| ==> s[i + 1] == t[i] && s[j + 1] == t[j];
      if t != [] {
        assert s[0] == h && s[1] == t[0];
      }
    }
  }

  /** Inserts `x` in front of the first element whose key is not larger, so
      that `x` lands ahead of the elements whose key equals its own. */
  function InsertDesc<T(==)>(x: T, s: seq<T>, key: T -> int): (r: seq<T>)
    ensures multiset(r) == multiset(s) + multiset{x}
    ensures |r| == |s| + 1
  {
    if s == [] || key(s[0]) <= key(x) then [x] + s
    else
      assert s == [s[0]] + s[1..];
      [s[0]] + InsertDesc(x, s[1..], key)
  }

  /** Inserting into a sorted sequence keeps it sorted; the new head is `x`
      or the old head. */
  lemma {:induction false} InsertDescSorted<T>(x: T, s: seq<T>, key: T -> int)
    requires NonIncreasing(s, key)
    ensures NonIncreasing(InsertDesc(x, s, key), key)
    ensures InsertDesc(x, s, key)[0] == x || (s != [] && InsertDesc(x, s, key)[0] == s[0])
  {
    if s == [] || key(s[0]) <= key(x) {
      ConsNonIncreasing(x, s, key);
    } else {
      ConsNonIncreasing(s[0], s[1..], key);
      InsertDescSorted(x, s[1..], key);
      ConsNonIncreasing(s[0], InsertDesc(x, s[1..], key), key);
    }
  }

  /** The stable sort: insertion from the back, so each element enters ahead
      of the later elements with an equal key. */
  function SortDesc<T(==)>(s: seq<T>, key: T -> int): (r: seq<T>)
    ensures multiset(r) == multiset(s)
    ensures |r| == |s|
    ensures NonIncreasing(r, key)
  {
    if s == [] then []
    else
      assert s == [s[0]] + s[1..];
      var sorted := SortDesc(s[1..], key);
      InsertDescSorted(s[0], sorted, key);
      InsertDesc(s[0], sorted, key)
  }

  /** Every element of the sorted sequence comes from the input and back. */
  lemma SortedMembers<T>(s: seq<T>, key: T -> int, x: T)
    ensures x in SortDesc(s, key) <==> x in s
  {
    assert x in SortDesc(s, key) <==> x in multiset(SortDesc(s, key));
  }

  /** Inserting keeps the kept elements' order when the predicate fixes the
      key: the elements passed over have a larger key, so none is kept. */
  lemma {:induction false} InsertKeepsFilter<T>(x: T, s: seq<T>, key: T -> int, p: T -> bool, k: int)
    requires p(x) ==> key(x) == k
    requires forall y :: y in s && p(y) ==> key(y) == k
    ensures Filter(InsertDesc(x, s, key), p) == (if p(x) then [x] else []) + Filter(s, p)
    decreases |s|
  {
    if s == [] || key(s[0]) <= key(x) {
      FilterCons(x, s, p);
    } else {
      var h, t := s[0], s[1..];
      var rest := InsertDesc(x, t, key);
      assert s == [h] + t;
      assert forall y :: y in t ==> y in s;
      InsertKeepsFilter(x, t, key, p, k);
      FilterCons(h, rest, p);
      FilterCons(h, t, p);
      assert InsertDesc(x, s, key) == [h] + rest;
      if p(x) {
        assert !p(h) by {
          assert h in s;
        }
        assert Filter([h] + rest, p) == Filter(rest, p);
        assert Filter(s, p) == Filter(t, p);
      }
    }
  }

  /** Stability: for any predicate that holds only of elements with one
      particular key (in particular "the key equals k"), the sorted sequence
      keeps exactly the input's elements satisfying it, in input order. */
  lemma {:induction false} SortKeepsFilter<T>(s: seq<T>, key: T -> int, p: T -> bool, k: int)
    requires forall y :: y in s && p(y) ==> key(y) == k
    ensures Filter(SortDesc(s, key), p) == Filter(s, p)
  {
    if s != [] {
      var sorted := SortDesc(s[1..], key);
      assert s == [s[0]] + s[1..];
      assert forall y :: y in s[1..] ==> y in s;
      SortKeepsFilter(s[1..], key, p, k);
      forall y | y in sorted && p(y) ensures key(y) == k {
        SortedMembers(s[1..], key, y);
      }
      InsertKeepsFilter(s[0], sorted, key, p, k);
      FilterCons(s[0], s[1..], p);
    }
  }

  /** Sorting depends on the keys only through their values on the input. */
  lemma {:induction false} SortSameKeys<T>(s: seq<T>, key1: T -> int, key2: T -> int)
    requires forall i :: 0 <= i < |s| ==> key1(s[i]) == key2(s[i])
    ensures SortDesc(s, key1) == SortDesc(s, key2)
  {
    if s != [] {
      SortSameKeys(s[1..], key1, key2);
      var sorted := SortDesc(s[1..], key1);
      forall y | y in sorted ensures key1(y) == key2(y) {
        SortedMembers(s[1..], key1, y);
      }
      InsertSameKeys(s[0], sorted, key1, key2);
    }
  }

  lemma {:induction false} InsertSameKeys<T>(x: T, s: seq<T>, key1: T -> int, key2: T -> int)
    requires key1(x) == key2(x)
    requires forall y :: y in s ==> key1(y) == key2(y)
    ensures InsertDesc(x, s, key1) == InsertDesc(x, s, key2)
  {
    if s != [] {
      assert forall y :: y in s[1..] ==> y in s;
      InsertSameKeys(x, s[1..], key1, key2);
    }
  }
}
