/** Order-preserving filtering of sequences: the list comprehensions
    `[x for x in xs if p(x)]` and the `append`-in-a-loop searches of the rule
    engine all compute one of these. */
module Seqs {
  import opened Wrappers

  /** The elements of `s` that satisfy `p`, in their order in `s`. */
  function Filter<T(==)>(s: seq<T>, p: T -> bool): (r: seq<T>)
    ensures |r| <= |s|
    ensures forall i :: 0 <= i < |r| ==> p(r[i])
    ensures forall i :: 0 <= i < |s| && p(s[i]) ==> s[i] in r
  {
    if s == [] then []
    else Filter(s[..|s| - 1], p) + (if p(s[|s| - 1]) then [s[|s| - 1]] else [])
  }

  /** Membership in a filter, stated on elements. */
  lemma FilterMember<T>(s: seq<T>, p: T -> bool, x: T)
    ensures x in Filter(s, p) <==> x in s && p(x)
  {
    if x in Filter(s, p) {
      var i :| 0 <= i < |Filter(s, p)| && Filter(s, p)[i] == x;
    }
  }

  /** Filtering one more element at the end extends the filtered prefix. */
  lemma FilterSnoc<T>(s: seq<T>, x: T, p: T -> bool)
    ensures Filter(s + [x], p) == Filter(s, p) + (if p(x) then [x] else [])
  {
    assert (s + [x])[..|s + [x]| - 1] == s;
  }

  /** Filtering distributes over concatenation. */
  lemma {:induction false} FilterAppend<T>(a: seq<T>, b: seq<T>, p: T -> bool)
    ensures Filter(a + b, p) == Filter(a, p) + Filter(b, p)
    decreases |b|
  {
    if b == [] {
      assert a + b == a;
    } else {
      var b' := b[..|b| - 1];
      var x := b[|b| - 1];
      assert b == b' + [x];
      assert a + b == (a + b') + [x];
      FilterAppend(a, b', p);
      FilterSnoc(a + b', x, p);
      FilterSnoc(b', x, p);
    }
  }

  /** Filtering a sequence with one more element at the front. */
  lemma {:induction false} FilterCons<T>(x: T, s: seq<T>, p: T -> bool)
    ensures Filter([x] + s, p) == (if p(x) then [x] else []) + Filter(s, p)
  {
    if s == [] {
      assert ([x] + s)[..0] == [];
    } else {
      var s', y := s[..|s| - 1], s[|s| - 1];
      FilterCons(x, s', p);
      assert ([x] + s)[..|[x] + s| - 1] == [x] + s';
      assert ([x] + s)[|[x] + s| - 1] == y;
    }
  }

  /** Filtering with a predicate that keeps everything keeps everything. */
  lemma {:induction false} FilterKeepsAll<T>(s: seq<T>, p: T -> bool)
    requires forall i :: 0 <= i < |s| ==> p(s[i])
    ensures Filter(s, p) == s
  {
    if s != [] {
      FilterKeepsAll(s[..|s| - 1], p);
      assert s == s[..|s| - 1] + [s[|s| - 1]];
    }
  }

  /** Filtering with a predicate that keeps nothing keeps nothing. */
  lemma {:induction false} FilterKeepsNone<T>(s: seq<T>, p: T -> bool)
    requires forall i :: 0 <= i < |s| ==> !p(s[i])
    ensures Filter(s, p) == []
  {
    if s != [] {
      FilterKeepsNone(s[..|s| - 1], p);
    }
  }

  /** A filter of a filter keeps exactly what both predicates keep. */
  lemma {:induction false} FilterOfFilter<T>(s: seq<T>, p: T -> bool, q: T -> bool, pq: T -> bool)
    requires forall x :: pq(x) == (p(x) && q(x))
    ensures Filter(Filter(s, p), q) == Filter(s, pq)
  {
    if s != [] {
      var s' := s[..|s| - 1];
      var x := s[|s| - 1];
      FilterOfFilter(s', p, q, pq);
      assert Filter(s, pq) == Filter(s', pq) + (if pq(x) then [x] else []);
      if p(x) {
        assert Filter(s, p) == Filter(s', p) + [x];
        FilterSnoc(Filter(s', p), x, q);
      } else {
        assert Filter(s, p) == Filter(s', p);
      }
    }
  }

  /** Mapping every element through a total function. */
  function MapSeq<T, U>(s: seq<T>, f: T -> U): (r: seq<U>)
    ensures |r| == |s|
    ensures forall i :: 0 <= i < |s| ==> r[i] == f(s[i])
  {
    if s == [] then [] else MapSeq(s[..|s| - 1], f) + [f(s[|s| - 1])]
  }

  /** Mapping one more element at the end extends the mapped prefix. */
  lemma MapSeqSnoc<T, U>(s: seq<T>, x: T, f: T -> U)
    ensures MapSeq(s + [x], f) == MapSeq(s, f) + [f(x)]
  {
    assert (s + [x])[..|s + [x]| - 1] == s;
  }

  /** Two predicates that agree everywhere filter alike. */
  lemma {:induction false} FilterSamePredicate<T>(s: seq<T>, p: T -> bool, q: T -> bool)
    requires forall x :: p(x) == q(x)
    ensures Filter(s, p) == Filter(s, q)
  {
    if s != [] {
      FilterSamePredicate(s[..|s| - 1], p, q);
    }
  }

  /** Appending one element to one of three sequences adds it once to
      their combined contents and one to their combined length. */
  lemma GrowOneOfThree<T>(a: seq<T>, b: seq<T>, c: seq<T>, a': seq<T>, b': seq<T>, c': seq<T>, x: T)
    requires || (a' == a + [x] && b' == b && c' == c)
             || (a' == a && b' == b + [x] && c' == c)
             || (a' == a && b' == b && c' == c + [x])
    ensures multiset(a') + multiset(b') + multiset(c') == multiset(a) + multiset(b) + multiset(c) + multiset{x}
    ensures |a'| + |b'| + |c'| == |a| + |b| + |c| + 1
  {
  }

  /** Cutting a sequence into the parts three exhaustive, disjoint predicates
      keep loses and duplicates nothing. */
  lemma {:induction false} FilterPartition3<T>(s: seq<T>, p: T -> bool, q: T -> bool, r: T -> bool)
    requires forall x :: (p(x) && !q(x) && !r(x)) || (!p(x) && q(x) && !r(x)) || (!p(x) && !q(x) && r(x))
    ensures multiset(Filter(s, p)) + multiset(Filter(s, q)) + multiset(Filter(s, r)) == multiset(s)
    ensures |Filter(s, p)| + |Filter(s, q)| + |Filter(s, r)| == |s|
  {
    if s != [] {
      var s' := s[..|s| - 1];
      var x := s[|s| - 1];
      FilterPartition3(s', p, q, r);
      assert multiset(s) == multiset(s') + multiset{x} by {
        assert s == s' + [x];
      }
      GrowOneOfThree(Filter(s', p), Filter(s', q), Filter(s', r), Filter(s, p), Filter(s, q), Filter(s, r), x);
    }
  }

  /** The position of the first element satisfying `p`: the search loops
      that stop at the first hit (`for ...: if ...: break` or `return`). */
  function FirstMatch<T>(s: seq<T>, p: T -> bool): (r: Option<nat>)
    ensures r.None? <==> forall i :: 0 <= i < |s| ==> !p(s[i])
    ensures r.Some? ==> r.value < |s| && p(s[r.value]) && forall j :: 0 <= j < r.value ==> !p(s[j])
  {
    if s == [] then None
    else if p(s[0]) then Some(0)
    else match FirstMatch(s[1..], p)
      case None => None
      case Some(k) => Some(k + 1)
  }

  /** The head of a filter is the first element that satisfies the
      predicate. */
  lemma FilterHead<T>(s: seq<T>, p: T -> bool)
    requires FirstMatch(s, p).Some?
    ensures Filter(s, p) != [] && Filter(s, p)[0] == s[FirstMatch(s, p).value]
  {
    var k := FirstMatch(s, p).value;
    assert s == s[..k] + ([s[k]] + s[k + 1..]);
    FilterAppend(s[..k], [s[k]] + s[k + 1..], p);
    FilterKeepsNone(s[..k], p);
    FilterCons(s[k], s[k + 1..], p);
  }

  /** Two sequences with the same filter have the same first element
      satisfying the predicate. */
  lemma FilterHeadsAgree<T>(a: seq<T>, b: seq<T>, p: T -> bool)
    requires a != [] && p(a[0]) && Filter(a, p) == Filter(b, p)
    ensures FirstMatch(b, p).Some? && b[FirstMatch(b, p).value] == a[0]
  {
    assert FirstMatch(a, p) == Some(0);
    FilterHead(a, p);
    if FirstMatch(b, p).None? {
      FilterKeepsNone(b, p);
    }
    FilterHead(b, p);
  }

  /** The position of the last element for which `f` gives a value. */
  function LastIndex<T, U>(s: seq<T>, f: T -> Option<U>): (r: Option<nat>)
    ensures r.None? <==> forall i :: 0 <= i < |s| ==> f(s[i]).None?
    ensures r.Some? ==> r.value < |s| && f(s[r.value]).Some? && forall j :: r.value < j < |s| ==> f(s[j]).None?
  {
    if s == [] then None
    else if f(s[|s| - 1]).Some? then Some(|s| - 1)
    else
      var s' := s[..|s| - 1];
      assert forall i :: 0 <= i < |s'| ==> s'[i] == s[i];
      LastIndex(s', f)
  }

  /** The value of the last element for which `f` gives one: a loop that
      overwrites a variable whenever an element supplies a value. */
  function LastSome<T, U>(s: seq<T>, f: T -> Option<U>): (r: Option<U>)
    ensures r.None? <==> forall i :: 0 <= i < |s| ==> f(s[i]).None?
    ensures r.Some? ==> exists i :: (
              && 0 <= i < |s| && f(s[i]) == r
              && forall j :: i < j < |s| ==> f(s[j]).None?)
  {
    match LastIndex(s, f)
    case Some(i) => f(s[i])
    case None => None
  }

  /** One more element of a prefix: its value wins if it has one. */
  lemma LastSomeStep<T, U>(s: seq<T>, i: int, f: T -> Option<U>)
    requires 0 <= i < |s|
    ensures LastSome(s[..i + 1], f) == if f(s[i]).Some? then f(s[i]) else LastSome(s[..i], f)
  {
    assert s[..i + 1][..i] == s[..i];
  }
}
