/** Generic sequence operations used throughout the model: JavaScript's
    `Array.prototype.filter`, counting, `includes`-style membership and
    distinctness. */
module Seqs {

  /** `s.filter(p)`: the elements of `s` that satisfy `p`. That they keep their
      order and multiplicity is `FilterAtPositions`. */
  function Filter<T>(s: seq<T>, p: T -> bool): (r: seq<T>)
    ensures |r| <= |s|
    ensures forall i :: 0 <= i < |r| ==> r[i] in s && p(r[i])
    ensures forall i :: 0 <= i < |s| && p(s[i]) ==> s[i] in r
  {
    if s == [] then []
    else if p(s[0]) then [s[0]] + Filter(s[1..], p)
    else Filter(s[1..], p)
  }

  /** The positions in `s[from..]` of the elements that satisfy `p`, as
      indices into `s`, each once, in increasing order (that none is missed
      is `PositionsComplete`). */
  function Positions<T>(s: seq<T>, p: T -> bool, from: nat): (idx: seq<nat>)
    requires from <= |s|
    ensures forall k :: 0 <= k < |idx| ==> from <= idx[k] < |s| && p(s[idx[k]])
    ensures forall k, l :: 0 <= k < l < |idx| ==> idx[k] < idx[l]
    decreases |s| - from
  {
    if from == |s| then []
    else if p(s[from]) then [from] + Positions(s, p, from + 1)
    else Positions(s, p, from + 1)
  }

  /** Every satisfying position of `s[from..]` is listed. */
  lemma {:induction false} PositionsComplete<T>(s: seq<T>, p: T -> bool, from: nat)
    requires from <= |s|
    ensures forall i :: from <= i < |s| && p(s[i]) ==> i in Positions(s, p, from)
    decreases |s| - from
  {
    if from < |s| {
      PositionsComplete(s, p, from + 1);
    }
  }

  /** Filtering keeps order and multiplicity: the k-th element kept is the
      element at the k-th satisfying position of `s`. */
  lemma FilterAtPositions<T>(s: seq<T>, p: T -> bool)
    ensures |Filter(s, p)| == |Positions(s, p, 0)|
    ensures forall k :: 0 <= k < |Filter(s, p)| ==> Filter(s, p)[k] == s[Positions(s, p, 0)[k]]
  {
    FilterFrom(s, p, 0);
    assert s[0..] == s;
  }

  lemma {:induction false} FilterFrom<T>(s: seq<T>, p: T -> bool, from: nat)
    requires from <= |s|
    ensures |Filter(s[from..], p)| == |Positions(s, p, from)|
    ensures forall k :: 0 <= k < |Filter(s[from..], p)| ==>
              Filter(s[from..], p)[k] == s[Positions(s, p, from)[k]]
    decreases |s| - from
  {
    if from < |s| {
      FilterFrom(s, p, from + 1);
      var t := s[from..];
      assert t[0] == s[from];
      assert t[1..] == s[from + 1..];
      var rest := Filter(s[from + 1..], p);
      var idx := Positions(s, p, from + 1);
      if p(s[from]) {
        assert Filter(t, p) == [s[from]] + rest;
        assert Positions(s, p, from) == [from] + idx;
      } else {
        assert Filter(t, p) == rest;
        assert Positions(s, p, from) == idx;
      }
    }
  }

  /** Filtering keeps every copy of a satisfying element and drops every copy of the others. */
  lemma {:induction false} FilterMultiset<T>(s: seq<T>, p: T -> bool)
    ensures forall x :: multiset(Filter(s, p))[x] == if p(x) then multiset(s)[x] else 0
  {
    if s != [] {
      FilterMultiset(s[1..], p);
      assert s == [s[0]] + s[1..];
    }
  }

  /** Filtering distributes over concatenation, so it keeps the input's order. */
  lemma {:induction false} FilterConcat<T>(a: seq<T>, b: seq<T>, p: T -> bool)
    ensures Filter(a + b, p) == Filter(a, p) + Filter(b, p)
  {
    if a == [] {
      assert a + b == b;
    } else {
      assert (a + b)[0] == a[0];
      assert (a + b)[1..] == a[1..] + b;
      FilterConcat(a[1..], b, p);
    }
  }

  /** When every element satisfies the predicate, filtering changes nothing. */
  lemma {:induction false} FilterAll<T>(s: seq<T>, p: T -> bool)
    requires forall i :: 0 <= i < |s| ==> p(s[i])
    ensures Filter(s, p) == s
  {
    if s != [] {
      FilterAll(s[1..], p);
    }
  }

  /** Filtering by two predicates that agree on every element gives the same result. */
  lemma {:induction false} FilterCongruent<T>(s: seq<T>, p: T -> bool, q: T -> bool)
    requires forall i :: 0 <= i < |s| ==> p(s[i]) == q(s[i])
    ensures Filter(s, p) == Filter(s, q)
  {
    if s != [] {
      FilterCongruent(s[1..], p, q);
    }
  }

  /** The number of elements of `s` that satisfy `p`. */
  function Count<T>(s: seq<T>, p: T -> bool): (n: nat)
    ensures n <= |s|
    ensures n == 0 <==> forall i :: 0 <= i < |s| ==> !p(s[i])
  {
    if s == [] then 0
    else (if p(s[0]) then 1 else 0) + Count(s[1..], p)
  }

  /** Counting is the length of the filtered sequence. */
  lemma {:induction false} CountIsFilterLength<T>(s: seq<T>, p: T -> bool)
    ensures Count(s, p) == |Filter(s, p)|
  {
    if s != [] {
      CountIsFilterLength(s[1..], p);
    }
  }

  /** Changing one position from satisfying `p` to not satisfying it lowers the count by one. */
  lemma {:induction false} CountChangeOne<T>(s: seq<T>, t: seq<T>, p: T -> bool, j: nat)
    requires |s| == |t| && j < |s|
    requires forall i :: 0 <= i < |s| && i != j ==> s[i] == t[i]
    requires p(s[j]) && !p(t[j])
    ensures Count(t, p) + 1 == Count(s, p)
  {
    if j == 0 {
      assert s[1..] == t[1..];
    } else {
      CountChangeOne(s[1..], t[1..], p, j - 1);
    }
  }

  /** No element occurs twice. */
  predicate Distinct<T(==)>(s: seq<T>) {
    forall i, j :: 0 <= i < j < |s| ==> s[i] != s[j]
  }

  /** The set of elements of a sequence. */
  function Elems<T>(s: seq<T>): set<T> {
    set x | x in s
  }

  /** A sequence without repetitions has as many distinct elements as it has positions. */
  lemma {:induction false} DistinctCard<T>(s: seq<T>)
    requires Distinct(s)
    ensures |Elems(s)| == |s|
  {
    if s != [] {
      DistinctCard(s[1..]);
      assert Elems(s) == {s[0]} + Elems(s[1..]);
      assert s[0] !in Elems(s[1..]);
    }
  }

  /** A subset as large as its superset is the superset. */
  lemma SubsetSameCard<T>(a: set<T>, b: set<T>)
    requires a <= b && |a| == |b|
    ensures a == b
  {
    assert |b - a| == |b| - |a| == 0;
  }
}
