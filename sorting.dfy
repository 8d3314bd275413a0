/** The final sort of a forward lookup. The comparison (address_compare) is not
    part of this model, so it is a parameter: any total order on the entries. The
    sort is specified as "a sorted permutation", and insertion sort gives one. */
module Sorting {

  /** Every two elements are comparable (so every element is related to itself). */
  ghost predicate Total<T(!new)>(le: (T, T) -> bool) {
    forall a, b :: le(a, b) || le(b, a)
  }

  ghost predicate Transitive<T(!new)>(le: (T, T) -> bool) {
    forall a, b, c :: le(a, b) && le(b, c) ==> le(a, c)
  }

  ghost predicate Antisymmetric<T(!new)>(le: (T, T) -> bool) {
    forall a, b :: le(a, b) && le(b, a) ==> a == b
  }

  ghost predicate TotalOrder<T(!new)>(le: (T, T) -> bool) {
    Total(le) && Transitive(le) && Antisymmetric(le)
  }

  /** Each element is ordered before its successor. */
  predicate Sorted<T>(le: (T, T) -> bool, s: seq<T>) {
    forall i :: 0 < i < |s| ==> le(s[i - 1], s[i])
  }

  /** Puts x into a sorted sequence. */
  function Insert<T(!new)>(le: (T, T) -> bool, x: T, s: seq<T>): (r: seq<T>)
    requires Total(le) && Sorted(le, s)
    ensures Sorted(le, r)
    ensures multiset(r) == multiset(s) + multiset{x}
    ensures r[0] == x || (s != [] && r[0] == s[0])
  {
    if s == [] then [x]
    else if le(x, s[0]) then [x] + s
    else
      assert s == [s[0]] + s[1..];
      [s[0]] + Insert(le, x, s[1..])
  }

  /** A sorted permutation of s. */
  function Sort<T(!new)>(le: (T, T) -> bool, s: seq<T>): (r: seq<T>)
    requires Total(le)
    ensures Sorted(le, r)
    ensures multiset(r) == multiset(s)
  {
    if s == [] then []
    else
      assert s == [s[0]] + s[1..];
      Insert(le, s[0], Sort(le, s[1..]))
  }

  /** For a transitive order, "each before its successor" orders every pair. */
  lemma {:induction false} SortedPairwise<T(!new)>(le: (T, T) -> bool, s: seq<T>)
    requires Transitive(le) && Sorted(le, s)
    ensures forall i, j :: 0 <= i < j < |s| ==> le(s[i], s[j])
  {
    if |s| > 1 {
      SortedPairwise(le, s[1..]);
      forall i, j | 0 <= i < j < |s| ensures le(s[i], s[j]) {
        if 0 < i {
          assert s[1..][i - 1] == s[i] && s[1..][j - 1] == s[j];
        } else if 1 < j {
          assert s[1..][0] == s[1] && s[1..][j - 1] == s[j];
        }
      }
    }
  }

  /** Sorting a sorted sequence changes nothing. */
  lemma {:induction false} SortIdempotent<T(!new)>(le: (T, T) -> bool, s: seq<T>)
    requires Total(le) && Sorted(le, s)
    ensures Sort(le, s) == s
  {
    if s != [] {
      assert Sorted(le, s[1..]);
      SortIdempotent(le, s[1..]);
      assert s == [s[0]] + s[1..];
    }
  }

  /** The first element of a sorted sequence is ordered before every element. */
  lemma HeadFirst<T(!new)>(le: (T, T) -> bool, s: seq<T>, k: nat)
    requires Total(le) && Transitive(le) && Sorted(le, s) && k < |s|
    ensures le(s[0], s[k])
  {
    SortedPairwise(le, s);
  }

  /** Taking equal heads off two sequences with equal multisets leaves equal multisets. */
  lemma TailsSameMultiset<T>(a: seq<T>, b: seq<T>)
    requires a != [] && b != [] && a[0] == b[0] && multiset(a) == multiset(b)
    ensures multiset(a[1..]) == multiset(b[1..])
  {
    assert a == [a[0]] + a[1..] && b == [b[0]] + b[1..];
    assert multiset(a[1..]) == multiset(a) - multiset{a[0]};
    assert multiset(b[1..]) == multiset(b) - multiset{b[0]};
  }

  /** Under a total order there is only one sorted permutation of a sequence, so any
      sort (stable or not) yields the one Sort computes. */
  lemma {:induction false} SortedPermutationUnique<T(!new)>(le: (T, T) -> bool, a: seq<T>, b: seq<T>)
    requires TotalOrder(le)
    requires Sorted(le, a) && Sorted(le, b) && multiset(a) == multiset(b)
    ensures a == b
    decreases |a|
  {
    assert |b| == |multiset(b)| == |a|;
    if a != [] {
      assert a[0] in multiset(b);
      var j :| 0 <= j < |b| && b[j] == a[0];
      assert b[0] in multiset(a);
      var i :| 0 <= i < |a| && a[i] == b[0];
      HeadFirst(le, b, j);
      HeadFirst(le, a, i);
      TailsSameMultiset(a, b);
      SortedPermutationUnique(le, a[1..], b[1..]);
      assert a == [a[0]] + a[1..] && b == [b[0]] + b[1..];
    }
  }

  /** Whatever sorted permutation the C library's sort produces is Sort's result. */
  lemma SortIsTheSortedPermutation<T(!new)>(le: (T, T) -> bool, s: seq<T>, r: seq<T>)
    requires TotalOrder(le)
    requires Sorted(le, r) && multiset(r) == multiset(s)
    ensures r == Sort(le, s)
  {
    SortedPermutationUnique(le, r, Sort(le, s));
  }
}
