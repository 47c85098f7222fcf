/**
 * Sorting a list by a comparison, the role sort.Slice plays in the source:
 * the result is a permutation of the input, ordered by the comparison.
 * The sort used here is stable; sort.Slice promises no order among equal
 * elements, so any order it produces is one this sort may also produce.
 */
module Sorting {

  /** `le` compares any two elements, and its comparisons chain. */
  ghost predicate TotalPreorder<T(!new)>(le: (T, T) -> bool) {
    (forall a, b :: le(a, b) || le(b, a)) &&
    (forall a, b, c :: le(a, b) && le(b, c) ==> le(a, c))
  }

  /** Every element is `le` every element after it. */
  predicate SortedBy<T>(s: seq<T>, le: (T, T) -> bool) {
    forall i, j :: 0 <= i < j < |s| ==> le(s[i], s[j])
  }

  /** `x` placed after the leading elements that are `le` it. */
  function Insert<T>(x: T, s: seq<T>, le: (T, T) -> bool): (r: seq<T>)
    ensures multiset(r) == multiset(s) + multiset{x}
    ensures |r| == |s| + 1
  {
    if s == [] then [x]
    else if le(s[0], x) then
      assert s == [s[0]] + s[1..];
      [s[0]] + Insert(x, s[1..], le)
    else [x] + s
  }

  /** Insertion sort of `s` by `le`. */
  function SortBy<T>(s: seq<T>, le: (T, T) -> bool): (r: seq<T>)
    ensures multiset(r) == multiset(s)
    ensures |r| == |s|
  {
    if s == [] then []
    else
      assert s == s[..|s| - 1] + [s[|s| - 1]];
      Insert(s[|s| - 1], SortBy(s[..|s| - 1], le), le)
  }

  lemma {:induction false} InsertSorted<T(!new)>(x: T, s: seq<T>, le: (T, T) -> bool)
    requires TotalPreorder(le) && SortedBy(s, le)
    ensures SortedBy(Insert(x, s, le), le)
  {
    if s != [] && le(s[0], x) {
      var rest := Insert(x, s[1..], le);
      InsertSorted(x, s[1..], le);
      forall j | 0 <= j < |rest|
        ensures le(s[0], rest[j])
      {
        assert rest[j] in multiset(rest);
        assert rest[j] in multiset(s[1..]) || rest[j] == x;
        if rest[j] != x {
          var k :| 0 <= k < |s[1..]| && s[1..][k] == rest[j];
          assert s[k + 1] == rest[j];
        }
      }
    } else if s != [] {
      assert le(x, s[0]);
    }
  }

  /** The sorted list is ordered by `le` and holds the elements of `s`, each as often. */
  lemma {:induction false} SortBySorted<T(!new)>(s: seq<T>, le: (T, T) -> bool)
    requires TotalPreorder(le)
    ensures SortedBy(SortBy(s, le), le)
    ensures multiset(SortBy(s, le)) == multiset(s)
  {
    if s != [] {
      SortBySorted(s[..|s| - 1], le);
      InsertSorted(s[|s| - 1], SortBy(s[..|s| - 1], le), le);
    }
  }
  /** No element occurs twice. */
  predicate Distinct<T(==)>(s: seq<T>) {
    forall i, j :: 0 <= i < j < |s| ==> s[i] != s[j]
  }

  lemma {:induction false} DistinctOnce<T>(s: seq<T>, x: T)
    requires Distinct(s)
    ensures multiset(s)[x] <= 1
  {
    if s != [] {
      var init := s[..|s| - 1];
      assert s == init + [s[|s| - 1]];
      assert Distinct(init);
      DistinctOnce(init, x);
      if x == s[|s| - 1] {
        assert x !in init;
      }
    }
  }

  /** A permutation of a list without repeats has no repeats either. */
  lemma DistinctPermutation<T>(s: seq<T>, t: seq<T>)
    requires Distinct(s) && multiset(t) == multiset(s)
    ensures Distinct(t)
  {
    forall i, j | 0 <= i < j < |t|
      ensures t[i] != t[j]
    {
      if t[i] == t[j] {
        assert t == t[..j] + [t[j]] + t[j + 1..];
        assert t[..j][i] == t[i];
        assert multiset(t[..j])[t[i]] >= 1;
        assert multiset(t)[t[i]] >= 2;
        DistinctOnce(s, t[i]);
        assert false;
      }
    }
  }

  /**
   * The first `n` elements of a sorted permutation of `s` are elements of
   * `s`, and every element of `s` left out comes after each of them.
   */
  lemma SortedPrefix<T>(s: seq<T>, sorted: seq<T>, le: (T, T) -> bool, n: nat)
    requires SortedBy(sorted, le) && multiset(sorted) == multiset(s) && n <= |sorted|
    ensures multiset(sorted[..n]) <= multiset(s)
    ensures forall x, i :: x in multiset(s) - multiset(sorted[..n]) && 0 <= i < n ==> le(sorted[i], x)
  {
    assert sorted == sorted[..n] + sorted[n..];
    assert multiset(s) - multiset(sorted[..n]) == multiset(sorted[n..]);
    forall x, i | x in multiset(sorted[n..]) && 0 <= i < n
      ensures le(sorted[i], x)
    {
      var rest := sorted[n..];
      var k :| 0 <= k < |rest| && rest[k] == x;
      assert sorted[n + k] == x;
    }
  }
}
