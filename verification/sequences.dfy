/**
 * Sequence helpers behind the sort-based workload: element-wise mapping
 * (`Array.prototype.map`) and an ascending sort (`sort((a, b) => a - b)`).
 */
module Sequences {

  /** `f` applied to every element, in place. */
  function MapSeq(f: int -> int, s: seq<int>): (r: seq<int>)
    ensures |r| == |s|
    ensures forall i :: 0 <= i < |s| ==> r[i] == f(s[i])
  {
    seq(|s|, i requires 0 <= i < |s| => f(s[i]))
  }

  lemma MapSeqConcat(f: int -> int, u: seq<int>, v: seq<int>)
    ensures MapSeq(f, u + v) == MapSeq(f, u) + MapSeq(f, v)
  {
  }

  /**
   * Mapping respects permutations: two sequences holding the same elements
   * still hold the same elements after `f` is applied to each.
   */
  lemma {:induction false} MapPreservesPermutation(f: int -> int, a: seq<int>, b: seq<int>)
    requires multiset(a) == multiset(b)
    ensures multiset(MapSeq(f, a)) == multiset(MapSeq(f, b))
    decreases |a|
  {
    if |a| == 0 {
      assert |multiset(b)| == 0;
    } else {
      var x := a[0];
      assert x in multiset(b);
      var j :| 0 <= j < |b| && b[j] == x;
      var rest := b[..j] + b[j + 1..];
      assert b == b[..j] + [x] + b[j + 1..];
      assert multiset(rest) == multiset(b) - multiset{x};
      assert a == [x] + a[1..];
      assert multiset(a[1..]) == multiset(a) - multiset{x};
      MapPreservesPermutation(f, a[1..], rest);
      MapSeqConcat(f, [x], a[1..]);
      MapSeqConcat(f, b[..j] + [x], b[j + 1..]);
      MapSeqConcat(f, b[..j], [x]);
      MapSeqConcat(f, b[..j], b[j + 1..]);
    }
  }

  predicate SortedAsc(s: seq<int>) {
    forall i, j :: 0 <= i < j < |s| ==> s[i] <= s[j]
  }

  /** Inserts `x` into an ascending sequence, before the first element it does not exceed. */
  function Insert(x: int, s: seq<int>): (r: seq<int>)
    requires SortedAsc(s)
    ensures |r| == |s| + 1
    ensures r[0] == if |s| == 0 || x <= s[0] then x else s[0]
    ensures SortedAsc(r)
    ensures multiset(r) == multiset(s) + multiset{x}
  {
    if |s| == 0 then [x]
    else if x <= s[0] then [x] + s
    else
      assert s == [s[0]] + s[1..];
      [s[0]] + Insert(x, s[1..])
  }

  /** Insertion sort: a witness that every sequence has an ascending rearrangement. */
  function InsertionSort(s: seq<int>): (r: seq<int>)
    ensures |r| == |s|
    ensures SortedAsc(r)
    ensures multiset(r) == multiset(s)
  {
    if |s| == 0 then []
    else
      assert s == [s[0]] + s[1..];
      Insert(s[0], InsertionSort(s[1..]))
  }

  predicate IsSortingOf(r: seq<int>, s: seq<int>) {
    SortedAsc(r) && multiset(r) == multiset(s)
  }

  /**
   * The ascending rearrangement of `s`: the one sequence that is ascending and
   * holds exactly the elements of `s`. This is what any correct comparison sort
   * with comparator `(a, b) => a - b` produces, whatever its algorithm.
   */
  function Sort(s: seq<int>): (r: seq<int>)
    ensures |r| == |s|
    ensures IsSortingOf(r, s)
  {
    assert IsSortingOf(InsertionSort(s), s);
    forall a, b | IsSortingOf(a, s) && IsSortingOf(b, s)
      ensures a == b
    {
      SortedPermutationsEqual(a, b);
    }
    var r :| IsSortingOf(r, s);
    assert |multiset(r)| == |multiset(s)|;
    r
  }

  /** Insertion sort computes exactly the ascending rearrangement. */
  lemma InsertionSortIsSort(s: seq<int>)
    ensures InsertionSort(s) == Sort(s)
  {
    SortedPermutationsEqual(InsertionSort(s), Sort(s));
  }

  /** Two ascending sequences with the same elements start with the same element. */
  lemma SortedPermutationsSameHead(a: seq<int>, b: seq<int>)
    requires SortedAsc(a) && SortedAsc(b) && multiset(a) == multiset(b) && |a| > 0
    ensures |b| == |a| && a[0] == b[0]
  {
    assert |b| == |multiset(b)| == |a|;
    assert a[0] in multiset(b) && b[0] in multiset(a);
    var i :| 0 <= i < |b| && b[i] == a[0];
    var j :| 0 <= j < |a| && a[j] == b[0];
  }

  /** Two ascending sequences with the same elements are equal. */
  lemma {:induction false} SortedPermutationsEqual(a: seq<int>, b: seq<int>)
    requires SortedAsc(a) && SortedAsc(b) && multiset(a) == multiset(b)
    ensures a == b
    decreases |a|
  {
    if |a| == 0 {
      assert |multiset(b)| == 0;
    } else {
      SortedPermutationsSameHead(a, b);
      assert a == [a[0]] + a[1..];
      assert b == [b[0]] + b[1..];
      assert multiset(a[1..]) == multiset(a) - multiset{a[0]};
      assert multiset(b[1..]) == multiset(b) - multiset{b[0]};
      SortedPermutationsEqual(a[1..], b[1..]);
    }
  }
}
