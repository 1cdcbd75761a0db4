/**
 * The two integer workloads of the public endpoint (api/public-heavy.js).
 *
 * `HeavyCompute` seeds a sequence with `(i*17) % 997`, then `rounds` times maps
 * every element through `(x*13 + 7) % 1009` and sorts ascending, and answers the
 * first element (`undefined` when the sequence is empty, here `None`).
 * `OptimizedCompute` runs a double loop adding `(i*13 + r) % 1009` into an
 * accumulator kept modulo 1000003.
 */
module Workload {
  import opened Wrappers
  import opened Sequences

  const SeedModulus := 997
  const StepModulus := 1009
  const AccModulus := 1000003

  /** Element `i` of the initial sequence. */
  function Seed(i: nat): int {
    (i * 17) % SeedModulus
  }

  function InitialSeq(size: nat): (s: seq<int>)
    ensures |s| == size
    ensures forall i :: 0 <= i < size ==> s[i] == Seed(i)
  {
    seq(size, i requires 0 <= i < size => Seed(i))
  }

  /** The per-element transform of one round. */
  function StepValue(x: int): int {
    (x * 13 + 7) % StepModulus
  }

  /** `StepValue` applied `k` times. */
  function Transform(x: int, k: nat): int {
    if k == 0 then x else StepValue(Transform(x, k - 1))
  }

  /** One loop iteration over the whole array: map, then sort ascending. */
  function Round(s: seq<int>): (r: seq<int>)
    ensures |r| == |s|
    ensures SortedAsc(r)
    ensures multiset(r) == multiset(MapSeq(StepValue, s))
  {
    Sort(MapSeq(StepValue, s))
  }

  /** The array after `k` iterations of the loop. */
  function Rounds(s: seq<int>, k: nat): (r: seq<int>)
    ensures |r| == |s|
    ensures k > 0 ==> SortedAsc(r)
  {
    if k == 0 then s else Round(Rounds(s, k - 1))
  }

  /** Reference: every element transformed `k` times, in its original place, never sorted. */
  function TransformAll(s: seq<int>, k: nat): seq<int> {
    MapSeq(TransformBy(k), s)
  }

  function TransformBy(k: nat): int -> int {
    x => Transform(x, k)
  }

  /** Mapping one more step over the `k`-fold transform gives the `k + 1`-fold transform. */
  lemma StepAfterTransformAll(s: seq<int>, k: nat)
    ensures MapSeq(StepValue, TransformAll(s, k)) == TransformAll(s, k + 1)
  {
  }

  /** Zero rounds transform nothing. */
  lemma TransformAllZero(s: seq<int>)
    ensures TransformAll(s, 0) == s
  {
  }

  /**
   * A round over any rearrangement of the `(k-1)`-fold transform holds exactly
   * the elements of the `k`-fold transform.
   */
  lemma RoundKeepsContents(prev: seq<int>, s: seq<int>, k: nat)
    requires k > 0
    requires multiset(prev) == multiset(TransformAll(s, k - 1))
    ensures multiset(Round(prev)) == multiset(TransformAll(s, k))
  {
    var before := TransformAll(s, k - 1);
    MapPreservesPermutation(StepValue, prev, before);
    StepAfterTransformAll(s, k - 1);
    assert MapSeq(StepValue, before) == TransformAll(s, k);
  }

  /**
   * The loop keeps the array's contents equal to the element-wise `k`-fold
   * transform of the start: sorting only moves elements around.
   */
  lemma {:induction false} RoundsIsPermutationOfTransform(s: seq<int>, k: nat)
    ensures |Rounds(s, k)| == |s|
    ensures multiset(Rounds(s, k)) == multiset(TransformAll(s, k))
    decreases k
  {
    if k > 0 {
      var prev := Rounds(s, k - 1);
      RoundsIsPermutationOfTransform(s, k - 1);
      RoundKeepsContents(prev, s, k);
      assert Rounds(s, k) == Round(prev);
    } else {
      TransformAllZero(s);
      assert Rounds(s, k) == s;
    }
  }

  /** `m` is an element of `s` that no element of `s` is below. */
  predicate IsLeast(m: int, s: seq<int>) {
    m in s && forall i :: 0 <= i < |s| ==> m <= s[i]
  }

  /**
   * heavyCompute: `None` (JavaScript's `undefined`) exactly when `size` is 0;
   * otherwise the least value of `Transform(Seed(i), rounds)` over `i < size`.
   */
  function HeavyCompute(size: nat, rounds: nat): (r: Option<int>)
    ensures r.None? <==> size == 0
    ensures r.Some? ==> IsLeast(r.value, TransformAll(InitialSeq(size), rounds))
  {
    var last := Rounds(InitialSeq(size), rounds);
    RoundsIsPermutationOfTransform(InitialSeq(size), rounds);
    if |last| == 0 then None
    else
      LeastOfRounds(InitialSeq(size), rounds);
      Some(last[0])
  }

  /** The head of the final array is the least element of the transformed start. */
  lemma LeastOfRounds(s: seq<int>, k: nat)
    requires |s| > 0
    requires k == 0 ==> forall i :: 0 <= i < |s| ==> s[0] <= s[i]
    ensures |Rounds(s, k)| == |s|
    ensures IsLeast(Rounds(s, k)[0], TransformAll(s, k))
  {
    var last := Rounds(s, k);
    var all := TransformAll(s, k);
    RoundsIsPermutationOfTransform(s, k);
    if k == 0 {
      TransformAllZero(s);
    }
    assert last[0] in multiset(all);
    forall i | 0 <= i < |all|
      ensures last[0] <= all[i]
    {
      assert all[i] in multiset(last);
    }
  }

  /** With at least one round every value lies in `[0, 1009)`, and so does the answer. */
  lemma HeavyComputeRange(size: nat, rounds: nat)
    requires size > 0 && rounds > 0
    ensures HeavyCompute(size, rounds).Some?
    ensures 0 <= HeavyCompute(size, rounds).value < StepModulus
  {
  }

  /** With no rounds the array keeps its seed order, and its head is `Seed(0) == 0`. */
  lemma HeavyComputeNoRounds(size: nat)
    requires size > 0
    ensures HeavyCompute(size, 0) == Some(0)
  {
  }

  // ---------------------------------------------------------------------------
  // optimizedCompute

  /** The term added for outer index `r` and inner index `i`. */
  function Term(r: nat, i: nat): nat {
    (i * 13 + r) % StepModulus
  }

  /** Reference: the sum of `Term(r, i)` over `i < size`, unreduced. */
  function RowSum(r: nat, size: nat): nat {
    if size == 0 then 0 else RowSum(r, size - 1) + Term(r, size - 1)
  }

  /** Reference: the sum of `Term(r, i)` over `r < rounds` and `i < size`, unreduced. */
  function GridSum(rounds: nat, size: nat): nat {
    if rounds == 0 then 0 else GridSum(rounds - 1, size) + RowSum(rounds - 1, size)
  }

  /** The inner loop, from index `i` on, with running accumulator `acc`. */
  function InnerLoop(acc: nat, r: nat, i: nat, size: nat): (out: nat)
    ensures i >= size ==> out == acc
    ensures i < size || acc < AccModulus ==> out < AccModulus
    decreases size - i
  {
    if i >= size then acc else InnerLoop((acc + Term(r, i)) % AccModulus, r, i + 1, size)
  }

  /** The outer loop, from round `r` on. */
  function OuterLoop(acc: nat, r: nat, rounds: nat, size: nat): (out: nat)
    ensures r >= rounds ==> out == acc
    ensures acc < AccModulus ==> out < AccModulus
    decreases rounds - r
  {
    if r >= rounds then acc else OuterLoop(InnerLoop(acc, r, 0, size), r + 1, rounds, size)
  }

  /** Reducing the left operand before an addition does not change the reduced sum. */
  lemma ModAddLeft(a: nat, b: nat)
    ensures (a % AccModulus + b) % AccModulus == (a + b) % AccModulus
  {
  }

  /** Reducing after every addition gives the reduced sum. */
  lemma {:induction false} InnerLoopSum(base: nat, r: nat, i: nat, size: nat)
    requires i <= size
    ensures InnerLoop((base + RowSum(r, i)) % AccModulus, r, i, size) == (base + RowSum(r, size)) % AccModulus
    decreases size - i
  {
    if i < size {
      ModAddLeft(base + RowSum(r, i), Term(r, i));
      assert base + RowSum(r, i + 1) == base + RowSum(r, i) + Term(r, i);
      InnerLoopSum(base, r, i + 1, size);
    }
  }

  lemma {:induction false} OuterLoopSum(r: nat, rounds: nat, size: nat)
    requires r <= rounds
    ensures OuterLoop(GridSum(r, size) % AccModulus, r, rounds, size) == GridSum(rounds, size) % AccModulus
    decreases rounds - r
  {
    if r < rounds {
      InnerLoopSum(GridSum(r, size), r, 0, size);
      assert GridSum(r, size) + RowSum(r, 0) == GridSum(r, size);
      OuterLoopSum(r + 1, rounds, size);
    }
  }

  /**
   * optimizedCompute: the double sum of `(i*13 + r) % 1009` reduced modulo
   * 1000003, hence always below 1000003.
   */
  function OptimizedCompute(size: nat, rounds: nat): (r: nat)
    ensures r == GridSum(rounds, size) % AccModulus
    ensures r < AccModulus
  {
    OuterLoopSum(0, rounds, size);
    OuterLoop(0, 0, rounds, size)
  }

  /** An empty grid sums to nothing. */
  lemma {:induction false} OptimizedComputeEmpty(size: nat, rounds: nat)
    requires size == 0 || rounds == 0
    ensures OptimizedCompute(size, rounds) == 0
  {
    EmptyGrid(size, rounds);
  }

  lemma {:induction false} EmptyGrid(size: nat, rounds: nat)
    requires size == 0 || rounds == 0
    ensures GridSum(rounds, size) == 0
    decreases rounds
  {
    if rounds > 0 {
      EmptyGrid(size, rounds - 1);
    }
  }
}
