/** Index permutations: what `random.shuffle(list(range(n)))` produces and what `np.argsort`
    returns. NumPy's default sort is not stable, so an argsort is characterised only by
    being a permutation that lists its input in ascending order; ties come out in any order. */
module Permutations {

  /** `p` lists each of 0..n-1 exactly once. */
  predicate IsPermutation(p: seq<nat>, n: nat) {
    && |p| == n
    && (forall i :: 0 <= i < n ==> p[i] < n)
    && (forall i, j :: 0 <= i < j < n ==> p[i] != p[j])
  }

  /** `order` is a possible result of `np.argsort(xs)`. */
  predicate IsArgSort(order: seq<nat>, xs: seq<real>) {
    && IsPermutation(order, |xs|)
    && (forall i, j :: 0 <= i < j < |xs| ==> xs[order[i]] <= xs[order[j]])
  }

  /** `argsort` behaves as `np.argsort` on every input. */
  ghost predicate IsArgSorter(argsort: seq<real> -> seq<nat>) {
    forall xs :: IsArgSort(argsort(xs), xs)
  }

  /** The set {0, ..., n-1}. */
  function Range(n: nat): (r: set<nat>)
    ensures |r| == n
    ensures forall x: int :: x in r <==> 0 <= x < n
  {
    if n == 0 then {} else Range(n - 1) + {n - 1}
  }

  lemma {:induction false} SubsetCard<T>(a: set<T>, b: set<T>)
    requires a <= b
    ensures |a| <= |b|
  {
    assert b == a + (b - a);
  }

  lemma {:induction false} ImageCard(p: seq<nat>, m: nat)
    requires m <= |p|
    requires forall i, j :: 0 <= i < j < |p| ==> p[i] != p[j]
    ensures |set i | 0 <= i < m :: p[i]| == m
  {
    if m > 0 {
      ImageCard(p, m - 1);
      assert (set i | 0 <= i < m :: p[i]) == (set i | 0 <= i < m - 1 :: p[i]) + {p[m - 1]};
    }
  }

  /** Pigeonhole: a permutation of 0..n-1 reaches every index below n. */
  lemma PermutationCovers(p: seq<nat>, n: nat, k: nat)
    requires IsPermutation(p, n) && k < n
    ensures k in p
  {
    if k !in p {
      var image := set i | 0 <= i < n :: p[i];
      ImageCard(p, n);
      assert image <= Range(n) - {k};
      SubsetCard(image, Range(n) - {k});
    }
  }

  /** The position at which a permutation holds index `k`. */
  lemma PositionOf(p: seq<nat>, n: nat, k: nat) returns (i: nat)
    requires IsPermutation(p, n) && k < n
    ensures i < n && p[i] == k
  {
    PermutationCovers(p, n, k);
    i :| 0 <= i < |p| && p[i] == k;
  }
}
