/** Cyclic order on the cells 0 .. n-1, as seen from a moving head. */
module Cyclic {
  /** Distance of a cell behind the head; the head itself comes last. */
  function Rank(head: nat, idx: nat, n: nat): (r: nat)
    requires head < n && idx < n
    ensures r < n
  {
    if idx > head then idx - head - 1 else idx + n - head - 1
  }

  lemma RankInjective(head: nat, i: nat, j: nat, n: nat)
    requires head < n && i < n && j < n
    ensures Rank(head, i, n) == Rank(head, j, n) ==> i == j
  {
  }

  /** The k-th cell looked at after head p is the one of rank k. */
  lemma CellOfRank(p: nat, k: nat, n: nat)
    requires p < n && k < n
    ensures (p + 1 + k) % n < n && Rank(p, (p + 1 + k) % n, n) == k
  {
    if p + 1 + k < n {
      assert (p + 1 + k) % n == p + 1 + k;
    } else {
      assert (p + 1 + k) % n == p + 1 + k - n;
    }
  }
}
