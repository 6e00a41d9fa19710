/**
  The variables of one buffer over a whole run: inputs I, enqueues E, drops D, outputs O, backlog C
  (vectors of counts per packet type) and the backlogged flag B, one entry per time step.
 */
module BufferTrace {
  import opened CountVectors

  datatype Trace = Trace(i: seq<Vec>, e: seq<Vec>, d: seq<Vec>, o: seq<Vec>, c: seq<Vec>, b: seq<bool>)

  ghost predicate AllOf(vs: seq<Vec>, steps: nat, k: nat) {
    |vs| == steps && forall j :: 0 <= j < steps ==> |vs[j]| == k
  }

  /** One entry per step, k packet types. */
  ghost predicate Shaped(tr: Trace, steps: nat, k: nat) {
    && AllOf(tr.i, steps, k) && AllOf(tr.e, steps, k) && AllOf(tr.d, steps, k)
    && AllOf(tr.o, steps, k) && AllOf(tr.c, steps, k) && |tr.b| == steps
  }

  ghost predicate AllWithin(vs: seq<Vec>, upper: int) {
    forall j :: 0 <= j < |vs| ==> Within(vs[j], upper)
  }

  /** The ranges given to the solver with add_bound: every count is at least 0. */
  ghost predicate Bounded(tr: Trace, maxIn: int, maxEnq: int, maxDeq: int, cap: int) {
    && AllWithin(tr.i, maxIn) && AllWithin(tr.e, maxEnq) && AllWithin(tr.d, maxEnq)
    && AllWithin(tr.o, maxDeq) && AllWithin(tr.c, cap)
  }

  /** The upper ends of the ranges of I, of E and D, and of O. */
  datatype Ranges = Ranges(maxIn: nat, maxEnq: nat, maxDeq: nat)

  ghost predicate InRanges(tr: Trace, rg: Ranges, cap: int) {
    Bounded(tr, rg.maxIn, rg.maxEnq, rg.maxDeq, cap)
  }

  ghost predicate AllCounts(vs: seq<Vec>) {
    forall j :: 0 <= j < |vs| ==> NonNegative(vs[j])
  }

  /** The lower half of the ranges, which is all that most results need. */
  ghost predicate Counts(tr: Trace) {
    AllCounts(tr.i) && AllCounts(tr.e) && AllCounts(tr.d) && AllCounts(tr.o) && AllCounts(tr.c)
  }

  lemma BoundedCounts(tr: Trace, maxIn: int, maxEnq: int, maxDeq: int, cap: int)
    requires Bounded(tr, maxIn, maxEnq, maxDeq, cap)
    ensures Counts(tr)
  {
  }

  /** The sum of the first n entries, component by component. */
  function Cumulative(vs: seq<Vec>, n: nat, k: nat): (v: Vec)
    requires n <= |vs| && forall j :: 0 <= j < n ==> |vs[j]| == k
    ensures |v| == k
  {
    if n == 0 then Zero(k) else Add(Cumulative(vs, n - 1, k), vs[n - 1])
  }

  function Min(a: int, b: int): int {
    if a < b then a else b
  }

  /** enq_deq_sum at step j, the same for both kinds of buffer */
  ghost predicate SplitAt(tr: Trace, k: nat, j: nat)
    requires j < |tr.i| && j < |tr.e| && j < |tr.d| && |tr.e[j]| == |tr.d[j]| == k
  {
    tr.i[j] == Add(tr.e[j], tr.d[j])
  }

  /** enq_deq_sum */
  method EnqDeqSum(tr: Trace, steps: nat, k: nat) returns (ok: bool)
    requires Shaped(tr, steps, k) && steps > 0
    ensures ok <==> forall j :: 0 <= j < steps ==> SplitAt(tr, k, j)
  {
    ok := tr.i[0] == Add(tr.e[0], tr.d[0]);
    assert ok <==> SplitAt(tr, k, 0);
    for j := 1 to steps
      invariant ok <==> forall t :: 0 <= t < j ==> SplitAt(tr, k, t)
    {
      ghost var before := ok;
      ok := ok && tr.i[j] == Add(tr.e[j], tr.d[j]);
      assert ok <==> before && SplitAt(tr, k, j);
    }
  }
}
