/**
  The buffer relation of src/sts_checker.cpp.  In step j the packets to choose from are the backlog
  of the previous step and the new enqueues: O[j] is drawn from C[j-1] + E[j].
 */
module StsBuffer {
  import opened CountVectors
  import opened BufferTrace

  /** The backlog before step j; nothing before step 0. */
  function Before(tr: Trace, k: nat, j: nat): (v: Vec)
    requires j < |tr.c| && (j > 0 ==> |tr.c[j - 1]| == k)
    ensures |v| == k
  {
    if j == 0 then Zero(k) else tr.c[j - 1]
  }

  /** The packets that step j can send. */
  function Offered(tr: Trace, k: nat, j: nat): (v: Vec)
    requires j < |tr.c| && (j > 0 ==> |tr.c[j - 1]| == k) && j < |tr.e| && |tr.e[j]| == k
    ensures |v| == k
  {
    Add(Before(tr, k, j), tr.e[j])
  }

  ghost predicate StepShaped(tr: Trace, k: nat, j: nat) {
    && j < |tr.i| && j < |tr.e| && j < |tr.d| && j < |tr.o| && j < |tr.c| && j < |tr.b|
    && |tr.i[j]| == k && |tr.e[j]| == k && |tr.d[j]| == k && |tr.o[j]| == k && |tr.c[j]| == k
    && (j > 0 ==> |tr.c[j - 1]| == k)
  }

  /** bl_size at step j; the flag of step 0 is set by enqs. */
  ghost predicate BacklogAt(tr: Trace, k: nat, j: nat)
    requires StepShaped(tr, k, j)
  {
    && (j > 0 ==> tr.b[j] == (Sum(Offered(tr, k, j)) > 0))
    && tr.c[j] == Sub(Offered(tr, k, j), tr.o[j])
  }

  /** enqs at step j */
  ghost predicate EnqueueAt(tr: Trace, k: nat, cap: int, j: nat)
    requires StepShaped(tr, k, j)
  {
    && Sum(Offered(tr, k, j)) <= cap
    && (j == 0 ==> tr.b[j] == (Sum(Offered(tr, k, j)) > 0))
  }

  /** drops at step j */
  ghost predicate DropAt(tr: Trace, k: nat, cap: int, j: nat)
    requires StepShaped(tr, k, j)
  {
    if tr.b[j] then Sum(tr.d[j]) > 0 ==> Sum(Offered(tr, k, j)) == cap else Sum(tr.d[j]) == 0
  }

  ghost predicate StepOk(tr: Trace, k: nat, cap: int, j: nat) {
    && StepShaped(tr, k, j)
    && BacklogAt(tr, k, j) && EnqueueAt(tr, k, cap, j) && DropAt(tr, k, cap, j) && SplitAt(tr, k, j)
  }

  /** inputs(i) without the window variables, together with the lower bounds of the ranges. */
  ghost predicate BufferRun(tr: Trace, steps: nat, k: nat, cap: int) {
    && Shaped(tr, steps, k) && Counts(tr)
    && forall j :: 0 <= j < steps ==> StepOk(tr, k, cap, j)
  }

  // ---------------------------------------------------------------- the constraint builder

  lemma OfferedAtStart(tr: Trace, k: nat)
    requires StepShaped(tr, k, 0)
    ensures Offered(tr, k, 0) == tr.e[0]
  {
  }

  /** bl_size */
  method BlSize(tr: Trace, steps: nat, k: nat) returns (ok: bool)
    requires Shaped(tr, steps, k) && steps > 0
    ensures ok <==> forall j :: 0 <= j < steps ==> BacklogAt(tr, k, j)
  {
    OfferedAtStart(tr, k);
    ok := tr.c[0] == Sub(tr.e[0], tr.o[0]);
    assert ok <==> BacklogAt(tr, k, 0);
    for j := 1 to steps
      invariant ok <==> forall t :: 0 <= t < j ==> BacklogAt(tr, k, t)
    {
      assert StepShaped(tr, k, j);
      ghost var before := ok;
      ok := ok && tr.b[j] == (Sum(Add(tr.c[j - 1], tr.e[j])) > 0);
      ok := ok && tr.c[j] == Sub(Add(tr.c[j - 1], tr.e[j]), tr.o[j]);
      assert ok <==> before && BacklogAt(tr, k, j);
    }
  }

  /** enqs */
  method Enqs(tr: Trace, steps: nat, k: nat, cap: int) returns (ok: bool)
    requires Shaped(tr, steps, k) && steps > 0
    ensures ok <==> forall j :: 0 <= j < steps ==> EnqueueAt(tr, k, cap, j)
  {
    OfferedAtStart(tr, k);
    ok := Sum(tr.e[0]) <= cap && tr.b[0] == (Sum(tr.e[0]) > 0);
    assert ok <==> EnqueueAt(tr, k, cap, 0);
    for j := 1 to steps
      invariant ok <==> forall t :: 0 <= t < j ==> EnqueueAt(tr, k, cap, t)
    {
      assert StepShaped(tr, k, j);
      ghost var before := ok;
      ok := ok && Sum(Add(tr.e[j], tr.c[j - 1])) <= cap;
      assert Add(tr.e[j], tr.c[j - 1]) == Offered(tr, k, j);
      assert ok <==> before && EnqueueAt(tr, k, cap, j);
    }
  }

  /** drops */
  method Drops(tr: Trace, steps: nat, k: nat, cap: int) returns (ok: bool)
    requires Shaped(tr, steps, k) && steps > 0
    ensures ok <==> forall j :: 0 <= j < steps ==> DropAt(tr, k, cap, j)
  {
    OfferedAtStart(tr, k);
    ok := if tr.b[0] then Sum(tr.d[0]) > 0 ==> Sum(tr.e[0]) == cap else Sum(tr.d[0]) == 0;
    assert ok <==> DropAt(tr, k, cap, 0);
    for j := 1 to steps
      invariant ok <==> forall t :: 0 <= t < j ==> DropAt(tr, k, cap, t)
    {
      assert StepShaped(tr, k, j);
      ghost var before := ok;
      ok := ok && if tr.b[j] then Sum(tr.d[j]) > 0 ==> Sum(Add(tr.c[j - 1], tr.e[j])) == cap else Sum(tr.d[j]) == 0;
      assert ok <==> before && DropAt(tr, k, cap, j);
    }
  }

  // ---------------------------------------------------------------- facts about one step

  lemma RunStep(tr: Trace, steps: nat, k: nat, cap: int, j: nat)
    requires BufferRun(tr, steps, k, cap) && j < steps
    ensures StepShaped(tr, k, j)
    ensures NonNegative(Before(tr, k, j)) && NonNegative(Offered(tr, k, j))
    ensures tr.b[j] == (Sum(Offered(tr, k, j)) > 0)
    ensures tr.c[j] == Sub(Offered(tr, k, j), tr.o[j])
    ensures 0 <= Sum(Before(tr, k, j)) && Sum(Offered(tr, k, j)) == Sum(Before(tr, k, j)) + Sum(tr.e[j]) <= cap
    ensures Sum(tr.c[j]) == Sum(Offered(tr, k, j)) - Sum(tr.o[j]) >= 0
    ensures Sum(tr.i[j]) == Sum(tr.e[j]) + Sum(tr.d[j])
    ensures Sum(tr.e[j]) >= 0 && Sum(tr.d[j]) >= 0 && Sum(tr.o[j]) >= 0
  {
    assert StepOk(tr, k, cap, j);
    SumAdd(Before(tr, k, j), tr.e[j]);
    SumSub(Offered(tr, k, j), tr.o[j]);
    SumAdd(tr.e[j], tr.d[j]);
    SumOfCounts(tr.c[j]);
    SumOfCounts(tr.e[j]);
    SumOfCounts(tr.d[j]);
    SumOfCounts(tr.o[j]);
    SumOfCounts(Before(tr, k, j));
  }

  /** What the relation says about the totals of one step: room c - before, offered i, enqueued e, dropped d. */
  ghost predicate StepTotals(before: int, i: int, e: int, d: int, cap: int) {
    && i == e + d
    && before + e <= cap
    && if before + e > 0 then d > 0 ==> before + e == cap else d == 0
  }

  /**
    Tail drop is exact: the constraints on one step admit a split of the input into enqueues and drops
    if and only if as much is enqueued as there is room for.
   */
  lemma TailDropExact(before: int, i: int, e: int, d: int, cap: int)
    requires 0 <= before <= cap && 1 <= cap && e >= 0 && d >= 0
    ensures StepTotals(before, i, e, d, cap) <==> i == e + d && e == Min(i, cap - before)
  {
  }

  lemma RunTailDrop(tr: Trace, steps: nat, k: nat, cap: int, j: nat)
    requires BufferRun(tr, steps, k, cap) && 1 <= cap && j < steps
    ensures Sum(tr.e[j]) == Min(Sum(tr.i[j]), cap - Sum(Before(tr, k, j)))
    ensures Sum(tr.d[j]) == Sum(tr.i[j]) - Sum(tr.e[j])
  {
    RunStep(tr, steps, k, cap, j);
    assert StepOk(tr, k, cap, j);
    TailDropExact(Sum(Before(tr, k, j)), Sum(tr.i[j]), Sum(tr.e[j]), Sum(tr.d[j]), cap);
  }

  /** One step of the two balances, component by component. */
  lemma BalanceStep(e: Vec, o: Vec, c: Vec, after: Vec, moreE: Vec, moreO: Vec, k: nat)
    requires |e| == |o| == |c| == |after| == |moreE| == |moreO| == k
    requires e == Add(o, c) && after == Sub(Add(c, moreE), moreO)
    ensures Add(e, moreE) == Add(Add(o, moreO), after)
  {
  }

  lemma SplitStep(i: Vec, e: Vec, d: Vec, moreI: Vec, moreE: Vec, moreD: Vec, k: nat)
    requires |i| == |e| == |d| == |moreI| == |moreE| == |moreD| == k
    requires i == Add(e, d) && moreI == Add(moreE, moreD)
    ensures Add(i, moreI) == Add(Add(e, moreE), Add(d, moreD))
  {
  }

  lemma NothingYet(tr: Trace, k: nat)
    requires |tr.e| > 0 && |tr.o| > 0 && |tr.i| > 0 && |tr.d| > 0
    ensures Cumulative(tr.e, 0, k) == Cumulative(tr.o, 0, k) == Cumulative(tr.i, 0, k) == Cumulative(tr.d, 0, k)
            == Zero(k)
    ensures Zero(k) == Add(Zero(k), Zero(k))
  {
  }

  /** Per type, everything enqueued has left or is still there, and everything offered was enqueued or dropped. */
  lemma {:induction false} Conservation(tr: Trace, steps: nat, k: nat, cap: int, n: nat)
    requires BufferRun(tr, steps, k, cap) && 0 < n <= steps
    ensures Cumulative(tr.e, n, k) == Add(Cumulative(tr.o, n, k), tr.c[n - 1])
    ensures Cumulative(tr.i, n, k) == Add(Cumulative(tr.e, n, k), Cumulative(tr.d, n, k))
  {
    var j := n - 1;
    RunStep(tr, steps, k, cap, j);
    assert StepOk(tr, k, cap, j);
    if j == 0 {
      NothingYet(tr, k);
    } else {
      Conservation(tr, steps, k, cap, j);
    }
    BalanceStep(Cumulative(tr.e, j, k), Cumulative(tr.o, j, k), Before(tr, k, j), tr.c[j], tr.e[j], tr.o[j], k);
    SplitStep(Cumulative(tr.i, j, k), Cumulative(tr.e, j, k), Cumulative(tr.d, j, k), tr.i[j], tr.e[j], tr.d[j], k);
  }
}
