/**
  What the window variables of src/leaf_spine/leaf_base.cpp (winds) account for: backlog, enqueues
  and outputs, per packet type, on every run.
 */
module WindowAccounting {
  import opened CountVectors
  import opened BufferTrace
  import opened LeafBuffer

  /** The backlog left by step j; it is C[j+1] when there is a next step. */
  function Left(tr: Trace, k: nat, j: nat): (v: Vec)
    requires StepShaped(tr, k, j)
    ensures |v| == k
  {
    Sub(Add(tr.c[j], tr.e[j]), tr.o[j])
  }

  lemma NothingMissing(x: Window, o: Vec, se: Vec, held: Vec, k: nat)
    requires WindowOf(x, k) && |o| == |se| == |held| == k
    ensures Add(held, Missing(x.nxt, x, o, se, k)) == held
  {
  }

  /** Backlog equals the packets of the windows minus the outputs taken from the current one. */
  lemma {:induction false} Equity(tr: Trace, w: Windows, steps: nat, k: nat, cap: int, j: nat)
    requires BufferRun(tr, steps, k, cap) && WindowRun(tr, w, steps, k, cap) && j < steps
    ensures StepShaped(tr, k, j) && WindowStepShaped(tr, w, k, j)
    ensures Left(tr, k, j) == Held(At(w, j), k)
    ensures j + 1 < steps ==> tr.c[j + 1] == Held(At(w, j), k)
  {
    assert StepOk(tr, k, cap, j) && WindowStepOk(tr, w, k, cap, j);
    if j == 0 {
      SumOfCounts(tr.c[0]);
      SumOfCounts(w.nxt[0]);
    } else {
      Equity(tr, w, steps, k, cap, j - 1);
      var x := At(w, j - 1);
      HeldStep(x.nxt, x, tr.e[j], tr.o[j], w.tmpEnq[j], w.tmpNxt[j], At(w, j), k, cap);
      NothingMissing(x, tr.o[j], w.tmpEnq[j], Held(At(w, j), k), k);
    }
    assert j + 1 < steps ==> StepOk(tr, k, cap, j + 1);
  }

  /** The totals of all windows that have closed by step j. */
  function ClosedTotal(tr: Trace, w: Windows, k: nat, j: nat): (v: Vec)
    requires forall t :: 0 <= t <= j ==> WindowStepShaped(tr, w, k, t)
    ensures |v| == k
  {
    if j == 0 then
      Zero(k)
    else
      assert WindowStepShaped(tr, w, k, j);
      var before := ClosedTotal(tr, w, k, j - 1);
      if Closes(w.tmpEnq[j], Add(w.out[j - 1], tr.o[j])) then Add(before, w.tmpEnq[j]) else before
  }

  lemma RunWindowsShaped(tr: Trace, w: Windows, steps: nat, k: nat, cap: int)
    requires WindowRun(tr, w, steps, k, cap)
    ensures forall t :: 0 <= t < steps ==> WindowStepShaped(tr, w, k, t)
  {
    forall t | 0 <= t < steps
      ensures WindowStepShaped(tr, w, k, t)
    {
      assert WindowStepOk(tr, w, k, cap, t);
    }
  }

  lemma TotalsStep(closed: Vec, x: Window, e: Vec, o: Vec, se: Vec, sn: Vec, y: Window, k: nat, cap: int)
    requires |closed| == k && WindowOf(x, k) && WindowOf(y, k) && |e| == |o| == |se| == |sn| == k
    requires WindowStep(x, e, o, se, sn, y, k, cap)
    ensures var closed' := if Closes(se, Add(x.out, o)) then Add(closed, se) else closed;
            && Add(Add(closed, x.out), o) == Add(closed', y.out)
            && Add(Add(Add(closed, x.enq), x.nxt), e) == Add(Add(closed', y.enq), y.nxt)
  {
    var closed' := if Closes(se, Add(x.out, o)) then Add(closed, se) else closed;
    forall t | 0 <= t < k
      ensures closed[t] + x.out[t] + o[t] == closed'[t] + y.out[t]
      ensures closed[t] + x.enq[t] + x.nxt[t] + e[t] == closed'[t] + y.enq[t] + y.nxt[t]
    {
      assert Add(x.enq, e)[t] == Add(se, sn)[t];
    }
  }

  lemma {:induction false} Totals(tr: Trace, w: Windows, steps: nat, k: nat, cap: int, j: nat)
    requires Shaped(tr, steps, k) && WindowRun(tr, w, steps, k, cap) && j < steps
    ensures forall t :: 0 <= t < steps ==> WindowStepShaped(tr, w, k, t)
    ensures Cumulative(tr.o, j + 1, k) == Add(ClosedTotal(tr, w, k, j), w.out[j])
    ensures Cumulative(tr.e, j + 1, k) == Add(Add(ClosedTotal(tr, w, k, j), w.enq[j]), w.nxt[j])
  {
    RunWindowsShaped(tr, w, steps, k, cap);
    assert WindowStepOk(tr, w, k, cap, j);
    if j == 0 {
      SumOfCounts(w.nxt[0]);
      assert Cumulative(tr.o, 0, k) == Zero(k) && Cumulative(tr.e, 0, k) == Zero(k);
    } else {
      Totals(tr, w, steps, k, cap, j - 1);
      TotalsStep(ClosedTotal(tr, w, k, j - 1), At(w, j - 1), tr.e[j], tr.o[j], w.tmpEnq[j], w.tmpNxt[j], At(w, j), k,
        cap);
    }
  }

  /**
    Cumulative outputs lie, per type, between the closed windows and the closed windows plus the
    current one: nothing leaves from behind the current window before it closes.
   */
  lemma WindowSandwich(tr: Trace, w: Windows, steps: nat, k: nat, cap: int, j: nat)
    requires Shaped(tr, steps, k) && WindowRun(tr, w, steps, k, cap) && 0 < j < steps
    ensures forall t :: 0 <= t < steps ==> WindowStepShaped(tr, w, k, t)
    ensures LeV(ClosedTotal(tr, w, k, j), Cumulative(tr.o, j + 1, k))
    ensures LeV(Cumulative(tr.o, j + 1, k), Add(ClosedTotal(tr, w, k, j), w.enq[j]))
    ensures LeV(Cumulative(tr.o, j + 1, k), Sub(Cumulative(tr.e, j + 1, k), w.nxt[j]))
  {
    assert WindowStepOk(tr, w, k, cap, j);
    Totals(tr, w, steps, k, cap, j);
  }
}
