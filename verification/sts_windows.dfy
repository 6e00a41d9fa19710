/** The window encoding of src/sts_checker.cpp (winds), which forgets the packets carried over. */
module StsWindows {
  import opened CountVectors
  import opened BufferTrace
  import opened StsBuffer
  import L = LeafBuffer

  /**
    When a window closes, the next one starts from wnd_enq_nxt of the same step, which the same
    constraint sets to 0, and not from the step before: the packets carried over are read from y.
   */
  ghost predicate ForgetfulStep(x: L.Window, e: Vec, o: Vec, se: Vec, sn: Vec, y: L.Window, k: nat, cap: int)
    requires L.WindowOf(x, k) && L.WindowOf(y, k) && |e| == k && |o| == k && |se| == k && |sn| == k
  {
    L.WindowStepFrom(y.nxt, x, e, o, se, sn, y, k, cap)
  }

  /** winds at step j */
  ghost predicate WindowAt(tr: Trace, w: L.Windows, k: nat, cap: int, j: nat)
    requires L.WindowStepShaped(tr, w, k, j)
  {
    if j == 0 then
      w.enq[0] == tr.e[0] && w.out[0] == tr.o[0] && Sum(w.nxt[0]) == 0
    else
      ForgetfulStep(L.At(w, j - 1), tr.e[j], tr.o[j], w.tmpEnq[j], w.tmpNxt[j], L.At(w, j), k, cap)
  }

  ghost predicate WindowStepOk(tr: Trace, w: L.Windows, k: nat, cap: int, j: nat) {
    L.WindowStepShaped(tr, w, k, j) && WindowAt(tr, w, k, cap, j)
  }

  ghost predicate WindowRun(tr: Trace, w: L.Windows, steps: nat, k: nat, cap: int) {
    && L.WindowShaped(w, steps, k) && L.WindowBounded(w, cap)
    && forall j :: 0 <= j < steps ==> WindowStepOk(tr, w, k, cap, j)
  }

  /** The carried-over packets that a closing step forgets. */
  function Forgotten(x: L.Window, o: Vec, se: Vec, k: nat): (v: Vec)
    requires L.WindowOf(x, k) && |o| == |se| == k
    ensures |v| == k
  {
    if L.Closes(se, Add(x.out, o)) then x.nxt else Zero(k)
  }

  lemma HeldStep(x: L.Window, e: Vec, o: Vec, se: Vec, sn: Vec, y: L.Window, k: nat, cap: int)
    requires L.WindowOf(x, k) && L.WindowOf(y, k) && |e| == |o| == |se| == |sn| == k
    requires ForgetfulStep(x, e, o, se, sn, y, k, cap)
    ensures Add(L.Held(y, k), Forgotten(x, o, se, k)) == Sub(Add(L.Held(x, k), e), o)
  {
    L.HeldStep(y.nxt, x, e, o, se, sn, y, k, cap);
    assert L.Missing(y.nxt, x, o, se, k) == Forgotten(x, o, se, k);
  }

  /** Step j does not close a window that has packets carried over behind it. */
  ghost predicate KeepsAll(tr: Trace, w: L.Windows, k: nat, j: nat)
    requires L.WindowStepShaped(tr, w, k, j)
  {
    j > 0 && L.Closes(w.tmpEnq[j], Add(w.out[j - 1], tr.o[j])) ==> w.nxt[j - 1] == Zero(k)
  }

  ghost predicate KeepsAllTo(tr: Trace, w: L.Windows, k: nat, j: nat)
    requires forall t :: 0 <= t <= j ==> L.WindowStepShaped(tr, w, k, t)
  {
    forall t :: 0 <= t <= j ==> KeepsAll(tr, w, k, t)
  }

  lemma RunWindowsShaped(tr: Trace, w: L.Windows, steps: nat, k: nat, cap: int)
    requires WindowRun(tr, w, steps, k, cap)
    ensures forall t :: 0 <= t < steps ==> L.WindowStepShaped(tr, w, k, t)
  {
    forall t | 0 <= t < steps
      ensures L.WindowStepShaped(tr, w, k, t)
    {
      assert WindowStepOk(tr, w, k, cap, t);
    }
  }

  lemma KeepsAllNext(tr: Trace, w: L.Windows, k: nat, j: nat)
    requires j > 0 && (forall t :: 0 <= t <= j ==> L.WindowStepShaped(tr, w, k, t)) && L.WindowStepShaped(tr, w, k, j)
    ensures KeepsAllTo(tr, w, k, j)
            <==> KeepsAllTo(tr, w, k, j - 1) && Forgotten(L.At(w, j - 1), tr.o[j], w.tmpEnq[j], k) == Zero(k)
  {
    assert KeepsAllTo(tr, w, k, j) <==> KeepsAllTo(tr, w, k, j - 1) && KeepsAll(tr, w, k, j);
  }

  /** Adding a forgotten amount to an accounting that never exceeds the backlog. */
  lemma DeficitStep(held: Vec, lost: Vec, c: Vec, held0: Vec, c0: Vec, e: Vec, o: Vec, k: nat)
    requires |held| == |lost| == |c| == |held0| == |c0| == |e| == |o| == k
    requires Add(held, lost) == Sub(Add(held0, e), o) && c == Sub(Add(c0, e), o)
    requires LeV(held0, c0) && NonNegative(lost)
    ensures LeV(held, c)
    ensures c == held <==> c0 == held0 && lost == Zero(k)
  {
    forall t | 0 <= t < k
      ensures held[t] + lost[t] == held0[t] + e[t] - o[t] && c[t] == c0[t] + e[t] - o[t] && held0[t] <= c0[t]
    {
      assert Add(held, lost)[t] == Sub(Add(held0, e), o)[t];
    }
    if c == held {
      assert forall t :: 0 <= t < k ==> c0[t] == held0[t] && lost[t] == 0;
    }
  }

  /**
    The windows account for the backlog after step j exactly when no closing step so far had packets
    carried over; otherwise they hold too few packets, and from then on always.
   */
  lemma {:induction false} AccountsExactly(tr: Trace, w: L.Windows, steps: nat, k: nat, cap: int, j: nat)
    requires BufferRun(tr, steps, k, cap) && WindowRun(tr, w, steps, k, cap) && j < steps
    ensures forall t :: 0 <= t < steps ==> L.WindowStepShaped(tr, w, k, t)
    ensures LeV(L.Held(L.At(w, j), k), tr.c[j])
    ensures tr.c[j] == L.Held(L.At(w, j), k) <==> KeepsAllTo(tr, w, k, j)
  {
    RunWindowsShaped(tr, w, steps, k, cap);
    assert StepOk(tr, k, cap, j) && WindowStepOk(tr, w, k, cap, j);
    if j == 0 {
      SumOfCounts(w.nxt[0]);
      OfferedAtStart(tr, k);
    } else {
      AccountsExactly(tr, w, steps, k, cap, j - 1);
      var x, y := L.At(w, j - 1), L.At(w, j);
      HeldStep(x, tr.e[j], tr.o[j], w.tmpEnq[j], w.tmpNxt[j], y, k, cap);
      DeficitStep(L.Held(y, k), Forgotten(x, tr.o[j], w.tmpEnq[j], k), tr.c[j], L.Held(x, k), tr.c[j - 1], tr.e[j],
        tr.o[j], k);
      KeepsAllNext(tr, w, k, j);
    }
  }

  // ---------------------------------------------------------------- the constraint builder

  /** winds */
  method Winds(tr: Trace, w: L.Windows, steps: nat, k: nat, cap: int) returns (ok: bool)
    requires Shaped(tr, steps, k) && L.WindowShaped(w, steps, k) && steps > 0
    ensures ok <==> forall j :: 0 <= j < steps ==> WindowStepOk(tr, w, k, cap, j)
  {
    ok := w.enq[0] == tr.e[0];
    ok := ok && w.out[0] == tr.o[0];
    ok := ok && Sum(w.nxt[0]) == 0;
    assert ok <==> WindowStepOk(tr, w, k, cap, 0);
    for j := 1 to steps
      invariant ok <==> forall t :: 0 <= t < j ==> WindowStepOk(tr, w, k, cap, t)
    {
      assert L.WindowStepShaped(tr, w, k, j);
      ghost var before := ok;
      var se, sn := w.tmpEnq[j], w.tmpNxt[j];
      ok := ok && Add(w.enq[j - 1], tr.e[j]) == Add(se, sn);
      var to := Add(w.out[j - 1], tr.o[j]);
      var constr := if LeV(se, to) then
          w.enq[j] == Add(w.nxt[j], sn) && w.nxt[j] == Zero(k) && w.out[j] == Sub(to, se)
        else
          w.enq[j] == se && w.nxt[j] == Add(w.nxt[j - 1], sn) && w.out[j] == to;
      constr := constr && Sum(se) <= cap && Sum(sn) <= cap - 1 && Sum(sn) >= 0 && Sum(se) >= 0 && Sum(to) >= 0
                && Sum(to) <= 2 * cap && Sum(w.nxt[j]) < cap;
      constr := constr && LeV(w.enq[j - 1], se);
      constr := constr && (Sum(sn) > 0 ==> Sum(se) == cap);
      constr := constr && (Sum(se) < cap ==> Sum(sn) == 0);
      constr := constr && !(Sum(se) < cap && Sum(sn) > 0);
      ok := ok && constr;
      ok := ok && LeV(w.out[j], w.enq[j]);
      assert ok <==> before && WindowStepOk(tr, w, k, cap, j);
    }
  }

  /** inputs(i): the four families of the buffer and, with use_win, the windows. */
  method Inputs(tr: Trace, w: L.Windows, steps: nat, k: nat, cap: int, useWin: bool) returns (ok: bool)
    requires Shaped(tr, steps, k) && Counts(tr) && L.WindowShaped(w, steps, k) && L.WindowBounded(w, cap) && steps > 0
    ensures ok <==> BufferRun(tr, steps, k, cap) && (useWin ==> WindowRun(tr, w, steps, k, cap))
  {
    var bl := BlSize(tr, steps, k);
    var enq := Enqs(tr, steps, k, cap);
    var drop := Drops(tr, steps, k, cap);
    var split := EnqDeqSum(tr, steps, k);
    ok := bl && enq && drop && split;
    assert forall j :: 0 <= j < steps ==>
             (StepOk(tr, k, cap, j) <==>
              && BacklogAt(tr, k, j) && EnqueueAt(tr, k, cap, j) && DropAt(tr, k, cap, j) && SplitAt(tr, k, j));
    if useWin {
      var wins := Winds(tr, w, steps, k, cap);
      ok := ok && wins;
    }
  }
}
