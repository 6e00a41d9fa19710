/** What the window relation of a VOQ says about order: windows are in order, their insides are not. */
module WindowOrder {
  import opened CountVectors
  import opened BufferTrace
  import opened FifoHistories
  import opened LeafBuffer
  import opened WindowAccounting

  /** Packets wait behind the current window only when it is full. */
  lemma {:induction false} OverflowMeansFull(tr: Trace, w: Windows, m: nat, k: nat, cap: int, j: nat)
    requires Shaped(tr, m, k) && WindowRun(tr, w, m, k, cap) && j < m
    ensures WindowStepShaped(tr, w, k, j)
    ensures Sum(w.nxt[j]) > 0 ==> Sum(w.enq[j]) == cap
    ensures NonNegative(w.enq[j]) && NonNegative(w.nxt[j]) && NonNegative(w.out[j]) && NonNegative(w.tmpEnq[j])
    ensures NonNegative(w.tmpNxt[j])
  {
    assert WindowStepOk(tr, w, k, cap, j);
    if j == 0 {
    } else {
      OverflowMeansFull(tr, w, m, k, cap, j - 1);
      SumAdd(w.nxt[j - 1], w.tmpNxt[j]);
      SumMonotone(w.enq[j - 1], w.tmpEnq[j]);
      SumZero(k);
    }
  }

  /**
    Where a total a stands against the closed windows and the current one: between the closed windows
    and the current one's end, or, behind a full window, between its end and the packets that wait.
   */
  ghost predicate Stands(a: Vec, closed: Vec, enq: Vec, nxt: Vec) {
    && |a| == |closed| == |enq| == |nxt|
    && ( || (Comparable(closed, a) && LeV(a, Add(closed, enq)))
         || (Sum(nxt) > 0 && LeV(Add(closed, enq), a) && LeV(a, Add(Add(closed, enq), nxt))))
  }

  /** A window step keeps where a total stands. */
  lemma StandsStep(a: Vec, closed: Vec, x: Window, e: Vec, o: Vec, se: Vec, sn: Vec, y: Window, k: nat, cap: int)
    requires |closed| == k && WindowOf(x, k) && WindowOf(y, k) && |e| == |o| == |se| == |sn| == k
    requires WindowStep(x, e, o, se, sn, y, k, cap)
    requires NonNegative(x.enq) && NonNegative(x.nxt) && NonNegative(sn) && (Sum(x.nxt) > 0 ==> Sum(x.enq) == cap)
    requires Stands(a, closed, x.enq, x.nxt)
    ensures Stands(a, if Closes(se, Add(x.out, o)) then Add(closed, se) else closed, y.enq, y.nxt)
  {
    if !(Comparable(closed, a) && LeV(a, Add(closed, x.enq))) {
      SumMonotone(x.enq, se);
      SameIfSameSum(x.enq, se);
      SumAdd(x.nxt, sn);
      SumOfCounts(sn);
    }
  }

  lemma {:induction false} StandsLater(tr: Trace, w: Windows, m: nat, k: nat, cap: int, a: Vec, t: nat, j: nat)
    requires Shaped(tr, m, k) && WindowRun(tr, w, m, k, cap) && t <= j < m
    requires forall s :: 0 <= s < m ==> WindowStepShaped(tr, w, k, s)
    requires Stands(a, ClosedTotal(tr, w, k, t), w.enq[t], w.nxt[t])
    ensures Stands(a, ClosedTotal(tr, w, k, j), w.enq[j], w.nxt[j])
  {
    if t < j {
      StandsLater(tr, w, m, k, cap, a, t, j - 1);
      OverflowMeansFull(tr, w, m, k, cap, j - 1);
      OverflowMeansFull(tr, w, m, k, cap, j);
      assert WindowStepOk(tr, w, k, cap, j);
      StandsStep(a, ClosedTotal(tr, w, k, j - 1), At(w, j - 1), tr.e[j], tr.o[j], w.tmpEnq[j], w.tmpNxt[j], At(w, j),
        k, cap);
    }
  }

  lemma {:induction false} ClosedGrows(tr: Trace, w: Windows, m: nat, k: nat, cap: int, i: nat, j: nat)
    requires Shaped(tr, m, k) && WindowRun(tr, w, m, k, cap) && i <= j < m
    requires forall s :: 0 <= s < m ==> WindowStepShaped(tr, w, k, s)
    ensures LeV(ClosedTotal(tr, w, k, i), ClosedTotal(tr, w, k, j))
  {
    if i < j {
      ClosedGrows(tr, w, m, k, cap, i, j - 1);
      OverflowMeansFull(tr, w, m, k, cap, j);
    }
  }

  /** At its own step a total of enqueues or outputs stands at the current window. */
  lemma TotalsStand(tr: Trace, w: Windows, m: nat, k: nat, cap: int, t: nat)
    requires BufferRun(tr, m, k, cap) && SendsWhenBacklogged(tr, m) && WindowRun(tr, w, m, k, cap) && t < m
    requires forall s :: 0 <= s < m ==> WindowStepShaped(tr, w, k, s)
    ensures Stands(Cumulative(tr.e, t + 1, k), ClosedTotal(tr, w, k, t), w.enq[t], w.nxt[t])
    ensures Stands(Cumulative(tr.o, t + 1, k), ClosedTotal(tr, w, k, t), w.enq[t], w.nxt[t])
    ensures LeV(ClosedTotal(tr, w, k, t), Cumulative(tr.e, t + 1, k))
    ensures LeV(ClosedTotal(tr, w, k, t), Cumulative(tr.o, t + 1, k))
  {
    Totals(tr, w, m, k, cap, t);
    OverflowMeansFull(tr, w, m, k, cap, t);
    SumOfCounts(w.nxt[t]);
    assert WindowStepOk(tr, w, k, cap, t) && StepOk(tr, k, cap, t);
    if t == 0 {
      SumOfCounts(tr.o[0]);
    }
  }

  /**
    Windows keep order only at their ends: the total of the closed windows is comparable with the
    enqueues and with the outputs up to every step.  Enqueues and outputs inside one window need not be
    comparable with each other.
   */
  lemma WindowEndsComparable(tr: Trace, w: Windows, m: nat, k: nat, cap: int, j: nat, t: nat)
    requires BufferRun(tr, m, k, cap) && SendsWhenBacklogged(tr, m) && WindowRun(tr, w, m, k, cap) && j < m && t < m
    ensures forall s :: 0 <= s < m ==> WindowStepShaped(tr, w, k, s)
    ensures Comparable(ClosedTotal(tr, w, k, j), Cumulative(tr.e, t + 1, k))
    ensures Comparable(ClosedTotal(tr, w, k, j), Cumulative(tr.o, t + 1, k))
  {
    RunWindowsShaped(tr, w, m, k, cap);
    TotalsStand(tr, w, m, k, cap, t);
    if t <= j {
      StandsLater(tr, w, m, k, cap, Cumulative(tr.e, t + 1, k), t, j);
      StandsLater(tr, w, m, k, cap, Cumulative(tr.o, t + 1, k), t, j);
      OverflowMeansFull(tr, w, m, k, cap, j);
    } else {
      ClosedGrows(tr, w, m, k, cap, j, t);
    }
  }

  // ---------------------------------------------------------------- inside a window

  /** Capacity 2: type 0 arrives, then type 1, and then the packet of type 1 leaves first. */
  function Overtaking(): Trace {
    var none := Pair(0, 0);
    var arrivals := [Pair(1, 0), Pair(0, 1), none];
    Trace(arrivals, arrivals, [none, none, none], [none, none, Pair(0, 1)],
          [none, Pair(1, 0), Pair(1, 1)], [false, true, true])
  }

  function OneWindow(): Windows {
    var none := Pair(0, 0);
    var filled := [Pair(1, 0), Pair(1, 1), Pair(1, 1)];
    Windows(filled, [none, none, none], [none, none, Pair(0, 1)], filled, [none, none, none])
  }

  lemma OvertakingStep(j: nat)
    requires j < 3
    ensures StepOk(Overtaking(), 2, 2, j)
  {
    var c, e, o := Overtaking().c[j], Overtaking().e[j], Overtaking().o[j];
    PairSum(c[0], c[1]);
    PairSum(e[0], e[1]);
    PairSum(0, 0);
    PairSum(e[0] + c[0], e[1] + c[1]);
    if j > 0 {
      var b, f, p := Overtaking().c[j - 1], Overtaking().e[j - 1], Overtaking().o[j - 1];
    }
  }

  lemma OvertakingWindow(j: nat)
    requires j < 3
    ensures WindowStepOk(Overtaking(), OneWindow(), 2, 2, j)
  {
    PairSum(0, 0);
    PairSum(1, 1);
    PairSum(0, 1);
    if j > 0 {
    }
  }

  lemma OvertakingIsRun()
    ensures BufferRun(Overtaking(), 3, 2, 2) && SendsWhenBacklogged(Overtaking(), 3)
    ensures WindowRun(Overtaking(), OneWindow(), 3, 2, 2)
  {
    forall j | 0 <= j < 3
      ensures StepOk(Overtaking(), 2, 2, j) && WindowStepOk(Overtaking(), OneWindow(), 2, 2, j)
    {
      OvertakingStep(j);
      OvertakingWindow(j);
    }
    PairSum(0, 0);
    PairSum(0, 1);
  }

  /** One packet of type 0 was admitted by the end of step 0, and only one of type 1 was ever sent. */
  lemma NotInOrder(tr: Trace, m: nat, one: nat)
    requires tr == Overtaking() && m == 3 && one == 1
    ensures !InOrder(tr, m, 2)
  {
    assert Cumulative(tr.e, one, 2) == Pair(1, 0) by {
      assert Cumulative(tr.e, one - 1, 2) == Zero(2);
    }
    assert Cumulative(tr.o, m, 2) == Pair(0, 1) by {
      assert Cumulative(tr.o, m - 3, 2) == Zero(2);
      assert Cumulative(tr.o, m - 2, 2) == Pair(0, 0);
      assert Cumulative(tr.o, m - 1, 2) == Pair(0, 0);
    }
    var admitted, sent := Pair(1, 0), Pair(0, 1);
    assert admitted[0] > sent[0] && sent[1] > admitted[1];
  }

  /**
    A run of the relations, windows included, that no FIFO queue has: inside one window packets of
    different types may overtake each other.
   */
  lemma OrderInsideWindowIsFree()
    ensures BufferRun(Overtaking(), 3, 2, 2) && SendsWhenBacklogged(Overtaking(), 3)
    ensures WindowRun(Overtaking(), OneWindow(), 3, 2, 2)
    ensures !exists steps :: LeafQueueRun(steps, Overtaking(), 3, 2, 2)
  {
    OvertakingIsRun();
    LeafRunIsQueueRun(Overtaking(), 3, 2, 2);
    NotInOrder(Overtaking(), 3, 1);
  }
}
