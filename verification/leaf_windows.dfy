/** When the windows of src/leaf_spine/leaf_base.cpp (winds) exist for runs of any packet types. */
module LeafWindows {
  import opened CountVectors
  import opened BufferTrace
  import opened SplitRanges
  import opened FifoQueue
  import opened FifoSimulation
  import opened FifoHistories
  import opened FifoWindows
  import opened LeafBuffer
  import opened WindowAccounting
  import opened WindowOrder
  import WindowTotals

  // ---------------------------------------------------------------- the condition

  /** The end of the window that is current in the n-th step: how many packets were admitted up to there. */
  function End(tr: Trace, m: nat, k: nat, cap: int, n: nat): int
    requires Shaped(tr, m, k) && 0 < n <= m
    decreases n, 0
  {
    Min(Start(tr, m, k, cap, n - 1) + cap, AdmittedBefore(tr, m, k, n))
  }

  /** And its start: a window closes when as many packets have been sent as there are up to its end. */
  function Start(tr: Trace, m: nat, k: nat, cap: int, n: nat): int
    requires Shaped(tr, m, k) && n <= m
    decreases n, 1
  {
    if n <= 1 then 0
    else if SentBefore(tr, m, k, n) >= End(tr, m, k, cap, n) then End(tr, m, k, cap, n)
    else Start(tr, m, k, cap, n - 1)
  }

  /** The window closes in the n-th step. */
  predicate ClosesIn(tr: Trace, m: nat, k: nat, cap: int, n: nat)
    requires Shaped(tr, m, k) && n <= m
  {
    n > 1 && SentBefore(tr, m, k, n) >= End(tr, m, k, cap, n)
  }

  /** The first end packets admitted can contain those of sent, when those of admitted came first or last. */
  predicate Holds(admitted: Vec, sent: Vec, end: int)
    requires |admitted| == |sent|
  {
    if Sum(admitted) <= end then Sum(MaxV(admitted, sent)) <= end else LeV(sent, admitted)
  }

  /** All packets sent in the first n steps can, type by type, have been admitted before the end of the window. */
  ghost predicate OutputsFit(tr: Trace, m: nat, k: nat, cap: int, n: nat)
    requires Shaped(tr, m, k) && 0 < n <= m
  {
    forall t :: 0 <= t <= n ==> Holds(Cumulative(tr.e, t, k), Cumulative(tr.o, n, k), End(tr, m, k, cap, n))
  }

  ghost predicate AllOutputsFit(tr: Trace, m: nat, k: nat, cap: int)
    requires Shaped(tr, m, k)
  {
    forall n :: 0 < n <= m ==> OutputsFit(tr, m, k, cap, n)
  }

  // ---------------------------------------------------------------- where windows start and end

  lemma NothingSentFirst(tr: Trace, m: nat, k: nat, cap: nat)
    requires BufferRun(tr, m, k, cap) && SendsWhenBacklogged(tr, m) && m > 0
    ensures Cumulative(tr.o, 1, k) == Zero(k) && SentBefore(tr, m, k, 1) == 0
    ensures AdmittedBefore(tr, m, k, 1) <= cap
  {
    assert StepOk(tr, k, cap, 0);
    SumOfCounts(tr.o[0]);
    assert Cumulative(tr.o, 0, k) == Zero(k) == Cumulative(tr.e, 0, k);
    AddZero(tr.e[0]);
    SumZero(k);
  }

  /** Fewer packets are sent than the window holds, and those that wait fit behind it. */
  lemma {:induction false} StartBounds(tr: Trace, m: nat, k: nat, cap: nat, n: nat)
    requires Flow(tr, m, k, cap) && cap >= 1 && 0 < n <= m && SentBefore(tr, m, k, 1) == 0
    ensures 0 <= Start(tr, m, k, cap, n) <= SentBefore(tr, m, k, n) <= AdmittedBefore(tr, m, k, n)
    ensures SentBefore(tr, m, k, n) < Start(tr, m, k, cap, n) + cap
    ensures AdmittedBefore(tr, m, k, n) < Start(tr, m, k, cap, n) + 2 * cap
    ensures SentBefore(tr, m, k, n) <= End(tr, m, k, cap, n)
  {
    var i := n - 1;
    Positions(tr, m, k, cap, i, n);
    if n == 1 {
      SumZero(k);
    } else {
      StartBounds(tr, m, k, cap, i);
    }
  }

  // ---------------------------------------------------------------- it is necessary

  ghost predicate WindowedRun(tr: Trace, w: Windows, m: nat, k: nat, cap: nat) {
    && BufferRun(tr, m, k, cap) && SendsWhenBacklogged(tr, m) && cap >= 1 && WindowRun(tr, w, m, k, cap)
    && forall s :: 0 <= s < m ==> WindowStepShaped(tr, w, k, s)
  }

  /** What was admitted and sent before step j, in sizes of windows. */
  lemma TotalSizes(tr: Trace, w: Windows, m: nat, k: nat, cap: nat, i: nat, j: nat)
    requires WindowedRun(tr, w, m, k, cap) && j == i + 1 < m
    ensures SentBefore(tr, m, k, j) == Sum(ClosedTotal(tr, w, k, i)) + Sum(w.out[i])
    ensures AdmittedBefore(tr, m, k, j) == Sum(ClosedTotal(tr, w, k, i)) + Sum(w.enq[i]) + Sum(w.nxt[i])
    ensures Sum(w.nxt[i]) >= 0 && (Sum(w.nxt[i]) > 0 ==> Sum(w.enq[i]) == cap)
  {
    var closed := ClosedTotal(tr, w, k, i);
    Totals(tr, w, m, k, cap, i);
    OverflowMeansFull(tr, w, m, k, cap, i);
    SumOfCounts(w.nxt[i]);
    SumAdd(closed, w.out[i]);
    SumAdd(Add(closed, w.enq[i]), w.nxt[i]);
    SumAdd(closed, w.enq[i]);
  }

  lemma HeldSizes(tr: Trace, w: Windows, m: nat, k: nat, cap: nat, i: nat, j: nat)
    requires WindowedRun(tr, w, m, k, cap) && j == i + 1 < m
    ensures Sum(w.tmpEnq[j]) == Min(cap, Sum(w.enq[i]) + Sum(tr.e[j]))
    ensures Closes(w.tmpEnq[j], Add(w.out[i], tr.o[j])) <==> Sum(w.out[i]) + Sum(tr.o[j]) >= Sum(w.tmpEnq[j])
  {
    assert WindowStepOk(tr, w, k, cap, j);
    WindowTotals.SplitSizes(w.nxt[i], At(w, i), tr.e[j], tr.o[j], w.tmpEnq[j], w.tmpNxt[j], At(w, j), k, cap);
  }

  lemma EndOfSizes(tr: Trace, m: nat, k: nat, cap: nat, j: nat, n: nat, closed: int, enq: int, nxt: int, out: int,
                   e: int, o: int, se: int)
    requires Shaped(tr, m, k) && 0 < j && n == j + 1 <= m && Start(tr, m, k, cap, j) == closed
    requires AdmittedBefore(tr, m, k, n) == closed + enq + nxt + e && SentBefore(tr, m, k, n) == closed + out + o
    requires se == Min(cap, enq + e) && e >= 0 && nxt >= 0 && (nxt > 0 ==> enq == cap)
    ensures closed + se == End(tr, m, k, cap, n) && (ClosesIn(tr, m, k, cap, n) <==> out + o >= se)
  {
  }

  /** Sizes in step j, from the totals before it. */
  lemma StepEnds(tr: Trace, w: Windows, m: nat, k: nat, cap: nat, i: nat, j: nat, n: nat)
    requires WindowedRun(tr, w, m, k, cap) && j == i + 1 && n == j + 1 <= m
    requires Sum(ClosedTotal(tr, w, k, i)) == Start(tr, m, k, cap, j)
    ensures Sum(Add(ClosedTotal(tr, w, k, i), w.tmpEnq[j])) == End(tr, m, k, cap, n)
    ensures Closes(w.tmpEnq[j], Add(w.out[i], tr.o[j])) <==> ClosesIn(tr, m, k, cap, n)
  {
    TotalSizes(tr, w, m, k, cap, i, j);
    HeldSizes(tr, w, m, k, cap, i, j);
    SumAdd(ClosedTotal(tr, w, k, i), w.tmpEnq[j]);
    CountsStep(tr, m, k, j);
    EndOfSizes(tr, m, k, cap, j, n, Sum(ClosedTotal(tr, w, k, i)), Sum(w.enq[i]), Sum(w.nxt[i]), Sum(w.out[i]),
               Sum(tr.e[j]), Sum(tr.o[j]), Sum(w.tmpEnq[j]));
  }

  /** The closed windows hold as many packets as there are up to the start of the current one. */
  lemma {:induction false} WindowStarts(tr: Trace, w: Windows, m: nat, k: nat, cap: nat, j: nat, n: nat)
    requires WindowedRun(tr, w, m, k, cap) && n == j + 1 <= m
    ensures Sum(ClosedTotal(tr, w, k, j)) == Start(tr, m, k, cap, n)
  {
    if j == 0 {
      SumZero(k);
    } else {
      WindowStarts(tr, w, m, k, cap, j - 1, j);
      StepEnds(tr, w, m, k, cap, j - 1, j, n);
    }
  }

  /** Everything in the current window and before it: a point in the order of admission. */
  ghost predicate IsEnd(tr: Trace, m: nat, k: nat, cap: nat, n: nat, point: Vec)
    requires Shaped(tr, m, k) && 0 < n <= m
  {
    && |point| == k && NonNegative(point) && Sum(point) == End(tr, m, k, cap, n) && LeV(Cumulative(tr.o, n, k), point)
    && forall t :: 0 <= t <= n ==> Comparable(Cumulative(tr.e, t, k), point)
  }

  lemma EndHolds(tr: Trace, m: nat, k: nat, cap: nat, n: nat, point: Vec)
    requires Shaped(tr, m, k) && 0 < n <= m && IsEnd(tr, m, k, cap, n, point)
    ensures OutputsFit(tr, m, k, cap, n)
  {
    var sent := Cumulative(tr.o, n, k);
    forall t | 0 <= t <= n
      ensures Holds(Cumulative(tr.e, t, k), sent, End(tr, m, k, cap, n))
    {
      var admitted := Cumulative(tr.e, t, k);
      if Sum(admitted) <= Sum(point) {
        OrderedBySum(admitted, point);
        AtMostMax(admitted, sent, point);
      } else {
        OrderedBySum(point, admitted);
      }
    }
  }

  /** Where the end of the window stands after the step. */
  lemma EndAfter(tr: Trace, w: Windows, m: nat, k: nat, cap: nat, i: nat, j: nat)
    requires WindowedRun(tr, w, m, k, cap) && j == i + 1 < m
    ensures if Closes(w.tmpEnq[j], Add(w.out[i], tr.o[j])) then
              ClosedTotal(tr, w, k, j) == Add(ClosedTotal(tr, w, k, i), w.tmpEnq[j]) && Sum(w.nxt[j]) == 0
            else
              ClosedTotal(tr, w, k, j) == ClosedTotal(tr, w, k, i) && w.enq[j] == w.tmpEnq[j]
    ensures LeV(w.out[j], w.enq[j]) && NonNegative(w.out[j])
  {
    assert WindowStepOk(tr, w, k, cap, j);
    OverflowMeansFull(tr, w, m, k, cap, j);
    SumZero(k);
  }

  lemma SentIsEnd(tr: Trace, m: nat, k: nat, cap: nat, n: nat)
    requires BufferRun(tr, m, k, cap) && SendsWhenBacklogged(tr, m) && cap >= 1 && n <= m && ClosesIn(tr, m, k, cap, n)
    ensures SentBefore(tr, m, k, n) == End(tr, m, k, cap, n)
  {
    LeafFlow(tr, m, k, cap);
    NothingSentFirst(tr, m, k, cap);
    StartBounds(tr, m, k, cap, n);
  }

  lemma CloseSizes(tr: Trace, w: Windows, m: nat, k: nat, cap: nat, i: nat, j: nat, n: nat)
    requires WindowedRun(tr, w, m, k, cap) && j == i + 1 && n == j + 1 <= m
    requires Closes(w.tmpEnq[j], Add(w.out[i], tr.o[j]))
    ensures Sum(Add(ClosedTotal(tr, w, k, i), w.tmpEnq[j])) == SentBefore(tr, m, k, n)
  {
    WindowStarts(tr, w, m, k, cap, i, j);
    StepEnds(tr, w, m, k, cap, i, j, n);
    SentIsEnd(tr, m, k, cap, n);
  }

  lemma NothingLeftOut(closed: Vec, out: Vec, sent: Vec)
    requires |closed| == |out| && sent == Add(closed, out) && NonNegative(out) && Sum(closed) == Sum(sent)
    ensures sent == closed
  {
    SameIfSameSum(closed, sent);
  }

  /** A window that closes holds exactly what was sent. */
  lemma SentAtClose(tr: Trace, w: Windows, m: nat, k: nat, cap: nat, i: nat, j: nat, n: nat)
    requires WindowedRun(tr, w, m, k, cap) && j == i + 1 && n == j + 1 <= m
    requires Closes(w.tmpEnq[j], Add(w.out[i], tr.o[j]))
    ensures Cumulative(tr.o, n, k) == Add(ClosedTotal(tr, w, k, i), w.tmpEnq[j])
  {
    CloseSizes(tr, w, m, k, cap, i, j, n);
    EndAfter(tr, w, m, k, cap, i, j);
    Totals(tr, w, m, k, cap, j);
    NothingLeftOut(ClosedTotal(tr, w, k, j), w.out[j], Cumulative(tr.o, n, k));
  }

  /** What is sent stays below the end of the window. */
  lemma SentBelow(tr: Trace, w: Windows, m: nat, k: nat, cap: nat, i: nat, j: nat, n: nat)
    requires WindowedRun(tr, w, m, k, cap) && j == i + 1 && n == j + 1 <= m
    ensures LeV(Cumulative(tr.o, n, k), Add(ClosedTotal(tr, w, k, i), w.tmpEnq[j]))
  {
    EndAfter(tr, w, m, k, cap, i, j);
    if Closes(w.tmpEnq[j], Add(w.out[i], tr.o[j])) {
      SentAtClose(tr, w, m, k, cap, i, j, n);
    } else {
      Totals(tr, w, m, k, cap, j);
    }
  }

  lemma EndStands(tr: Trace, w: Windows, m: nat, k: nat, cap: nat, i: nat, j: nat, n: nat, s: nat, t: nat)
    requires WindowedRun(tr, w, m, k, cap) && j == i + 1 && n == j + 1 <= m && t == s + 1 <= n
    ensures Comparable(Cumulative(tr.e, t, k), Add(ClosedTotal(tr, w, k, i), w.tmpEnq[j]))
  {
    TotalsStand(tr, w, m, k, cap, s);
    StandsLater(tr, w, m, k, cap, Cumulative(tr.e, t, k), s, j);
    EndAfter(tr, w, m, k, cap, i, j);
  }

  lemma WindowEndIs(tr: Trace, w: Windows, m: nat, k: nat, cap: nat, i: nat, j: nat, n: nat)
    requires WindowedRun(tr, w, m, k, cap) && j == i + 1 && n == j + 1 <= m
    ensures IsEnd(tr, m, k, cap, n, Add(ClosedTotal(tr, w, k, i), w.tmpEnq[j]))
  {
    var point := Add(ClosedTotal(tr, w, k, i), w.tmpEnq[j]);
    WindowStarts(tr, w, m, k, cap, i, j);
    StepEnds(tr, w, m, k, cap, i, j, n);
    SentBelow(tr, w, m, k, cap, i, j, n);
    CumulativeGrows(tr.o, k, n, n);
    forall t | 0 <= t <= n
      ensures Comparable(Cumulative(tr.e, t, k), point)
    {
      if t > 0 {
        EndStands(tr, w, m, k, cap, i, j, n, t - 1, t);
      }
    }
  }

  lemma FirstFits(tr: Trace, m: nat, k: nat, cap: nat, n: nat)
    requires BufferRun(tr, m, k, cap) && SendsWhenBacklogged(tr, m) && n == 1 <= m
    ensures OutputsFit(tr, m, k, cap, n)
  {
    NothingSentFirst(tr, m, k, cap);
    CumulativeGrows(tr.e, k, n, n);
    CumulativeGrows(tr.e, k, 0, n);
    SumMonotone(Cumulative(tr.e, 0, k), Cumulative(tr.e, n, k));
    forall t | 0 <= t <= n
      ensures Holds(Cumulative(tr.e, t, k), Cumulative(tr.o, n, k), End(tr, m, k, cap, n))
    {
      assert MaxV(Cumulative(tr.e, t, k), Zero(k)) == Cumulative(tr.e, t, k);
    }
  }

  lemma WindowsNeed(tr: Trace, w: Windows, m: nat, k: nat, cap: nat, n: nat)
    requires BufferRun(tr, m, k, cap) && SendsWhenBacklogged(tr, m) && cap >= 1 && WindowRun(tr, w, m, k, cap)
    requires 0 < n <= m
    ensures OutputsFit(tr, m, k, cap, n)
  {
    RunWindowsShaped(tr, w, m, k, cap);
    if n == 1 {
      FirstFits(tr, m, k, cap, n);
    } else {
      var i := n - 2;
      WindowEndIs(tr, w, m, k, cap, i, i + 1, n);
      EndHolds(tr, m, k, cap, n, Add(ClosedTotal(tr, w, k, i), w.tmpEnq[i + 1]));
    }
  }

  // ---------------------------------------------------------------- it is sufficient: an order of admission

  ghost predicate FittingRun(tr: Trace, m: nat, k: nat, cap: nat) {
    && BufferRun(tr, m, k, cap) && SendsWhenBacklogged(tr, m) && cap >= 1 && m > 0 && Shaped(tr, m, k)
    && AllOutputsFit(tr, m, k, cap)
  }

  /** Sizes of the windows of such a run. */
  lemma Bounds(tr: Trace, m: nat, k: nat, cap: nat, n: nat)
    requires FittingRun(tr, m, k, cap) && 0 < n <= m
    ensures Flow(tr, m, k, cap) && SentBefore(tr, m, k, 1) == 0
    ensures 0 <= Start(tr, m, k, cap, n) <= SentBefore(tr, m, k, n) <= End(tr, m, k, cap, n)
    ensures SentBefore(tr, m, k, n) < Start(tr, m, k, cap, n) + cap
    ensures AdmittedBefore(tr, m, k, n) < Start(tr, m, k, cap, n) + 2 * cap
  {
    LeafFlow(tr, m, k, cap);
    NothingSentFirst(tr, m, k, cap);
    StartBounds(tr, m, k, cap, n);
  }

  lemma SentAdmitted(tr: Trace, m: nat, k: nat, cap: nat, n: nat)
    requires FittingRun(tr, m, k, cap) && 0 < n <= m
    ensures LeV(Cumulative(tr.o, n, k), Cumulative(tr.e, n, k))
  {
    assert OutputsFit(tr, m, k, cap, n);
    var admitted, sent := Cumulative(tr.e, n, k), Cumulative(tr.o, n, k);
    assert Holds(admitted, sent, End(tr, m, k, cap, n));
    if Sum(admitted) <= End(tr, m, k, cap, n) {
      MaxAbove(admitted, sent);
      SumMonotone(admitted, MaxV(admitted, sent));
    }
  }

  /** The last step by which no more than end packets have been admitted. */
  lemma {:induction false} LastWithin(tr: Trace, m: nat, k: nat, end: int, n: nat) returns (a: nat)
    requires Shaped(tr, m, k) && n <= m && end >= 0
    ensures a <= n && AdmittedBefore(tr, m, k, a) <= end
    ensures forall t :: a < t <= n ==> AdmittedBefore(tr, m, k, t) > end
  {
    if n == 0 {
      SumZero(k);
      a := 0;
    } else if AdmittedBefore(tr, m, k, n) <= end {
      a := n;
    } else {
      a := LastWithin(tr, m, k, end, n - 1);
    }
  }

  /** A point of the order of admission between the enqueues up to steps a and a + 1. */
  lemma PointBetween(tr: Trace, m: nat, k: nat, cap: nat, a: nat, b: nat) returns (point: Vec)
    requires FittingRun(tr, m, k, cap) && b == a + 1 <= m
    requires AdmittedBefore(tr, m, k, a) <= End(tr, m, k, cap, m) < AdmittedBefore(tr, m, k, b)
    ensures |point| == k && LeV(Cumulative(tr.o, m, k), point) && Sum(point) == End(tr, m, k, cap, m)
    ensures LeV(Cumulative(tr.e, a, k), point) && LeV(point, Cumulative(tr.e, b, k))
  {
    var low, high, sent := Cumulative(tr.e, a, k), Cumulative(tr.e, b, k), Cumulative(tr.o, m, k);
    assert OutputsFit(tr, m, k, cap, m);
    assert Holds(low, sent, End(tr, m, k, cap, m)) && Holds(high, sent, End(tr, m, k, cap, m));
    CumulativeGrows(tr.e, k, a, b);
    MaxAbove(low, sent);
    point := TakeBetween(MaxV(low, sent), high, End(tr, m, k, cap, m));
  }

  /** Everything in the last window and before it. */
  lemma LastEnd(tr: Trace, m: nat, k: nat, cap: nat) returns (point: Vec)
    requires FittingRun(tr, m, k, cap)
    ensures IsEnd(tr, m, k, cap, m, point)
  {
    Bounds(tr, m, k, cap, m);
    var a := LastWithin(tr, m, k, End(tr, m, k, cap, m), m);
    CumulativeGrows(tr.o, k, m, m);
    if a == m {
      point := Cumulative(tr.e, m, k);
      SentAdmitted(tr, m, k, cap, m);
      forall t | 0 <= t <= m
        ensures Comparable(Cumulative(tr.e, t, k), point)
      {
        CumulativeGrows(tr.e, k, t, m);
      }
    } else {
      point := PointBetween(tr, m, k, cap, a, a + 1);
      forall t | 0 <= t <= m
        ensures Comparable(Cumulative(tr.e, t, k), point)
      {
        if t <= a {
          CumulativeGrows(tr.e, k, t, a);
        } else {
          CumulativeGrows(tr.e, k, a + 1, t);
        }
      }
    }
  }

  /** The ends of the windows that close, and of the last one. */
  function EndPoint(tr: Trace, m: nat, k: nat, cap: nat, last: Vec, n: nat): Vec
    requires Shaped(tr, m, k) && n <= m
  {
    if ClosesIn(tr, m, k, cap, n) then Cumulative(tr.o, n, k) else last
  }

  function EndPoints(tr: Trace, m: nat, k: nat, cap: nat, last: Vec): (r: seq<Vec>)
    requires Shaped(tr, m, k)
    ensures |r| == m + 1 && forall n :: 0 <= n <= m ==> r[n] == EndPoint(tr, m, k, cap, last, n)
  {
    seq(m + 1, n requires 0 <= n <= m => EndPoint(tr, m, k, cap, last, n))
  }

  /** At the end of a window that closes the outputs are comparable with the enqueues up to every step. */
  lemma ClosedComparable(tr: Trace, m: nat, k: nat, cap: nat, n: nat, t: nat)
    requires FittingRun(tr, m, k, cap) && n <= m && t <= m && ClosesIn(tr, m, k, cap, n)
    ensures Comparable(Cumulative(tr.e, t, k), Cumulative(tr.o, n, k))
  {
    var admitted, sent := Cumulative(tr.e, t, k), Cumulative(tr.o, n, k);
    if t <= n {
      assert OutputsFit(tr, m, k, cap, n);
      assert Holds(admitted, sent, End(tr, m, k, cap, n));
      Bounds(tr, m, k, cap, n);
      if Sum(admitted) <= End(tr, m, k, cap, n) {
        MaxAbove(admitted, sent);
        SameIfSameSum(sent, MaxV(admitted, sent));
      }
    } else {
      SentAdmitted(tr, m, k, cap, n);
      CumulativeGrows(tr.e, k, n, t);
    }
  }

  lemma PointFacts(tr: Trace, m: nat, k: nat, cap: nat, last: Vec, n: nat, t: nat)
    requires FittingRun(tr, m, k, cap) && IsEnd(tr, m, k, cap, m, last) && n <= m && t <= m
    ensures var point := EndPoint(tr, m, k, cap, last, n);
            |point| == k && NonNegative(point) && Comparable(Cumulative(tr.e, t, k), point)
  {
    if ClosesIn(tr, m, k, cap, n) {
      CumulativeGrows(tr.o, k, n, n);
      ClosedComparable(tr, m, k, cap, n, t);
    }
  }

  lemma PointsComparable(tr: Trace, m: nat, k: nat, cap: nat, last: Vec, n: nat, t: nat)
    requires FittingRun(tr, m, k, cap) && IsEnd(tr, m, k, cap, m, last) && n <= m && t <= m
    ensures Comparable(EndPoint(tr, m, k, cap, last, n), EndPoint(tr, m, k, cap, last, t))
  {
    CumulativeGrows(tr.o, k, n, m);
    CumulativeGrows(tr.o, k, t, m);
    CumulativeGrows(tr.o, k, if n <= t then n else t, if n <= t then t else n);
  }

  ghost predicate AllComparable(vs: seq<Vec>, ws: seq<Vec>) {
    forall i, j :: 0 <= i < |vs| && 0 <= j < |ws| ==> Comparable(vs[i], ws[j])
  }

  lemma JoinedChain(vs: seq<Vec>, ws: seq<Vec>, k: nat)
    requires forall i :: 0 <= i < |vs| ==> |vs[i]| == k && NonNegative(vs[i])
    requires forall i :: 0 <= i < |ws| ==> |ws[i]| == k && NonNegative(ws[i])
    requires AllComparable(vs, vs) && AllComparable(vs, ws) && AllComparable(ws, ws)
    ensures Chain(vs + ws, k)
  {
    forall i, j | 0 <= i < |vs + ws| && 0 <= j < |vs + ws|
      ensures Comparable((vs + ws)[i], (vs + ws)[j])
    {
      if i >= |vs| && j < |vs| {
        assert Comparable(vs[j], ws[i - |vs|]);
      }
    }
  }

  lemma EndsAreChain(tr: Trace, m: nat, k: nat, cap: nat, last: Vec)
    requires FittingRun(tr, m, k, cap) && IsEnd(tr, m, k, cap, m, last)
    ensures Chain(Cums(tr.e, m, k) + EndPoints(tr, m, k, cap, last), k)
  {
    var es, ends := Cums(tr.e, m, k), EndPoints(tr, m, k, cap, last);
    forall x, y | 0 <= x <= m && 0 <= y <= m
      ensures Comparable(es[x], ends[y]) && |es[x]| == |ends[y]| == k && NonNegative(es[x]) && NonNegative(ends[y])
    {
      CumulativeGrows(tr.e, k, x, m);
      PointFacts(tr, m, k, cap, last, y, x);
    }
    forall x, y | 0 <= x <= m && 0 <= y <= m
      ensures Comparable(es[x], es[y]) && Comparable(ends[x], ends[y])
    {
      PointsComparable(tr, m, k, cap, last, x, y);
      CumulativeGrows(tr.e, k, if x <= y then x else y, if x <= y then y else x);
    }
    JoinedChain(es, ends, k);
  }

  /** An order of admission that passes all enqueues and all ends of windows. */
  ghost predicate OrderOf(tr: Trace, m: nat, k: nat, cap: nat, last: Vec, h: seq<nat>)
    requires Shaped(tr, m, k)
  {
    && Typed(h, k) && |h| == AdmittedBefore(tr, m, k, m)
    && forall n :: 0 <= n <= m ==>
         PassesOne(Cumulative(tr.e, n, k), k, h) && PassesOne(EndPoint(tr, m, k, cap, last, n), k, h)
  }

  lemma OrderExists(tr: Trace, m: nat, k: nat, cap: nat, last: Vec) returns (h: seq<nat>)
    requires FittingRun(tr, m, k, cap) && IsEnd(tr, m, k, cap, m, last)
    ensures OrderOf(tr, m, k, cap, last, h)
  {
    EndsAreChain(tr, m, k, cap, last);
    var es, ends := Cums(tr.e, m, k), EndPoints(tr, m, k, cap, last);
    CountsGrow(tr, m, k, m, m);
    h := HistoryOfChain(es + ends, k, AdmittedBefore(tr, m, k, m), m);
    forall n | 0 <= n <= m
      ensures PassesOne(es[n], k, h) && PassesOne(ends[n], k, h)
    {
      PassesBoth(es, ends, k, h, n);
    }
  }

  // ---------------------------------------------------------------- the windows along this order

  ghost predicate OrderedRun(tr: Trace, m: nat, k: nat, cap: nat, last: Vec, h: seq<nat>) {
    FittingRun(tr, m, k, cap) && IsEnd(tr, m, k, cap, m, last) && OrderOf(tr, m, k, cap, last, h)
  }

  /** The counts of the first x packets. */
  function Upto(h: seq<nat>, x: int, k: nat): (v: Vec)
    ensures |v| == k
  {
    if 0 <= x <= |h| then Seg(h, 0, x, k) else Zero(k)
  }

  lemma AdmittedIsUpto(tr: Trace, m: nat, k: nat, cap: nat, last: Vec, h: seq<nat>, n: nat)
    requires OrderedRun(tr, m, k, cap, last, h) && n <= m
    ensures 0 <= AdmittedBefore(tr, m, k, n) <= |h| && Cumulative(tr.e, n, k) == Upto(h, AdmittedBefore(tr, m, k, n), k)
  {
    CountsGrow(tr, m, k, n, m);
    assert PassesOne(Cumulative(tr.e, n, k), k, h);
  }

  lemma EndInOrder(tr: Trace, m: nat, k: nat, cap: nat, last: Vec, h: seq<nat>, n: nat)
    requires OrderedRun(tr, m, k, cap, last, h) && 0 < n <= m
    ensures 0 <= End(tr, m, k, cap, n) <= AdmittedBefore(tr, m, k, n) <= |h|
  {
    Bounds(tr, m, k, cap, n);
    CountsGrow(tr, m, k, n, m);
  }

  lemma PassedPoint(v: Vec, k: nat, h: seq<nat>, x: int)
    requires PassesOne(v, k, h) && Sum(v) == x && 0 <= x <= |h|
    ensures v == Upto(h, x, k)
  {
    assert h[0..x] == h[..x];
  }

  lemma ClosedInOrder(tr: Trace, m: nat, k: nat, cap: nat, last: Vec, h: seq<nat>, n: nat)
    requires OrderedRun(tr, m, k, cap, last, h) && 0 < n <= m && ClosesIn(tr, m, k, cap, n)
    ensures Cumulative(tr.o, n, k) == Upto(h, End(tr, m, k, cap, n), k)
  {
    SentIsEnd(tr, m, k, cap, n);
    EndInOrder(tr, m, k, cap, last, h, n);
    assert PassesOne(EndPoint(tr, m, k, cap, last, n), k, h);
    PassedPoint(Cumulative(tr.o, n, k), k, h, End(tr, m, k, cap, n));
  }

  lemma LastInOrder(tr: Trace, m: nat, k: nat, cap: nat, last: Vec, h: seq<nat>)
    requires OrderedRun(tr, m, k, cap, last, h) && !ClosesIn(tr, m, k, cap, m)
    ensures LeV(Cumulative(tr.o, m, k), Upto(h, End(tr, m, k, cap, m), k))
  {
    EndInOrder(tr, m, k, cap, last, h, m);
    assert PassesOne(EndPoint(tr, m, k, cap, last, m), k, h);
    PassedPoint(last, k, h, End(tr, m, k, cap, m));
  }

  /** The window is full with end packets admitted, and does not close in the n-th step. */
  ghost predicate FullTo(tr: Trace, m: nat, k: nat, cap: nat, n: nat, end: int)
    requires Shaped(tr, m, k) && 0 < n <= m
  {
    && !ClosesIn(tr, m, k, cap, n) && end == Start(tr, m, k, cap, n) + cap == End(tr, m, k, cap, n)
  }

  /** One step more of a full window. */
  lemma FullStep(tr: Trace, m: nat, k: nat, cap: nat, n: nat, next: nat, end: int)
    requires FittingRun(tr, m, k, cap) && 0 < n < m && next == n + 1 && FullTo(tr, m, k, cap, n, end)
    ensures End(tr, m, k, cap, next) == end && (ClosesIn(tr, m, k, cap, next) || FullTo(tr, m, k, cap, next, end))
    ensures LeV(Cumulative(tr.o, n, k), Cumulative(tr.o, next, k))
  {
    CountsGrow(tr, m, k, n, next);
    CumulativeGrows(tr.o, k, n, next);
  }

  /** A full window holds all that is sent until it closes. */
  lemma {:induction false} FullHolds(tr: Trace, m: nat, k: nat, cap: nat, last: Vec, h: seq<nat>, n: nat, end: int)
    requires OrderedRun(tr, m, k, cap, last, h) && 0 < n <= m && FullTo(tr, m, k, cap, n, end)
    ensures LeV(Cumulative(tr.o, n, k), Upto(h, end, k))
    decreases m - n
  {
    if n == m {
      LastInOrder(tr, m, k, cap, last, h);
    } else {
      var next := n + 1;
      FullStep(tr, m, k, cap, n, next, end);
      if ClosesIn(tr, m, k, cap, next) {
        ClosedInOrder(tr, m, k, cap, last, h, next);
      } else {
        FullHolds(tr, m, k, cap, last, h, next, end);
      }
    }
  }

  lemma OpenIsFull(tr: Trace, m: nat, k: nat, cap: nat, n: nat)
    requires Shaped(tr, m, k) && 0 < n <= m && !ClosesIn(tr, m, k, cap, n)
    requires End(tr, m, k, cap, n) < AdmittedBefore(tr, m, k, n)
    ensures FullTo(tr, m, k, cap, n, End(tr, m, k, cap, n))
  {
  }

  /** What is sent lies before the end of the window in this order. */
  lemma SentBeforeEnd(tr: Trace, m: nat, k: nat, cap: nat, last: Vec, h: seq<nat>, n: nat)
    requires OrderedRun(tr, m, k, cap, last, h) && 0 < n <= m
    ensures LeV(Cumulative(tr.o, n, k), Upto(h, End(tr, m, k, cap, n), k))
  {
    if ClosesIn(tr, m, k, cap, n) {
      ClosedInOrder(tr, m, k, cap, last, h, n);
    } else if End(tr, m, k, cap, n) >= AdmittedBefore(tr, m, k, n) {
      AdmittedIsUpto(tr, m, k, cap, last, h, n);
      SentAdmitted(tr, m, k, cap, n);
    } else {
      OpenIsFull(tr, m, k, cap, n);
      FullHolds(tr, m, k, cap, last, h, n, End(tr, m, k, cap, n));
    }
  }

  lemma StartSentFirst(tr: Trace, m: nat, k: nat, cap: nat, h: seq<nat>, n: nat)
    requires FittingRun(tr, m, k, cap) && n == 1
    ensures LeV(Upto(h, Start(tr, m, k, cap, n), k), Cumulative(tr.o, n, k))
  {
    CumulativeGrows(tr.o, k, n, n);
    SegEmpty(h, 0, k);
  }

  lemma StartSentNext(tr: Trace, m: nat, k: nat, cap: nat, last: Vec, h: seq<nat>, before: nat, n: nat)
    requires OrderedRun(tr, m, k, cap, last, h) && 0 < before && n == before + 1 <= m
    requires LeV(Upto(h, Start(tr, m, k, cap, before), k), Cumulative(tr.o, before, k))
    ensures LeV(Upto(h, Start(tr, m, k, cap, n), k), Cumulative(tr.o, n, k))
  {
    CumulativeGrows(tr.o, k, before, n);
    if ClosesIn(tr, m, k, cap, n) {
      ClosedInOrder(tr, m, k, cap, last, h, n);
    }
  }

  /** And what lies before its start has been sent. */
  lemma {:induction false} StartSent(tr: Trace, m: nat, k: nat, cap: nat, last: Vec, h: seq<nat>, n: nat)
    requires OrderedRun(tr, m, k, cap, last, h) && 0 < n <= m
    ensures LeV(Upto(h, Start(tr, m, k, cap, n), k), Cumulative(tr.o, n, k))
  {
    if n == 1 {
      StartSentFirst(tr, m, k, cap, h, n);
    } else {
      var before := n - 1;
      StartSent(tr, m, k, cap, last, h, before);
      StartSentNext(tr, m, k, cap, last, h, before, n);
    }
  }

  // ---------------------------------------------------------------- one step of the windows

  /** A window from packet s of the order on, with n packets admitted, and what was sent from it. */
  function Shown(h: seq<nat>, k: nat, cap: nat, s: nat, n: nat, out: Vec): Window {
    Window(Seg(h, s, Min(s + cap, n), k), Seg(h, Min(s + cap, n), n, k), out)
  }

  /** What was sent fits the window in number and in types; the window closes when all of it has been sent. */
  ghost predicate OutFits(h: seq<nat>, k: nat, cap: nat, s: nat, n': nat, d: nat, d': nat, out: Vec, o: Vec) {
    && |out| == |o| == k && Sum(out) == d - s && Sum(o) == d' - d && s <= d <= d' <= Min(s + cap, n') <= |h|
    && NonNegative(Add(out, o)) && LeV(Add(out, o), Seg(h, s, Min(s + cap, n'), k))
  }

  lemma OutCloses(h: seq<nat>, k: nat, cap: nat, s: nat, n': nat, d: nat, d': nat, out: Vec, o: Vec)
    requires Typed(h, k) && OutFits(h, k, cap, s, n', d, d', out, o) && s <= n'
    ensures var se, to := Seg(h, s, Min(s + cap, n'), k), Add(out, o);
            && (Closes(se, to) <==> to == se) && (to == se <==> d' == Min(s + cap, n')) && 0 <= Sum(to) <= cap
  {
    var se, to := Seg(h, s, Min(s + cap, n'), k), Add(out, o);
    SegFacts(h, s, Min(s + cap, n'), k);
    SumAdd(out, o);
    if Closes(se, to) || d' == Min(s + cap, n') {
      SumMonotone(to, se);
      assert forall t :: 0 <= t < k && Closes(se, to) ==> se[t] == to[t];
    }
  }

  /** The window after the step. */
  function Next(h: seq<nat>, k: nat, cap: nat, s: nat, n': nat, d': nat, to: Vec): Window {
    var end := Min(s + cap, n');
    if d' >= end then Window(Seg(h, end, n', k), Zero(k), Zero(k)) else Shown(h, k, cap, s, n', to)
  }

  lemma NextFromParts(h: seq<nat>, k: nat, cap: nat, s: nat, n': nat, d': nat, to: Vec, se: Vec, rest: Vec)
    requires se == Seg(h, s, Min(s + cap, n'), k) && rest == Seg(h, Min(s + cap, n'), n', k)
    requires to == se <==> d' >= Min(s + cap, n')
    ensures Next(h, k, cap, s, n', d', to)
            == if to == se then Window(rest, Zero(k), Zero(k)) else Window(se, rest, to)
  {
  }

  /** What waits behind the window: at most what fits there while it is open. */
  lemma RestFits(h: seq<nat>, k: nat, cap: nat, s: nat, n: nat, n': nat, d: nat, d': nat)
    requires Typed(h, k) && StepBounds(h, cap, s, n, n', d, d')
    ensures NonNegative(Seg(h, Min(s + cap, n'), n', k)) && Sum(Seg(h, Min(s + cap, n'), n', k)) < cap
  {
    SegFacts(h, Min(s + cap, n'), n', k);
  }

  lemma ShownStep(h: seq<nat>, k: nat, cap: nat, s: nat, n: nat, n': nat, d: nat, d': nat, out: Vec, o: Vec)
    requires Typed(h, k) && StepBounds(h, cap, s, n, n', d, d') && OutFits(h, k, cap, s, n', d, d', out, o)
    ensures var end := Min(s + cap, n');
            WindowStep(Shown(h, k, cap, s, n, out), Seg(h, n, n', k), o, Seg(h, s, end, k),
                       Seg(h, Max(end, n), n', k), Next(h, k, cap, s, n', d', Add(out, o)), k, cap)
  {
    var end := Min(s + cap, n');
    var se, rest, to := Seg(h, s, end, k), Seg(h, end, n', k), Add(out, o);
    EnqueueSplit(h, k, cap, s, n, n');
    WindowSizes(h, k, cap, s, n, n', d, d');
    OutCloses(h, k, cap, s, n', d, d', out, o);
    RestFits(h, k, cap, s, n, n', d, d');
    NextFromParts(h, k, cap, s, n', d', to, se, rest);
    StepFromParts(Shown(h, k, cap, s, n, out), Seg(h, n, n', k), o, se, Seg(h, Max(end, n), n', k), to, rest, k, cap);
  }

  /** The values of such a step. */
  ghost predicate IsStep(h: seq<nat>, k: nat, cap: nat, s: nat, n: nat, n': nat, d: nat, d': nat, out: Vec, x: Window,
                         e: Vec, o: Vec, se: Vec, sn: Vec, y: Window) {
    && Typed(h, k) && StepBounds(h, cap, s, n, n', d, d') && OutFits(h, k, cap, s, n', d, d', out, o)
    && x == Shown(h, k, cap, s, n, out) && e == Seg(h, n, n', k) && se == Seg(h, s, Min(s + cap, n'), k)
    && sn == Seg(h, Max(Min(s + cap, n'), n), n', k) && y == Next(h, k, cap, s, n', d', Add(out, o))
  }

  lemma ShownStepOf(h: seq<nat>, k: nat, cap: nat, s: nat, n: nat, n': nat, d: nat, d': nat, out: Vec, x: Window,
                    e: Vec, o: Vec, se: Vec, sn: Vec, y: Window)
    requires IsStep(h, k, cap, s, n, n', d, d', out, x, e, o, se, sn, y)
    ensures WindowOf(x, k) && WindowOf(y, k) && |e| == |o| == |se| == |sn| == k
    ensures WindowStep(x, e, o, se, sn, y, k, cap)
  {
    ShownStep(h, k, cap, s, n, n', d, d', out, o);
  }

  // ---------------------------------------------------------------- all steps

  /** The end of the window that is current in step j. */
  function EndIn(p: Pointers, cap: nat, j: nat): int
    requires j < |p.s| && j + 1 < |p.n|
  {
    Min((if j == 0 then 0 else p.s[j - 1]) + cap, p.n[j + 1])
  }

  /** In step j the enqueues are a piece of the order, and all that was sent so far, sent, fits the window. */
  ghost predicate AlongAt(e: Vec, o: Vec, before: Vec, sent: Vec, p: Pointers, k: nat, cap: nat, j: nat) {
    && j < |p.s| && j + 1 < |p.n| && j + 1 < |p.d| && |o| == |before| == |sent| == k
    && e == Seg(p.h, p.n[j], p.n[j + 1], k) && sent == Add(before, o) && Sum(o) + p.d[j] == p.d[j + 1]
    && Sum(sent) == p.d[j + 1] && LeV(Upto(p.h, p.s[j], k), sent) && LeV(sent, Upto(p.h, EndIn(p, cap, j), k))
  }

  /** A run along an order of admission; os are its cumulative outputs. */
  ghost predicate Along(tr: Trace, os: seq<Vec>, p: Pointers, m: nat, k: nat, cap: nat) {
    && Shaped(tr, m, k) && AllOf(os, m + 1, k) && os[0] == Zero(k) && cap >= 1 && PointerRun(p, m, k, cap)
    && forall j :: 0 <= j < m ==> AlongAt(tr.e[j], tr.o[j], os[j], os[j + 1], p, k, cap, j)
  }

  lemma UptoSplits(h: seq<nat>, a: nat, b: nat, k: nat)
    requires Typed(h, k) && a <= b <= |h|
    ensures Upto(h, b, k) == Add(Upto(h, a, k), Seg(h, a, b, k)) && Sum(Upto(h, a, k)) == a
  {
    SegJoin(h, 0, a, b, k);
    SegFacts(h, 0, a, k);
  }

  /** What was sent from the current window by the end of step j. */
  function OutOf(sent: Vec, p: Pointers, k: nat, j: nat): (v: Vec)
    requires |sent| == k
    ensures |v| == k
  {
    if j < |p.s| then Sub(sent, Upto(p.h, p.s[j], k)) else Zero(k)
  }

  lemma OutSizes(sent: Vec, p: Pointers, k: nat, j: nat)
    requires |sent| == k && j < |p.s| && Typed(p.h, k) && p.s[j] <= |p.h| && LeV(Upto(p.h, p.s[j], k), sent)
    ensures Sum(OutOf(sent, p, k, j)) == Sum(sent) - p.s[j] && NonNegative(OutOf(sent, p, k, j))
  {
    UptoSplits(p.h, p.s[j], |p.h|, k);
    SumSub(sent, Upto(p.h, p.s[j], k));
  }

  function WindowIs(sent: Vec, p: Pointers, k: nat, cap: nat, j: nat): (x: Window)
    requires |sent| == k && j < |p.s| && j + 1 < |p.n|
    ensures WindowOf(x, k)
  {
    Shown(p.h, k, cap, p.s[j], p.n[j + 1], OutOf(sent, p, k, j))
  }

  lemma OutVectors(before: Vec, o: Vec, sent: Vec, start: Vec, held: Vec, end: Vec, k: nat)
    requires |before| == |o| == |start| == |held| == k && sent == Add(before, o) && end == Add(start, held)
    requires LeV(start, before) && NonNegative(o) && LeV(sent, end)
    ensures Add(Sub(before, start), o) == Sub(sent, start)
    ensures NonNegative(Sub(sent, start)) && LeV(Sub(sent, start), held)
  {
    assert forall t :: 0 <= t < k ==> sent[t] == before[t] + o[t] && end[t] == start[t] + held[t];
  }

  /** What was sent from the window, with step j, is in it. */
  lemma OutsFit(o: Vec, before: Vec, sent: Vec, p: Pointers, k: nat, cap: nat, i: nat, s: nat, n: nat, d: nat,
                d': nat)
    requires |o| == |before| == k && sent == Add(before, o) && Sum(o) + d == d' && Typed(p.h, k)
    requires i < |p.s| && s == p.s[i] && Sum(before) == d
    requires LeV(Upto(p.h, s, k), before) && NonNegative(o) && s <= d <= d' <= Min(s + cap, n) && n <= |p.h|
    requires LeV(sent, Upto(p.h, Min(s + cap, n), k))
    ensures Add(OutOf(before, p, k, i), o) == Sub(sent, Upto(p.h, s, k))
    ensures OutFits(p.h, k, cap, s, n, d, d', OutOf(before, p, k, i), o)
  {
    OutSizes(before, p, k, i);
    UptoSplits(p.h, s, Min(s + cap, n), k);
    OutVectors(before, o, sent, Upto(p.h, s, k), Seg(p.h, s, Min(s + cap, n), k), Upto(p.h, Min(s + cap, n), k), k);
  }

  /** The window after the step. */
  lemma NextIs(sent: Vec, p: Pointers, k: nat, cap: nat, j: nat, s: nat, n: nat, d: nat)
    requires |sent| == k && j < |p.s| && j + 1 < |p.n| && Typed(p.h, k) && n == p.n[j + 1] <= |p.h|
    requires s <= n && p.s[j] == NextStart(cap, s, n, d) && d <= Min(s + cap, n) && n <= Min(s + cap, n) + cap
    requires Sum(sent) == d && LeV(sent, Upto(p.h, Min(s + cap, n), k))
    ensures WindowIs(sent, p, k, cap, j) == Next(p.h, k, cap, s, n, d, Sub(sent, Upto(p.h, s, k)))
  {
    var end := Min(s + cap, n);
    if d >= end {
      UptoSplits(p.h, end, n, k);
      SameIfSameSum(sent, Upto(p.h, end, k));
      SegEmpty(p.h, n, k);
      AddZero(sent);
    }
  }

  lemma PartsIn(p: Pointers, k: nat, cap: nat, i: nat, j: nat, s: nat, a: nat, b: nat)
    requires j == i + 1 < |p.s| && j + 1 < |p.n| && s == p.s[i] && a == p.n[j] && b == p.n[j + 1]
    ensures TmpEnq(p, k, cap, j) == Seg(p.h, s, Min(s + cap, b), k)
    ensures TmpNxt(p, k, cap, j) == Seg(p.h, Max(Min(s + cap, b), a), b, k)
  {
  }

  lemma IsShown(sent: Vec, p: Pointers, k: nat, cap: nat, i: nat, s: nat, a: nat)
    requires |sent| == k && i < |p.s| && i + 1 < |p.n| && s == p.s[i] && a == p.n[i + 1]
    ensures WindowIs(sent, p, k, cap, i) == Shown(p.h, k, cap, s, a, OutOf(sent, p, k, i))
  {
  }

  /** What is known of step j along the order, where i is the step before and n the number of steps after it. */
  ghost predicate Ready(p: Pointers, o: Vec, before: Vec, sent: Vec, k: nat, cap: nat, i: nat, j: nat, n: nat) {
    && j == i + 1 && n == j + 1 && n < |p.n| && n < |p.d| && j < |p.s| && |before| == |o| == |sent| == k
    && Typed(p.h, k) && NonNegative(o) && StepBounds(p.h, cap, p.s[i], p.n[j], p.n[n], p.d[j], p.d[n])
    && p.s[j] == NextStart(cap, p.s[i], p.n[n], p.d[n])
    && sent == Add(before, o) && Sum(o) + p.d[j] == p.d[n] == Sum(sent) && Sum(before) == p.d[j]
    && LeV(Upto(p.h, p.s[i], k), before) && LeV(sent, Upto(p.h, Min(p.s[i] + cap, p.n[n]), k))
  }

  lemma ReadyOuts(p: Pointers, o: Vec, before: Vec, sent: Vec, k: nat, cap: nat, i: nat, j: nat, n: nat)
    requires Ready(p, o, before, sent, k, cap, i, j, n)
    ensures Add(OutOf(before, p, k, i), o) == Sub(sent, Upto(p.h, p.s[i], k))
    ensures OutFits(p.h, k, cap, p.s[i], p.n[n], p.d[j], p.d[n], OutOf(before, p, k, i), o)
  {
    OutsFit(o, before, sent, p, k, cap, i, p.s[i], p.n[n], p.d[j], p.d[n]);
  }

  lemma ReadyNext(p: Pointers, o: Vec, before: Vec, sent: Vec, k: nat, cap: nat, i: nat, j: nat, n: nat)
    requires Ready(p, o, before, sent, k, cap, i, j, n)
    ensures WindowIs(sent, p, k, cap, j)
            == Next(p.h, k, cap, p.s[i], p.n[n], p.d[n], Sub(sent, Upto(p.h, p.s[i], k)))
  {
    NextIs(sent, p, k, cap, j, p.s[i], p.n[n], p.d[n]);
  }

  lemma ReadyStep(p: Pointers, o: Vec, before: Vec, sent: Vec, k: nat, cap: nat, i: nat, j: nat, n: nat)
    requires Ready(p, o, before, sent, k, cap, i, j, n)
    ensures Typed(p.h, k) && StepBounds(p.h, cap, p.s[i], p.n[j], p.n[n], p.d[j], p.d[n])
    ensures OutFits(p.h, k, cap, p.s[i], p.n[n], p.d[j], p.d[n], OutOf(before, p, k, i), o)
    ensures WindowIs(sent, p, k, cap, j)
            == Next(p.h, k, cap, p.s[i], p.n[n], p.d[n], Add(OutOf(before, p, k, i), o))
  {
    ReadyOuts(p, o, before, sent, k, cap, i, j, n);
    ReadyNext(p, o, before, sent, k, cap, i, j, n);
  }

  lemma ReadyShown(p: Pointers, before: Vec, k: nat, cap: nat, i: nat, j: nat, n: nat)
    requires j == i + 1 && n == j + 1 && n < |p.n| && j < |p.s| && |before| == k
    ensures WindowIs(before, p, k, cap, i) == Shown(p.h, k, cap, p.s[i], p.n[j], OutOf(before, p, k, i))
    ensures TmpEnq(p, k, cap, j) == Seg(p.h, p.s[i], Min(p.s[i] + cap, p.n[n]), k)
    ensures TmpNxt(p, k, cap, j) == Seg(p.h, Max(Min(p.s[i] + cap, p.n[n]), p.n[j]), p.n[n], k)
  {
    PartsIn(p, k, cap, i, j, p.s[i], p.n[j], p.n[n]);
    IsShown(before, p, k, cap, i, p.s[i], p.n[j]);
  }

  lemma PartsAreStep(p: Pointers, e: Vec, o: Vec, before: Vec, sent: Vec, k: nat, cap: nat, i: nat, j: nat, n: nat,
                     x: Window, y: Window)
    requires Ready(p, o, before, sent, k, cap, i, j, n) && e == Seg(p.h, p.n[j], p.n[n], k)
    requires x == WindowIs(before, p, k, cap, i) && y == WindowIs(sent, p, k, cap, j)
    ensures IsStep(p.h, k, cap, p.s[i], p.n[j], p.n[n], p.d[j], p.d[n], OutOf(before, p, k, i), x, e, o,
                   TmpEnq(p, k, cap, j), TmpNxt(p, k, cap, j), y)
  {
    ReadyStep(p, o, before, sent, k, cap, i, j, n);
    ReadyShown(p, before, k, cap, i, j, n);
  }

  /** What is known of one step. */
  lemma AlongSent(e: Vec, o: Vec, before: Vec, sent: Vec, p: Pointers, k: nat, cap: nat, j: nat, n: nat)
    requires AlongAt(e, o, before, sent, p, k, cap, j) && n == j + 1
    ensures |sent| == k && n < |p.d| && j < |p.s| && Sum(sent) == p.d[n] && LeV(Upto(p.h, p.s[j], k), sent)
  {
  }

  lemma StepFacts(tr: Trace, os: seq<Vec>, p: Pointers, m: nat, k: nat, cap: nat, j: nat, n: nat)
    requires Along(tr, os, p, m, k, cap) && n == j + 1 <= m
    ensures AlongAt(tr.e[j], tr.o[j], os[j], os[n], p, k, cap, j)
  {
  }

  lemma AlongFlow(e: Vec, o: Vec, before: Vec, sent: Vec, p: Pointers, k: nat, cap: nat, i: nat, j: nat, n: nat)
    requires AlongAt(e, o, before, sent, p, k, cap, j) && j == i + 1 && n == j + 1
    ensures |o| == |before| == |sent| == k && n < |p.n| && n < |p.d| && j < |p.s|
    ensures sent == Add(before, o) && Sum(o) + p.d[j] == p.d[n] == Sum(sent)
    ensures LeV(sent, Upto(p.h, Min(p.s[i] + cap, p.n[n]), k))
  {
  }

  lemma StepReady(tr: Trace, os: seq<Vec>, p: Pointers, m: nat, k: nat, cap: nat, i: nat, j: nat, n: nat)
    requires Along(tr, os, p, m, k, cap) && Counts(tr) && j == i + 1 && n == j + 1 <= m
    ensures Ready(p, tr.o[j], os[j], os[n], k, cap, i, j, n)
  {
    PointerBounds(p, m, k, cap, j);
    StepFacts(tr, os, p, m, k, cap, i, j);
    StepFacts(tr, os, p, m, k, cap, j, n);
    AlongSent(tr.e[i], tr.o[i], os[i], os[j], p, k, cap, i, j);
    AlongFlow(tr.e[j], tr.o[j], os[j], os[n], p, k, cap, i, j, n);
  }

  lemma StepEnqueues(tr: Trace, os: seq<Vec>, p: Pointers, m: nat, k: nat, cap: nat, j: nat, n: nat)
    requires Along(tr, os, p, m, k, cap) && n == j + 1 <= m
    ensures n < |p.n| && tr.e[j] == Seg(p.h, p.n[j], p.n[n], k)
  {
    StepFacts(tr, os, p, m, k, cap, j, n);
  }

  lemma StepHolds(tr: Trace, os: seq<Vec>, p: Pointers, m: nat, k: nat, cap: nat, i: nat, j: nat, x: Window, y: Window)
    requires Along(tr, os, p, m, k, cap) && Counts(tr) && j == i + 1 < m
    requires x == WindowIs(os[j], p, k, cap, i) && y == WindowIs(os[j + 1], p, k, cap, j)
    ensures WindowStep(x, tr.e[j], tr.o[j], TmpEnq(p, k, cap, j), TmpNxt(p, k, cap, j), y, k, cap)
  {
    StepReady(tr, os, p, m, k, cap, i, j, j + 1);
    StepEnqueues(tr, os, p, m, k, cap, j, j + 1);
    PartsAreStep(p, tr.e[j], tr.o[j], os[j], os[j + 1], k, cap, i, j, j + 1, x, y);
    ShownStepOf(p.h, k, cap, p.s[i], p.n[j], p.n[j + 1], p.d[j], p.d[j + 1], OutOf(os[j], p, k, i), x, tr.e[j], tr.o[j],
                TmpEnq(p, k, cap, j), TmpNxt(p, k, cap, j), y);
  }

  function WindowsFrom(xs: seq<Window>, held: seq<Vec>, over: seq<Vec>): Windows {
    Windows(seq(|xs|, j requires 0 <= j < |xs| => xs[j].enq), seq(|xs|, j requires 0 <= j < |xs| => xs[j].nxt),
            seq(|xs|, j requires 0 <= j < |xs| => xs[j].out), held, over)
  }

  lemma FromShaped(xs: seq<Window>, held: seq<Vec>, over: seq<Vec>, m: nat, k: nat)
    requires |xs| == m && AllOf(held, m, k) && AllOf(over, m, k) && forall j :: 0 <= j < m ==> WindowOf(xs[j], k)
    ensures WindowShaped(WindowsFrom(xs, held, over), m, k)
    ensures forall j :: 0 <= j < m ==> At(WindowsFrom(xs, held, over), j) == xs[j]
  {
  }

  ghost function Chosen(os: seq<Vec>, p: Pointers, m: nat, k: nat, cap: nat): (w: Windows)
    requires AllOf(os, m + 1, k) && |p.s| == m && |p.n| == m + 1
  {
    WindowsFrom(seq(m, j requires 0 <= j < m => WindowIs(os[j + 1], p, k, cap, j)),
                seq(m, j requires 0 <= j < m => TmpEnq(p, k, cap, j)),
                seq(m, j requires 0 <= j < m => TmpNxt(p, k, cap, j)))
  }

  lemma ChosenAt(os: seq<Vec>, p: Pointers, m: nat, k: nat, cap: nat, w: Windows, j: nat)
    requires AllOf(os, m + 1, k) && |p.s| == m && |p.n| == m + 1 && j < m && w == Chosen(os, p, m, k, cap)
    ensures WindowShaped(w, m, k) && At(w, j) == WindowIs(os[j + 1], p, k, cap, j)
    ensures w.tmpEnq[j] == TmpEnq(p, k, cap, j) && w.tmpNxt[j] == TmpNxt(p, k, cap, j)
  {
    FromShaped(seq(m, t requires 0 <= t < m => WindowIs(os[t + 1], p, k, cap, t)), w.tmpEnq, w.tmpNxt, m, k);
  }

  lemma ChosenFirst(tr: Trace, os: seq<Vec>, p: Pointers, m: nat, k: nat, cap: nat, w: Windows)
    requires Along(tr, os, p, m, k, cap) && m > 0 && w == Chosen(os, p, m, k, cap)
    ensures WindowStepOk(tr, w, k, cap, 0)
  {
    assert AlongAt(tr.e[0], tr.o[0], os[0], os[1], p, k, cap, 0) && PointerStep(p, cap, 0);
    ChosenAt(os, p, m, k, cap, w, 0);
    SegEmpty(p.h, p.n[1], k);
    SegEmpty(p.h, 0, k);
    SumZero(k);
    AddZero(tr.o[0]);
    assert Sub(tr.o[0], Zero(k)) == tr.o[0];
  }

  lemma ChosenNext(tr: Trace, os: seq<Vec>, p: Pointers, m: nat, k: nat, cap: nat, w: Windows, i: nat, j: nat)
    requires Along(tr, os, p, m, k, cap) && Counts(tr) && j == i + 1 < m && w == Chosen(os, p, m, k, cap)
    ensures WindowStepOk(tr, w, k, cap, j)
  {
    ChosenAt(os, p, m, k, cap, w, i);
    ChosenAt(os, p, m, k, cap, w, j);
    StepHolds(tr, os, p, m, k, cap, i, j, WindowIs(os[j], p, k, cap, i), WindowIs(os[j + 1], p, k, cap, j));
  }

  lemma ChosenWithin(tr: Trace, os: seq<Vec>, p: Pointers, m: nat, k: nat, cap: nat, j: nat)
    requires Along(tr, os, p, m, k, cap) && j < m
    ensures var x := WindowIs(os[j + 1], p, k, cap, j);
            && Within(x.enq, cap) && Within(x.nxt, cap) && Within(x.out, cap)
            && Within(TmpEnq(p, k, cap, j), cap) && Within(TmpNxt(p, k, cap, j), cap)
  {
    WindowBoundsAt(p, m, k, cap, j);
    assert AlongAt(tr.e[j], tr.o[j], os[j], os[j + 1], p, k, cap, j) && PointerStep(p, cap, j);
    StartInvariant(p, m, k, cap, j);
    OutSizes(os[j + 1], p, k, j);
    SumOfCounts(OutOf(os[j + 1], p, k, j));
  }

  /** A run along an order of admission has window variables. */
  lemma ChosenRun(tr: Trace, os: seq<Vec>, p: Pointers, m: nat, k: nat, cap: nat)
    requires Along(tr, os, p, m, k, cap) && Counts(tr)
    ensures WindowRun(tr, Chosen(os, p, m, k, cap), m, k, cap)
  {
    var w := Chosen(os, p, m, k, cap);
    forall j | 0 <= j < m
      ensures WindowStepOk(tr, w, k, cap, j)
      ensures Within(w.enq[j], cap) && Within(w.nxt[j], cap) && Within(w.out[j], cap)
      ensures Within(w.tmpEnq[j], cap) && Within(w.tmpNxt[j], cap)
    {
      ChosenAt(os, p, m, k, cap, w, j);
      ChosenWithin(tr, os, p, m, k, cap, j);
      if j == 0 {
        ChosenFirst(tr, os, p, m, k, cap, w);
      } else {
        ChosenNext(tr, os, p, m, k, cap, w, j - 1, j);
      }
    }
  }

  // ---------------------------------------------------------------- the order of a fitting run

  function ToNat(x: int): nat {
    if x < 0 then 0 else x
  }

  function ToNats(xs: seq<int>): (r: seq<nat>)
    ensures |r| == |xs| && forall i :: 0 <= i < |xs| ==> r[i] == ToNat(xs[i])
  {
    seq(|xs|, i requires 0 <= i < |xs| => ToNat(xs[i]))
  }

  function Starts(tr: Trace, m: nat, k: nat, cap: int): (r: seq<int>)
    requires Shaped(tr, m, k)
    ensures |r| == m && forall j :: 0 <= j < m ==> r[j] == Start(tr, m, k, cap, j + 1)
  {
    seq(m, j requires 0 <= j < m => Start(tr, m, k, cap, j + 1))
  }

  function Admissions(tr: Trace, m: nat, k: nat): (r: seq<int>)
    requires Shaped(tr, m, k)
    ensures |r| == m + 1 && forall n :: 0 <= n <= m ==> r[n] == AdmittedBefore(tr, m, k, n)
  {
    seq(m + 1, n requires 0 <= n <= m => AdmittedBefore(tr, m, k, n))
  }

  function Departures(tr: Trace, m: nat, k: nat): (r: seq<int>)
    requires Shaped(tr, m, k)
    ensures |r| == m + 1 && forall n :: 0 <= n <= m ==> r[n] == SentBefore(tr, m, k, n)
  {
    seq(m + 1, n requires 0 <= n <= m => SentBefore(tr, m, k, n))
  }

  function PointersOf(tr: Trace, m: nat, k: nat, cap: nat, h: seq<nat>): (p: Pointers)
    requires Shaped(tr, m, k)
    ensures p.h == h && |p.n| == |p.d| == m + 1 && |p.s| == m
  {
    Pointers(h, ToNats(Admissions(tr, m, k)), ToNats(Departures(tr, m, k)), ToNats(Starts(tr, m, k, cap)))
  }

  /** Positions before and after the n-th step. */
  lemma StepCounts(tr: Trace, m: nat, k: nat, cap: nat, j: nat, n: nat)
    requires Flow(tr, m, k, cap) && n == j + 1 <= m
    ensures 0 <= AdmittedBefore(tr, m, k, j) <= AdmittedBefore(tr, m, k, n) <= AdmittedBefore(tr, m, k, m)
    ensures 0 <= SentBefore(tr, m, k, j) <= SentBefore(tr, m, k, n) <= AdmittedBefore(tr, m, k, n)
    ensures SentBefore(tr, m, k, n) <= SentBefore(tr, m, k, j) + 1
    ensures AdmittedBefore(tr, m, k, n) <= SentBefore(tr, m, k, j) + cap
  {
    Positions(tr, m, k, cap, j, n);
  }

  lemma StartNext(tr: Trace, m: nat, k: nat, cap: nat, j: nat, n: nat)
    requires FittingRun(tr, m, k, cap) && 0 < j && n == j + 1 <= m
    ensures 0 <= Start(tr, m, k, cap, j) && 0 <= AdmittedBefore(tr, m, k, n) && 0 <= SentBefore(tr, m, k, n)
    ensures Start(tr, m, k, cap, n)
            == NextStart(cap, Start(tr, m, k, cap, j), AdmittedBefore(tr, m, k, n), SentBefore(tr, m, k, n))
  {
    Bounds(tr, m, k, cap, j);
    Bounds(tr, m, k, cap, n);
  }

  lemma PointersAre(tr: Trace, m: nat, k: nat, cap: nat, h: seq<nat>, p: Pointers, j: nat, n: nat)
    requires FittingRun(tr, m, k, cap) && n == j + 1 <= m && p == PointersOf(tr, m, k, cap, h)
    ensures p.n[j] == AdmittedBefore(tr, m, k, j) && p.n[n] == AdmittedBefore(tr, m, k, n)
    ensures p.d[j] == SentBefore(tr, m, k, j) && p.d[n] == SentBefore(tr, m, k, n)
    ensures p.s[j] == Start(tr, m, k, cap, n)
  {
    Bounds(tr, m, k, cap, n);
    StepCounts(tr, m, k, cap, j, n);
  }

  lemma PointerAt(tr: Trace, m: nat, k: nat, cap: nat, h: seq<nat>, p: Pointers, j: nat, n: nat)
    requires FittingRun(tr, m, k, cap) && n == j + 1 <= m && p == PointersOf(tr, m, k, cap, h)
    requires |h| == AdmittedBefore(tr, m, k, m)
    ensures PointerStep(p, cap, j)
  {
    PointersAre(tr, m, k, cap, h, p, j, n);
    Bounds(tr, m, k, cap, n);
    StepCounts(tr, m, k, cap, j, n);
    if j > 0 {
      PointersAre(tr, m, k, cap, h, p, j - 1, j);
      StartNext(tr, m, k, cap, j, n);
    }
  }

  lemma PointersRun(tr: Trace, m: nat, k: nat, cap: nat, h: seq<nat>, p: Pointers)
    requires FittingRun(tr, m, k, cap) && Typed(h, k) && |h| == AdmittedBefore(tr, m, k, m)
    requires p == PointersOf(tr, m, k, cap, h)
    ensures PointerRun(p, m, k, cap)
  {
    PointersAre(tr, m, k, cap, h, p, 0, 1);
    SumZero(k);
    NothingSentFirst(tr, m, k, cap);
    forall j | 0 <= j < m
      ensures PointerStep(p, cap, j)
    {
      PointerAt(tr, m, k, cap, h, p, j, j + 1);
    }
  }

  lemma StepPieces(tr: Trace, m: nat, k: nat, cap: nat, last: Vec, h: seq<nat>, j: nat, n: nat, a: nat, b: nat)
    requires OrderedRun(tr, m, k, cap, last, h) && n == j + 1 <= m
    requires a == AdmittedBefore(tr, m, k, j) && b == AdmittedBefore(tr, m, k, n)
    ensures a <= b <= |h| && tr.e[j] == Seg(h, a, b, k)
  {
    CountsGrow(tr, m, k, j, n);
    AdmittedIsUpto(tr, m, k, cap, last, h, j);
    AdmittedIsUpto(tr, m, k, cap, last, h, n);
    UptoSplits(h, a, b, k);
    assert Cumulative(tr.e, n, k) == Add(Cumulative(tr.e, j, k), tr.e[j]);
    forall t | 0 <= t < k
      ensures tr.e[j][t] == Seg(h, a, b, k)[t]
    {
      assert Cumulative(tr.e, n, k)[t] == Cumulative(tr.e, j, k)[t] + tr.e[j][t];
    }
  }

  lemma EndsAgree(tr: Trace, m: nat, k: nat, cap: nat, h: seq<nat>, p: Pointers, j: nat, n: nat)
    requires FittingRun(tr, m, k, cap) && n == j + 1 <= m && p == PointersOf(tr, m, k, cap, h)
    ensures EndIn(p, cap, j) == End(tr, m, k, cap, n)
  {
    PointersAre(tr, m, k, cap, h, p, j, n);
    if j > 0 {
      PointersAre(tr, m, k, cap, h, p, j - 1, j);
    }
  }

  lemma SentInOrder(tr: Trace, m: nat, k: nat, cap: nat, last: Vec, h: seq<nat>, p: Pointers, j: nat, n: nat)
    requires OrderedRun(tr, m, k, cap, last, h) && n == j + 1 <= m && p == PointersOf(tr, m, k, cap, h)
    ensures LeV(Upto(h, p.s[j], k), Cumulative(tr.o, n, k))
    ensures LeV(Cumulative(tr.o, n, k), Upto(h, EndIn(p, cap, j), k))
  {
    PointersAre(tr, m, k, cap, h, p, j, n);
    EndsAgree(tr, m, k, cap, h, p, j, n);
    StartSent(tr, m, k, cap, last, h, n);
    SentBeforeEnd(tr, m, k, cap, last, h, n);
  }

  lemma CountsInOrder(tr: Trace, m: nat, k: nat, cap: nat, last: Vec, h: seq<nat>, p: Pointers, j: nat, n: nat)
    requires OrderedRun(tr, m, k, cap, last, h) && n == j + 1 <= m && p == PointersOf(tr, m, k, cap, h)
    ensures tr.e[j] == Seg(h, p.n[j], p.n[n], k) && Sum(tr.o[j]) + p.d[j] == p.d[n]
    ensures Sum(Cumulative(tr.o, n, k)) == p.d[n] && Cumulative(tr.o, n, k) == Add(Cumulative(tr.o, j, k), tr.o[j])
  {
    PointersAre(tr, m, k, cap, h, p, j, n);
    StepPieces(tr, m, k, cap, last, h, j, n, p.n[j], p.n[n]);
    CountsStep(tr, m, k, j);
  }

  lemma MakeAlong(e: Vec, o: Vec, before: Vec, sent: Vec, p: Pointers, k: nat, cap: nat, j: nat, n: nat)
    requires j < |p.s| && n == j + 1 && n < |p.n| && n < |p.d| && |o| == |before| == |sent| == k
    requires e == Seg(p.h, p.n[j], p.n[n], k) && sent == Add(before, o) && Sum(o) + p.d[j] == p.d[n] == Sum(sent)
    requires LeV(Upto(p.h, p.s[j], k), sent) && LeV(sent, Upto(p.h, EndIn(p, cap, j), k))
    ensures AlongAt(e, o, before, sent, p, k, cap, j)
  {
  }

  lemma GoesAlong(tr: Trace, m: nat, k: nat, cap: nat, last: Vec, h: seq<nat>, p: Pointers, j: nat, n: nat)
    requires OrderedRun(tr, m, k, cap, last, h) && n == j + 1 <= m && p == PointersOf(tr, m, k, cap, h)
    ensures AlongAt(tr.e[j], tr.o[j], Cumulative(tr.o, j, k), Cumulative(tr.o, n, k), p, k, cap, j)
  {
    CountsInOrder(tr, m, k, cap, last, h, p, j, n);
    SentInOrder(tr, m, k, cap, last, h, p, j, n);
    MakeAlong(tr.e[j], tr.o[j], Cumulative(tr.o, j, k), Cumulative(tr.o, n, k), p, k, cap, j, n);
  }

  lemma FittingHasWindows(tr: Trace, m: nat, k: nat, cap: nat) returns (w: Windows)
    requires FittingRun(tr, m, k, cap)
    ensures WindowRun(tr, w, m, k, cap)
  {
    var last := LastEnd(tr, m, k, cap);
    var h := OrderExists(tr, m, k, cap, last);
    var p, os := PointersOf(tr, m, k, cap, h), Cums(tr.o, m, k);
    PointersRun(tr, m, k, cap, h, p);
    forall j | 0 <= j < m
      ensures AlongAt(tr.e[j], tr.o[j], os[j], os[j + 1], p, k, cap, j)
    {
      GoesAlong(tr, m, k, cap, last, h, p, j, j + 1);
    }
    ChosenRun(tr, os, p, m, k, cap);
    w := Chosen(os, p, m, k, cap);
  }

  /**
    Which runs of a VOQ have window variables, for any packet types and capacity: exactly those in which, at every
    step, all packets sent so far can, type by type, have been admitted before the end of the current window.
   */
  lemma HasWindowsExactlyWhen(tr: Trace, m: nat, k: nat, cap: nat)
    requires BufferRun(tr, m, k, cap) && SendsWhenBacklogged(tr, m) && cap >= 1
    ensures (exists w :: WindowRun(tr, w, m, k, cap)) <==> AllOutputsFit(tr, m, k, cap)
  {
    if w :| WindowRun(tr, w, m, k, cap) {
      forall n | 0 < n <= m
        ensures OutputsFit(tr, m, k, cap, n)
      {
        WindowsNeed(tr, w, m, k, cap, n);
      }
    }
    if AllOutputsFit(tr, m, k, cap) {
      if m == 0 {
        assert WindowRun(tr, Windows([], [], [], [], []), m, k, cap);
      } else {
        var w := FittingHasWindows(tr, m, k, cap);
      }
    }
  }

  /** Runs of a FIFO queue are among them. */
  lemma InOrderFits(tr: Trace, m: nat, k: nat, cap: nat)
    requires BufferRun(tr, m, k, cap) && SendsWhenBacklogged(tr, m) && cap >= 1 && InOrder(tr, m, k)
    ensures AllOutputsFit(tr, m, k, cap)
  {
    var steps := LeafQueueExists(tr, m, k, cap);
    var w := QueueRunIsLeafRun(steps, tr, k, cap);
    HasWindowsExactlyWhen(tr, m, k, cap);
  }

  // ---------------------------------------------------------------- a run without windows

  /** Capacity 3: three packets of type 0, then one of type 1, which leaves as the third. */
  function Overtaken(): Trace {
    var none := Pair(0, 0);
    var arrivals := [Pair(3, 0), none, Pair(0, 1), none];
    Trace(arrivals, arrivals, [none, none, none, none], [none, Pair(1, 0), Pair(1, 0), Pair(0, 1)],
          [none, Pair(3, 0), Pair(2, 0), Pair(1, 1)], [false, true, true, true])
  }

  /** The equations of one step, from its vectors. */
  lemma PairStep(tr: Trace, k: nat, cap: int, j: nat, c: Vec, e: Vec, d: Vec)
    requires StepShaped(tr, k, j) && k == 2 && tr.c[j] == c && tr.e[j] == e && tr.d[j] == d
    requires tr.i[j] == Add(e, d) && tr.b[j] == (Sum(c) > 0) && Sum(e) + Sum(c) <= cap && Sum(d) == 0
    requires if j == 0 then Sum(c) == 0 else c == Sub(Add(tr.c[j - 1], tr.e[j - 1]), tr.o[j - 1])
    ensures StepOk(tr, k, cap, j)
  {
    SumAdd(e, c);
  }

  lemma OvertakenStep(tr: Trace, j: nat)
    requires tr == Overtaken() && j < 4
    ensures StepOk(tr, 2, 3, j) && Sum(tr.o[j]) <= 1 && (Sum(tr.o[j]) == 1 ==> tr.b[j])
  {
    var e, o, d, c := tr.e[j], tr.o[j], tr.d[j], tr.c[j];
    PairSum(e[0], e[1]);
    PairSum(o[0], o[1]);
    PairSum(d[0], d[1]);
    PairSum(c[0], c[1]);
    PairStep(tr, 2, 3, j, c, e, d);
  }

  lemma OvertakenShape(tr: Trace, m: nat, k: nat)
    requires tr == Overtaken() && m == 4 && k == 2
    ensures Shaped(tr, m, k) && Counts(tr)
  {
  }

  lemma OvertakenIsRun(tr: Trace, m: nat, k: nat, cap: int)
    requires tr == Overtaken() && m == 4 && k == 2 && cap == 3
    ensures BufferRun(tr, m, k, cap) && SendsWhenBacklogged(tr, m)
  {
    OvertakenShape(tr, m, k);
    forall j | 0 <= j < m
      ensures StepOk(tr, k, cap, j) && Sum(tr.o[j]) <= 1 && (Sum(tr.o[j]) == 1 ==> tr.b[j])
    {
      OvertakenStep(tr, j);
    }
  }

  lemma NextPair(vs: seq<Vec>, j: nat, n: nat, a: int, b: int)
    requires n == j + 1 <= |vs| && forall i :: 0 <= i < |vs| ==> |vs[i]| == 2
    requires Cumulative(vs, j, 2) == Pair(a, b)
    ensures Cumulative(vs, n, 2) == Pair(a + vs[j][0], b + vs[j][1])
    ensures Sum(Cumulative(vs, n, 2)) == a + vs[j][0] + b + vs[j][1]
  {
    PairSum(a + vs[j][0], b + vs[j][1]);
  }

  lemma OvertakenSums(tr: Trace, a: nat, b: nat, c: nat, d: nat)
    requires tr == Overtaken() && a == 1 && b == 2 && c == 3 && d == 4 && Shaped(tr, d, 2)
    ensures Cumulative(tr.e, a, 2) == Pair(3, 0) && AdmittedBefore(tr, d, 2, a) == 3
    ensures AdmittedBefore(tr, d, 2, b) == 3 && AdmittedBefore(tr, d, 2, c) == 4 && AdmittedBefore(tr, d, 2, d) == 4
    ensures SentBefore(tr, d, 2, a) == 0 && SentBefore(tr, d, 2, b) == 1 && SentBefore(tr, d, 2, c) == 2
    ensures Cumulative(tr.o, d, 2) == Pair(2, 1)
  {
    assert Cumulative(tr.e, a - 1, 2) == Pair(0, 0) == Cumulative(tr.o, a - 1, 2);
    NextPair(tr.e, a - 1, a, 0, 0);
    NextPair(tr.o, a - 1, a, 0, 0);
    NextPair(tr.e, a, b, 3, 0);
    NextPair(tr.o, a, b, 0, 0);
    NextPair(tr.e, b, c, 3, 0);
    NextPair(tr.o, b, c, 1, 0);
    NextPair(tr.e, c, d, 3, 1);
    NextPair(tr.o, c, d, 2, 0);
  }

  /** Nothing closes before the last step, where the first three packets end the window. */
  lemma OvertakenEnd(tr: Trace, m: nat, k: nat, cap: int, a: nat, b: nat, c: nat)
    requires Shaped(tr, m, k) && m == 4 && a == 1 && b == 2 && c == 3 && cap == 3
    requires AdmittedBefore(tr, m, k, b) == 3 && AdmittedBefore(tr, m, k, c) == 4 == AdmittedBefore(tr, m, k, m)
    requires SentBefore(tr, m, k, b) == 1 && SentBefore(tr, m, k, c) == 2
    ensures End(tr, m, k, cap, m) == 3
  {
    assert Start(tr, m, k, cap, a) == 0;
    assert End(tr, m, k, cap, b) == 3 && Start(tr, m, k, cap, b) == 0;
    assert End(tr, m, k, cap, c) == 3 && Start(tr, m, k, cap, c) == 0;
  }

  lemma ThreeDoNotHold(admitted: Vec, sent: Vec, end: int)
    requires admitted == Pair(3, 0) && sent == Pair(2, 1) && end == 3
    ensures !Holds(admitted, sent, end)
  {
    assert MaxV(admitted, sent) == Pair(3, 1);
    PairSum(3, 0);
    PairSum(3, 1);
  }

  lemma RefusedAt(tr: Trace, m: nat, k: nat, cap: nat, a: nat, b: nat, c: nat)
    requires Shaped(tr, m, k) && m == 4 && cap == 3 && a == 1 && b == 2 && c == 3
    requires AdmittedBefore(tr, m, k, b) == 3 && AdmittedBefore(tr, m, k, c) == 4 == AdmittedBefore(tr, m, k, m)
    requires SentBefore(tr, m, k, b) == 1 && SentBefore(tr, m, k, c) == 2
    requires Cumulative(tr.e, a, k) == Pair(3, 0) && Cumulative(tr.o, m, k) == Pair(2, 1)
    ensures !OutputsFit(tr, m, k, cap, m)
  {
    OvertakenEnd(tr, m, k, cap, a, b, c);
    ThreeDoNotHold(Cumulative(tr.e, a, k), Cumulative(tr.o, m, k), End(tr, m, k, cap, m));
  }

  lemma OvertakenRefused(tr: Trace, m: nat, k: nat, cap: nat, a: nat, b: nat, c: nat)
    requires tr == Overtaken() && m == 4 && k == 2 && cap == 3 && a == 1 && b == 2 && c == 3 && Shaped(tr, m, k)
    ensures !OutputsFit(tr, m, k, cap, m)
  {
    OvertakenSums(tr, a, b, c, m);
    RefusedAt(tr, m, k, cap, a, b, c);
  }

  /** Three packets of type 0 fill the window, so one of type 1 cannot be among the first three that leave. */
  lemma RejectsOvertaking(tr: Trace, m: nat, k: nat, cap: nat)
    requires tr == Overtaken() && m == 4 && k == 2 && cap == 3
    ensures BufferRun(tr, m, k, cap) && SendsWhenBacklogged(tr, m) && forall w :: !WindowRun(tr, w, m, k, cap)
  {
    OvertakenIsRun(tr, m, k, cap);
    OvertakenRefused(tr, m, k, cap, 1, 2, 3);
    HasWindowsExactlyWhen(tr, m, k, cap);
  }
}
