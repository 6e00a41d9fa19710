/** When the windows of src/sts_checker.cpp (winds) exist for runs of any packet types. */
module WindowTypes {
  import opened CountVectors
  import opened BufferTrace
  import opened SplitRanges
  import opened StsBuffer
  import opened WindowTotals
  import S = StsWindows
  import L = LeafBuffer

  // ---------------------------------------------------------------- the condition

  /** The packets that the current window holds at least and at most, and what was sent from it. */
  datatype Hold = Hold(low: Vec, high: Vec, out: Vec)

  predicate HoldOf(h: Hold, k: nat) {
    |h.low| == |h.high| == |h.out| == k
  }

  predicate ClosesNow(x: Tally, e: int, o: int, cap: int) {
    x.out + o >= FilledTo(x, e, cap)
  }

  /** What the window can hold when step (e, o) has been added to it. */
  function HighWith(h: Hold, x: Tally, e: Vec, cap: int): (v: Vec)
    requires |h.high| == |e|
    ensures |v| == |e|
  {
    if x.enq < cap then Add(h.high, e) else h.high
  }

  /** A closing window held exactly what was sent from it; the next one starts from the rest of the enqueues. */
  function NextHold(h: Hold, x: Tally, e: Vec, o: Vec, cap: int): (y: Hold)
    requires HoldOf(h, |e|) && |o| == |e|
    ensures HoldOf(y, |e|)
  {
    var to := Add(h.out, o);
    if ClosesNow(x, Sum(e), Sum(o), cap) then
      var rest := if x.enq < cap then Sub(Add(h.low, e), to) else e;
      Hold(rest, rest, Zero(|e|))
    else
      Hold(if x.enq < cap && x.enq + Sum(e) <= cap then Add(h.low, e) else h.low, HighWith(h, x, e, cap), to)
  }

  /** What is sent from the window, with step (e, o), can be packets of it. */
  predicate SentFits(h: Hold, x: Tally, e: Vec, o: Vec, cap: int)
    requires HoldOf(h, |e|) && |o| == |e|
  {
    var to := Add(h.out, o);
    && LeV(to, HighWith(h, x, e, cap))
    && if ClosesNow(x, Sum(e), Sum(o), cap) then
         LeV(h.low, to)
       else
         Sum(MaxV(NextHold(h, x, e, o, cap).low, to)) <= FilledTo(x, Sum(e), cap)
  }

  function HoldAt(tr: Trace, k: nat, cap: int, j: nat): (h: Hold)
    requires Shaped(tr, |tr.e|, k) && j < |tr.e|
    ensures HoldOf(h, k)
  {
    if j == 0 then Hold(tr.e[0], tr.e[0], tr.o[0])
    else NextHold(HoldAt(tr, k, cap, j - 1), TallyAt(tr, cap, j - 1), tr.e[j], tr.o[j], cap)
  }

  ghost predicate FitsAt(tr: Trace, k: nat, cap: int, j: nat)
    requires Shaped(tr, |tr.e|, k) && j < |tr.e|
  {
    j > 0 ==> SentFits(HoldAt(tr, k, cap, j - 1), TallyAt(tr, cap, j - 1), tr.e[j], tr.o[j], cap)
  }

  /** At every step the outputs from the current window can be packets of it, type by type. */
  ghost predicate TypesFit(tr: Trace, m: nat, k: nat, cap: int)
    requires Shaped(tr, m, k)
  {
    forall j :: 0 <= j < m ==> FitsAt(tr, k, cap, j)
  }

  // ---------------------------------------------------------------- it is necessary

  /** Window variables lie between what the window holds at least and at most. */
  ghost predicate Between(h: Hold, x: Tally, w: L.Window, k: nat, cap: int) {
    && HoldOf(h, k) && L.WindowOf(w, k) && Sum(w.enq) == x.enq && Sum(w.out) == x.out && w.out == h.out
    && LeV(h.low, w.enq) && LeV(w.enq, h.high) && (x.enq < cap ==> h.low == w.enq == h.high)
  }

  /** A step that closes the window: it held what was sent, and the overflow starts the next one. */
  lemma CloseIs(w: L.Window, e: Vec, o: Vec, se: Vec, sn: Vec, y: L.Window, k: nat, cap: int)
    requires L.WindowOf(w, k) && L.WindowOf(y, k) && |e| == |o| == |se| == |sn| == k
    requires S.ForgetfulStep(w, e, o, se, sn, y, k, cap)
    requires Sum(w.out) + Sum(o) >= Min(cap, Sum(w.enq) + Sum(e)) && Sum(w.out) + Sum(o) <= Sum(se)
    ensures se == Add(w.out, o) && y.enq == sn && y.out == Zero(k) && LeV(w.enq, se)
  {
    SplitSizes(y.nxt, w, e, o, se, sn, y, k, cap);
    SumAdd(w.out, o);
    SameIfSameSum(se, Add(w.out, o));
    AddZero(sn);
    AddZero(se);
  }

  lemma RestOf(enq: Vec, e: Vec, to: Vec, sn: Vec, k: nat)
    requires |enq| == |e| == |to| == |sn| == k && Add(enq, e) == Add(to, sn)
    ensures sn == Sub(Add(enq, e), to) && (enq == to ==> sn == e)
    ensures NonNegative(sn) ==> LeV(to, Add(enq, e))
  {
    forall t | 0 <= t < k
      ensures enq[t] + e[t] == to[t] + sn[t]
    {
      assert Add(enq, e)[t] == Add(to, sn)[t];
    }
  }

  lemma ClosedHold(h: Hold, x: Tally, enq: Vec, e: Vec, o: Vec, to: Vec, sn: Vec, k: nat, cap: int)
    requires HoldOf(h, k) && |enq| == |e| == |o| == |sn| == k && NonNegative(sn) && to == Add(h.out, o)
    requires LeV(h.low, enq) && LeV(enq, h.high) && (x.enq < cap ==> h.low == enq == h.high)
    requires Add(enq, e) == Add(to, sn) && LeV(enq, to) && (x.enq >= cap ==> enq == to)
    requires ClosesNow(x, Sum(e), Sum(o), cap)
    ensures SentFits(h, x, e, o, cap) && NextHold(h, x, e, o, cap) == Hold(sn, sn, Zero(k))
  {
    RestOf(enq, e, to, sn, k);
  }

  lemma FullIsHeld(w: L.Window, e: Vec, o: Vec, se: Vec, sn: Vec, y: L.Window, k: nat, cap: int)
    requires L.WindowOf(w, k) && L.WindowOf(y, k) && |e| == |o| == |se| == |sn| == k
    requires S.ForgetfulStep(w, e, o, se, sn, y, k, cap) && Sum(w.enq) >= cap && Sum(e) >= 0
    ensures w.enq == se
  {
    SplitSizes(y.nxt, w, e, o, se, sn, y, k, cap);
    SameIfSameSum(w.enq, se);
  }

  lemma ClosedHeld(w: L.Window, e: Vec, o: Vec, se: Vec, sn: Vec, y: L.Window, k: nat, cap: int)
    requires L.WindowOf(w, k) && L.WindowOf(y, k) && |e| == |o| == |se| == |sn| == k && NonNegative(e)
    requires S.ForgetfulStep(w, e, o, se, sn, y, k, cap)
    requires Sum(w.out) + Sum(o) >= Min(cap, Sum(w.enq) + Sum(e)) && Sum(w.out) + Sum(o) <= Sum(se)
    ensures se == Add(w.out, o) && y.enq == sn && y.out == Zero(k) && LeV(w.enq, se)
    ensures Add(w.enq, e) == Add(se, sn) && (Sum(w.enq) >= cap ==> w.enq == se)
  {
    CloseIs(w, e, o, se, sn, y, k, cap);
    if Sum(w.enq) >= cap {
      SumOfCounts(e);
      FullIsHeld(w, e, o, se, sn, y, k, cap);
    }
  }

  lemma {:induction false} CloseNeeds(h: Hold, x: Tally, w: L.Window, e: Vec, o: Vec, se: Vec, sn: Vec, y: L.Window,
                                      k: nat, cap: int)
    requires Between(h, x, w, k, cap) && L.WindowOf(y, k) && |e| == |o| == |se| == |sn| == k && NonNegative(e)
    requires NonNegative(sn) && Sum(w.out) + Sum(o) <= Sum(se)
    requires S.ForgetfulStep(w, e, o, se, sn, y, k, cap) && ClosesNow(x, Sum(e), Sum(o), cap)
    ensures SentFits(h, x, e, o, cap) && NextHold(h, x, e, o, cap) == Hold(y.enq, y.enq, y.out)
  {
    ClosedHeld(w, e, o, se, sn, y, k, cap);
    ClosedHold(h, x, w.enq, e, o, se, sn, k, cap);
  }

  /** A step that leaves the window open. */
  lemma OpenHold(h: Hold, x: Tally, enq: Vec, e: Vec, o: Vec, se: Vec, k: nat, cap: int)
    requires HoldOf(h, k) && |enq| == |e| == |o| == |se| == k && NonNegative(e) && x.enq == Sum(enq)
    requires LeV(h.low, enq) && LeV(enq, h.high) && (x.enq < cap ==> h.low == enq == h.high)
    requires LeV(enq, se) && LeV(se, Add(enq, e)) && Sum(se) == FilledTo(x, Sum(e), cap) && LeV(Add(h.out, o), se)
    requires !ClosesNow(x, Sum(e), Sum(o), cap) && x.enq <= cap
    ensures SentFits(h, x, e, o, cap)
    ensures var y := NextHold(h, x, e, o, cap);
            y.out == Add(h.out, o) && LeV(y.low, se) && LeV(se, y.high) && (Sum(se) < cap ==> y.low == se == y.high)
  {
    SumAdd(enq, e);
    SumOfCounts(e);
    if x.enq >= cap {
      SameIfSameSum(enq, se);
    } else if x.enq + Sum(e) <= cap {
      SameIfSameSum(se, Add(enq, e));
    }
    AtMostMax(NextHold(h, x, e, o, cap).low, Add(h.out, o), se);
  }

  lemma OpenNeeds(h: Hold, x: Tally, w: L.Window, e: Vec, o: Vec, se: Vec, sn: Vec, y: L.Window, k: nat, cap: int)
    requires Between(h, x, w, k, cap) && L.WindowOf(y, k) && |e| == |o| == |se| == |sn| == k && NonNegative(e)
    requires x.enq <= cap && NonNegative(sn)
    requires S.ForgetfulStep(w, e, o, se, sn, y, k, cap) && !ClosesNow(x, Sum(e), Sum(o), cap)
    ensures SentFits(h, x, e, o, cap) && y.enq == se && y.out == Add(w.out, o)
    ensures var next := NextHold(h, x, e, o, cap);
            next.out == y.out && LeV(next.low, se) && LeV(se, next.high)
              && (Sum(se) < cap ==> next.low == se == next.high)
  {
    SplitSizes(y.nxt, w, e, o, se, sn, y, k, cap);
    SumAdd(w.out, o);
    forall t | 0 <= t < k
      ensures se[t] <= Add(w.enq, e)[t]
    {
      assert Add(w.enq, e)[t] == Add(se, sn)[t];
    }
    OpenHold(h, x, w.enq, e, o, se, k, cap);
  }

  /** One step of window variables: the condition, and bounds for the next window. */
  lemma StepNeeds(h: Hold, x: Tally, w: L.Window, e: Vec, o: Vec, se: Vec, sn: Vec, y: L.Window, k: nat, cap: int)
    requires Between(h, x, w, k, cap) && L.WindowOf(y, k) && |e| == |o| == |se| == |sn| == k && NonNegative(e)
    requires x.enq <= cap && NonNegative(sn) && Sum(sn) < cap && x.out + Sum(o) <= FilledTo(x, Sum(e), cap)
    requires S.ForgetfulStep(w, e, o, se, sn, y, k, cap) && NextTally(x, Sum(e), Sum(o), cap).enq == Sum(y.enq)
    requires NextTally(x, Sum(e), Sum(o), cap).out == Sum(y.out)
    ensures SentFits(h, x, e, o, cap)
    ensures Between(NextHold(h, x, e, o, cap), NextTally(x, Sum(e), Sum(o), cap), y, k, cap)
  {
    SplitSizes(y.nxt, w, e, o, se, sn, y, k, cap);
    if ClosesNow(x, Sum(e), Sum(o), cap) {
      CloseNeeds(h, x, w, e, o, se, sn, y, k, cap);
    } else {
      OpenNeeds(h, x, w, e, o, se, sn, y, k, cap);
    }
  }

  lemma RunStepNeeds(tr: Trace, w: L.Windows, m: nat, k: nat, cap: int, i: nat, j: nat)
    requires BufferRun(tr, m, k, cap) && S.WindowRun(tr, w, m, k, cap) && cap >= 1 && OneAtATime(tr, m)
    requires Remembered(tr, m, cap) && FirstWindowOpens(tr, m, cap) && j == i + 1 < m
    requires L.WindowStepShaped(tr, w, k, i) && Between(HoldAt(tr, k, cap, i), TallyAt(tr, cap, i), L.At(w, i), k, cap)
    ensures L.WindowStepShaped(tr, w, k, j) && Between(HoldAt(tr, k, cap, j), TallyAt(tr, cap, j), L.At(w, j), k, cap)
    ensures SentFits(HoldAt(tr, k, cap, i), TallyAt(tr, cap, i), tr.e[j], tr.o[j], cap)
  {
    assert S.WindowStepOk(tr, w, k, cap, j);
    SizesDetermined(tr, w, m, k, cap, j);
    TallyReady(tr, m, k, cap, i);
    TallyReady(tr, m, k, cap, j);
    StepNeeds(HoldAt(tr, k, cap, i), TallyAt(tr, cap, i), L.At(w, i), tr.e[j], tr.o[j], w.tmpEnq[j], w.tmpNxt[j],
              L.At(w, j), k, cap);
  }

  /** Window variables of a run are between the bounds at every step. */
  lemma {:induction false} RunNeeds(tr: Trace, w: L.Windows, m: nat, k: nat, cap: int, j: nat)
    requires BufferRun(tr, m, k, cap) && S.WindowRun(tr, w, m, k, cap) && cap >= 1 && OneAtATime(tr, m)
    requires Remembered(tr, m, cap) && FirstWindowOpens(tr, m, cap) && j < m
    ensures L.WindowStepShaped(tr, w, k, j) && Between(HoldAt(tr, k, cap, j), TallyAt(tr, cap, j), L.At(w, j), k, cap)
    ensures FitsAt(tr, k, cap, j)
  {
    if j == 0 {
      assert S.WindowStepOk(tr, w, k, cap, j);
    } else {
      RunNeeds(tr, w, m, k, cap, j - 1);
      RunStepNeeds(tr, w, m, k, cap, j - 1, j);
    }
  }

  // ---------------------------------------------------------------- it is sufficient: what the windows hold

  /** What the window holds at least and at most fits its size, and what was sent from it fits in. */
  ghost predicate HoldOk(h: Hold, x: Tally, k: nat, cap: int) {
    && HoldOf(h, k) && LeV(h.low, h.high) && NonNegative(h.low) && NonNegative(h.out) && LeV(h.out, h.high)
    && Sum(h.out) == x.out && Sum(MaxV(h.low, h.out)) <= x.enq <= Sum(h.high) && 0 <= x.enq <= cap
    && (x.enq < cap ==> h.low == h.high)
  }

  /** Step sizes: what is sent fits into the window, and less than a window overflows. */
  ghost predicate SizesFit(x: Tally, e: Vec, o: Vec, cap: int) {
    && NonNegative(e) && NonNegative(o) && x.out + Sum(o) <= FilledTo(x, Sum(e), cap)
    && Overflow(x, Sum(e), cap) <= cap - 1
  }

  /** When the window is not full, it holds exactly the low end, and what was sent from it. */
  lemma LowIsHeld(h: Hold, x: Tally, k: nat, cap: int)
    requires HoldOk(h, x, k, cap) && x.enq < cap
    ensures Sum(h.low) == x.enq && LeV(h.out, h.low)
  {
    MaxAbove(h.low, h.out);
    SumMonotone(h.low, MaxV(h.low, h.out));
    SameIfSameSum(h.low, MaxV(h.low, h.out));
  }

  lemma SentSum(h: Hold, x: Tally, o: Vec, k: nat)
    requires HoldOf(h, k) && |o| == k && Sum(h.out) == x.out && NonNegative(h.out) && NonNegative(o)
    ensures Sum(Add(h.out, o)) == x.out + Sum(o) && NonNegative(Add(h.out, o)) && LeV(h.out, Add(h.out, o))
  {
    SumAdd(h.out, o);
  }

  lemma NextHoldCloses(h: Hold, x: Tally, e: Vec, o: Vec, k: nat, cap: int)
    requires HoldOk(h, x, k, cap) && |e| == |o| == k && SizesFit(x, e, o, cap) && SentFits(h, x, e, o, cap)
    requires ClosesNow(x, Sum(e), Sum(o), cap)
    ensures HoldOk(NextHold(h, x, e, o, cap), NextTally(x, Sum(e), Sum(o), cap), k, cap)
  {
    var to, y := Add(h.out, o), NextHold(h, x, e, o, cap);
    SentSum(h, x, o, k);
    SumOfCounts(e);
    SumZero(k);
    if x.enq < cap {
      LowIsHeld(h, x, k, cap);
      SumAdd(h.low, e);
      SumSub(Add(h.low, e), to);
    }
    SumOfCounts(y.low);
    assert MaxV(y.low, y.out) == y.low;
  }

  lemma NextHoldStays(h: Hold, x: Tally, e: Vec, o: Vec, k: nat, cap: int)
    requires HoldOk(h, x, k, cap) && |e| == |o| == k && SizesFit(x, e, o, cap) && SentFits(h, x, e, o, cap)
    requires !ClosesNow(x, Sum(e), Sum(o), cap)
    ensures HoldOk(NextHold(h, x, e, o, cap), NextTally(x, Sum(e), Sum(o), cap), k, cap)
  {
    SentSum(h, x, o, k);
    SumOfCounts(e);
    SumAdd(h.high, e);
    if x.enq < cap {
      LowIsHeld(h, x, k, cap);
    }
  }

  lemma StartOk(tr: Trace, m: nat, k: nat, cap: int)
    requires BufferRun(tr, m, k, cap) && m > 0
    ensures HoldOk(Hold(tr.e[0], tr.e[0], tr.o[0]), TallyAt(tr, cap, 0), k, cap)
  {
    RunStep(tr, m, k, cap, 0);
    OfferedAtStart(tr, k);
    forall t | 0 <= t < k
      ensures tr.o[0][t] <= tr.e[0][t]
    {
      assert tr.c[0][t] == tr.e[0][t] - tr.o[0][t] && tr.c[0][t] >= 0;
    }
    assert MaxV(tr.e[0], tr.o[0]) == tr.e[0];
    SumOfCounts(tr.e[0]);
  }

  lemma NextHoldIsOk(h: Hold, x: Tally, e: Vec, o: Vec, k: nat, cap: int)
    requires HoldOk(h, x, k, cap) && |e| == |o| == k && SizesFit(x, e, o, cap) && SentFits(h, x, e, o, cap)
    ensures HoldOk(NextHold(h, x, e, o, cap), NextTally(x, Sum(e), Sum(o), cap), k, cap)
  {
    if ClosesNow(x, Sum(e), Sum(o), cap) {
      NextHoldCloses(h, x, e, o, k, cap);
    } else {
      NextHoldStays(h, x, e, o, k, cap);
    }
  }

  lemma StepSizesFit(tr: Trace, m: nat, k: nat, cap: int, i: nat, j: nat)
    requires BufferRun(tr, m, k, cap) && cap >= 1 && OneAtATime(tr, m) && j == i + 1 < m
    requires Remembered(tr, m, cap) && FirstWindowOpens(tr, m, cap)
    ensures SizesFit(TallyAt(tr, cap, i), tr.e[j], tr.o[j], cap)
  {
    TallyReady(tr, m, k, cap, j);
  }

  /** A run with single departures that meets the conditions. */
  ghost predicate GoodRun(tr: Trace, m: nat, k: nat, cap: int) {
    && BufferRun(tr, m, k, cap) && cap >= 1 && OneAtATime(tr, m)
    && Remembered(tr, m, cap) && FirstWindowOpens(tr, m, cap) && TypesFit(tr, m, k, cap)
  }

  lemma TypesFitAt(tr: Trace, m: nat, k: nat, cap: int, i: nat, j: nat)
    requires Shaped(tr, m, k) && TypesFit(tr, m, k, cap) && j == i + 1 < m
    ensures SentFits(HoldAt(tr, k, cap, i), TallyAt(tr, cap, i), tr.e[j], tr.o[j], cap)
  {
    assert FitsAt(tr, k, cap, j);
  }

  /** What step j meets, and what follows for the next step. */
  lemma HoldNext(tr: Trace, m: nat, k: nat, cap: int, i: nat, j: nat)
    requires GoodRun(tr, m, k, cap) && j == i + 1 < m
    requires HoldOk(HoldAt(tr, k, cap, i), TallyAt(tr, cap, i), k, cap)
    ensures SizesFit(TallyAt(tr, cap, i), tr.e[j], tr.o[j], cap)
    ensures SentFits(HoldAt(tr, k, cap, i), TallyAt(tr, cap, i), tr.e[j], tr.o[j], cap)
    ensures HoldOk(HoldAt(tr, k, cap, j), TallyAt(tr, cap, j), k, cap)
  {
    StepSizesFit(tr, m, k, cap, i, j);
    TypesFitAt(tr, m, k, cap, i, j);
    NextHoldIsOk(HoldAt(tr, k, cap, i), TallyAt(tr, cap, i), tr.e[j], tr.o[j], k, cap);
  }

  lemma {:induction false} HoldsOk(tr: Trace, m: nat, k: nat, cap: int, j: nat)
    requires GoodRun(tr, m, k, cap) && j < m
    ensures HoldOk(HoldAt(tr, k, cap, j), TallyAt(tr, cap, j), k, cap)
  {
    if j == 0 {
      StartOk(tr, m, k, cap);
    } else {
      HoldsOk(tr, m, k, cap, j - 1);
      HoldNext(tr, m, k, cap, j - 1, j);
    }
  }

  // ---------------------------------------------------------------- choosing the packets of the windows

  /** Packets for a window of the given size. */
  ghost predicate ContentOk(h: Hold, x: Tally, c: Vec, k: nat) {
    HoldOf(h, k) && |c| == k && LeV(h.low, c) && LeV(c, h.high) && LeV(h.out, c) && Sum(c) == x.enq
  }

  lemma FillUp(h: Hold, x: Tally, k: nat, cap: int)
    requires HoldOk(h, x, k, cap)
    ensures exists c :: ContentOk(h, x, c, k)
  {
    MaxAbove(h.low, h.out);
    var c := TakeBetween(MaxV(h.low, h.out), h.high, x.enq);
    assert ContentOk(h, x, c, k);
  }

  /**
    The packets of the window after step j.  A full window that closes in the next step holds what has been sent
    from it by then; one that stays open holds what it holds in the next step.
   */
  ghost function Content(tr: Trace, m: nat, k: nat, cap: int, j: nat): (c: Vec)
    requires GoodRun(tr, m, k, cap) && j < m
    ensures |c| == k
    decreases m - j
  {
    HoldsOk(tr, m, k, cap, j);
    var h, x := HoldAt(tr, k, cap, j), TallyAt(tr, cap, j);
    if x.enq < cap then h.low
    else if j + 1 == m then
      FillUp(h, x, k, cap);
      var c :| ContentOk(h, x, c, k);
      c
    else if ClosesNow(x, Sum(tr.e[j + 1]), Sum(tr.o[j + 1]), cap) then Add(h.out, tr.o[j + 1])
    else Content(tr, m, k, cap, j + 1)
  }

  /** A full window that closes held exactly what was sent. */
  lemma FullCloses(h: Hold, x: Tally, e: Vec, o: Vec, k: nat, cap: int)
    requires HoldOk(h, x, k, cap) && |e| == |o| == k && SizesFit(x, e, o, cap) && SentFits(h, x, e, o, cap)
    requires ClosesNow(x, Sum(e), Sum(o), cap) && x.enq >= cap
    ensures ContentOk(h, x, Add(h.out, o), k)
  {
    SentSum(h, x, o, k);
    SumOfCounts(e);
  }

  /** A full window that stays open does not change. */
  lemma FullStays(h: Hold, x: Tally, e: Vec, o: Vec, c: Vec, k: nat, cap: int)
    requires HoldOk(h, x, k, cap) && |e| == |o| == k && SizesFit(x, e, o, cap)
    requires !ClosesNow(x, Sum(e), Sum(o), cap) && x.enq >= cap
    requires ContentOk(NextHold(h, x, e, o, cap), NextTally(x, Sum(e), Sum(o), cap), c, k)
    ensures ContentOk(h, x, c, k)
  {
    SentSum(h, x, o, k);
    SumOfCounts(e);
  }

  ghost predicate ContentFitsAt(tr: Trace, m: nat, k: nat, cap: int, j: nat)
    requires GoodRun(tr, m, k, cap) && j < m
  {
    ContentOk(HoldAt(tr, k, cap, j), TallyAt(tr, cap, j), Content(tr, m, k, cap, j), k)
  }

  /** How the packets c of a window follow from those of the next step. */
  ghost predicate Continues(h: Hold, x: Tally, e: Vec, o: Vec, c: Vec, next: Vec, cap: int)
    requires |h.out| == |o|
  {
    c == if x.enq < cap then h.low else if ClosesNow(x, Sum(e), Sum(o), cap) then Add(h.out, o) else next
  }

  lemma ContentContinues(tr: Trace, m: nat, k: nat, cap: int, i: nat, j: nat)
    requires GoodRun(tr, m, k, cap) && j == i + 1 < m
    ensures Continues(HoldAt(tr, k, cap, i), TallyAt(tr, cap, i), tr.e[j], tr.o[j], Content(tr, m, k, cap, i),
                      Content(tr, m, k, cap, j), cap)
  {
  }

  lemma ContentStep(h: Hold, x: Tally, e: Vec, o: Vec, c: Vec, next: Vec, k: nat, cap: int)
    requires HoldOk(h, x, k, cap) && |e| == |o| == k && SizesFit(x, e, o, cap) && SentFits(h, x, e, o, cap)
    requires Continues(h, x, e, o, c, next, cap)
    requires ContentOk(NextHold(h, x, e, o, cap), NextTally(x, Sum(e), Sum(o), cap), next, k)
    ensures ContentOk(h, x, c, k)
  {
    if x.enq < cap {
      LowIsHeld(h, x, k, cap);
    } else if ClosesNow(x, Sum(e), Sum(o), cap) {
      FullCloses(h, x, e, o, k, cap);
    } else {
      FullStays(h, x, e, o, next, k, cap);
    }
  }

  lemma ContentBefore(tr: Trace, m: nat, k: nat, cap: int, i: nat, j: nat)
    requires GoodRun(tr, m, k, cap) && j == i + 1 < m
    requires ContentFitsAt(tr, m, k, cap, j)
    ensures ContentFitsAt(tr, m, k, cap, i)
  {
    HoldsOk(tr, m, k, cap, i);
    HoldNext(tr, m, k, cap, i, j);
    ContentContinues(tr, m, k, cap, i, j);
    ContentStep(HoldAt(tr, k, cap, i), TallyAt(tr, cap, i), tr.e[j], tr.o[j], Content(tr, m, k, cap, i),
                Content(tr, m, k, cap, j), k, cap);
  }

  lemma ContentAtEnd(tr: Trace, m: nat, k: nat, cap: int, j: nat)
    requires GoodRun(tr, m, k, cap) && j + 1 == m
    ensures ContentFitsAt(tr, m, k, cap, j)
  {
    HoldsOk(tr, m, k, cap, j);
    var h, x := HoldAt(tr, k, cap, j), TallyAt(tr, cap, j);
    if x.enq < cap {
      LowIsHeld(h, x, k, cap);
    }
  }

  lemma {:induction false} ContentFits(tr: Trace, m: nat, k: nat, cap: int, j: nat)
    requires GoodRun(tr, m, k, cap) && j < m
    ensures ContentFitsAt(tr, m, k, cap, j)
    decreases m - j
  {
    if j + 1 == m {
      ContentAtEnd(tr, m, k, cap, j);
    } else {
      ContentFits(tr, m, k, cap, j + 1);
      ContentBefore(tr, m, k, cap, j, j + 1);
    }
  }

  // ---------------------------------------------------------------- the window variables

  /** What the window holds when step (e, o) has been added; next are its packets after the step. */
  function Held(h: Hold, x: Tally, e: Vec, o: Vec, next: Vec, cap: int): (se: Vec)
    requires |h.out| == |o|
  {
    if ClosesNow(x, Sum(e), Sum(o), cap) then Add(h.out, o) else next
  }

  lemma ClosingStep(h: Hold, x: Tally, e: Vec, o: Vec, c: Vec, next: Vec, k: nat, cap: int)
    requires HoldOk(h, x, k, cap) && |e| == |o| == k && SizesFit(x, e, o, cap) && SentFits(h, x, e, o, cap)
    requires Continues(h, x, e, o, c, next, cap) && ClosesNow(x, Sum(e), Sum(o), cap)
    requires ContentOk(NextHold(h, x, e, o, cap), NextTally(x, Sum(e), Sum(o), cap), next, k)
    ensures |c| == k && LeV(c, Add(h.out, o)) && LeV(Add(h.out, o), Add(c, e))
    ensures next == Sub(Add(c, e), Add(h.out, o))
  {
    var to, y := Add(h.out, o), NextHold(h, x, e, o, cap);
    forall t | 0 <= t < k
      ensures next[t] == y.low[t]
    {
    }
    assert next == y.low;
    AddZero(e);
    assert Sub(Add(to, e), to) == e;
  }

  lemma OpenStep(h: Hold, x: Tally, e: Vec, o: Vec, c: Vec, next: Vec, k: nat, cap: int)
    requires HoldOk(h, x, k, cap) && |e| == |o| == k && SizesFit(x, e, o, cap) && SentFits(h, x, e, o, cap)
    requires Continues(h, x, e, o, c, next, cap) && !ClosesNow(x, Sum(e), Sum(o), cap)
    requires ContentOk(NextHold(h, x, e, o, cap), NextTally(x, Sum(e), Sum(o), cap), next, k)
    ensures |c| == k && LeV(c, next) && LeV(next, Add(c, e)) && LeV(Add(h.out, o), next)
  {
  }

  lemma SplitOf(c: Vec, e: Vec, se: Vec, k: nat)
    requires |c| == |e| == |se| == k && LeV(se, Add(c, e))
    ensures NonNegative(Sub(Add(c, e), se)) && Add(se, Sub(Add(c, e), se)) == Add(c, e)
    ensures Sum(Sub(Add(c, e), se)) == Sum(c) + Sum(e) - Sum(se)
  {
    SumAdd(c, e);
    SumSub(Add(c, e), se);
  }

  lemma MeetsClosed(x: Tally, c: Vec, nxt: Vec, out: Vec, e: Vec, o: Vec, next: Vec, k: nat, cap: int)
    requires |c| == |nxt| == |out| == |e| == |o| == k && Sum(c) == x.enq && x.enq <= cap && 0 <= Sum(out) == x.out
             && cap >= 1
    requires NonNegative(e) && NonNegative(o) && LeV(c, Add(out, o)) && LeV(Add(out, o), Add(c, e))
    requires next == Sub(Add(c, e), Add(out, o)) && x.out + Sum(o) == FilledTo(x, Sum(e), cap)
    requires 0 <= x.enq && Overflow(x, Sum(e), cap) <= cap - 1
    ensures S.ForgetfulStep(L.Window(c, nxt, out), e, o, Add(out, o), next, L.Window(next, Zero(k), Zero(k)), k, cap)
  {
    SumAdd(out, o);
    SplitOf(c, e, Add(out, o), k);
    SumZero(k);
    SumOfCounts(e);
    SumOfCounts(o);
    SumOfCounts(next);
    AddZero(next);
    AddZero(Add(out, o));
  }

  lemma MeetsOpen(x: Tally, c: Vec, nxt: Vec, out: Vec, e: Vec, o: Vec, next: Vec, k: nat, cap: int)
    requires |c| == |nxt| == |out| == |e| == |o| == |next| == k && Sum(c) == x.enq && x.enq <= cap && cap >= 1
    requires 0 <= Sum(out) == x.out && Sum(nxt) == x.nxt && NonNegative(e) && NonNegative(o)
    requires LeV(c, next) && LeV(next, Add(c, e)) && LeV(Add(out, o), next) && Sum(next) == FilledTo(x, Sum(e), cap)
    requires x.out + Sum(o) < FilledTo(x, Sum(e), cap) && 0 <= x.enq && Overflow(x, Sum(e), cap) <= cap - 1
    requires x.nxt + Overflow(x, Sum(e), cap) < cap
    ensures S.ForgetfulStep(L.Window(c, nxt, out), e, o, next, Sub(Add(c, e), next),
                            L.Window(next, Add(nxt, Sub(Add(c, e), next)), Add(out, o)), k, cap)
  {
    SumAdd(out, o);
    SplitOf(c, e, next, k);
    SumAdd(nxt, Sub(Add(c, e), next));
    SumOfCounts(e);
    SumOfCounts(o);
    if LeV(next, Add(out, o)) {
      SumMonotone(next, Add(out, o));
    }
  }

  function Behind(x: Tally, e: Vec, o: Vec, nxt: Vec, sn: Vec, k: nat, cap: int): Vec
    requires |nxt| == |sn| == k
  {
    if ClosesNow(x, Sum(e), Sum(o), cap) then Zero(k) else Add(nxt, sn)
  }

  lemma NextSizes(h: Hold, x: Tally, e: Vec, o: Vec, k: nat, cap: int)
    requires HoldOk(h, x, k, cap) && |e| == |o| == k && SizesFit(x, e, o, cap)
    ensures Sum(h.out) >= 0 && Sum(e) >= 0 && Sum(o) >= 0
    ensures Overflow(x, Sum(e), cap) == x.enq + Sum(e) - FilledTo(x, Sum(e), cap) >= 0
  {
    SumOfCounts(h.out);
    SumOfCounts(e);
    SumOfCounts(o);
  }

  /** A step of values that meet the conditions; c and next are the packets of the window before and after it. */
  ghost predicate StepReady(h: Hold, x: Tally, e: Vec, o: Vec, c: Vec, next: Vec, k: nat, cap: int) {
    && HoldOk(h, x, k, cap) && |e| == |o| == k && SizesFit(x, e, o, cap) && SentFits(h, x, e, o, cap)
    && Continues(h, x, e, o, c, next, cap) && ContentOk(h, x, c, k) && cap >= 1
    && ContentOk(NextHold(h, x, e, o, cap), NextTally(x, Sum(e), Sum(o), cap), next, k)
    && NextTally(x, Sum(e), Sum(o), cap).nxt < cap
  }

  /** The step of the window variables: packets c before it and next after it. */
  lemma StepMeets(h: Hold, x: Tally, e: Vec, o: Vec, c: Vec, next: Vec, nxt: Vec, se: Vec, sn: Vec, k: nat, cap: int)
    requires StepReady(h, x, e, o, c, next, k, cap) && |nxt| == k && Sum(nxt) == x.nxt
    requires se == Held(h, x, e, o, next, cap) && |se| == k && sn == Sub(Add(c, e), se)
    ensures S.ForgetfulStep(L.Window(c, nxt, h.out), e, o, se, sn,
                            L.Window(next, Behind(x, e, o, nxt, sn, k, cap), NextHold(h, x, e, o, cap).out), k, cap)
    ensures NonNegative(sn) && Sum(Behind(x, e, o, nxt, sn, k, cap)) == NextTally(x, Sum(e), Sum(o), cap).nxt
  {
    NextSizes(h, x, e, o, k, cap);
    SumZero(k);
    if ClosesNow(x, Sum(e), Sum(o), cap) {
      ClosingStep(h, x, e, o, c, next, k, cap);
      MeetsClosed(x, c, nxt, h.out, e, o, next, k, cap);
    } else {
      OpenStep(h, x, e, o, c, next, k, cap);
      MeetsOpen(x, c, nxt, h.out, e, o, next, k, cap);
      SumAdd(nxt, sn);
    }
    SplitOf(c, e, se, k);
  }

  // ---------------------------------------------------------------- all steps

  /** The split of the enqueues of step j. */
  ghost function HeldAt(tr: Trace, m: nat, k: nat, cap: int, j: nat): (se: Vec)
    requires GoodRun(tr, m, k, cap) && j < m
    ensures |se| == k
  {
    if j == 0 then Zero(k) else
      Held(HoldAt(tr, k, cap, j - 1), TallyAt(tr, cap, j - 1), tr.e[j], tr.o[j], Content(tr, m, k, cap, j), cap)
  }

  ghost function OverAt(tr: Trace, m: nat, k: nat, cap: int, j: nat): (sn: Vec)
    requires GoodRun(tr, m, k, cap) && j < m
    ensures |sn| == k
  {
    if j == 0 then Zero(k) else
      Sub(Add(Content(tr, m, k, cap, j - 1), tr.e[j]), HeldAt(tr, m, k, cap, j))
  }

  ghost function BehindAt(tr: Trace, m: nat, k: nat, cap: int, j: nat): (v: Vec)
    requires GoodRun(tr, m, k, cap) && j < m
    ensures |v| == k
  {
    if j == 0 then Zero(k) else
      Behind(TallyAt(tr, cap, j - 1), tr.e[j], tr.o[j], BehindAt(tr, m, k, cap, j - 1), OverAt(tr, m, k, cap, j), k,
        cap)
  }

  ghost function WindowOfStep(tr: Trace, m: nat, k: nat, cap: int, j: nat): L.Window
    requires GoodRun(tr, m, k, cap) && j < m
  {
    L.Window(Content(tr, m, k, cap, j), BehindAt(tr, m, k, cap, j), HoldAt(tr, k, cap, j).out)
  }

  ghost predicate BehindOk(tr: Trace, m: nat, k: nat, cap: int, j: nat)
    requires GoodRun(tr, m, k, cap) && j < m
  {
    Sum(BehindAt(tr, m, k, cap, j)) == TallyAt(tr, cap, j).nxt && NonNegative(BehindAt(tr, m, k, cap, j))
  }

  lemma {:induction false} ChosenReady(tr: Trace, m: nat, k: nat, cap: int, i: nat, j: nat)
    requires GoodRun(tr, m, k, cap) && j == i + 1 < m
    ensures StepReady(HoldAt(tr, k, cap, i), TallyAt(tr, cap, i), tr.e[j], tr.o[j], Content(tr, m, k, cap, i),
                      Content(tr, m, k, cap, j), k, cap)
  {
    HoldsOk(tr, m, k, cap, i);
    HoldNext(tr, m, k, cap, i, j);
    ContentFits(tr, m, k, cap, i);
    ContentFits(tr, m, k, cap, j);
    ContentContinues(tr, m, k, cap, i, j);
    TallyReady(tr, m, k, cap, j);
  }

  /** Step j of the window variables. */
  lemma {:induction false} ChosenStep(tr: Trace, m: nat, k: nat, cap: int, i: nat, j: nat)
    requires GoodRun(tr, m, k, cap) && j == i + 1 < m && BehindOk(tr, m, k, cap, i)
    ensures BehindOk(tr, m, k, cap, j) && NonNegative(OverAt(tr, m, k, cap, j))
    ensures S.ForgetfulStep(WindowOfStep(tr, m, k, cap, i), tr.e[j], tr.o[j], HeldAt(tr, m, k, cap, j),
                            OverAt(tr, m, k, cap, j), WindowOfStep(tr, m, k, cap, j), k, cap)
  {
    ChosenReady(tr, m, k, cap, i, j);
    StepMeets(HoldAt(tr, k, cap, i), TallyAt(tr, cap, i), tr.e[j], tr.o[j], Content(tr, m, k, cap, i),
              Content(tr, m, k, cap, j), BehindAt(tr, m, k, cap, i), HeldAt(tr, m, k, cap, j), OverAt(tr, m, k, cap, j),
              k, cap);
  }

  lemma {:induction false} BehindIsOk(tr: Trace, m: nat, k: nat, cap: int, j: nat)
    requires GoodRun(tr, m, k, cap) && j < m
    ensures BehindOk(tr, m, k, cap, j)
  {
    if j == 0 {
      SumZero(k);
    } else {
      var i := j - 1;
      BehindIsOk(tr, m, k, cap, i);
      ChosenStep(tr, m, k, cap, i, j);
    }
  }

  lemma FirstContent(tr: Trace, m: nat, k: nat, cap: int)
    requires GoodRun(tr, m, k, cap) && m > 0
    ensures Content(tr, m, k, cap, 0) == tr.e[0]
  {
    ContentFits(tr, m, k, cap, 0);
  }

  ghost function Chosen(tr: Trace, m: nat, k: nat, cap: int): (w: L.Windows)
    requires GoodRun(tr, m, k, cap)
    ensures L.WindowShaped(w, m, k)
    ensures forall j :: 0 <= j < m ==> L.At(w, j) == WindowOfStep(tr, m, k, cap, j)
    ensures forall j :: 0 <= j < m ==>
              w.tmpEnq[j] == HeldAt(tr, m, k, cap, j) && w.tmpNxt[j] == OverAt(tr, m, k, cap, j)
  {
    L.Windows(seq(m, j requires 0 <= j < m => Content(tr, m, k, cap, j)),
              seq(m, j requires 0 <= j < m => BehindAt(tr, m, k, cap, j)),
              seq(m, j requires 0 <= j < m => HoldAt(tr, k, cap, j).out),
              seq(m, j requires 0 <= j < m => HeldAt(tr, m, k, cap, j)),
              seq(m, j requires 0 <= j < m => OverAt(tr, m, k, cap, j)))
  }

  lemma StepFromParts(tr: Trace, w: L.Windows, m: nat, k: nat, cap: int, i: nat, j: nat, x: L.Window, y: L.Window)
    requires Shaped(tr, m, k) && L.WindowShaped(w, m, k) && j == i + 1 < m && L.At(w, i) == x && L.At(w, j) == y
    requires S.ForgetfulStep(x, tr.e[j], tr.o[j], w.tmpEnq[j], w.tmpNxt[j], y, k, cap)
    ensures S.WindowStepOk(tr, w, k, cap, j)
  {
  }

  lemma {:induction false} ChosenNext(tr: Trace, m: nat, k: nat, cap: int, w: L.Windows, i: nat, j: nat)
    requires GoodRun(tr, m, k, cap) && w == Chosen(tr, m, k, cap) && j == i + 1 < m
    ensures S.WindowStepOk(tr, w, k, cap, j)
  {
    BehindIsOk(tr, m, k, cap, i);
    ChosenStep(tr, m, k, cap, i, j);
    StepFromParts(tr, w, m, k, cap, i, j, WindowOfStep(tr, m, k, cap, i), WindowOfStep(tr, m, k, cap, j));
  }

  lemma ChosenFirst(tr: Trace, m: nat, k: nat, cap: int, w: L.Windows, j: nat)
    requires GoodRun(tr, m, k, cap) && w == Chosen(tr, m, k, cap) && j == 0 < m
    ensures S.WindowStepOk(tr, w, k, cap, j)
  {
    assert L.At(w, j) == WindowOfStep(tr, m, k, cap, j);
    FirstContent(tr, m, k, cap);
    SumZero(k);
  }

  lemma ChosenOk(tr: Trace, m: nat, k: nat, cap: int, w: L.Windows, j: nat)
    requires GoodRun(tr, m, k, cap) && w == Chosen(tr, m, k, cap) && j < m
    ensures S.WindowStepOk(tr, w, k, cap, j)
  {
    if j == 0 {
      ChosenFirst(tr, m, k, cap, w, j);
    } else {
      ChosenNext(tr, m, k, cap, w, j - 1, j);
    }
  }

  lemma CountsWithin(v: Vec, cap: int)
    requires NonNegative(v) && Sum(v) <= cap
    ensures Within(v, cap)
  {
    SumOfCounts(v);
  }

  /** The packets of a window and what was sent from it are counts within the capacity. */
  lemma ContentWithin(tr: Trace, m: nat, k: nat, cap: int, j: nat)
    requires GoodRun(tr, m, k, cap) && j < m
    ensures Within(Content(tr, m, k, cap, j), cap) && Within(HoldAt(tr, k, cap, j).out, cap)
  {
    HoldsOk(tr, m, k, cap, j);
    ContentFits(tr, m, k, cap, j);
    var h, c := HoldAt(tr, k, cap, j), Content(tr, m, k, cap, j);
    CountsWithin(c, cap);
    SumMonotone(h.out, c);
    CountsWithin(h.out, cap);
  }

  lemma HeldWithin(tr: Trace, m: nat, k: nat, cap: int, i: nat, j: nat)
    requires GoodRun(tr, m, k, cap) && j == i + 1 < m
    ensures Within(HeldAt(tr, m, k, cap, j), cap)
  {
    ContentWithin(tr, m, k, cap, j);
    HoldsOk(tr, m, k, cap, i);
    HoldNext(tr, m, k, cap, i, j);
    SentSum(HoldAt(tr, k, cap, i), TallyAt(tr, cap, i), tr.o[j], k);
    if ClosesNow(TallyAt(tr, cap, i), Sum(tr.e[j]), Sum(tr.o[j]), cap) {
      CountsWithin(HeldAt(tr, m, k, cap, j), cap);
    }
  }

  lemma OverWithin(tr: Trace, m: nat, k: nat, cap: int, i: nat, j: nat)
    requires GoodRun(tr, m, k, cap) && j == i + 1 < m
    ensures Within(OverAt(tr, m, k, cap, j), cap)
  {
    BehindIsOk(tr, m, k, cap, i);
    ChosenStep(tr, m, k, cap, i, j);
    CountsWithin(OverAt(tr, m, k, cap, j), cap);
  }

  lemma ChosenWithin(tr: Trace, m: nat, k: nat, cap: int, j: nat)
    requires GoodRun(tr, m, k, cap) && j < m
    ensures Within(Content(tr, m, k, cap, j), cap) && Within(BehindAt(tr, m, k, cap, j), cap)
    ensures Within(HoldAt(tr, k, cap, j).out, cap)
    ensures Within(HeldAt(tr, m, k, cap, j), cap) && Within(OverAt(tr, m, k, cap, j), cap)
  {
    ContentWithin(tr, m, k, cap, j);
    BehindIsOk(tr, m, k, cap, j);
    TallyReady(tr, m, k, cap, j);
    CountsWithin(BehindAt(tr, m, k, cap, j), cap);
    if j > 0 {
      HeldWithin(tr, m, k, cap, j - 1, j);
      OverWithin(tr, m, k, cap, j - 1, j);
    }
  }

  lemma ChosenRun(tr: Trace, m: nat, k: nat, cap: int)
    requires GoodRun(tr, m, k, cap)
    ensures S.WindowRun(tr, Chosen(tr, m, k, cap), m, k, cap)
  {
    var w := Chosen(tr, m, k, cap);
    forall j | 0 <= j < m
      ensures S.WindowStepOk(tr, w, k, cap, j)
      ensures Within(w.enq[j], cap) && Within(w.nxt[j], cap) && Within(w.out[j], cap)
      ensures Within(w.tmpEnq[j], cap) && Within(w.tmpNxt[j], cap)
    {
      assert L.At(w, j) == WindowOfStep(tr, m, k, cap, j);
      ChosenOk(tr, m, k, cap, w, j);
      ChosenWithin(tr, m, k, cap, j);
    }
  }

  /**
    Which runs with single departures have window variables, for any packet types and capacity: exactly those in
    which the packets forgotten never outnumber the backlog, with capacity 1 the first window opens, and at
    every step what was sent from the current window can be packets of it.
   */
  lemma HasWindowsExactlyWhen(tr: Trace, m: nat, k: nat, cap: int)
    requires BufferRun(tr, m, k, cap) && cap >= 1 && OneAtATime(tr, m)
    ensures (exists w :: S.WindowRun(tr, w, m, k, cap))
            <==> Remembered(tr, m, cap) && FirstWindowOpens(tr, m, cap) && TypesFit(tr, m, k, cap)
  {
    if w :| S.WindowRun(tr, w, m, k, cap) {
      WindowsRemember(tr, w, m, k, cap);
      forall j | 0 <= j < m
        ensures FitsAt(tr, k, cap, j)
      {
        RunNeeds(tr, w, m, k, cap, j);
      }
    }
    if Remembered(tr, m, cap) && FirstWindowOpens(tr, m, cap) && TypesFit(tr, m, k, cap) {
      ChosenRun(tr, m, k, cap);
    }
  }

  // ---------------------------------------------------------------- types matter

  /**
    Capacity 2: two packets of type 0 arrive and one leaves, one of type 1 arrives, the second of type 0 leaves, and
    then one of type 0 arrives while that of type 1 leaves.
   */
  function Overtaken(): Trace {
    var none := Pair(0, 0);
    var arrivals := [Pair(2, 0), Pair(0, 1), none, Pair(1, 0)];
    Trace(arrivals, arrivals, [none, none, none, none], [Pair(1, 0), none, Pair(1, 0), Pair(0, 1)],
          [Pair(1, 0), Pair(1, 1), Pair(0, 1), Pair(1, 0)], [true, true, true, true])
  }

  lemma OvertakenStep(tr: Trace, j: nat)
    requires tr == Overtaken() && j < 4
    ensures StepOk(tr, 2, 2, j) && Sum(tr.o[j]) <= 1
  {
    var e, o, d := tr.e[j], tr.o[j], tr.d[j];
    PairSum(e[0], e[1]);
    PairSum(o[0], o[1]);
    PairSum(d[0], d[1]);
    if j == 0 {
      OfferedAtStart(tr, 2);
    } else {
      var c := tr.c[j - 1];
      assert Offered(tr, 2, j) == Pair(c[0] + e[0], c[1] + e[1]);
      PairSum(c[0] + e[0], c[1] + e[1]);
    }
  }

  lemma OvertakenShape(tr: Trace, m: nat, k: nat)
    requires tr == Overtaken() && m == 4 && k == 2
    ensures Shaped(tr, m, k) && Counts(tr)
  {
  }

  lemma OvertakenIsRun(tr: Trace, m: nat, k: nat, cap: int)
    requires tr == Overtaken() && m == 4 && k == 2 && cap == 2
    ensures BufferRun(tr, m, k, cap) && OneAtATime(tr, m)
  {
    OvertakenShape(tr, m, k);
    forall j | 0 <= j < m
      ensures StepOk(tr, k, cap, j) && Sum(tr.o[j]) <= 1
    {
      OvertakenStep(tr, j);
    }
  }

  lemma PairTally(tr: Trace, cap: int, i: nat, j: nat, x: Tally, e: Vec, o: Vec, y: Tally)
    requires j == i + 1 < |tr.e| && j < |tr.o| && TallyAt(tr, cap, i) == x && tr.e[j] == e && tr.o[j] == o
    requires |e| == |o| == 2 && e == Pair(e[0], e[1]) && o == Pair(o[0], o[1])
    requires y == NextTally(x, e[0] + e[1], o[0] + o[1], cap)
    ensures TallyAt(tr, cap, j) == y
  {
    PairSum(e[0], e[1]);
    PairSum(o[0], o[1]);
  }

  /** The steps of this run. */
  ghost predicate StepsAre(tr: Trace, cap: int, a: nat, b: nat, c: nat, d: nat) {
    && cap == 2 && a == 0 && b == a + 1 && c == b + 1 && d == c + 1 && d < |tr.e| && d < |tr.o|
    && tr.e[a] == Pair(2, 0) && tr.e[b] == Pair(0, 1) && tr.e[c] == Pair(0, 0) && tr.e[d] == Pair(1, 0)
    && tr.o[a] == Pair(1, 0) && tr.o[b] == Pair(0, 0) && tr.o[c] == Pair(1, 0) && tr.o[d] == Pair(0, 1)
  }

  lemma FirstSizes(tr: Trace, cap: int, a: nat)
    requires a == 0 < |tr.e| && a < |tr.o| && tr.e[a] == Pair(2, 0) && tr.o[a] == Pair(1, 0)
    ensures TallyAt(tr, cap, a) == Tally(2, 0, 1, 0)
  {
    PairSum(2, 0);
    PairSum(1, 0);
  }

  /** The window sizes: the packet of type 1 comes behind a full window and is forgotten when that closes. */
  lemma OvertakenSizes(tr: Trace, cap: int, a: nat, b: nat, c: nat, d: nat)
    requires StepsAre(tr, cap, a, b, c, d)
    ensures TallyAt(tr, cap, a) == Tally(2, 0, 1, 0) && TallyAt(tr, cap, b) == Tally(2, 1, 1, 0)
    ensures TallyAt(tr, cap, c) == Tally(0, 0, 0, 1) && TallyAt(tr, cap, d) == Tally(0, 0, 0, 1)
  {
    FirstSizes(tr, cap, a);
    PairTally(tr, cap, a, b, Tally(2, 0, 1, 0), Pair(0, 1), Pair(0, 0), Tally(2, 1, 1, 0));
    PairTally(tr, cap, b, c, Tally(2, 1, 1, 0), Pair(0, 0), Pair(1, 0), Tally(0, 0, 0, 1));
    PairTally(tr, cap, c, d, Tally(0, 0, 0, 1), Pair(1, 0), Pair(0, 1), Tally(0, 0, 0, 1));
  }

  lemma OvertakenRemembers(tr: Trace, cap: int, a: nat, b: nat, c: nat, d: nat)
    requires tr == Overtaken() && cap == 2 && a == 0 && b == 1 && c == 2 && d == 3
    ensures Remembered(tr, 4, cap) && FirstWindowOpens(tr, 4, cap)
  {
    OvertakenSizes(tr, cap, a, b, c, d);
    forall j | 0 <= j < 4
      ensures TallyAt(tr, cap, j).lost <= Sum(tr.c[j])
    {
      PairSum(tr.c[j][0], tr.c[j][1]);
      assert j == a || j == b || j == c || j == d;
    }
  }

  /** The step closes a full window: the next one holds its enqueues. */
  lemma FullClosesTo(tr: Trace, k: nat, cap: int, i: nat, j: nat, x: Tally, e: int, o: int)
    requires Shaped(tr, |tr.e|, k) && j == i + 1 < |tr.e| && TallyAt(tr, cap, i) == x && x.enq >= cap
    requires Sum(tr.e[j]) == e && Sum(tr.o[j]) == o && ClosesNow(x, e, o, cap)
    ensures HoldAt(tr, k, cap, j) == Hold(tr.e[j], tr.e[j], Zero(k))
  {
  }

  /** A packet of type 1 cannot be sent from a window that holds none. */
  lemma NotHeld(h: Hold, x: Tally, e: Vec, o: Vec, cap: int)
    requires HoldOf(h, 2) && |e| == |o| == 2 && h.high[1] == 0 && e[1] == 0 && h.out[1] == 0 && o[1] == 1
    ensures !SentFits(h, x, e, o, cap)
  {
    assert Add(h.out, o)[1] == 1 && HighWith(h, x, e, cap)[1] == 0;
  }

  lemma FitsAtIs(tr: Trace, k: nat, cap: int, i: nat, j: nat, h: Hold, x: Tally)
    requires Shaped(tr, |tr.e|, k) && j == i + 1 < |tr.e| && HoldAt(tr, k, cap, i) == h && TallyAt(tr, cap, i) == x
    ensures FitsAt(tr, k, cap, j) <==> SentFits(h, x, tr.e[j], tr.o[j], cap)
  {
  }

  lemma OvertakenHold(tr: Trace, k: nat, cap: int, b: nat, c: nat)
    requires tr == Overtaken() && k == 2 && cap == 2 && b == 1 && c == 2 && TallyAt(tr, cap, b) == Tally(2, 1, 1, 0)
    ensures Shaped(tr, 4, k) && HoldAt(tr, k, cap, c) == Hold(Pair(0, 0), Pair(0, 0), Zero(k))
  {
    OvertakenShape(tr, 4, k);
    PairSum(0, 0);
    PairSum(1, 0);
    FullClosesTo(tr, k, cap, b, c, Tally(2, 1, 1, 0), 0, 1);
  }

  lemma OvertakenRefused(tr: Trace, k: nat, cap: int, a: nat, b: nat, c: nat, d: nat)
    requires tr == Overtaken() && k == 2 && cap == 2 && a == 0 && b == 1 && c == 2 && d == 3
    ensures Shaped(tr, 4, k) && !FitsAt(tr, k, cap, d)
  {
    OvertakenSizes(tr, cap, a, b, c, d);
    OvertakenHold(tr, k, cap, b, c);
    var h := Hold(Pair(0, 0), Pair(0, 0), Zero(k));
    NotHeld(h, Tally(0, 0, 0, 1), tr.e[d], tr.o[d], cap);
    FitsAtIs(tr, k, cap, c, d, h, Tally(0, 0, 0, 1));
  }

  /**
    The types decide: two packets of type 0 fill the window, one of type 1 comes behind it and is forgotten when
    the window closes, and is then sent from a window of type 0.  Nothing but the types rules this run out.
   */
  lemma TypesMatter()
    ensures BufferRun(Overtaken(), 4, 2, 2) && OneAtATime(Overtaken(), 4)
    ensures Remembered(Overtaken(), 4, 2) && FirstWindowOpens(Overtaken(), 4, 2)
    ensures forall w :: !S.WindowRun(Overtaken(), w, 4, 2, 2)
  {
    var tr := Overtaken();
    OvertakenIsRun(tr, 4, 2, 2);
    OvertakenRemembers(tr, 2, 0, 1, 2, 3);
    OvertakenRefused(tr, 2, 2, 0, 1, 2, 3);
    HasWindowsExactlyWhen(tr, 4, 2, 2);
    assert !TypesFit(tr, 4, 2, 2);
  }
}
