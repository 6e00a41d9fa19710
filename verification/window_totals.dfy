/** The sizes of the windows of src/sts_checker.cpp (winds) follow from the counts of a run. */
module WindowTotals {
  import opened CountVectors
  import opened BufferTrace
  import opened StsBuffer
  import S = StsWindows
  import L = LeafBuffer

  /** Packets in the current window, packets behind it, outputs from it, and packets forgotten so far. */
  datatype Tally = Tally(enq: int, nxt: int, out: int, lost: int)

  /** What the window holds after e more packets. */
  function FilledTo(x: Tally, e: int, cap: int): int {
    Min(cap, x.enq + e)
  }

  function Overflow(x: Tally, e: int, cap: int): int {
    x.enq + e - FilledTo(x, e, cap)
  }

  /** When the outputs reach the end of the window, the packets behind it are forgotten. */
  function NextTally(x: Tally, e: int, o: int, cap: int): Tally {
    if x.out + o >= FilledTo(x, e, cap) then
      Tally(Overflow(x, e, cap), 0, x.out + o - FilledTo(x, e, cap), x.lost + x.nxt)
    else
      Tally(FilledTo(x, e, cap), x.nxt + Overflow(x, e, cap), x.out + o, x.lost)
  }

  /** The tally after step j, from the numbers of packets enqueued and sent. */
  function TallyAt(tr: Trace, cap: int, j: nat): Tally
    requires j < |tr.e| && j < |tr.o|
  {
    if j == 0 then
      Tally(Sum(tr.e[0]), 0, Sum(tr.o[0]), 0)
    else
      NextTally(TallyAt(tr, cap, j - 1), Sum(tr.e[j]), Sum(tr.o[j]), cap)
  }

  // ---------------------------------------------------------------- window variables have these sizes

  function SizeOf(x: L.Window, lost: int): Tally {
    Tally(Sum(x.enq), Sum(x.nxt), Sum(x.out), lost)
  }

  lemma SplitSizes(carried: Vec, x: L.Window, e: Vec, o: Vec, se: Vec, sn: Vec, y: L.Window, k: nat, cap: int)
    requires |carried| == k && L.WindowOf(x, k) && L.WindowOf(y, k) && |e| == |o| == |se| == |sn| == k
    requires L.WindowStepFrom(carried, x, e, o, se, sn, y, k, cap)
    ensures Sum(se) == Min(cap, Sum(x.enq) + Sum(e)) && Sum(sn) == Sum(x.enq) + Sum(e) - Sum(se)
    ensures L.Closes(se, Add(x.out, o)) <==> Sum(x.out) + Sum(o) >= Sum(se)
  {
    SumAdd(x.enq, e);
    SumAdd(se, sn);
    SumAdd(x.out, o);
    var to := Add(x.out, o);
    if L.Closes(se, to) {
      SumMonotone(se, to);
    } else {
      SumMonotone(to, se);
    }
  }

  /** A step that carries nothing into a new window changes the sizes like the tally. */
  lemma {:induction false} TallyStep(carried: Vec, x: L.Window, e: Vec, o: Vec, se: Vec, sn: Vec, y: L.Window, k: nat,
                                     cap: int, lost: int)
    requires |carried| == k && L.WindowOf(x, k) && L.WindowOf(y, k) && |e| == |o| == |se| == |sn| == k
    requires L.WindowStepFrom(carried, x, e, o, se, sn, y, k, cap)
    requires L.Closes(se, Add(x.out, o)) ==> Sum(carried) == 0
    ensures NextTally(SizeOf(x, lost), Sum(e), Sum(o), cap)
            == SizeOf(y, if L.Closes(se, Add(x.out, o)) then lost + Sum(x.nxt) else lost)
  {
    SplitSizes(carried, x, e, o, se, sn, y, k, cap);
    SumAdd(x.out, o);
    if L.Closes(se, Add(x.out, o)) {
      SumAdd(carried, sn);
      SumZero(k);
      SumSub(Add(x.out, o), se);
    } else {
      SumAdd(x.nxt, sn);
    }
  }

  lemma FirstSizes(tr: Trace, w: L.Windows, k: nat, cap: int)
    requires S.WindowStepOk(tr, w, k, cap, 0)
    ensures TallyAt(tr, cap, 0) == SizeOf(L.At(w, 0), 0)
  {
  }

  /** All window variables of a run have the sizes of the tally: the constraints leave only types open. */
  lemma {:induction false} SizesDetermined(tr: Trace, w: L.Windows, m: nat, k: nat, cap: int, j: nat)
    requires S.WindowRun(tr, w, m, k, cap) && j < m
    ensures L.WindowStepShaped(tr, w, k, j)
    ensures TallyAt(tr, cap, j) == SizeOf(L.At(w, j), TallyAt(tr, cap, j).lost)
  {
    assert S.WindowStepOk(tr, w, k, cap, j);
    if j == 0 {
      FirstSizes(tr, w, k, cap);
    } else {
      SizesDetermined(tr, w, m, k, cap, j - 1);
      var x, y := L.At(w, j - 1), L.At(w, j);
      SumZero(k);
      TallyStep(y.nxt, x, tr.e[j], tr.o[j], w.tmpEnq[j], w.tmpNxt[j], y, k, cap, TallyAt(tr, cap, j - 1).lost);
    }
  }

  // ---------------------------------------------------------------- necessary conditions

  lemma {:induction false} TallyGrows(tr: Trace, m: nat, k: nat, cap: int, j: nat)
    requires BufferRun(tr, m, k, cap) && j < m
    ensures TallyAt(tr, cap, j).nxt >= 0 && TallyAt(tr, cap, j).lost >= 0
    ensures j > 0 ==> TallyAt(tr, cap, j - 1).lost <= TallyAt(tr, cap, j).lost
  {
    if j == 0 {
    } else {
      TallyGrows(tr, m, k, cap, j - 1);
      RunStep(tr, m, k, cap, j);
    }
  }

  /** Windows and forgotten packets together are the backlog. */
  lemma {:induction false} TallyBalance(tr: Trace, m: nat, k: nat, cap: int, j: nat)
    requires BufferRun(tr, m, k, cap) && j < m
    ensures var x := TallyAt(tr, cap, j); j < |tr.c| && x.enq + x.nxt - x.out + x.lost == Sum(tr.c[j])
  {
    RunStep(tr, m, k, cap, j);
    if j > 0 {
      TallyBalance(tr, m, k, cap, j - 1);
    } else {
      SumZero(k);
    }
  }

  /** No step has forgotten more packets than the backlog then holds. */
  ghost predicate Remembered(tr: Trace, m: nat, cap: int) {
    m <= |tr.e| && m <= |tr.o| && m <= |tr.c| && forall j :: 0 <= j < m ==> TallyAt(tr, cap, j).lost <= Sum(tr.c[j])
  }

  /** With capacity 1 the first window must not be sent in full and then be followed by an enqueue. */
  ghost predicate FirstWindowOpens(tr: Trace, m: nat, cap: int) {
    cap == 1 && m > 1 ==> |tr.o| > 0 && |tr.e| > 1 && (Sum(tr.o[0]) == 0 || Sum(tr.e[1]) == 0)
  }

  lemma RememberedAt(tr: Trace, w: L.Windows, m: nat, k: nat, cap: int, j: nat)
    requires BufferRun(tr, m, k, cap) && S.WindowRun(tr, w, m, k, cap) && j < m
    ensures j < |tr.c| && TallyAt(tr, cap, j).lost <= Sum(tr.c[j])
  {
    SizesDetermined(tr, w, m, k, cap, j);
    TallyBalance(tr, m, k, cap, j);
    TallyGrows(tr, m, k, cap, j);
    if j == 0 {
      RunStep(tr, m, k, cap, j);
    } else {
      assert S.WindowStepOk(tr, w, k, cap, j);
      SumMonotone(w.out[j], w.enq[j]);
    }
  }

  lemma FirstOpens(tr: Trace, w: L.Windows, m: nat, k: nat)
    requires BufferRun(tr, m, k, 1) && S.WindowRun(tr, w, m, k, 1) && m > 1
    ensures Sum(tr.o[0]) == 0 || Sum(tr.e[1]) == 0
  {
    assert S.WindowStepOk(tr, w, k, 1, 0) && S.WindowStepOk(tr, w, k, 1, 1);
    SplitSizes(w.nxt[1], L.At(w, 0), tr.e[1], tr.o[1], w.tmpEnq[1], w.tmpNxt[1], L.At(w, 1), k, 1);
    RunStep(tr, m, k, 1, 0);
    RunStep(tr, m, k, 1, 1);
    SumZero(k);
  }

  /** What every run with window variables meets, whatever the types and the number of outputs. */
  lemma WindowsRemember(tr: Trace, w: L.Windows, m: nat, k: nat, cap: int)
    requires BufferRun(tr, m, k, cap) && S.WindowRun(tr, w, m, k, cap)
    ensures Remembered(tr, m, cap) && FirstWindowOpens(tr, m, cap)
  {
    forall j | 0 <= j < m
      ensures TallyAt(tr, cap, j).lost <= Sum(tr.c[j])
    {
      RememberedAt(tr, w, m, k, cap, j);
    }
    if cap == 1 && m > 1 {
      FirstOpens(tr, w, m, k);
    }
  }

  // ---------------------------------------------------------------- sizes that window variables can have

  /** Sizes from which every further step with at most one output can be met. */
  ghost predicate Ready(x: Tally, cap: int) {
    && 0 <= x.out <= x.enq <= cap && 0 <= x.nxt < cap && x.lost >= 0
    && (x.nxt > 0 ==> x.enq == cap) && (x.out == x.enq ==> x.enq < cap)
  }

  lemma ReadyStep(x: Tally, e: int, o: int, cap: int)
    requires Ready(x, cap) && cap >= 1 && e >= 0 && 0 <= o <= 1 && x.enq + x.nxt - x.out + e <= cap
    requires x.out == x.enq && e == 0 ==> o == 0
    ensures Ready(NextTally(x, e, o, cap), cap)
    ensures 0 <= Overflow(x, e, cap) <= cap - 1 && x.enq <= FilledTo(x, e, cap) && x.out + o <= FilledTo(x, e, cap)
  {
  }

  ghost predicate OneAtATime(tr: Trace, m: nat) {
    m <= |tr.o| && forall j :: 0 <= j < m ==> Sum(tr.o[j]) <= 1
  }

  /** The one state that is not ready: with capacity 1 the first packet has left at once. */
  ghost predicate SentAtOnce(x: Tally, cap: int) {
    cap == 1 && x == Tally(1, 0, 1, 0)
  }

  ghost predicate StepFits(tr: Trace, cap: int, j: nat) {
    && 0 < j < |tr.e| && j < |tr.o|
    && var x, e, o := TallyAt(tr, cap, j - 1), Sum(tr.e[j]), Sum(tr.o[j]);
    && 0 <= Overflow(x, e, cap) <= cap - 1 && x.enq <= FilledTo(x, e, cap)
    && 0 <= x.out && x.out + o <= FilledTo(x, e, cap) && 0 <= x.nxt
  }

  lemma TallyFits(tr: Trace, m: nat, k: nat, cap: int, j: nat)
    requires BufferRun(tr, m, k, cap) && cap >= 1 && OneAtATime(tr, m) && 0 < j < m
    requires Ready(TallyAt(tr, cap, j - 1), cap)
    requires TallyAt(tr, cap, j).lost <= Sum(tr.c[j])
    ensures Ready(TallyAt(tr, cap, j), cap) && StepFits(tr, cap, j)
  {
    RunStep(tr, m, k, cap, j);
    TallyBalance(tr, m, k, cap, j - 1);
    TallyBalance(tr, m, k, cap, j);
    TallyGrows(tr, m, k, cap, j);
    assert Sum(tr.o[j]) <= 1;
    ReadyStep(TallyAt(tr, cap, j - 1), Sum(tr.e[j]), Sum(tr.o[j]), cap);
  }

  /** After the exceptional first step the second one finds nothing to send and opens the next window. */
  lemma {:induction false} SecondReady(tr: Trace, m: nat, k: nat, cap: int)
    requires BufferRun(tr, m, k, cap) && 1 < m && SentAtOnce(TallyAt(tr, cap, 0), cap) && FirstWindowOpens(tr, m, cap)
    ensures Ready(TallyAt(tr, cap, 1), cap) && StepFits(tr, cap, 1)
  {
    RunStep(tr, m, k, cap, 1);
    TallyBalance(tr, m, k, cap, 0);
    TallyBalance(tr, m, k, cap, 1);
  }

  lemma {:induction false} TallyReady(tr: Trace, m: nat, k: nat, cap: int, j: nat)
    requires BufferRun(tr, m, k, cap) && cap >= 1 && OneAtATime(tr, m) && j < m
    requires Remembered(tr, m, cap) && FirstWindowOpens(tr, m, cap)
    ensures Ready(TallyAt(tr, cap, j), cap) || (j == 0 && SentAtOnce(TallyAt(tr, cap, 0), cap))
    ensures j > 0 ==> StepFits(tr, cap, j)
  {
    RunStep(tr, m, k, cap, j);
    assert Sum(tr.o[j]) <= 1 && TallyAt(tr, cap, j).lost <= Sum(tr.c[j]);
    if j == 0 {
      SumZero(k);
    } else {
      TallyReady(tr, m, k, cap, j - 1);
      if Ready(TallyAt(tr, cap, j - 1), cap) {
        TallyFits(tr, m, k, cap, j);
      } else {
        SecondReady(tr, m, k, cap);
      }
    }
  }

  // ---------------------------------------------------------------- one packet type

  /** The split of the enqueues of step j. */
  function FilledToAt(tr: Trace, cap: int, j: nat): int
    requires j < |tr.e| && j < |tr.o|
  {
    if j == 0 then 0 else FilledTo(TallyAt(tr, cap, j - 1), Sum(tr.e[j]), cap)
  }

  function OverflowAt(tr: Trace, cap: int, j: nat): int
    requires j < |tr.e| && j < |tr.o|
  {
    if j == 0 then 0 else Overflow(TallyAt(tr, cap, j - 1), Sum(tr.e[j]), cap)
  }

  /** The window variables of step j. */
  ghost predicate SingleAt(tr: Trace, w: L.Windows, cap: int, j: nat) {
    && j < |tr.e| && j < |tr.o| && j < |w.enq| && j < |w.nxt| && j < |w.out| && j < |w.tmpEnq| && j < |w.tmpNxt|
    && w.enq[j] == [TallyAt(tr, cap, j).enq] && w.nxt[j] == [TallyAt(tr, cap, j).nxt]
    && w.out[j] == [TallyAt(tr, cap, j).out]
    && w.tmpEnq[j] == [FilledToAt(tr, cap, j)] && w.tmpNxt[j] == [OverflowAt(tr, cap, j)]
  }

  ghost function SizesAsWindows(tr: Trace, m: nat, cap: int): (w: L.Windows)
    requires m <= |tr.e| && m <= |tr.o|
    ensures |w.enq| == |w.nxt| == |w.out| == |w.tmpEnq| == |w.tmpNxt| == m
    ensures forall j :: 0 <= j < m ==> SingleAt(tr, w, cap, j)
  {
    L.Windows(seq(m, j requires 0 <= j < m => [TallyAt(tr, cap, j).enq]),
              seq(m, j requires 0 <= j < m => [TallyAt(tr, cap, j).nxt]),
              seq(m, j requires 0 <= j < m => [TallyAt(tr, cap, j).out]),
              seq(m, j requires 0 <= j < m => [FilledToAt(tr, cap, j)]),
              seq(m, j requires 0 <= j < m => [OverflowAt(tr, cap, j)]))
  }

  /** One step of one-component windows. */
  lemma SingleStep(x: Tally, e: Vec, o: Vec, cap: int)
    requires |e| == |o| == 1 && cap >= 1 && 0 <= e[0] && 0 <= o[0]
    requires 0 <= Overflow(x, e[0], cap) <= cap - 1 && 0 <= x.enq <= FilledTo(x, e[0], cap) && 0 <= x.out
    requires x.out + o[0] <= FilledTo(x, e[0], cap) && Ready(NextTally(x, e[0], o[0], cap), cap)
    ensures var y := NextTally(x, e[0], o[0], cap);
            S.ForgetfulStep(L.Window([x.enq], [x.nxt], [x.out]), e, o, [FilledTo(x, e[0], cap)],
              [Overflow(x, e[0], cap)],
                            L.Window([y.enq], [y.nxt], [y.out]), 1, cap)
  {
    var y := NextTally(x, e[0], o[0], cap);
    var se, sn, to := [FilledTo(x, e[0], cap)], [Overflow(x, e[0], cap)], [x.out + o[0]];
    assert Add([x.out], o) == to && Add([x.enq], e) == Add(se, sn);
    OneSum(se);
    OneSum(sn);
    OneSum(to);
    OneSum([y.nxt]);
    assert Add([y.nxt], sn) == [y.nxt + sn[0]] && Add([x.nxt], sn) == [x.nxt + sn[0]] && Sub(to, se) == [to[0] - se[0]];
    assert Zero(1) == [0];
  }

  lemma SingleWindowAt(tr: Trace, w: L.Windows, m: nat, cap: int, j: nat)
    requires BufferRun(tr, m, 1, cap) && cap >= 1 && OneAtATime(tr, m) && j < m
    requires Remembered(tr, m, cap) && FirstWindowOpens(tr, m, cap)
    requires SingleAt(tr, w, cap, j) && (j > 0 ==> SingleAt(tr, w, cap, j - 1))
    ensures S.WindowStepOk(tr, w, 1, cap, j)
  {
    RunStep(tr, m, 1, cap, j);
    TallyReady(tr, m, 1, cap, j);
    OneSum(tr.e[j]);
    OneSum(tr.o[j]);
    if j == 0 {
      OneSum([0]);
    } else {
      SingleStep(TallyAt(tr, cap, j - 1), tr.e[j], tr.o[j], cap);
    }
  }

  lemma SingleBoundsAt(tr: Trace, w: L.Windows, m: nat, cap: int, j: nat)
    requires BufferRun(tr, m, 1, cap) && cap >= 1 && OneAtATime(tr, m) && j < m
    requires Remembered(tr, m, cap) && FirstWindowOpens(tr, m, cap) && SingleAt(tr, w, cap, j)
    ensures Within(w.enq[j], cap) && Within(w.nxt[j], cap) && Within(w.out[j], cap)
    ensures Within(w.tmpEnq[j], cap) && Within(w.tmpNxt[j], cap)
  {
    TallyReady(tr, m, 1, cap, j);
    if j > 0 {
      TallyReady(tr, m, 1, cap, j - 1);
    }
  }

  lemma SingleRun(tr: Trace, w: L.Windows, m: nat, cap: int)
    requires BufferRun(tr, m, 1, cap) && cap >= 1 && OneAtATime(tr, m)
    requires Remembered(tr, m, cap) && FirstWindowOpens(tr, m, cap)
    requires |w.enq| == |w.nxt| == |w.out| == |w.tmpEnq| == |w.tmpNxt| == m
    requires forall j :: 0 <= j < m ==> SingleAt(tr, w, cap, j)
    ensures S.WindowRun(tr, w, m, 1, cap)
  {
    forall j | 0 <= j < m
      ensures S.WindowStepOk(tr, w, 1, cap, j)
      ensures Within(w.enq[j], cap) && Within(w.nxt[j], cap) && Within(w.out[j], cap)
      ensures Within(w.tmpEnq[j], cap) && Within(w.tmpNxt[j], cap)
    {
      assert SingleAt(tr, w, cap, j) && (j > 0 ==> SingleAt(tr, w, cap, j - 1));
      SingleWindowAt(tr, w, m, cap, j);
      SingleBoundsAt(tr, w, m, cap, j);
    }
  }

  /**
    With one packet type and single departures, window variables exist if and only if the packets
    forgotten never outnumber the backlog (and, with capacity 1, the first window opens).
   */
  lemma OneTypeHasWindows(tr: Trace, m: nat, cap: int)
    requires BufferRun(tr, m, 1, cap) && cap >= 1 && OneAtATime(tr, m)
    ensures (exists w :: S.WindowRun(tr, w, m, 1, cap)) <==> Remembered(tr, m, cap) && FirstWindowOpens(tr, m, cap)
  {
    if w :| S.WindowRun(tr, w, m, 1, cap) {
      WindowsRemember(tr, w, m, 1, cap);
    }
    if Remembered(tr, m, cap) && FirstWindowOpens(tr, m, cap) {
      SingleRun(tr, SizesAsWindows(tr, m, cap), m, cap);
    }
  }

  /** The tally of given numbers of enqueues and outputs. */
  function TallyOf(e: seq<int>, o: seq<int>, cap: int, j: nat): Tally
    requires j < |e| && j < |o|
  {
    if j == 0 then Tally(e[0], 0, o[0], 0) else NextTally(TallyOf(e, o, cap, j - 1), e[j], o[j], cap)
  }

  lemma {:induction false} TallyOfSums(tr: Trace, e: seq<int>, o: seq<int>, cap: int, j: nat)
    requires j < |e| && j < |o| && j < |tr.e| && j < |tr.o|
    requires forall t :: 0 <= t <= j ==> Sum(tr.e[t]) == e[t] && Sum(tr.o[t]) == o[t]
    ensures TallyAt(tr, cap, j) == TallyOf(e, o, cap, j)
  {
    if j == 0 {
    } else {
      TallyOfSums(tr, e, o, cap, j - 1);
    }
  }

  lemma TallyOfNext(e: seq<int>, o: seq<int>, cap: int, j: nat, x: Tally, y: Tally)
    requires 0 < j < |e| && j < |o| && TallyOf(e, o, cap, j - 1) == x && y == NextTally(x, e[j], o[j], cap)
    ensures TallyOf(e, o, cap, j) == y
  {
  }

  lemma CarriedIsForgotten(e: seq<int>, o: seq<int>, cap: int, j: nat) returns (y: Tally)
    requires |e| == |o| == 4 && e[0] == 2 && e[1] == 1 && e[2] == 0 && e[3] == 0 && o[0] == 1 && o[1] == 0 && o[2] == 1
    requires cap == 2 && j == 3
    ensures TallyOf(e, o, cap, j) == y && y.lost == 1
  {
    var x := Tally(0, 0, 0, 1);
    y := NextTally(x, e[j], o[j], cap);
    TallyOfNext(e, o, cap, j - 2, Tally(2, 0, 1, 0), Tally(2, 1, 1, 0));
    TallyOfNext(e, o, cap, j - 1, Tally(2, 1, 1, 0), x);
    TallyOfNext(e, o, cap, j, x, y);
  }

  /** Capacity 2: 2, 1, 0 and 0 packets are enqueued, 1, 0 and 1 sent; the one carried over is forgotten. */
  lemma StalledForgets(tr: Trace, e: seq<int>, o: seq<int>, cap: int, j: nat)
    requires |e| == |o| == 4 <= |tr.e| && 4 <= |tr.o| && cap == 2 && j == 3
    requires e[0] == 2 && e[1] == 1 && e[2] == 0 && e[3] == 0 && o[0] == 1 && o[1] == 0 && o[2] == 1
    requires forall t :: 0 <= t < 4 ==> tr.e[t] == [e[t]] && tr.o[t] == [o[t]]
    ensures TallyAt(tr, cap, j).lost == 1
  {
    forall t | 0 <= t <= j
      ensures Sum(tr.e[t]) == e[t] && Sum(tr.o[t]) == o[t]
    {
      OneSum(tr.e[t]);
      OneSum(tr.o[t]);
    }
    TallyOfSums(tr, e, o, cap, j);
    var y := CarriedIsForgotten(e, o, cap, j);
  }
}
