/** Which runs of a FIFO queue the windows of src/sts_checker.cpp (winds) admit. */
module StsFifoWindows {
  import opened CountVectors
  import opened BufferTrace
  import opened FifoQueue
  import opened FifoSimulation
  import opened FifoWindows
  import opened StsBuffer
  import opened WindowTotals
  import S = StsWindows
  import L = LeafBuffer

  /** No window closes while packets admitted in earlier steps lie behind it. */
  ghost predicate NothingLost(tr: Trace, m: nat, cap: int) {
    0 < m <= |tr.e| && m <= |tr.o| && TallyAt(tr, cap, m - 1).lost == 0
  }

  lemma {:induction false} LostGrows(tr: Trace, m: nat, k: nat, cap: int, i: nat, j: nat)
    requires BufferRun(tr, m, k, cap) && i <= j < m
    ensures 0 <= TallyAt(tr, cap, i).lost <= TallyAt(tr, cap, j).lost
  {
    TallyGrows(tr, m, k, cap, j);
    if i < j {
      LostGrows(tr, m, k, cap, i, j - 1);
    }
  }

  // ---------------------------------------------------------------- from the newer windows to the older ones

  /** When nothing lies behind a closing window, both encodings say the same about the step. */
  lemma SameStep(x: L.Window, e: Vec, o: Vec, se: Vec, sn: Vec, y: L.Window, k: nat, cap: int)
    requires L.WindowOf(x, k) && L.WindowOf(y, k) && |e| == |o| == |se| == |sn| == k
    requires L.WindowStep(x, e, o, se, sn, y, k, cap)
    requires L.Closes(se, Add(x.out, o)) ==> x.nxt == Zero(k)
    ensures S.ForgetfulStep(x, e, o, se, sn, y, k, cap)
  {
  }

  lemma SizesStep(tr: Trace, w: L.Windows, k: nat, cap: int, j: nat)
    requires 0 < j && L.WindowStepOk(tr, w, k, cap, j) && NonNegative(w.nxt[j - 1])
    requires TallyAt(tr, cap, j - 1) == SizeOf(L.At(w, j - 1), 0) && TallyAt(tr, cap, j).lost == 0
    ensures TallyAt(tr, cap, j) == SizeOf(L.At(w, j), 0) && S.WindowStepOk(tr, w, k, cap, j)
  {
    var x, y := L.At(w, j - 1), L.At(w, j);
    SplitSizes(x.nxt, x, tr.e[j], tr.o[j], w.tmpEnq[j], w.tmpNxt[j], y, k, cap);
    SumOfCounts(x.nxt);
    TallyStep(x.nxt, x, tr.e[j], tr.o[j], w.tmpEnq[j], w.tmpNxt[j], y, k, cap, 0);
    SameStep(x, tr.e[j], tr.o[j], w.tmpEnq[j], w.tmpNxt[j], y, k, cap);
  }

  lemma {:induction false} NewerAreOlder(tr: Trace, w: L.Windows, m: nat, k: nat, cap: int, j: nat)
    requires BufferRun(tr, m, k, cap) && L.WindowRun(tr, w, m, k, cap) && j < m && TallyAt(tr, cap, j).lost == 0
    ensures L.WindowStepShaped(tr, w, k, j) && TallyAt(tr, cap, j) == SizeOf(L.At(w, j), 0)
    ensures S.WindowStepOk(tr, w, k, cap, j)
  {
    assert L.WindowStepOk(tr, w, k, cap, j);
    if j == 0 {
    } else {
      LostGrows(tr, m, k, cap, j - 1, j);
      NewerAreOlder(tr, w, m, k, cap, j - 1);
      SizesStep(tr, w, k, cap, j);
    }
  }

  lemma NewerRunIsOlderRun(tr: Trace, w: L.Windows, m: nat, k: nat, cap: int)
    requires BufferRun(tr, m, k, cap) && L.WindowRun(tr, w, m, k, cap) && NothingLost(tr, m, cap)
    ensures S.WindowRun(tr, w, m, k, cap)
  {
    forall j | 0 <= j < m
      ensures S.WindowStepOk(tr, w, k, cap, j)
    {
      LostGrows(tr, m, k, cap, j, m - 1);
      NewerAreOlder(tr, w, m, k, cap, j);
    }
  }

  // ---------------------------------------------------------------- capacity 1

  /** With capacity 1 the window after step j holds the packet that is left; the first one also what was sent. */
  function Kept(tr: Trace, k: nat, j: nat): (v: Vec)
    requires Shaped(tr, |tr.c|, k) && j < |tr.c|
    ensures |v| == k
  {
    if j == 0 then tr.e[0] else tr.c[j]
  }

  function SentFirst(tr: Trace, k: nat, j: nat): (v: Vec)
    requires Shaped(tr, |tr.c|, k) && j < |tr.c|
    ensures |v| == k
  {
    if j == 0 then tr.o[0] else Zero(k)
  }

  function KeptBefore(tr: Trace, k: nat, j: nat): (v: Vec)
    requires Shaped(tr, |tr.c|, k) && j < |tr.c|
    ensures |v| == k
  {
    if j == 0 then Zero(k) else Add(Kept(tr, k, j - 1), tr.e[j])
  }

  ghost predicate KeptAt(tr: Trace, w: L.Windows, k: nat, j: nat) {
    && Shaped(tr, |tr.c|, k) && j < |tr.c| && L.WindowStepShaped(tr, w, k, j)
    && w.enq[j] == Kept(tr, k, j) && w.nxt[j] == Zero(k) && w.out[j] == SentFirst(tr, k, j)
    && w.tmpEnq[j] == KeptBefore(tr, k, j) && w.tmpNxt[j] == Zero(k)
  }

  ghost function KeptVectors(tr: Trace, m: nat, k: nat): (v: seq<Vec>)
    requires Shaped(tr, m, k)
    ensures AllOf(v, m, k) && forall j :: 0 <= j < m ==> v[j] == Kept(tr, k, j)
  {
    seq(m, j requires 0 <= j < m => Kept(tr, k, j))
  }

  ghost function SentVectors(tr: Trace, m: nat, k: nat): (v: seq<Vec>)
    requires Shaped(tr, m, k)
    ensures AllOf(v, m, k) && forall j :: 0 <= j < m ==> v[j] == SentFirst(tr, k, j)
  {
    seq(m, j requires 0 <= j < m => SentFirst(tr, k, j))
  }

  ghost function BeforeVectors(tr: Trace, m: nat, k: nat): (v: seq<Vec>)
    requires Shaped(tr, m, k)
    ensures AllOf(v, m, k) && forall j :: 0 <= j < m ==> v[j] == KeptBefore(tr, k, j)
  {
    seq(m, j requires 0 <= j < m => KeptBefore(tr, k, j))
  }

  ghost function NoVectors(m: nat, k: nat): (v: seq<Vec>)
    ensures AllOf(v, m, k) && forall j :: 0 <= j < m ==> v[j] == Zero(k)
  {
    if m == 0 then [] else NoVectors(m - 1, k) + [Zero(k)]
  }

  ghost function KeptWindows(tr: Trace, m: nat, k: nat): (w: L.Windows)
    requires Shaped(tr, m, k)
    ensures L.WindowShaped(w, m, k)
  {
    L.Windows(KeptVectors(tr, m, k), NoVectors(m, k), SentVectors(tr, m, k), BeforeVectors(tr, m, k), NoVectors(m, k))
  }

  lemma KeptWindowsAt(tr: Trace, m: nat, k: nat, j: nat)
    requires Shaped(tr, m, k) && j < m
    ensures KeptAt(tr, KeptWindows(tr, m, k), k, j)
  {
    var w := KeptWindows(tr, m, k);
    assert w.enq[j] == KeptVectors(tr, m, k)[j] && w.out[j] == SentVectors(tr, m, k)[j];
    assert w.tmpEnq[j] == BeforeVectors(tr, m, k)[j] && w.nxt[j] == w.tmpNxt[j] == NoVectors(m, k)[j];
  }

  /** At most one packet is there: it leaves and the window closes, or it stays. */
  lemma {:induction false} LeavesOrStays(se: Vec, o: Vec, c: Vec, k: nat)
    requires |se| == |o| == |c| == k && NonNegative(o) && NonNegative(c) && c == Sub(se, o) && Sum(se) <= 1
    ensures if L.Closes(se, o) then c == Zero(k) && o == se else o == Zero(k) && c == se
  {
    assert forall t :: 0 <= t < k ==> c[t] == se[t] - o[t];
    SumSub(se, o);
    SumOfCounts(o);
    SumOfCounts(c);
  }

  lemma KeptStep(before: Vec, e: Vec, o: Vec, c: Vec, k: nat)
    requires |before| == |e| == |o| == |c| == k
    requires NonNegative(before) && NonNegative(e) && NonNegative(o) && NonNegative(c)
    requires c == Sub(Add(before, e), o) && Sum(Add(before, e)) <= 1
    ensures S.ForgetfulStep(L.Window(before, Zero(k), Zero(k)), e, o, Add(before, e), Zero(k),
            L.Window(c, Zero(k), Zero(k)), k, 1)
  {
    var se := Add(before, e);
    SumZero(k);
    AddZero(se);
    AddZero(o);
    LeavesOrStays(se, o, c, k);
    SumOfCounts(se);
    SumOfCounts(o);
  }

  /** The first packet has left at once and no packet follows: the window closes. */
  lemma EmptyStep(first: Vec, e: Vec, o: Vec, c: Vec, k: nat)
    requires |first| == |e| == |o| == |c| == k && Sum(first) == 1
    requires e == Zero(k) && o == Zero(k) && c == Zero(k)
    ensures S.ForgetfulStep(L.Window(first, Zero(k), first), e, o, Add(first, e), Zero(k),
            L.Window(c, Zero(k), Zero(k)), k, 1)
  {
    SumZero(k);
    AddZero(first);
    AddZero(c);
  }

  lemma FirstPacket(tr: Trace, m: nat, k: nat)
    requires BufferRun(tr, m, k, 1) && m > 1 && FirstWindowOpens(tr, m, 1)
    ensures (tr.o[0] == Zero(k) && tr.c[0] == tr.e[0])
            || (tr.o[0] == tr.e[0] && Sum(tr.e[0]) == 1 && tr.c[0] == Zero(k) && tr.e[1] == Zero(k)
                && tr.o[1] == Zero(k) && tr.c[1] == Zero(k))
  {
    RunStep(tr, m, k, 1, 0);
    RunStep(tr, m, k, 1, 1);
    assert StepOk(tr, k, 1, 0) && StepOk(tr, k, 1, 1);
    OfferedAtStart(tr, k);
    LeavesOrStays(tr.e[0], tr.o[0], tr.c[0], k);
    SumOfCounts(tr.o[0]);
    SumOfCounts(tr.e[0]);
    SumOfCounts(tr.e[1]);
    SumZero(k);
    AddZero(tr.c[0]);
    if tr.o[0] != Zero(k) {
      LeavesOrStays(Zero(k), tr.o[1], tr.c[1], k);
      SumOfCounts(tr.o[1]);
    }
  }

  lemma KeptOk(tr: Trace, w: L.Windows, m: nat, k: nat, j: nat)
    requires BufferRun(tr, m, k, 1) && j < m && FirstWindowOpens(tr, m, 1)
    requires KeptAt(tr, w, k, j) && (j > 0 ==> KeptAt(tr, w, k, j - 1))
    ensures S.WindowStepOk(tr, w, k, 1, j)
  {
    SumZero(k);
    if j > 0 {
      RunStep(tr, m, k, 1, j);
      if j == 1 {
        FirstPacket(tr, m, k);
      }
      if j == 1 && tr.o[0] != Zero(k) {
        EmptyStep(tr.e[0], tr.e[1], tr.o[1], tr.c[1], k);
      } else {
        KeptStep(tr.c[j - 1], tr.e[j], tr.o[j], tr.c[j], k);
      }
    }
  }

  lemma KeptBounds(tr: Trace, m: nat, k: nat, j: nat)
    requires BufferRun(tr, m, k, 1) && j < m && FirstWindowOpens(tr, m, 1)
    ensures Within(Kept(tr, k, j), 1) && Within(SentFirst(tr, k, j), 1) && Within(KeptBefore(tr, k, j), 1)
  {
    RunStep(tr, m, k, 1, j);
    SumOfCounts(tr.c[j]);
    SumOfCounts(tr.e[j]);
    SumOfCounts(tr.o[j]);
    if j > 0 {
      SumOfCounts(Offered(tr, k, j));
      if j == 1 {
        FirstPacket(tr, m, k);
        RunStep(tr, m, k, 1, 0);
        SumOfCounts(tr.e[0]);
      }
    }
  }

  /** With capacity 1 nothing can be carried over, and only the first two steps matter. */
  lemma CapacityOneHasWindows(tr: Trace, m: nat, k: nat)
    requires BufferRun(tr, m, k, 1)
    ensures (exists w :: S.WindowRun(tr, w, m, k, 1)) <==> FirstWindowOpens(tr, m, 1)
  {
    if w :| S.WindowRun(tr, w, m, k, 1) {
      WindowsRemember(tr, w, m, k, 1);
    }
    if FirstWindowOpens(tr, m, 1) {
      var w := KeptWindows(tr, m, k);
      forall j | 0 <= j < m
        ensures S.WindowStepOk(tr, w, k, 1, j)
        ensures Within(w.enq[j], 1) && Within(w.nxt[j], 1) && Within(w.out[j], 1)
        ensures Within(w.tmpEnq[j], 1) && Within(w.tmpNxt[j], 1)
      {
        KeptWindowsAt(tr, m, k, j);
        if j > 0 {
          KeptWindowsAt(tr, m, k, j - 1);
        }
        KeptOk(tr, w, m, k, j);
        KeptBounds(tr, m, k, j);
      }
      assert S.WindowRun(tr, w, m, k, 1);
    }
  }

  // ---------------------------------------------------------------- runs of a FIFO queue

  /** A queue run has windows when none closes with packets behind it, and the first one opens. */
  lemma FifoHasWindows(steps: seq<Step>, tr: Trace, k: nat, cap: nat) returns (w: L.Windows)
    requires StsFifoRun(steps, k, cap) && StsImage(steps, tr, k, cap) && cap >= 1
    requires NothingLost(tr, |steps|, cap) && FirstWindowOpens(tr, |steps|, cap)
    ensures S.WindowRun(tr, w, |steps|, k, cap)
  {
    QueueRunIsStsRun(steps, tr, k, cap);
    if cap == 1 {
      CapacityOneHasWindows(tr, |steps|, k);
      w :| S.WindowRun(tr, w, |steps|, k, cap);
    } else {
      StsCommon(steps, tr, k, cap);
      PointersFollow(steps, tr, k, cap);
      w := WindowsOf(PointersOf(steps, cap), |steps|, k, cap);
      WindowsExist(tr, PointersOf(steps, cap), |steps|, k, cap);
      NewerRunIsOlderRun(tr, w, |steps|, k, cap);
    }
  }

  /** So a queue run that forgets nothing has windows if and only if the first one opens. */
  lemma RememberingHasWindows(steps: seq<Step>, tr: Trace, k: nat, cap: nat)
    requires StsFifoRun(steps, k, cap) && StsImage(steps, tr, k, cap) && cap >= 1 && NothingLost(tr, |steps|, cap)
    ensures (exists w :: S.WindowRun(tr, w, |steps|, k, cap)) <==> FirstWindowOpens(tr, |steps|, cap)
  {
    QueueRunIsStsRun(steps, tr, k, cap);
    if w :| S.WindowRun(tr, w, |steps|, k, cap) {
      WindowsRemember(tr, w, |steps|, k, cap);
    }
    if FirstWindowOpens(tr, |steps|, cap) {
      var w := FifoHasWindows(steps, tr, k, cap);
    }
  }

  lemma DrainedBacklog(steps: seq<Step>, tr: Trace, k: nat, cap: nat)
    requires StsFifoRun(steps, k, cap) && StsImage(steps, tr, k, cap) && |steps| > 0
    requires Queue(steps, cap, |steps|) == []
    ensures Sum(tr.c[|steps| - 1]) == 0
  {
    assert StsImageAt(steps, tr, k, cap, |steps| - 1);
    CountOfNone(k);
    SumZero(k);
  }

  /**
    Which FIFO runs that end with an empty queue have window variables, for any types and capacity:
    exactly those in which no window closes while packets admitted in earlier steps lie behind it
    and, with capacity 1, the second step admits nothing when the first one has sent a packet.
   */
  lemma {:induction false} DrainedHasWindows(steps: seq<Step>, tr: Trace, k: nat, cap: nat)
    requires StsFifoRun(steps, k, cap) && StsImage(steps, tr, k, cap) && cap >= 1
    requires |steps| > 0 && Queue(steps, cap, |steps|) == []
    ensures (exists w :: S.WindowRun(tr, w, |steps|, k, cap))
            <==> NothingLost(tr, |steps|, cap) && FirstWindowOpens(tr, |steps|, cap)
  {
    QueueRunIsStsRun(steps, tr, k, cap);
    if w :| S.WindowRun(tr, w, |steps|, k, cap) {
      WindowsRemember(tr, w, |steps|, k, cap);
      DrainedBacklog(steps, tr, k, cap);
      LostGrows(tr, |steps|, k, cap, |steps| - 1, |steps| - 1);
    }
    if NothingLost(tr, |steps|, cap) && FirstWindowOpens(tr, |steps|, cap) {
      var w := FifoHasWindows(steps, tr, k, cap);
    }
  }

  // ---------------------------------------------------------------- two queue runs that are ruled out

  /** Capacity 2: two packets arrive and one leaves, one arrives, then the queue drains. */
  function StalledRun(): seq<Step> {
    [Step([0, 0], true), Step([0], false), Step([], true), Step([], true)]
  }

  /** Packets queued before each step, enqueued and sent in it. */
  const QUEUED: seq<nat> := [0, 1, 2, 1]
  const ENQUEUED: seq<nat> := [2, 1, 0, 0]
  const SENT: seq<nat> := [1, 0, 1, 1]

  lemma {:induction false} StalledSizes(j: nat)
    requires j < 4
    ensures |Queue(StalledRun(), 2, j)| == QUEUED[j]
    ensures |Admissions(StalledRun(), 2, j)| == ENQUEUED[j] && |Departed(StalledRun(), 2, j)| == SENT[j]
    ensures StsStep(StalledRun(), 2, j)
  {
    if j > 0 {
      StalledSizes(j - 1);
      StepSizes(StalledRun(), 2, j - 1);
    }
    StepSizes(StalledRun(), 2, j);
  }

  lemma StalledIsQueueRun()
    ensures StsFifoRun(StalledRun(), 1, 2)
  {
    forall j | 0 <= j < 4
      ensures StsStep(StalledRun(), 2, j)
    {
      StalledSizes(j);
    }
  }

  lemma StalledCounts(tr: Trace, j: nat)
    requires StsImage(StalledRun(), tr, 1, 2) && j < 4
    ensures tr.e[j] == [ENQUEUED[j]] && tr.o[j] == [SENT[j]]
  {
    var s := StalledRun();
    assert StsImageAt(s, tr, 1, 2, j);
    StalledSizes(j);
    StalledIsQueueRun();
    QueueFits(s, 2, 1, j);
    assert Typed(s[j].arrivals, 1);
    OneCount(Admissions(s, 2, j));
    OneCount(Departed(s, 2, j));
  }

  lemma StalledTally(tr: Trace, cap: int, j: nat)
    requires StsImage(StalledRun(), tr, 1, 2) && cap == 2 && j == 3
    ensures Shaped(tr, 4, 1) && TallyAt(tr, cap, j).lost == 1
  {
    var e: seq<int>, o: seq<int> := [2, 1, 0, 0], [1, 0, 1, 1];
    forall t | 0 <= t < 4
      ensures tr.e[t] == [e[t]] && tr.o[t] == [o[t]]
    {
      StalledCounts(tr, t);
    }
    StalledForgets(tr, e, o, cap, j);
  }

  /** A queue run with the smallest capacity that can carry packets over: the carried one is forgotten. */
  lemma RejectsQueueRun(tr: Trace)
    requires StsImage(StalledRun(), tr, 1, 2)
    ensures StsFifoRun(StalledRun(), 1, 2) && BufferRun(tr, 4, 1, 2)
    ensures forall w :: !S.WindowRun(tr, w, 4, 1, 2)
  {
    StalledIsQueueRun();
    QueueRunIsStsRun(StalledRun(), tr, 1, 2);
    StalledSizes(3);
    StepSizes(StalledRun(), 2, 3);
    StalledTally(tr, 2, 3);
    DrainedHasWindows(StalledRun(), tr, 1, 2);
  }

  /** Capacity 1: one packet in each of two steps, sent at once. */
  function BusyRun(): seq<Step> {
    [Step([0], true), Step([0], true)]
  }

  lemma {:induction false} BusySizes(j: nat)
    requires j < 2
    ensures |Queue(BusyRun(), 1, j)| == 0 == |Queue(BusyRun(), 1, j + 1)|
    ensures |Admissions(BusyRun(), 1, j)| == 1 == |Departed(BusyRun(), 1, j)| && StsStep(BusyRun(), 1, j)
  {
    if j > 0 {
      BusySizes(j - 1);
    }
    StepSizes(BusyRun(), 1, j);
  }

  lemma BusyIsQueueRun()
    ensures StsFifoRun(BusyRun(), 1, 1) && Queue(BusyRun(), 1, 2) == []
  {
    forall j | 0 <= j < 2
      ensures StsStep(BusyRun(), 1, j)
    {
      BusySizes(j);
    }
    BusySizes(1);
  }

  lemma BusyCounts(tr: Trace, j: nat)
    requires StsImage(BusyRun(), tr, 1, 1) && j < 2
    ensures tr.e[j] == [1] && tr.o[j] == [1]
  {
    var s := BusyRun();
    assert StsImageAt(s, tr, 1, 1, j);
    BusySizes(j);
    BusyIsQueueRun();
    QueueFits(s, 1, 1, j);
    assert Typed(s[j].arrivals, 1);
    OneCount(Admissions(s, 1, j));
    OneCount(Departed(s, 1, j));
  }

  /** Nothing is carried over here; the first window never closes. */
  lemma RejectsBusyRun(tr: Trace)
    requires StsImage(BusyRun(), tr, 1, 1)
    ensures StsFifoRun(BusyRun(), 1, 1) && BufferRun(tr, 2, 1, 1)
    ensures forall w :: !S.WindowRun(tr, w, 2, 1, 1)
  {
    BusyIsQueueRun();
    BusyCounts(tr, 0);
    BusyCounts(tr, 1);
    QueueRunIsStsRun(BusyRun(), tr, 1, 1);
    OneSum([1]);
    DrainedHasWindows(BusyRun(), tr, 1, 1);
  }
}
