/** Every run of a FIFO queue with tail drop, reduced to counts per type, is a run of the relations. */
module FifoSimulation {
  import opened CountVectors
  import opened BufferTrace
  import opened FifoQueue
  import opened FifoWindows
  import LeafBuffer
  import StsBuffer

  // ---------------------------------------------------------------- images of a queue run
  // In the timing of a VOQ (src/leaf_spine/leaf_base.cpp) and of a contention point (src/sts_checker.cpp).

  function Admissions(steps: seq<Step>, cap: nat, j: nat): seq<nat>
    requires j < |steps|
  {
    Admitted(Queue(steps, cap, j), steps[j].arrivals, cap)
  }

  /** The numbers of packets in one queue step. */
  lemma StepSizes(steps: seq<Step>, cap: nat, j: nat)
    requires j < |steps| && |Queue(steps, cap, j)| <= cap
    ensures |Admissions(steps, cap, j)| == Min(|steps[j].arrivals|, cap - |Queue(steps, cap, j)|)
    ensures |Filled(steps, cap, j)| == |Queue(steps, cap, j)| + |Admissions(steps, cap, j)|
    ensures |Departed(steps, cap, j)| == if steps[j].deq && |Filled(steps, cap, j)| > 0 then 1 else 0
    ensures |Queue(steps, cap, j + 1)| == |Filled(steps, cap, j)| - |Departed(steps, cap, j)|
    ensures |Dropped(Queue(steps, cap, j), steps[j].arrivals, cap)| == |steps[j].arrivals| - |Admissions(steps, cap, j)|
  {
  }

  /** What both timings share: inputs, enqueues, drops and outputs. */
  ghost predicate CommonAt(steps: seq<Step>, tr: Trace, k: nat, cap: nat, j: nat) {
    && j < |steps| && j < |tr.i| && j < |tr.e| && j < |tr.d| && j < |tr.o|
    && tr.i[j] == CountOf(steps[j].arrivals, k)
    && tr.e[j] == CountOf(Admissions(steps, cap, j), k)
    && tr.d[j] == CountOf(Dropped(Queue(steps, cap, j), steps[j].arrivals, cap), k)
    && tr.o[j] == CountOf(Departed(steps, cap, j), k)
  }

  /** A VOQ's backlog in step j is the queue before the step. */
  ghost predicate LeafImageAt(steps: seq<Step>, tr: Trace, k: nat, cap: nat, j: nat) {
    && CommonAt(steps, tr, k, cap, j) && j < |tr.c| && j < |tr.b|
    && tr.c[j] == CountOf(Queue(steps, cap, j), k)
    && tr.b[j] == (|Queue(steps, cap, j)| > 0)
  }

  /** A contention point's backlog in step j is the queue after the step. */
  ghost predicate StsImageAt(steps: seq<Step>, tr: Trace, k: nat, cap: nat, j: nat) {
    && CommonAt(steps, tr, k, cap, j) && j < |tr.c| && j < |tr.b|
    && tr.c[j] == CountOf(Queue(steps, cap, j + 1), k)
    && tr.b[j] == (|Filled(steps, cap, j)| > 0)
  }

  ghost predicate LeafImage(steps: seq<Step>, tr: Trace, k: nat, cap: nat) {
    Shaped(tr, |steps|, k) && forall j :: 0 <= j < |steps| ==> LeafImageAt(steps, tr, k, cap, j)
  }

  ghost predicate StsImage(steps: seq<Step>, tr: Trace, k: nat, cap: nat) {
    Shaped(tr, |steps|, k) && forall j :: 0 <= j < |steps| ==> StsImageAt(steps, tr, k, cap, j)
  }

  /**
    The queue runs a VOQ can follow: a packet leaves only if it was queued before the step, and an
    empty buffer is not offered more than its capacity.
   */
  ghost predicate LeafStep(steps: seq<Step>, cap: nat, j: nat)
    requires j < |steps|
  {
    && (steps[j].deq ==> Queue(steps, cap, j) != [])
    && (Queue(steps, cap, j) == [] ==> |steps[j].arrivals| <= cap)
  }

  ghost predicate LeafFifoRun(steps: seq<Step>, k: nat, cap: nat) {
    TypedRun(steps, k) && forall j :: 0 <= j < |steps| ==> LeafStep(steps, cap, j)
  }

  /** A contention point may also send a packet that has just arrived. */
  ghost predicate StsStep(steps: seq<Step>, cap: nat, j: nat)
    requires j < |steps|
  {
    steps[j].deq ==> Filled(steps, cap, j) != []
  }

  ghost predicate StsFifoRun(steps: seq<Step>, k: nat, cap: nat) {
    TypedRun(steps, k) && forall j :: 0 <= j < |steps| ==> StsStep(steps, cap, j)
  }

  lemma TypedParts(s: seq<nat>, n: nat, k: nat)
    requires Typed(s, k) && n <= |s|
    ensures Typed(s[..n], k) && Typed(s[n..], k)
  {
  }

  /** The counts of one queue step add up, and so do their totals. */
  lemma StepCounts(steps: seq<Step>, k: nat, cap: nat, j: nat)
    requires TypedRun(steps, k) && j < |steps|
    ensures CountOf(Filled(steps, cap, j), k)
            == Add(CountOf(Queue(steps, cap, j), k), CountOf(Admissions(steps, cap, j), k))
    ensures CountOf(Queue(steps, cap, j + 1), k)
            == Sub(CountOf(Filled(steps, cap, j), k), CountOf(Departed(steps, cap, j), k))
    ensures CountOf(steps[j].arrivals, k)
            == Add(CountOf(Admissions(steps, cap, j), k),
                 CountOf(Dropped(Queue(steps, cap, j), steps[j].arrivals, cap), k))
  {
    var q, adm, full := Queue(steps, cap, j), Admissions(steps, cap, j), Filled(steps, cap, j);
    CountOfConcat(q, adm, k);
    var gone := Departed(steps, cap, j);
    assert Queue(steps, cap, j + 1) == full[|gone|..] && gone == full[..|gone|];
    CountOfSplit(full, |gone|, k);
    assert adm == steps[j].arrivals[..|adm|];
    CountOfSplit(steps[j].arrivals, |adm|, k);
  }

  lemma StepTotals(steps: seq<Step>, k: nat, cap: nat, j: nat)
    requires TypedRun(steps, k) && j < |steps|
    ensures Sum(CountOf(Queue(steps, cap, j), k)) == |Queue(steps, cap, j)| <= cap
    ensures Sum(CountOf(Filled(steps, cap, j), k)) == |Filled(steps, cap, j)| <= cap
    ensures Sum(CountOf(Admissions(steps, cap, j), k)) == |Admissions(steps, cap, j)|
    ensures Sum(CountOf(Dropped(Queue(steps, cap, j), steps[j].arrivals, cap), k))
            == |Dropped(Queue(steps, cap, j), steps[j].arrivals, cap)|
  {
    QueueFits(steps, cap, k, j);
    var q, adm := Queue(steps, cap, j), Admissions(steps, cap, j);
    assert Typed(steps[j].arrivals, k);
    assert adm == steps[j].arrivals[..|adm|];
    TypedParts(steps[j].arrivals, |adm|, k);
    SumCountOf(q, k);
    SumCountOf(Filled(steps, cap, j), k);
    SumCountOf(adm, k);
    SumCountOf(Dropped(q, steps[j].arrivals, cap), k);
  }

  // ---------------------------------------------------------------- queue runs are count runs

  /** The backlog equation of one step, for vectors known to be the counts involved. */
  lemma QueueCounts(steps: seq<Step>, k: nat, cap: nat, j: nat, before: Vec, e: Vec, o: Vec, after: Vec)
    requires TypedRun(steps, k) && j < |steps|
    requires before == CountOf(Queue(steps, cap, j), k) && e == CountOf(Admissions(steps, cap, j), k)
    requires o == CountOf(Departed(steps, cap, j), k) && after == CountOf(Queue(steps, cap, j + 1), k)
    ensures after == Sub(Add(before, e), o)
  {
    StepCounts(steps, k, cap, j);
  }

  lemma QueueTotal(steps: seq<Step>, k: nat, cap: nat, j: nat, c: Vec)
    requires TypedRun(steps, k) && j <= |steps| && c == CountOf(Queue(steps, cap, j), k)
    ensures Sum(c) == |Queue(steps, cap, j)|
  {
    QueueFits(steps, cap, k, j);
    SumCountOf(Queue(steps, cap, j), k);
  }

  lemma LeafBacklogImage(steps: seq<Step>, tr: Trace, k: nat, cap: nat, j: nat)
    requires TypedRun(steps, k) && j < |steps| && LeafImageAt(steps, tr, k, cap, j)
    requires j > 0 ==> LeafImageAt(steps, tr, k, cap, j - 1)
    requires LeafBuffer.StepShaped(tr, k, j)
    ensures LeafBuffer.BacklogAt(tr, k, j)
  {
    QueueTotal(steps, k, cap, j, tr.c[j]);
    if j > 0 {
      QueueCounts(steps, k, cap, j - 1, tr.c[j - 1], tr.e[j - 1], tr.o[j - 1], tr.c[j]);
    }
  }

  lemma LeafRoomImage(steps: seq<Step>, tr: Trace, k: nat, cap: nat, j: nat)
    requires TypedRun(steps, k) && j < |steps| && LeafImageAt(steps, tr, k, cap, j) && LeafStep(steps, cap, j)
    requires LeafBuffer.StepShaped(tr, k, j)
    ensures LeafBuffer.EnqueueAt(tr, k, cap, j) && LeafBuffer.DropAt(tr, k, cap, j) && SplitAt(tr, k, j)
  {
    StepCounts(steps, k, cap, j);
    StepTotals(steps, k, cap, j);
    SumAdd(tr.e[j], tr.c[j]);
    SumAdd(tr.c[j], tr.e[j]);
  }

  lemma LeafImageStep(steps: seq<Step>, tr: Trace, k: nat, cap: nat, j: nat)
    requires LeafFifoRun(steps, k, cap) && LeafImage(steps, tr, k, cap) && j < |steps|
    ensures LeafBuffer.StepOk(tr, k, cap, j)
  {
    assert LeafImageAt(steps, tr, k, cap, j) && LeafStep(steps, cap, j);
    assert LeafBuffer.StepShaped(tr, k, j);
    assert j > 0 ==> LeafImageAt(steps, tr, k, cap, j - 1);
    LeafBacklogImage(steps, tr, k, cap, j);
    LeafRoomImage(steps, tr, k, cap, j);
  }

  lemma StsOfferedImage(steps: seq<Step>, tr: Trace, k: nat, cap: nat, j: nat)
    requires TypedRun(steps, k) && StsImage(steps, tr, k, cap) && j < |steps| && StsBuffer.StepShaped(tr, k, j)
    ensures StsBuffer.Offered(tr, k, j) == CountOf(Filled(steps, cap, j), k)
  {
    assert StsImageAt(steps, tr, k, cap, j);
    StepCounts(steps, k, cap, j);
    if j > 0 {
      assert StsImageAt(steps, tr, k, cap, j - 1);
    } else {
      CountOfNone(k);
    }
  }

  lemma StsImageStep(steps: seq<Step>, tr: Trace, k: nat, cap: nat, j: nat)
    requires StsFifoRun(steps, k, cap) && StsImage(steps, tr, k, cap) && j < |steps| && cap >= 1
    ensures StsBuffer.StepOk(tr, k, cap, j)
  {
    assert StsImageAt(steps, tr, k, cap, j);
    assert StsBuffer.StepShaped(tr, k, j);
    StsOfferedImage(steps, tr, k, cap, j);
    StepCounts(steps, k, cap, j);
    StepTotals(steps, k, cap, j);
  }

  // ---------------------------------------------------------------- the history behind a queue run

  /** Everything admitted before step j, oldest first. */
  function History(steps: seq<Step>, cap: nat, j: nat): seq<nat>
    requires j <= |steps|
  {
    if j == 0 then [] else History(steps, cap, j - 1) + Admissions(steps, cap, j - 1)
  }

  function DepartedCount(steps: seq<Step>, cap: nat, j: nat): nat
    requires j <= |steps|
  {
    if j == 0 then 0 else DepartedCount(steps, cap, j - 1) + |Departed(steps, cap, j - 1)|
  }

  lemma QueueAdvances(steps: seq<Step>, cap: nat, j: nat, h: seq<nat>, d: nat)
    requires j < |steps| && d <= |h| && Queue(steps, cap, j) == h[d..]
    ensures var gone, h' := Departed(steps, cap, j), h + Admissions(steps, cap, j);
            && d + |gone| <= |h'| && Queue(steps, cap, j + 1) == h'[d + |gone|..] && gone == h'[d..d + |gone|]
  {
    var gone := Departed(steps, cap, j);
    assert Filled(steps, cap, j) == h[d..] + Admissions(steps, cap, j);
  }

  /** The queue is the part of the history that has not departed. */
  lemma {:induction false} QueueOfHistory(steps: seq<Step>, cap: nat, j: nat)
    requires j <= |steps|
    ensures DepartedCount(steps, cap, j) <= |History(steps, cap, j)|
    ensures Queue(steps, cap, j) == History(steps, cap, j)[DepartedCount(steps, cap, j)..]
  {
    if j == 0 {
    } else {
      QueueOfHistory(steps, cap, j - 1);
      QueueAdvances(steps, cap, j - 1, History(steps, cap, j - 1), DepartedCount(steps, cap, j - 1));
    }
  }

  lemma {:induction false} HistoryPrefix(steps: seq<Step>, cap: nat, j: nat, m: nat)
    requires j <= m <= |steps|
    ensures |History(steps, cap, j)| <= |History(steps, cap, m)|
    ensures History(steps, cap, m)[..|History(steps, cap, j)|] == History(steps, cap, j)
  {
    if j < m {
      HistoryPrefix(steps, cap, j, m - 1);
    }
  }

  lemma {:induction false} HistoryTyped(steps: seq<Step>, k: nat, cap: nat, j: nat)
    requires TypedRun(steps, k) && j <= |steps|
    ensures Typed(History(steps, cap, j), k)
  {
    if j == 0 {
    } else {
      HistoryTyped(steps, k, cap, j - 1);
      assert Typed(steps[j - 1].arrivals, k);
    }
  }

  ghost predicate StartOk(s: seq<nat>, n: seq<nat>, d: seq<nat>, cap: nat, j: nat)
    requires j < |s| && j + 1 < |n| && j + 1 < |d|
  {
    s[j] == if j == 0 then 0 else NextStart(cap, s[j - 1], n[j + 1], d[j + 1])
  }

  /** The window starts for given pointers. */
  function Starts(n: seq<nat>, d: seq<nat>, cap: nat, m: nat): (s: seq<nat>)
    requires m < |n| && m < |d|
    ensures |s| == m
  {
    if m == 0 then
      []
    else
      var s := Starts(n, d, cap, m - 1);
      s + [if m == 1 then 0 else NextStart(cap, s[m - 2], n[m], d[m])]
  }

  lemma {:induction false} StartsOk(n: seq<nat>, d: seq<nat>, cap: nat, m: nat)
    requires m < |n| && m < |d|
    ensures forall j :: 0 <= j < m ==> StartOk(Starts(n, d, cap, m), n, d, cap, j)
  {
    if m == 0 {
    } else {
      StartsOk(n, d, cap, m - 1);
      forall j | 0 <= j < m
        ensures StartOk(Starts(n, d, cap, m), n, d, cap, j)
      {
        assert j < m - 1 ==> StartOk(Starts(n, d, cap, m - 1), n, d, cap, j);
      }
    }
  }

  /** Packets admitted and packets departed before each step, and at the end. */
  ghost function AdmittedCounts(steps: seq<Step>, cap: nat): (n: seq<nat>)
    ensures |n| == |steps| + 1 && forall j :: 0 <= j <= |steps| ==> n[j] == |History(steps, cap, j)|
  {
    seq(|steps| + 1, j requires 0 <= j <= |steps| => |History(steps, cap, j)|)
  }

  ghost function DepartedCounts(steps: seq<Step>, cap: nat): (d: seq<nat>)
    ensures |d| == |steps| + 1 && forall j :: 0 <= j <= |steps| ==> d[j] == DepartedCount(steps, cap, j)
  {
    seq(|steps| + 1, j requires 0 <= j <= |steps| => DepartedCount(steps, cap, j))
  }

  ghost function PointersOf(steps: seq<Step>, cap: nat): (p: Pointers)
    ensures |p.n| == |p.d| == |steps| + 1 && |p.s| == |steps|
  {
    var n, d := AdmittedCounts(steps, cap), DepartedCounts(steps, cap);
    Pointers(History(steps, cap, |steps|), n, d, Starts(n, d, cap, |steps|))
  }

  /** Admissions and departures of one step, as pieces of a history h that extends the step. */
  lemma StepPieces(steps: seq<Step>, k: nat, cap: nat, j: nat, h: seq<nat>)
    requires TypedRun(steps, k) && j < |steps|
    requires History(steps, cap, j + 1) <= h
    ensures var n, n' := |History(steps, cap, j)|, |History(steps, cap, j + 1)|;
            var d, d' := DepartedCount(steps, cap, j), DepartedCount(steps, cap, j + 1);
            && n <= n' <= |h| && n' <= d + cap && d <= d' <= d + 1 && d' <= n'
            && h[n..n'] == Admissions(steps, cap, j) && h[d..d'] == Departed(steps, cap, j)
  {
    QueueOfHistory(steps, cap, j);
    QueueFits(steps, cap, k, j);
    var hj, dj := History(steps, cap, j), DepartedCount(steps, cap, j);
    QueueAdvances(steps, cap, j, hj, dj);
    assert History(steps, cap, j + 1) == hj + Admissions(steps, cap, j);
    assert h[..|History(steps, cap, j + 1)|] == hj + Admissions(steps, cap, j);
  }

  ghost predicate PointerValues(steps: seq<Step>, cap: nat, p: Pointers, j: nat)
    requires j < |steps| && |p.n| == |p.d| == |steps| + 1 && |p.s| == |steps|
  {
    && p.h == History(steps, cap, |steps|)
    && p.n[j] == |History(steps, cap, j)| && p.n[j + 1] == |History(steps, cap, j + 1)|
    && p.d[j] == DepartedCount(steps, cap, j) && p.d[j + 1] == DepartedCount(steps, cap, j + 1)
    && StartOk(p.s, p.n, p.d, cap, j)
  }

  lemma PointersHaveValues(steps: seq<Step>, cap: nat, j: nat)
    requires j < |steps|
    ensures PointerValues(steps, cap, PointersOf(steps, cap), j)
  {
    var p := PointersOf(steps, cap);
    StartsOk(p.n, p.d, cap, |steps|);
    assert StartOk(p.s, p.n, p.d, cap, j);
  }

  lemma PointersAt(steps: seq<Step>, k: nat, cap: nat, p: Pointers, j: nat)
    requires TypedRun(steps, k) && j < |steps|
    requires |p.n| == |p.d| == |steps| + 1 && |p.s| == |steps| && PointerValues(steps, cap, p, j)
    ensures PointerStep(p, cap, j)
    ensures p.h[p.n[j]..p.n[j + 1]] == Admissions(steps, cap, j)
    ensures p.h[p.d[j]..p.d[j + 1]] == Departed(steps, cap, j)
  {
    HistoryPrefix(steps, cap, j + 1, |steps|);
    StepPieces(steps, k, cap, j, p.h);
  }

  lemma FirstDeparture(steps: seq<Step>, cap: nat)
    requires |steps| > 0
    ensures DepartedCount(steps, cap, 1) == |Departed(steps, cap, 0)|
  {
    assert DepartedCount(steps, cap, 0) == 0;
  }

  /** The pointers of a queue run in either timing; the first step must not fill a window. */
  lemma PointersFollow(steps: seq<Step>, tr: Trace, k: nat, cap: nat)
    requires TypedRun(steps, k) && forall j :: 0 <= j < |steps| ==> CommonAt(steps, tr, k, cap, j)
    requires |steps| > 0 ==> |Departed(steps, cap, 0)| < cap
    ensures PointerRun(PointersOf(steps, cap), |steps|, k, cap)
    ensures Follows(tr, PointersOf(steps, cap), |steps|, k)
  {
    var p := PointersOf(steps, cap);
    HistoryTyped(steps, k, cap, |steps|);
    forall j | 0 <= j < |steps|
      ensures PointerStep(p, cap, j) && FollowsAt(tr, p, k, j)
    {
      PointersHaveValues(steps, cap, j);
      PointersAt(steps, k, cap, p, j);
      assert CommonAt(steps, tr, k, cap, j);
    }
    if |steps| > 0 {
      FirstDeparture(steps, cap);
    }
  }

  // ---------------------------------------------------------------- main results

  lemma ImageCounts(steps: seq<Step>, tr: Trace, k: nat, cap: nat)
    requires LeafImage(steps, tr, k, cap) || StsImage(steps, tr, k, cap)
    ensures Counts(tr)
  {
    forall j | 0 <= j < |steps|
      ensures NonNegative(tr.i[j]) && NonNegative(tr.e[j]) && NonNegative(tr.d[j]) && NonNegative(tr.o[j])
      ensures NonNegative(tr.c[j])
    {
      assert LeafImageAt(steps, tr, k, cap, j) || StsImageAt(steps, tr, k, cap, j);
    }
  }

  lemma LeafCommon(steps: seq<Step>, tr: Trace, k: nat, cap: nat)
    requires LeafFifoRun(steps, k, cap) && LeafImage(steps, tr, k, cap)
    ensures forall j :: 0 <= j < |steps| ==> CommonAt(steps, tr, k, cap, j)
    ensures |steps| > 0 ==> Departed(steps, cap, 0) == []
  {
    forall j | 0 <= j < |steps|
      ensures CommonAt(steps, tr, k, cap, j)
    {
      assert LeafImageAt(steps, tr, k, cap, j);
    }
    assert |steps| > 0 ==> LeafStep(steps, cap, 0);
  }

  lemma StsCommon(steps: seq<Step>, tr: Trace, k: nat, cap: nat)
    requires StsImage(steps, tr, k, cap)
    ensures forall j :: 0 <= j < |steps| ==> CommonAt(steps, tr, k, cap, j)
  {
    forall j | 0 <= j < |steps|
      ensures CommonAt(steps, tr, k, cap, j)
    {
      assert StsImageAt(steps, tr, k, cap, j);
    }
  }

  /**
    Every run of a FIFO queue is a run of the VOQ relation: the counts satisfy the backlog, enqueue,
    drop and split constraints, and there are window variables in range that satisfy winds.
   */
  lemma QueueRunIsLeafRun(steps: seq<Step>, tr: Trace, k: nat, cap: nat) returns (w: LeafBuffer.Windows)
    requires LeafFifoRun(steps, k, cap) && LeafImage(steps, tr, k, cap) && cap >= 1
    ensures LeafBuffer.BufferRun(tr, |steps|, k, cap)
    ensures LeafBuffer.WindowRun(tr, w, |steps|, k, cap)
  {
    forall j | 0 <= j < |steps|
      ensures LeafBuffer.StepOk(tr, k, cap, j)
    {
      LeafImageStep(steps, tr, k, cap, j);
    }
    ImageCounts(steps, tr, k, cap);
    LeafCommon(steps, tr, k, cap);
    PointersFollow(steps, tr, k, cap);
    w := WindowsOf(PointersOf(steps, cap), |steps|, k, cap);
    WindowsExist(tr, PointersOf(steps, cap), |steps|, k, cap);
  }

  /** Every run of a FIFO queue is a run of the contention-point relation. */
  lemma QueueRunIsStsRun(steps: seq<Step>, tr: Trace, k: nat, cap: nat)
    requires StsFifoRun(steps, k, cap) && StsImage(steps, tr, k, cap) && cap >= 1
    ensures StsBuffer.BufferRun(tr, |steps|, k, cap)
  {
    forall j | 0 <= j < |steps|
      ensures StsBuffer.StepOk(tr, k, cap, j)
    {
      StsImageStep(steps, tr, k, cap, j);
    }
    ImageCounts(steps, tr, k, cap);
  }

  lemma PartsWithin(a: Vec, b: Vec, upper: int)
    requires |a| == |b| && NonNegative(a) && NonNegative(b) && Within(Add(a, b), upper)
    ensures Within(a, upper) && Within(b, upper)
  {
    forall t | 0 <= t < |a|
      ensures a[t] <= upper && b[t] <= upper
    {
      assert Add(a, b)[t] <= upper;
    }
  }

  lemma CountOfOne(s: seq<nat>, k: nat)
    requires |s| <= 1
    ensures Within(CountOf(s, k), 1)
  {
    assert s == [] || s == [s[0]];
  }

  /** The counts also stay in the ranges given to the solver when the arrivals per type do. */
  lemma QueueStepInRange(steps: seq<Step>, tr: Trace, k: nat, cap: nat, maxIn: int, maxEnq: int, j: nat)
    requires TypedRun(steps, k) && j < |steps| && LeafImageAt(steps, tr, k, cap, j)
    requires Within(tr.i[j], maxIn) && Within(tr.i[j], maxEnq)
    ensures Within(tr.e[j], maxEnq) && Within(tr.d[j], maxEnq) && Within(tr.o[j], 1) && Within(tr.c[j], cap)
  {
    StepCounts(steps, k, cap, j);
    PartsWithin(tr.e[j], tr.d[j], maxEnq);
    CountOfOne(Departed(steps, cap, j), k);
    StepTotals(steps, k, cap, j);
    SumOfCounts(tr.c[j]);
  }

  lemma QueueRunInRange(steps: seq<Step>, tr: Trace, k: nat, cap: nat, maxIn: int, maxEnq: int, maxDeq: int)
    requires TypedRun(steps, k) && LeafImage(steps, tr, k, cap) && maxDeq >= 1
    requires AllWithin(tr.i, maxIn) && AllWithin(tr.i, maxEnq)
    ensures Bounded(tr, maxIn, maxEnq, maxDeq, cap)
  {
    forall j | 0 <= j < |steps|
      ensures Within(tr.e[j], maxEnq) && Within(tr.d[j], maxEnq) && Within(tr.o[j], maxDeq) && Within(tr.c[j], cap)
    {
      assert LeafImageAt(steps, tr, k, cap, j);
      QueueStepInRange(steps, tr, k, cap, maxIn, maxEnq, j);
    }
  }
}
