/** Which inputs a run of the rate limiter can take next, under everything its base class imposes. */
module RateLimiterSteps {
  import opened CountVectors
  import opened BufferTrace
  import opened StsBuffer
  import opened RateLimiter
  import opened StsSteps
  import opened SplitRanges
  import opened WindowTotals
  import S = StsWindows
  import L = LeafBuffer

  /** Capacity, the upper ends of the ranges of I, of E and D, and of O, and whether windows are used. */
  datatype Limits = Limits(cap: nat, maxIn: nat, me: nat, md: nat, useWin: bool)

  /** The constraints of RateLimiter and STSChecker on its one buffer, ranges included. */
  ghost predicate FullRun(tr: Trace, s: seq<int>, w: L.Windows, steps: nat, k: nat, lim: Limits) {
    && Run(tr, s, steps, k, lim.cap)
    && Bounded(tr, lim.maxIn, lim.me, lim.md, lim.cap)
    && (lim.useWin ==> S.WindowRun(tr, w, steps, k, lim.cap))
  }

  ghost predicate ContinuesBy(tr: Trace, s: seq<int>, steps: nat, k: nat, lim: Limits, v: Column, sp: int,
                              w: L.Windows) {
    FullRun(Extend(tr, v), s + [sp], w, steps + 1, k, lim)
  }

  /** One more step with the given input is possible, for some values of all other variables. */
  ghost predicate CanContinue(tr: Trace, s: seq<int>, steps: nat, k: nat, lim: Limits, input: Vec) {
    exists v: Column, sp, w :: v.i == input && ContinuesBy(tr, s, steps, k, lim, v, sp, w)
  }

  // ---------------------------------------------------------------- the condition

  /** How many packets tail drop admits. */
  function Room(last: Vec, input: Vec, cap: int): int {
    Min(Sum(input), cap - Sum(last))
  }

  /** The step sends a packet: the bit was 0 and something can be sent. */
  predicate Sends(bit: int, last: Vec, m: int) {
    bit == 0 && Sum(last) + m > 0
  }

  /** The windows still hold a packet to send, and with capacity 1 the first one can open. */
  predicate WindowsAllow(tr: Trace, bit: int, steps: nat, cap: int, last: Vec, m: int)
    requires 0 < steps <= |tr.e| && steps <= |tr.o|
  {
    && (Sends(bit, last, m) && m == 0 ==> TallyAt(tr, cap, steps - 1).lost < Sum(last))
    && (cap == 1 && steps == 1 ==> bit == 0)
  }

  predicate MayContinue(tr: Trace, bit: int, steps: nat, lim: Limits, last: Vec, input: Vec)
    requires 0 < steps <= |tr.e| && steps <= |tr.o|
  {
    var m := Room(last, input, lim.cap);
    && Splits(input, lim.me, m)
    && (bit == 1 ==> Sum(last) + Sum(input) > 0)
    && (Sends(bit, last, m) ==> lim.md >= 1)
    && (lim.useWin ==> WindowsAllow(tr, bit, steps, lim.cap, last, m))
  }

  // ---------------------------------------------------------------- the condition is necessary

  /** The tally of the steps before is not changed by a further step. */
  lemma {:induction false} TallyKept(tr: Trace, v: Column, cap: int, j: nat)
    requires j < |tr.e| && j < |tr.o|
    ensures TallyAt(Extend(tr, v), cap, j) == TallyAt(tr, cap, j)
  {
    assert Extend(tr, v).e[j] == tr.e[j] && Extend(tr, v).o[j] == tr.o[j];
    if j == 0 {
    } else {
      TallyKept(tr, v, cap, j - 1);
    }
  }

  /** Facts about the new step of an extended run. */
  lemma NewStep(tr: Trace, s: seq<int>, v: Column, sp: int, steps: nat, k: nat, cap: int)
    requires Run(tr, s, steps, k, cap) && steps > 0 && cap >= 1
    requires Run(Extend(tr, v), s + [sp], steps + 1, k, cap)
    ensures var last := tr.c[steps - 1];
            && Sum(last) >= 0 && Sum(v.e) == Room(last, v.i, cap) && |v.i| == |v.e| == |v.d| == k
            && v.i == Add(v.e, v.d)
            && Sum(v.c) == Sum(last) + Sum(v.e) - Sum(v.o) >= 0
            && (s[steps - 1] == 1 ==> Sum(last) + Sum(v.i) > 0)
            && Sum(v.o) == sp && (sp == 0 || sp == 1) && (Sends(s[steps - 1], last, Sum(v.e)) ==> sp == 1)
  {
    var x, z := Extend(tr, v), s + [sp];
    LastKept(tr, v, steps, k);
    RunStep(x, steps + 1, k, cap, steps);
    RunTailDrop(x, steps + 1, k, cap, steps);
    assert StepOk(x, k, cap, steps) && ControlAt(x, z, steps);
    assert z[steps - 1] == s[steps - 1] && z[steps] == sp && Before(x, k, steps) == tr.c[steps - 1];
    StateIsBit(x, z, steps + 1, k, cap, steps);
    StateIsBit(tr, s, steps, k, cap, steps - 1);
    if s[steps - 1] == 1 {
      OutputLeavesBacklog(x, z, steps + 1, k, cap, steps - 1);
    }
  }

  /** With capacity 1 a first packet leaves an empty buffer. */
  lemma FirstStepSends(tr: Trace, s: seq<int>, steps: nat, k: nat)
    requires Run(tr, s, steps, k, 1) && steps > 0
    ensures s[0] == 1 ==> Sum(tr.c[0]) == 0
  {
    StateIsBit(tr, s, steps, k, 1, 0);
    RunStep(tr, steps, k, 1, 0);
  }

  lemma WindowsAllowed(tr: Trace, s: seq<int>, v: Column, sp: int, w: L.Windows, steps: nat, k: nat, cap: int)
    requires Run(tr, s, steps, k, cap) && steps > 0 && cap >= 1
    requires Run(Extend(tr, v), s + [sp], steps + 1, k, cap) && S.WindowRun(Extend(tr, v), w, steps + 1, k, cap)
    ensures WindowsAllow(tr, s[steps - 1], steps, cap, tr.c[steps - 1], Room(tr.c[steps - 1], v.i, cap))
  {
    var x := Extend(tr, v);
    NewStep(tr, s, v, sp, steps, k, cap);
    LastKept(tr, v, steps, k);
    WindowsRemember(x, w, steps + 1, k, cap);
    assert TallyAt(x, cap, steps).lost <= Sum(x.c[steps]);
    TallyGrows(x, steps + 1, k, cap, steps);
    TallyKept(tr, v, cap, steps - 1);
    StateIsBit(tr, s, steps, k, cap, steps - 1);
    if cap == 1 && steps == 1 {
      FirstStepSends(tr, s, steps, k);
    }
  }

  lemma PositiveComponent(v: Vec)
    requires Sum(v) > 0
    ensures exists t :: 0 <= t < |v| && v[t] > 0
  {
    if forall t :: 0 <= t < |v| ==> v[t] <= 0 {
      SumMonotone(v, Zero(|v|));
      SumZero(|v|);
    }
  }

  lemma ConditionNeeded(tr: Trace, s: seq<int>, v: Column, sp: int, w: L.Windows, steps: nat, k: nat, lim: Limits)
    requires Run(tr, s, steps, k, lim.cap) && steps > 0 && lim.cap >= 1
    requires FullRun(Extend(tr, v), s + [sp], w, steps + 1, k, lim)
    ensures MayContinue(tr, s[steps - 1], steps, lim, tr.c[steps - 1], v.i)
  {
    NewStep(tr, s, v, sp, steps, k, lim.cap);
    LastKept(tr, v, steps, k);
    var x := Extend(tr, v);
    assert Within(x.e[steps], lim.me) && Within(x.d[steps], lim.me) && Within(x.o[steps], lim.md);
    SplitsWhen(v.i, v.e, v.d, lim.me);
    if Sends(s[steps - 1], tr.c[steps - 1], Sum(v.e)) {
      PositiveComponent(v.o);
    }
    if lim.useWin {
      WindowsAllowed(tr, s, v, sp, w, steps, k, lim.cap);
    }
  }

  // ---------------------------------------------------------------- the condition is sufficient

  /** The windows after one more step: what they hold, and the packet that leaves. */
  ghost predicate GoodStep(x: L.Window, e: Vec, o: Vec, offered: Vec, sp: int, se: Vec, sn: Vec, y: L.Window, k: nat,
                           cap: int) {
    && L.WindowOf(x, k) && L.WindowOf(y, k) && |e| == |o| == |offered| == |se| == |sn| == k
    && S.ForgetfulStep(x, e, o, se, sn, y, k, cap)
    && Within(y.enq, cap) && Within(y.nxt, cap) && Within(y.out, cap) && Within(se, cap) && Within(sn, cap)
    && Within(o, 1) && Sum(o) == sp && LeV(o, offered)
  }

  lemma ClosedParts(se: Vec, sn: Vec, k: nat)
    requires |se| == |sn| == k
    ensures Add(Zero(k), sn) == sn && Sub(se, se) == Zero(k) && Sum(Zero(k)) == 0
  {
    SumZero(k);
  }

  /** A window that gets se and has sent to closes exactly when to is all of it. */
  lemma StepFromSplit(x: L.Window, e: Vec, o: Vec, se: Vec, sn: Vec, k: nat, cap: int) returns (y: L.Window)
    requires L.WindowOf(x, k) && |e| == |o| == |se| == |sn| == k && cap >= 1
    requires Add(x.enq, e) == Add(se, sn) && LeV(x.enq, se) && LeV(Add(x.out, o), se)
    requires NonNegative(x.enq) && NonNegative(x.nxt) && NonNegative(x.out) && NonNegative(o) && NonNegative(sn)
    requires Sum(se) <= cap && Sum(sn) <= cap - 1 && (Sum(sn) > 0 ==> Sum(se) == cap) && Sum(x.nxt) + Sum(sn) < cap
    ensures L.WindowOf(y, k) && S.ForgetfulStep(x, e, o, se, sn, y, k, cap)
    ensures Within(y.enq, cap) && Within(y.nxt, cap) && Within(y.out, cap) && Within(se, cap) && Within(sn, cap)
  {
    var to := Add(x.out, o);
    SumMonotone(to, se);
    SumOfCounts(se);
    SumOfCounts(sn);
    SumOfCounts(to);
    if L.Closes(se, to) {
      assert to == se;
      y := L.Window(sn, Zero(k), Zero(k));
      ClosedParts(se, sn, k);
    } else {
      y := L.Window(se, Add(x.nxt, sn), to);
      SumAdd(x.nxt, sn);
      SumOfCounts(Add(x.nxt, sn));
    }
  }

  /** Any part of the enqueues that fills the window will do. */
  lemma SplitEnqueues(enq: Vec, e: Vec, n: nat, k: nat) returns (se: Vec, sn: Vec)
    requires |enq| == |e| == k && NonNegative(e) && n <= Sum(e)
    ensures |se| == |sn| == k && Add(enq, e) == Add(se, sn) && LeV(enq, se) && NonNegative(sn)
    ensures Sum(se) == Sum(enq) + n && Sum(sn) == Sum(e) - n
    ensures forall t :: 0 <= t < k ==> se[t] <= enq[t] + e[t]
  {
    var part := TakeCounts(e, n);
    se, sn := Add(enq, part), Sub(e, part);
    SumAdd(enq, part);
    SumSub(e, part);
  }

  lemma RoomInWindow(x: Tally, e: int, o: int, cap: int)
    requires Ready(x, cap) && cap >= 1 && e >= 0 && 0 <= o <= 1 && x.enq + x.nxt - x.out + e <= cap
    requires x.out == x.enq && e == 0 ==> o == 0
    ensures var n := FilledTo(x, e, cap) - x.enq;
            && 0 <= n <= e && x.enq + n <= cap && e - n <= cap - 1 && (e - n > 0 ==> x.enq + n == cap)
            && x.nxt + (e - n) < cap && (o == 1 ==> x.out < x.enq + n)
  {
    ReadyStep(x, e, o, cap);
  }

  lemma ChooseWindows(x: L.Window, last: Vec, e: Vec, sp: int, lost: int, k: nat, cap: int)
    returns (o: Vec, se: Vec, sn: Vec, y: L.Window)
    requires L.WindowOf(x, k) && |last| == |e| == k && NonNegative(last) && NonNegative(e) && 0 <= sp <= 1 && cap >= 1
    requires NonNegative(x.enq) && NonNegative(x.nxt) && NonNegative(x.out) && LeV(x.out, x.enq)
    requires LeV(L.Held(x, k), last)
    requires Ready(SizeOf(x, lost), cap)
    requires Sum(x.enq) + Sum(x.nxt) - Sum(x.out) + Sum(e) <= cap
    requires Sum(x.out) == Sum(x.enq) && Sum(e) == 0 ==> sp == 0
    ensures GoodStep(x, e, o, Add(last, e), sp, se, sn, y, k, cap)
  {
    SumOfCounts(e);
    RoomInWindow(SizeOf(x, lost), Sum(e), sp, cap);
    se, sn := SplitEnqueues(x.enq, e, FilledTo(SizeOf(x, lost), Sum(e), cap) - Sum(x.enq), k);
    forall t | 0 <= t < k && x.out[t] < se[t]
      ensures Add(last, e)[t] > 0
    {
      assert L.Held(x, k)[t] <= last[t];
    }
    o := ChooseOutput(x.out, se, Add(last, e), sp, k);
    y := StepFromSplit(x, e, o, se, sn, k, cap);
  }

  // ---------------------------------------------------------------- putting the step together

  lemma ExtendedControl(tr: Trace, s: seq<int>, steps: nat, k: nat, cap: int, v: Column, sp: int)
    requires Run(tr, s, steps, k, cap) && BufferRun(Extend(tr, v), steps + 1, k, cap)
    requires Out(sp, v.o) && if steps == 0 then Init(v.b, sp) else Trs(s[steps - 1], v.b, sp)
    ensures Run(Extend(tr, v), s + [sp], steps + 1, k, cap)
  {
    var x, z := Extend(tr, v), s + [sp];
    LastKept(tr, v, steps, k);
    forall t | 0 <= t < steps + 1
      ensures ControlAt(x, z, t)
    {
      if t < steps {
        assert ControlAt(tr, s, t) && x.b[t] == tr.b[t] && x.o[t] == tr.o[t];
      }
    }
  }

  lemma ExtendedRanges(tr: Trace, v: Column, lim: Limits)
    requires Bounded(tr, lim.maxIn, lim.me, lim.md, lim.cap)
    requires Within(v.i, lim.maxIn) && Within(v.e, lim.me) && Within(v.d, lim.me) && Within(v.o, lim.md)
    requires Within(v.c, lim.cap)
    ensures Bounded(Extend(tr, v), lim.maxIn, lim.me, lim.md, lim.cap)
  {
    ExtendedWithin(tr.i, v.i, lim.maxIn);
    ExtendedWithin(tr.e, v.e, lim.me);
    ExtendedWithin(tr.d, v.d, lim.me);
    ExtendedWithin(tr.o, v.o, lim.md);
    ExtendedWithin(tr.c, v.c, lim.cap);
  }

  function AddWindow(w: L.Windows, se: Vec, sn: Vec, y: L.Window): L.Windows {
    L.Windows(w.enq + [y.enq], w.nxt + [y.nxt], w.out + [y.out], w.tmpEnq + [se], w.tmpNxt + [sn])
  }

  lemma OldWindow(tr: Trace, v: Column, w: L.Windows, se: Vec, sn: Vec, y: L.Window, steps: nat, k: nat, cap: int,
                  j: nat)
    requires L.WindowShaped(w, steps, k) && j < steps && S.WindowStepOk(tr, w, k, cap, j)
    ensures S.WindowStepOk(Extend(tr, v), AddWindow(w, se, sn, y), k, cap, j)
  {
    var x, z := Extend(tr, v), AddWindow(w, se, sn, y);
    assert z.enq[j] == w.enq[j] && z.nxt[j] == w.nxt[j] && z.out[j] == w.out[j] && z.tmpEnq[j] == w.tmpEnq[j]
           && z.tmpNxt[j] == w.tmpNxt[j];
    assert x.e[j] == tr.e[j] && x.o[j] == tr.o[j];
    if j > 0 {
      assert L.At(z, j - 1) == L.At(w, j - 1) && L.At(z, j) == L.At(w, j);
    }
  }

  lemma NewWindow(tr: Trace, v: Column, w: L.Windows, se: Vec, sn: Vec, y: L.Window, steps: nat, k: nat, cap: int)
    requires Shaped(tr, steps, k) && L.WindowShaped(w, steps, k) && steps > 0
    requires |v.e| == |v.o| == |se| == |sn| == k && L.WindowOf(y, k)
    requires S.ForgetfulStep(L.At(w, steps - 1), v.e, v.o, se, sn, y, k, cap)
    ensures S.WindowStepOk(Extend(tr, v), AddWindow(w, se, sn, y), k, cap, steps)
  {
    var x, z := Extend(tr, v), AddWindow(w, se, sn, y);
    assert L.At(z, steps - 1) == L.At(w, steps - 1) && L.At(z, steps) == y;
    assert x.e[steps] == v.e && x.o[steps] == v.o && z.tmpEnq[steps] == se && z.tmpNxt[steps] == sn;
    assert |z.enq[steps - 1]| == k && |z.nxt[steps - 1]| == k && |z.out[steps - 1]| == k;
  }

  lemma ExtendedWindows(tr: Trace, v: Column, w: L.Windows, se: Vec, sn: Vec, y: L.Window, offered: Vec, sp: int,
                        steps: nat, k: nat, cap: int)
    requires Shaped(tr, steps, k) && S.WindowRun(tr, w, steps, k, cap) && steps > 0
    requires |v.e| == |v.o| == k && |w.enq| == |w.nxt| == |w.out| == steps
    requires GoodStep(L.At(w, steps - 1), v.e, v.o, offered, sp, se, sn, y, k, cap)
    ensures S.WindowRun(Extend(tr, v), AddWindow(w, se, sn, y), steps + 1, k, cap)
  {
    NewWindow(tr, v, w, se, sn, y, steps, k, cap);
    forall j | 0 <= j < steps + 1
      ensures S.WindowStepOk(Extend(tr, v), AddWindow(w, se, sn, y), k, cap, j)
    {
      if j < steps {
        OldWindow(tr, v, w, se, sn, y, steps, k, cap, j);
      }
    }
    ExtendedWithin(w.enq, y.enq, cap);
    ExtendedWithin(w.nxt, y.nxt, cap);
    ExtendedWithin(w.out, y.out, cap);
    ExtendedWithin(w.tmpEnq, se, cap);
    ExtendedWithin(w.tmpNxt, sn, cap);
  }

  lemma SingleOutputs(tr: Trace, s: seq<int>, steps: nat, k: nat, cap: int)
    requires Run(tr, s, steps, k, cap)
    ensures OneAtATime(tr, steps)
  {
    forall j | 0 <= j < steps
      ensures Sum(tr.o[j]) <= 1
    {
      StateIsBit(tr, s, steps, k, cap, j);
    }
  }

  lemma LastReady(tr: Trace, s: seq<int>, steps: nat, k: nat, cap: int)
    requires Run(tr, s, steps, k, cap) && OneAtATime(tr, steps) && steps > 0 && cap >= 1
    requires Remembered(tr, steps, cap) && FirstWindowOpens(tr, steps, cap)
    requires cap == 1 && steps == 1 ==> s[steps - 1] == 0
    ensures Ready(TallyAt(tr, cap, steps - 1), cap)
  {
    TallyReady(tr, steps, k, cap, steps - 1);
    StateIsBit(tr, s, steps, k, cap, 0);
  }

  /** What the windows of a run hold after its last step. */
  lemma LastSizes(tr: Trace, s: seq<int>, w: L.Windows, steps: nat, k: nat, cap: int)
    requires Run(tr, s, steps, k, cap) && S.WindowRun(tr, w, steps, k, cap) && steps > 0 && cap >= 1
    requires cap == 1 && steps == 1 ==> s[steps - 1] == 0
    ensures L.WindowStepShaped(tr, w, k, steps - 1)
    ensures var x, lost := L.At(w, steps - 1), TallyAt(tr, cap, steps - 1).lost;
            && Ready(SizeOf(x, lost), cap)
            && Sum(x.enq) + Sum(x.nxt) - Sum(x.out) + lost == Sum(tr.c[steps - 1])
  {
    SingleOutputs(tr, s, steps, k, cap);
    WindowsRemember(tr, w, steps, k, cap);
    SizesDetermined(tr, w, steps, k, cap, steps - 1);
    LastReady(tr, s, steps, k, cap);
    TallyBalance(tr, steps, k, cap, steps - 1);
  }

  lemma LastWindow(tr: Trace, w: L.Windows, steps: nat, k: nat, cap: int)
    requires BufferRun(tr, steps, k, cap) && S.WindowRun(tr, w, steps, k, cap) && steps > 0
    ensures L.WindowStepShaped(tr, w, k, steps - 1)
    ensures var x := L.At(w, steps - 1);
            && NonNegative(x.enq) && NonNegative(x.nxt) && NonNegative(x.out)
            && LeV(x.out, x.enq) && LeV(L.Held(x, k), tr.c[steps - 1])
  {
    var j := steps - 1;
    assert S.WindowStepOk(tr, w, k, cap, j) && StepOk(tr, k, cap, j);
    S.AccountsExactly(tr, w, steps, k, cap, j);
    assert Within(w.enq[j], cap) && Within(w.nxt[j], cap) && Within(w.out[j], cap);
    if j == 0 {
      OfferedAtStart(tr, k);
      forall t | 0 <= t < k
        ensures tr.o[0][t] <= tr.e[0][t]
      {
        assert tr.c[0][t] >= 0;
      }
    }
  }

  /** The output, and the windows when they are used. */
  lemma ChooseSent(tr: Trace, s: seq<int>, w: L.Windows, steps: nat, k: nat, lim: Limits, e: Vec, sp: int)
    returns (o: Vec, se: Vec, sn: Vec, y: L.Window)
    requires Run(tr, s, steps, k, lim.cap) && (lim.useWin ==> S.WindowRun(tr, w, steps, k, lim.cap))
    requires steps > 0 && lim.cap >= 1 && |e| == k && NonNegative(e) && 0 <= sp <= 1
    requires Sum(tr.c[steps - 1]) + Sum(e) <= lim.cap && (sp == 1 ==> Sum(tr.c[steps - 1]) + Sum(e) > 0)
    requires lim.useWin && sp == 1 && Sum(e) == 0 ==> TallyAt(tr, lim.cap, steps - 1).lost < Sum(tr.c[steps - 1])
    requires lim.useWin && lim.cap == 1 && steps == 1 ==> s[steps - 1] == 0
    ensures |o| == k && Within(o, 1) && Sum(o) == sp && LeV(o, Add(tr.c[steps - 1], e))
    ensures lim.useWin ==> L.WindowStepShaped(tr, w, k, steps - 1)
                           && GoodStep(L.At(w, steps - 1), e, o, Add(tr.c[steps - 1], e), sp, se, sn, y, k, lim.cap)
  {
    var last := tr.c[steps - 1];
    if lim.useWin {
      LastSizes(tr, s, w, steps, k, lim.cap);
      LastWindow(tr, w, steps, k, lim.cap);
      o, se, sn, y := ChooseWindows(L.At(w, steps - 1), last, e, sp, TallyAt(tr, lim.cap, steps - 1).lost, k, lim.cap);
    } else {
      se, sn, y := [], [], L.Window([], [], []);
      o := ChooseAny(last, e, sp, k);
    }
  }

  lemma RangesOfStep(v: Column, lim: Limits, sp: int)
    requires Within(v.o, 1) && Sum(v.o) == sp && (sp == 1 ==> lim.md >= 1) && 0 <= sp <= 1
    ensures Within(v.o, lim.md)
  {
    SumOfCounts(v.o);
  }

  lemma ConditionEnough(tr: Trace, s: seq<int>, w: L.Windows, steps: nat, k: nat, lim: Limits, input: Vec)
    requires FullRun(tr, s, w, steps, k, lim) && steps > 0 && lim.cap >= 1 && |input| == k && Within(input, lim.maxIn)
    requires MayContinue(tr, s[steps - 1], steps, lim, tr.c[steps - 1], input)
    ensures CanContinue(tr, s, steps, k, lim, input)
  {
    var last, bit := tr.c[steps - 1], s[steps - 1];
    var m := Room(last, input, lim.cap);
    StateIsBit(tr, s, steps, k, lim.cap, steps - 1);
    RunStep(tr, steps, k, lim.cap, steps - 1);
    SumOfCounts(input);
    SumOfCounts(last);
    var e, d := ChooseSplit(input, lim.me, m);
    SumAdd(e, d);
    var sp := if Sum(last) + m > 0 then 1 - bit else bit;
    var o, se, sn, y := ChooseSent(tr, s, w, steps, k, lim, e, sp);
    ColumnOk(last, e, o, lim.cap, k);
    var v := Column(input, e, d, o, Sub(Add(last, e), o), Sum(Add(last, e)) > 0);
    NewStepOk(tr, steps, k, lim.cap, v);
    ExtendedBuffer(tr, steps, k, lim.cap, v);
    ExtendedControl(tr, s, steps, k, lim.cap, v, sp);
    RangesOfStep(v, lim, sp);
    ExtendedRanges(tr, v, lim);
    if lim.useWin {
      ExtendedWindows(tr, v, w, se, sn, y, Add(last, e), sp, steps, k, lim.cap);
    }
    assert ContinuesBy(tr, s, steps, k, lim, v, sp, AddWindow(w, se, sn, y));
  }

  /**
    The relation is not total.  Under all constraints of the class, with or without windows, for any packet
    types, a run can take a further step with a given input exactly when the input splits into enqueues and
    drops within me, a packet is there if the last step sent one, a packet may be sent if one must be, and the
    windows have not forgotten the whole backlog when a packet must be sent and none is enqueued.
   */
  lemma ContinuesExactlyWhen(tr: Trace, s: seq<int>, w: L.Windows, steps: nat, k: nat, lim: Limits, input: Vec)
    requires FullRun(tr, s, w, steps, k, lim) && steps > 0 && lim.cap >= 1 && |input| == k && Within(input, lim.maxIn)
    ensures CanContinue(tr, s, steps, k, lim, input)
            <==> MayContinue(tr, s[steps - 1], steps, lim, tr.c[steps - 1], input)
  {
    if v: Column, sp, z :| v.i == input && ContinuesBy(tr, s, steps, k, lim, v, sp, z) {
      ConditionNeeded(tr, s, v, sp, z, steps, k, lim);
    }
    if MayContinue(tr, s[steps - 1], steps, lim, tr.c[steps - 1], input) {
      ConditionEnough(tr, s, w, steps, k, lim, input);
    }
  }

  // ---------------------------------------------------------------- the first step

  /** The first input splits at the number that tail drop admits, and a packet may be sent if there is one. */
  predicate MayStart(lim: Limits, input: Vec) {
    var m := Min(Sum(input), lim.cap);
    && Splits(input, lim.me, m)
    && (lim.cap == 0 ==> Sum(input) == 0)
    && (m > 0 ==> lim.md >= 1)
  }

  /** Facts about the first step of a run. */
  lemma FirstStep(tr: Trace, s: seq<int>, steps: nat, k: nat, cap: nat)
    requires Run(tr, s, steps, k, cap) && steps > 0
    ensures |tr.i[0]| == |tr.e[0]| == |tr.d[0]| == |tr.o[0]| == |tr.c[0]| == k && tr.i[0] == Add(tr.e[0], tr.d[0])
    ensures Sum(tr.e[0]) == Min(Sum(tr.i[0]), cap) && (cap == 0 ==> Sum(tr.i[0]) == 0)
    ensures Sum(tr.o[0]) == if Sum(tr.e[0]) > 0 then 1 else 0
  {
    RunStep(tr, steps, k, cap, 0);
    SumZero(k);
    assert StepOk(tr, k, cap, 0);
    FirstOutput(tr, s, steps, k, cap);
    if cap > 0 {
      RunTailDrop(tr, steps, k, cap, 0);
    }
  }

  lemma StartNeeded(tr: Trace, s: seq<int>, w: L.Windows, k: nat, lim: Limits)
    requires FullRun(tr, s, w, 1, k, lim)
    ensures MayStart(lim, tr.i[0])
  {
    FirstStep(tr, s, 1, k, lim.cap);
    assert Within(tr.e[0], lim.me) && Within(tr.d[0], lim.me) && Within(tr.o[0], lim.md);
    SplitsWhen(tr.i[0], tr.e[0], tr.d[0], lim.me);
    if Sum(tr.e[0]) > 0 {
      PositiveComponent(tr.o[0]);
    }
  }

  /** The windows after a first step. */
  function FirstWindows(e: Vec, o: Vec, k: nat): L.Windows {
    L.Windows([e], [Zero(k)], [o], [Zero(k)], [Zero(k)])
  }

  lemma FirstWindowsOk(tr: Trace, e: Vec, o: Vec, k: nat, cap: nat)
    requires Shaped(tr, 1, k) && tr.e[0] == e && tr.o[0] == o && |e| == |o| == k && Within(e, cap) && Within(o, cap)
    ensures S.WindowRun(tr, FirstWindows(e, o, k), 1, k, cap)
  {
    SumZero(k);
    var w := FirstWindows(e, o, k);
    forall j | 0 <= j < 1
      ensures S.WindowStepOk(tr, w, k, cap, j)
    {
    }
  }

  /** Without a backlog. */
  lemma AddToNothing(e: Vec, k: nat)
    requires |e| == k
    ensures Add(Zero(k), e) == e && Sum(Zero(k)) == 0 && NonNegative(Zero(k))
  {
    SumZero(k);
  }

  lemma StartEnough(k: nat, lim: Limits, input: Vec)
    requires |input| == k && Within(input, lim.maxIn) && MayStart(lim, input)
    ensures CanContinue(Empty(), [], 0, k, lim, input)
  {
    var m := Min(Sum(input), lim.cap);
    SumOfCounts(input);
    var e, d := ChooseSplit(input, lim.me, m);
    SumAdd(e, d);
    SumOfCounts(e);
    SumOfCounts(d);
    AddToNothing(e, k);
    var sp := if m > 0 then 1 else 0;
    var o := ChooseAny(Zero(k), e, sp, k);
    ColumnOk(Zero(k), e, o, lim.cap, k);
    var v := Column(input, e, d, o, Sub(e, o), Sum(e) > 0);
    NewStepOk(Empty(), 0, k, lim.cap, v);
    ExtendedBuffer(Empty(), 0, k, lim.cap, v);
    ExtendedControl(Empty(), [], 0, k, lim.cap, v, sp);
    RangesOfStep(v, lim, sp);
    ExtendedRanges(Empty(), v, lim);
    FirstWindowsOk(Extend(Empty(), v), e, o, k, lim.cap);
    assert ContinuesBy(Empty(), [], 0, k, lim, v, sp, FirstWindows(e, o, k));
  }

  /**
    A run can begin with a given input exactly when the input splits into enqueues and drops within me at the number
    that tail drop admits, and a packet may be sent if one is enqueued; windows rule nothing out.
   */
  lemma StartsExactlyWhen(k: nat, lim: Limits, input: Vec)
    requires |input| == k && Within(input, lim.maxIn)
    ensures CanContinue(Empty(), [], 0, k, lim, input) <==> MayStart(lim, input)
  {
    if v: Column, sp, z :| v.i == input && ContinuesBy(Empty(), [], 0, k, lim, v, sp, z) {
      StartNeeded(Extend(Empty(), v), [] + [sp], z, k, lim);
    }
    if MayStart(lim, input) {
      StartEnough(k, lim, input);
    }
  }

  /** Nothing may arrive in the first step, whatever the capacity and the ranges are. */
  lemma QuietStart(k: nat, lim: Limits)
    ensures CanContinue(Empty(), [], 0, k, lim, Zero(k))
  {
    SumZero(k);
    SmallSplits(Zero(k), lim.me, 0);
    StartsExactlyWhen(k, lim, Zero(k));
  }

  // ---------------------------------------------------------------- a step that only windows rule out

  /** Capacity 2, one type: two packets, one more, then nothing; the bit alternates. */
  function StalledTrace(): Trace {
    var e := [[2], [1], [0], [0]];
    Trace(e, e, [[0], [0], [0], [0]], [[1], [0], [1], [0]], [[1], [2], [1], [1]], [true, true, true, true])
  }

  function StalledBits(): seq<int> {
    [1, 0, 1, 0]
  }

  function StalledWindows(): L.Windows {
    L.Windows([[2], [2], [0], [0]], [[0], [1], [0], [0]], [[1], [1], [0], [0]], [[0], [2], [2], [0]],
      [[0], [1], [0], [0]])
  }

  lemma SingleOps(a: int, b: int)
    ensures Add([a], [b]) == [a + b] && Sub([a], [b]) == [a - b] && Zero(1) == [0]
    ensures Sum([a]) == a && Sum([a + b]) == a + b
  {
    OneSum([a]);
    OneSum([a + b]);
  }

  /** One step of the buffer with one packet type, in numbers. */
  lemma SingleBuffer(tr: Trace, cap: int, j: nat, before: int)
    requires StepShaped(tr, 1, j) && before == (if j == 0 then 0 else tr.c[j - 1][0])
    requires tr.i[j] == tr.e[j] && tr.d[j] == [0] && tr.c[j][0] == before + tr.e[j][0] - tr.o[j][0]
    requires before + tr.e[j][0] <= cap && tr.b[j] == (before + tr.e[j][0] > 0)
    ensures StepOk(tr, 1, cap, j)
  {
    SingleOps(before, tr.e[j][0]);
    SingleOps(before + tr.e[j][0], tr.o[j][0]);
    SingleOps(tr.e[j][0], 0);
    assert Offered(tr, 1, j) == [before + tr.e[j][0]];
  }

  lemma StalledStep(tr: Trace, s: seq<int>, j: nat)
    requires tr == StalledTrace() && s == StalledBits() && j < 4
    ensures StepOk(tr, 1, 2, j) && ControlAt(tr, s, j)
  {
    SingleBuffer(tr, 2, j, if j == 0 then 0 else tr.c[j - 1][0]);
    OneSum(tr.o[j]);
  }

  lemma StalledWindow(tr: Trace, w: L.Windows, j: nat)
    requires tr == StalledTrace() && w == StalledWindows() && j < 4
    ensures S.WindowStepOk(tr, w, 1, 2, j)
  {
    OneSum(w.nxt[j]);
    if j > 0 {
      SingleOps(w.enq[j - 1][0], tr.e[j][0]);
      SingleOps(w.tmpEnq[j][0], w.tmpNxt[j][0]);
      SingleOps(w.tmpNxt[j][0], 0);
      SingleOps(w.out[j - 1][0], tr.o[j][0]);
      SingleOps(w.out[j - 1][0] + tr.o[j][0], w.tmpEnq[j][0]);
      SingleOps(w.nxt[j][0], w.tmpNxt[j][0]);
      SingleOps(w.nxt[j - 1][0], w.tmpNxt[j][0]);
    }
  }

  lemma StalledRangeAt(tr: Trace, w: L.Windows, j: nat)
    requires tr == StalledTrace() && w == StalledWindows() && j < 4
    ensures |tr.i[j]| == |tr.e[j]| == |tr.d[j]| == |tr.o[j]| == |tr.c[j]| == 1
    ensures Within(tr.i[j], 2) && Within(tr.e[j], 2) && Within(tr.d[j], 2) && Within(tr.o[j], 1) && Within(tr.c[j], 2)
    ensures |w.enq[j]| == |w.nxt[j]| == |w.out[j]| == |w.tmpEnq[j]| == |w.tmpNxt[j]| == 1
    ensures Within(w.enq[j], 2) && Within(w.nxt[j], 2) && Within(w.out[j], 2) && Within(w.tmpEnq[j], 2)
    ensures Within(w.tmpNxt[j], 2)
  {
  }

  lemma StalledRun(tr: Trace, s: seq<int>, w: L.Windows, lim: Limits, steps: nat, k: nat)
    requires tr == StalledTrace() && s == StalledBits() && w == StalledWindows()
    requires lim == Limits(2, 2, 2, 1, lim.useWin)
    requires steps == 4 && k == 1
    ensures FullRun(tr, s, w, steps, k, lim)
  {
    forall j | 0 <= j < steps
      ensures StepOk(tr, k, lim.cap, j) && ControlAt(tr, s, j) && S.WindowStepOk(tr, w, k, lim.cap, j)
    {
      StalledStep(tr, s, j);
      StalledWindow(tr, w, j);
    }
    forall j | 0 <= j < steps
      ensures |tr.i[j]| == |tr.e[j]| == |tr.d[j]| == |tr.o[j]| == |tr.c[j]| == k
      ensures Within(tr.i[j], 2) && Within(tr.e[j], 2) && Within(tr.d[j], 2) && Within(tr.o[j], 1) && Within(tr.c[j], 2)
      ensures |w.enq[j]| == |w.nxt[j]| == |w.out[j]| == |w.tmpEnq[j]| == |w.tmpNxt[j]| == k
      ensures Within(w.enq[j], 2) && Within(w.nxt[j], 2) && Within(w.out[j], 2) && Within(w.tmpEnq[j], 2)
      ensures Within(w.tmpNxt[j], 2)
    {
      StalledRangeAt(tr, w, j);
    }
  }

  lemma {:induction false} StalledForgets(tr: Trace, cap: int, last: nat)
    requires tr == StalledTrace() && cap == 2 && last == 3
    ensures TallyAt(tr, cap, last).lost == 1
  {
    var e, o := [2, 1, 0, 0], [1, 0, 1, 0];
    WindowTotals.StalledForgets(tr, e, o, cap, last);
  }

  lemma StalledCondition(tr: Trace, lim: Limits, steps: nat, last: Vec, input: Vec)
    requires lim == Limits(2, 2, 2, 1, lim.useWin) && steps == 4 == |tr.e| == |tr.o| && last == [1] && input == [0]
    requires TallyAt(tr, lim.cap, steps - 1).lost == 1
    ensures MayContinue(tr, 0, steps, lim, last, input) == !lim.useWin
  {
    OneSum(last);
    OneSum(input);
    assert Excess(input, 2) == input && Capped(input, 2) == input;
  }

  /** A packet is waiting and nothing arrives: only without windows can it be sent. */
  lemma OnlyWindowsBlock(tr: Trace, s: seq<int>, w: L.Windows, steps: nat, k: nat, lim: Limits, input: Vec)
    requires tr == StalledTrace() && s == StalledBits() && w == StalledWindows()
    requires lim == Limits(2, 2, 2, 1, lim.useWin)
    requires steps == 4 && k == 1 && input == [0]
    ensures FullRun(tr, s, w, steps, k, lim)
    ensures CanContinue(tr, s, steps, k, lim, input) <==> !lim.useWin
  {
    StalledRun(tr, s, w, lim, steps, k);
    StalledForgets(tr, lim.cap, steps - 1);
    StalledCondition(tr, lim, steps, tr.c[steps - 1], input);
    ContinuesExactlyWhen(tr, s, w, steps, k, lim, input);
  }
}
