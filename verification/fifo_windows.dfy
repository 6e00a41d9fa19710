/**
  Windows for a FIFO history.  The packets ever admitted form one sequence h; a run is described by
  two pointers into it, n[j] packets admitted and d[j] packets departed before step j.  From the
  pointers alone we build window variables that satisfy the window constraints at every step.
 */
module FifoWindows {
  import opened CountVectors
  import opened BufferTrace
  import opened FifoQueue
  import opened LeafBuffer

  /** The counts of the packets h[a..b]. */
  function Seg(h: seq<nat>, a: nat, b: nat, k: nat): (v: Vec)
    ensures |v| == k
  {
    if a <= b <= |h| then CountOf(h[a..b], k) else Zero(k)
  }

  lemma SegJoin(h: seq<nat>, a: nat, b: nat, c: nat, k: nat)
    requires a <= b <= c <= |h|
    ensures Seg(h, a, c, k) == Add(Seg(h, a, b, k), Seg(h, b, c, k))
  {
    CountOfSplit(h[a..c], b - a, k);
    assert h[a..c][..b - a] == h[a..b] && h[a..c][b - a..] == h[b..c];
  }

  lemma SegEmpty(h: seq<nat>, a: nat, k: nat)
    requires a <= |h|
    ensures Seg(h, a, a, k) == Zero(k)
  {
  }

  lemma SegFacts(h: seq<nat>, a: nat, b: nat, k: nat)
    requires Typed(h, k) && a <= b <= |h|
    ensures Sum(Seg(h, a, b, k)) == b - a
    ensures Within(Seg(h, a, b, k), b - a)
  {
    SumCountOf(h[a..b], k);
    SumOfCounts(Seg(h, a, b, k));
  }

  /** A longer segment with the same start has at least the counts, and more packets in total. */
  lemma SegPrefix(h: seq<nat>, a: nat, b: nat, c: nat, k: nat)
    requires Typed(h, k) && a <= b <= |h| && a <= c <= |h|
    ensures b <= c ==> LeV(Seg(h, a, b, k), Seg(h, a, c, k))
    ensures c < b ==> !LeV(Seg(h, a, b, k), Seg(h, a, c, k))
  {
    if b <= c {
      SegJoin(h, a, b, c, k);
    } else {
      SegFacts(h, a, b, k);
      SegFacts(h, a, c, k);
      if LeV(Seg(h, a, b, k), Seg(h, a, c, k)) {
        SumMonotone(Seg(h, a, b, k), Seg(h, a, c, k));
      }
    }
  }

  // ---------------------------------------------------------------- one step of the windows

  function Max(a: nat, b: nat): nat {
    if a < b then b else a
  }

  /**
    A window that starts at s, seen after n admissions and d departures, and the next step to n'
    admissions and d' departures.
   */
  ghost predicate StepBounds(h: seq<nat>, cap: nat, s: nat, n: nat, n': nat, d: nat, d': nat) {
    && cap >= 1 && s <= d <= Min(s + cap, n) && d < s + cap
    && n <= n' <= |h| && n' <= d + cap
    && d <= d' <= d + 1 && d' <= n'
  }

  ghost function Seen(h: seq<nat>, k: nat, cap: nat, s: nat, n: nat, d: nat): Window {
    Window(Seg(h, s, Min(s + cap, n), k), Seg(h, Min(s + cap, n), n, k), Seg(h, s, d, k))
  }

  /** The enqueues split into what still fits the window and what overflows. */
  lemma EnqueueSplit(h: seq<nat>, k: nat, cap: nat, s: nat, n: nat, n': nat)
    requires s <= n <= n' <= |h|
    ensures var e0, e := Min(s + cap, n), Min(s + cap, n');
            && Add(Seg(h, s, e0, k), Seg(h, n, n', k)) == Add(Seg(h, s, e, k), Seg(h, Max(e, n), n', k))
            && Add(Seg(h, e0, n, k), Seg(h, Max(e, n), n', k)) == Seg(h, e, n', k)
  {
    var e0, e := Min(s + cap, n), Min(s + cap, n');
    if e <= n {
      SegJoin(h, e, n, n', k);
    } else {
      SegJoin(h, s, n, e, k);
      SegJoin(h, n, e, n', k);
      AddAssociative(Seg(h, s, n, k), Seg(h, n, e, k), Seg(h, e, n', k));
      SegEmpty(h, n, k);
      AddZero(Seg(h, e, n', k));
    }
  }

  lemma WindowSizes(h: seq<nat>, k: nat, cap: nat, s: nat, n: nat, n': nat, d: nat, d': nat)
    requires Typed(h, k) && StepBounds(h, cap, s, n, n', d, d')
    ensures var e0, e := Min(s + cap, n), Min(s + cap, n');
            var se, sn := Seg(h, s, e, k), Seg(h, Max(e, n), n', k);
            && 0 <= Sum(se) <= cap && 0 <= Sum(sn) <= cap - 1 && (Sum(sn) > 0 ==> Sum(se) == cap)
            && Within(se, cap) && Within(sn, cap)
            && LeV(Seg(h, s, e0, k), se)
  {
    var e0, e := Min(s + cap, n), Min(s + cap, n');
    SegFacts(h, s, e, k);
    SegFacts(h, Max(e, n), n', k);
    SegPrefix(h, s, e0, e, k);
  }

  /** Sizes of the window variables themselves. */
  lemma SeenSizes(h: seq<nat>, k: nat, cap: nat, s: nat, n: nat, d: nat)
    requires Typed(h, k) && s <= d <= Min(s + cap, n) && n <= |h| && n < s + 2 * cap
    ensures var x := Seen(h, k, cap, s, n, d);
            && Sum(x.nxt) < cap && LeV(x.out, x.enq)
            && Within(x.enq, cap) && Within(x.nxt, cap) && Within(x.out, cap)
  {
    var e := Min(s + cap, n);
    SegFacts(h, s, e, k);
    SegFacts(h, e, n, k);
    SegFacts(h, s, d, k);
    SegPrefix(h, s, d, e, k);
  }

  /** The outputs cover the window exactly when the departures have reached its end, and there they stop. */
  lemma ClosesAtEnd(h: seq<nat>, k: nat, cap: nat, s: nat, n: nat, n': nat, d: nat, d': nat)
    requires Typed(h, k) && StepBounds(h, cap, s, n, n', d, d')
    ensures d' <= Min(s + cap, n')
    ensures Add(Seg(h, s, d, k), Seg(h, d, d', k)) == Seg(h, s, d', k)
    ensures Closes(Seg(h, s, Min(s + cap, n'), k), Seg(h, s, d', k)) <==> d' == Min(s + cap, n')
    ensures 0 <= Sum(Seg(h, s, d', k)) <= 2 * cap
  {
    SegJoin(h, s, d, d', k);
    SegPrefix(h, s, Min(s + cap, n'), d', k);
    SegFacts(h, s, d', k);
  }

  function NextStart(cap: nat, s: nat, n': nat, d': nat): nat {
    if d' >= Min(s + cap, n') then Min(s + cap, n') else s
  }

  /** The window step, from the facts about its parts: rest is what lies behind the window. */
  lemma StepFromParts(x: Window, e: Vec, o: Vec, se: Vec, sn: Vec, to: Vec, rest: Vec, k: nat, cap: int)
    requires WindowOf(x, k) && |e| == |o| == |se| == |sn| == |to| == |rest| == k
    requires Add(x.enq, e) == Add(se, sn) && Add(x.nxt, sn) == rest && Add(x.out, o) == to
    requires 0 <= Sum(se) <= cap && 0 <= Sum(sn) <= cap - 1 && (Sum(sn) > 0 ==> Sum(se) == cap)
    requires LeV(x.enq, se) && 0 <= Sum(to) <= 2 * cap
    requires Closes(se, to) <==> to == se
    requires if to == se then NonNegative(rest) else Sum(rest) < cap && LeV(to, se)
    ensures WindowStep(x, e, o, se, sn, if to
            == se then Window(rest, Zero(k), Zero(k)) else Window(se, rest, to), k, cap)
  {
    AddZero(se);
    SumZero(k);
  }

  lemma ClosedSeen(h: seq<nat>, k: nat, cap: nat, e: nat, n': nat)
    requires e <= n' <= |h| && n' <= e + cap
    ensures Seen(h, k, cap, e, n', e) == Window(Seg(h, e, n', k), Zero(k), Zero(k))
  {
    SegEmpty(h, n', k);
    SegEmpty(h, e, k);
  }

  lemma SeenStep(h: seq<nat>, k: nat, cap: nat, s: nat, n: nat, n': nat, d: nat, d': nat)
    requires Typed(h, k) && StepBounds(h, cap, s, n, n', d, d')
    ensures var e := Min(s + cap, n');
            WindowStep(Seen(h, k, cap, s, n, d), Seg(h, n, n', k), Seg(h, d, d', k),
                       Seg(h, s, e, k), Seg(h, Max(e, n), n', k),
                       Seen(h, k, cap, NextStart(cap, s, n', d'), n', d'), k, cap)
  {
    var e := Min(s + cap, n');
    EnqueueSplit(h, k, cap, s, n, n');
    WindowSizes(h, k, cap, s, n, n', d, d');
    ClosesAtEnd(h, k, cap, s, n, n', d, d');
    SegFacts(h, e, n', k);
    if d' == e {
      ClosedSeen(h, k, cap, e, n');
    } else {
      SeenSizes(h, k, cap, s, n', d');
    }
    StepFromParts(Seen(h, k, cap, s, n, d), Seg(h, n, n', k), Seg(h, d, d', k), Seg(h, s, e, k),
                  Seg(h, Max(e, n), n', k), Seg(h, s, d', k), Seg(h, e, n', k), k, cap);
  }

  /** The same step, for vectors that are known to be these segments. */
  lemma SeenStepOf(h: seq<nat>, k: nat, cap: nat, s: nat, n: nat, n': nat, d: nat, d': nat, s': nat, x: Window,
                   e: Vec, o: Vec, se: Vec, sn: Vec, y: Window)
    requires Typed(h, k) && StepBounds(h, cap, s, n, n', d, d') && s' == NextStart(cap, s, n', d')
    requires x == Seen(h, k, cap, s, n, d) && e == Seg(h, n, n', k) && o == Seg(h, d, d', k)
    requires se == Seg(h, s, Min(s + cap, n'), k) && sn == Seg(h, Max(Min(s + cap, n'), n), n', k)
    requires y == Seen(h, k, cap, s', n', d')
    ensures WindowStep(x, e, o, se, sn, y, k, cap)
  {
    SeenStep(h, k, cap, s, n, n', d, d');
  }

  // ---------------------------------------------------------------- whole histories

  /** Packets in order of admission; admissions n, departures d before each step; window start s after it. */
  datatype Pointers = Pointers(h: seq<nat>, n: seq<nat>, d: seq<nat>, s: seq<nat>)

  ghost predicate PointerStep(p: Pointers, cap: nat, j: nat)
    requires j + 1 < |p.n| && j + 1 < |p.d| && j < |p.s|
  {
    && p.n[j] <= p.n[j + 1] <= |p.h|
    && p.n[j + 1] <= p.d[j] + cap
    && p.d[j] <= p.d[j + 1] <= p.d[j] + 1
    && p.d[j + 1] <= p.n[j + 1]
    && p.s[j] == if j == 0 then 0 else NextStart(cap, p.s[j - 1], p.n[j + 1], p.d[j + 1])
  }

  /** The first step does not fill a window: with capacity 1 it sends nothing. */
  ghost predicate PointerRun(p: Pointers, steps: nat, k: nat, cap: nat) {
    && Typed(p.h, k) && |p.n| == |p.d| == steps + 1 && |p.s| == steps
    && p.n[0] == p.d[0] == 0 && (steps > 0 ==> p.d[1] < cap)
    && forall j :: 0 <= j < steps ==> PointerStep(p, cap, j)
  }

  /** The departures have reached the current window and never fill it. */
  lemma {:induction false} StartInvariant(p: Pointers, steps: nat, k: nat, cap: nat, j: nat)
    requires PointerRun(p, steps, k, cap) && j < steps && cap >= 1
    ensures p.s[j] <= p.d[j + 1] <= Min(p.s[j] + cap, p.n[j + 1])
    ensures p.d[j + 1] < p.s[j] + cap && p.n[j + 1] < p.s[j] + 2 * cap
  {
    assert PointerStep(p, cap, j);
    if j == 0 {
    } else {
      StartInvariant(p, steps, k, cap, j - 1);
    }
  }

  ghost function WindowAfter(p: Pointers, k: nat, cap: nat, j: nat): (x: Window)
    ensures WindowOf(x, k)
  {
    if j < |p.s| && j + 1 < |p.n| && j + 1 < |p.d| then
      Seen(p.h, k, cap, p.s[j], p.n[j + 1], p.d[j + 1])
    else
      Window(Zero(k), Zero(k), Zero(k))
  }

  ghost function TmpEnq(p: Pointers, k: nat, cap: nat, j: nat): (v: Vec)
    ensures |v| == k
  {
    if 0 < j < |p.s| && j + 1 < |p.n| then Seg(p.h, p.s[j - 1], Min(p.s[j - 1] + cap, p.n[j + 1]), k) else Zero(k)
  }

  ghost function TmpNxt(p: Pointers, k: nat, cap: nat, j: nat): (v: Vec)
    ensures |v| == k
  {
    if 0 < j < |p.s| && j + 1 < |p.n| then
      Seg(p.h, Max(Min(p.s[j - 1] + cap, p.n[j + 1]), p.n[j]), p.n[j + 1], k)
    else
      Zero(k)
  }

  ghost function WindowsOf(p: Pointers, steps: nat, k: nat, cap: nat): Windows {
    Windows(seq(steps, j requires 0 <= j => WindowAfter(p, k, cap, j).enq),
            seq(steps, j requires 0 <= j => WindowAfter(p, k, cap, j).nxt),
            seq(steps, j requires 0 <= j => WindowAfter(p, k, cap, j).out),
            seq(steps, j requires 0 <= j => TmpEnq(p, k, cap, j)),
            seq(steps, j requires 0 <= j => TmpNxt(p, k, cap, j)))
  }

  /** The trace enqueues and sends exactly the packets the pointers pass. */
  ghost predicate FollowsAt(tr: Trace, p: Pointers, k: nat, j: nat) {
    && j < |tr.e| && j < |tr.o| && j + 1 < |p.n| && j + 1 < |p.d|
    && tr.e[j] == Seg(p.h, p.n[j], p.n[j + 1], k)
    && tr.o[j] == Seg(p.h, p.d[j], p.d[j + 1], k)
  }

  ghost predicate Follows(tr: Trace, p: Pointers, steps: nat, k: nat) {
    forall j :: 0 <= j < steps ==> FollowsAt(tr, p, k, j)
  }

  lemma FirstWindow(tr: Trace, p: Pointers, steps: nat, k: nat, cap: nat)
    requires PointerRun(p, steps, k, cap) && Follows(tr, p, steps, k) && cap >= 1 && steps > 0
    ensures WindowStepOk(tr, WindowsOf(p, steps, k, cap), k, cap, 0)
  {
    assert FollowsAt(tr, p, k, 0) && PointerStep(p, cap, 0);
    SegEmpty(p.h, p.n[1], k);
    SumZero(k);
  }

  lemma PointerBounds(p: Pointers, steps: nat, k: nat, cap: nat, j: nat)
    requires PointerRun(p, steps, k, cap) && cap >= 1 && 0 < j < steps
    ensures StepBounds(p.h, cap, p.s[j - 1], p.n[j], p.n[j + 1], p.d[j], p.d[j + 1])
    ensures p.s[j] == NextStart(cap, p.s[j - 1], p.n[j + 1], p.d[j + 1])
  {
    assert PointerStep(p, cap, j);
    StartInvariant(p, steps, k, cap, j - 1);
  }

  ghost predicate StepsTo(p: Pointers, k: nat, cap: nat, j: nat, x: Window, e: Vec, o: Vec, se: Vec, sn: Vec,
                          y: Window) {
    && |p.n| == |p.d| == |p.s| + 1 && 0 < j < |p.s|
    && x == WindowAfter(p, k, cap, j - 1)
    && e == Seg(p.h, p.n[j], p.n[j + 1], k)
    && o == Seg(p.h, p.d[j], p.d[j + 1], k)
    && se == TmpEnq(p, k, cap, j)
    && sn == TmpNxt(p, k, cap, j)
    && y == WindowAfter(p, k, cap, j)
  }

  lemma PointerWindowStep(p: Pointers, k: nat, cap: nat, j: nat, x: Window, e: Vec, o: Vec, se: Vec, sn: Vec,
                          y: Window)
    requires Typed(p.h, k) && StepsTo(p, k, cap, j, x, e, o, se, sn, y)
    requires StepBounds(p.h, cap, p.s[j - 1], p.n[j], p.n[j + 1], p.d[j], p.d[j + 1])
    requires p.s[j] == NextStart(cap, p.s[j - 1], p.n[j + 1], p.d[j + 1])
    ensures WindowStep(x, e, o, se, sn, y, k, cap)
  {
    SeenStepOf(p.h, k, cap, p.s[j - 1], p.n[j], p.n[j + 1], p.d[j], p.d[j + 1], p.s[j], x, e, o, se, sn, y);
  }

  lemma WindowsStepTo(tr: Trace, p: Pointers, steps: nat, k: nat, cap: nat, j: nat)
    requires |p.n| == |p.d| == steps + 1 && |p.s| == steps && FollowsAt(tr, p, k, j) && 0 < j < steps
    ensures var w := WindowsOf(p, steps, k, cap);
            StepsTo(p, k, cap, j, At(w, j - 1), tr.e[j], tr.o[j], w.tmpEnq[j], w.tmpNxt[j], At(w, j))
  {
    var w := WindowsOf(p, steps, k, cap);
    assert At(w, j - 1) == WindowAfter(p, k, cap, j - 1) && At(w, j) == WindowAfter(p, k, cap, j);
  }

  lemma NextWindow(tr: Trace, p: Pointers, steps: nat, k: nat, cap: nat, j: nat)
    requires PointerRun(p, steps, k, cap) && FollowsAt(tr, p, k, j) && cap >= 1 && 0 < j < steps
    ensures WindowStepOk(tr, WindowsOf(p, steps, k, cap), k, cap, j)
  {
    var w := WindowsOf(p, steps, k, cap);
    WindowsStepTo(tr, p, steps, k, cap, j);
    PointerBounds(p, steps, k, cap, j);
    PointerWindowStep(p, k, cap, j, At(w, j - 1), tr.e[j], tr.o[j], w.tmpEnq[j], w.tmpNxt[j], At(w, j));
  }

  lemma WindowBoundsAt(p: Pointers, steps: nat, k: nat, cap: nat, j: nat)
    requires PointerRun(p, steps, k, cap) && cap >= 1 && j < steps
    ensures var x := WindowAfter(p, k, cap, j);
            && Within(x.enq, cap) && Within(x.nxt, cap) && Within(x.out, cap)
            && Within(TmpEnq(p, k, cap, j), cap) && Within(TmpNxt(p, k, cap, j), cap)
  {
    assert PointerStep(p, cap, j);
    StartInvariant(p, steps, k, cap, j);
    SeenSizes(p.h, k, cap, p.s[j], p.n[j + 1], p.d[j + 1]);
    if j > 0 {
      StartInvariant(p, steps, k, cap, j - 1);
      WindowSizes(p.h, k, cap, p.s[j - 1], p.n[j], p.n[j + 1], p.d[j], p.d[j + 1]);
    }
  }

  lemma WindowsBounded(p: Pointers, steps: nat, k: nat, cap: nat)
    requires PointerRun(p, steps, k, cap) && cap >= 1
    ensures WindowBounded(WindowsOf(p, steps, k, cap), cap)
  {
    forall j | 0 <= j < steps
      ensures var x := WindowAfter(p, k, cap, j);
              && Within(x.enq, cap) && Within(x.nxt, cap) && Within(x.out, cap)
              && Within(TmpEnq(p, k, cap, j), cap) && Within(TmpNxt(p, k, cap, j), cap)
    {
      WindowBoundsAt(p, steps, k, cap, j);
    }
  }

  /** Window variables exist for every history of a FIFO queue. */
  lemma WindowsExist(tr: Trace, p: Pointers, steps: nat, k: nat, cap: nat)
    requires PointerRun(p, steps, k, cap) && Follows(tr, p, steps, k) && cap >= 1
    ensures WindowRun(tr, WindowsOf(p, steps, k, cap), steps, k, cap)
  {
    forall j | 0 <= j < steps
      ensures WindowStepOk(tr, WindowsOf(p, steps, k, cap), k, cap, j)
    {
      if j == 0 {
        FirstWindow(tr, p, steps, k, cap);
      } else {
        assert FollowsAt(tr, p, k, j);
        NextWindow(tr, p, steps, k, cap, j);
      }
    }
    WindowsBounded(p, steps, k, cap);
  }
}
