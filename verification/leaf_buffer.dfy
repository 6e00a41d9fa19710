/**
  The buffer relation of a VOQ in src/leaf_spine/leaf_base.cpp.  In step j a packet
  may leave when the backlog C[j] is not empty; the enqueues E[j] follow, and C[0] is empty.
 */
module LeafBuffer {
  import opened CountVectors
  import opened BufferTrace

  ghost predicate StepShaped(tr: Trace, k: nat, j: nat) {
    && j < |tr.i| && j < |tr.e| && j < |tr.d| && j < |tr.o| && j < |tr.c| && j < |tr.b|
    && |tr.i[j]| == k && |tr.e[j]| == k && |tr.d[j]| == k && |tr.o[j]| == k && |tr.c[j]| == k
    && (j > 0 ==> |tr.c[j - 1]| == k && |tr.e[j - 1]| == k && |tr.o[j - 1]| == k)
  }

  /** bl_size at step j */
  ghost predicate BacklogAt(tr: Trace, k: nat, j: nat)
    requires StepShaped(tr, k, j)
  {
    if j == 0 then
      Sum(tr.c[0]) == 0 && !tr.b[0]
    else
      && tr.b[j] == (Sum(tr.c[j]) > 0)
      && tr.c[j] == Sub(Add(tr.c[j - 1], tr.e[j - 1]), tr.o[j - 1])
  }

  /** enqs at step j */
  ghost predicate EnqueueAt(tr: Trace, k: nat, cap: int, j: nat)
    requires StepShaped(tr, k, j)
  {
    if j == 0 then Sum(tr.e[0]) <= cap && !tr.b[0] else Sum(Add(tr.e[j], tr.c[j])) <= cap
  }

  /** drops at step j */
  ghost predicate DropAt(tr: Trace, k: nat, cap: int, j: nat)
    requires StepShaped(tr, k, j)
  {
    if j == 0 then
      Sum(tr.d[0]) == 0
    else if tr.b[j] then
      Sum(tr.d[j]) > 0 ==> Sum(Add(tr.c[j], tr.e[j])) == cap
    else
      Sum(tr.d[j]) == 0
  }

  ghost predicate StepOk(tr: Trace, k: nat, cap: int, j: nat) {
    && StepShaped(tr, k, j)
    && BacklogAt(tr, k, j) && EnqueueAt(tr, k, cap, j) && DropAt(tr, k, cap, j) && SplitAt(tr, k, j)
  }

  /** inputs(i) without the window variables, together with the lower bounds of the ranges. */
  ghost predicate BufferRun(tr: Trace, steps: nat, k: nat, cap: int) {
    && Shaped(tr, steps, k) && Counts(tr)
    && forall j :: 0 <= j < steps ==> StepOk(tr, k, cap, j)
  }

  // ---------------------------------------------------------------- windows
  // The windows group the enqueued packets, in arrival order, into blocks of at most "cap" packets: a
  // new window opens only when the outputs have covered the current one.

  datatype Windows = Windows(enq: seq<Vec>, nxt: seq<Vec>, out: seq<Vec>, tmpEnq: seq<Vec>, tmpNxt: seq<Vec>)

  ghost predicate WindowShaped(w: Windows, steps: nat, k: nat) {
    && AllOf(w.enq, steps, k) && AllOf(w.nxt, steps, k) && AllOf(w.out, steps, k)
    && AllOf(w.tmpEnq, steps, k) && AllOf(w.tmpNxt, steps, k)
  }

  ghost predicate WindowBounded(w: Windows, cap: int) {
    && AllWithin(w.enq, cap) && AllWithin(w.nxt, cap) && AllWithin(w.out, cap)
    && AllWithin(w.tmpEnq, cap) && AllWithin(w.tmpNxt, cap)
  }

  ghost predicate WindowStepShaped(tr: Trace, w: Windows, k: nat, j: nat) {
    && j < |w.enq| && j < |w.nxt| && j < |w.out| && j < |w.tmpEnq| && j < |w.tmpNxt|
    && |w.enq[j]| == k && |w.nxt[j]| == k && |w.out[j]| == k && |w.tmpEnq[j]| == k && |w.tmpNxt[j]| == k
    && (j > 0 ==> |w.enq[j - 1]| == k && |w.nxt[j - 1]| == k && |w.out[j - 1]| == k)
    && j < |tr.e| && j < |tr.o| && |tr.e[j]| == k && |tr.o[j]| == k
  }

  /** The window variables of one step: packets of the current window, packets after it, outputs from it. */
  datatype Window = Window(enq: Vec, nxt: Vec, out: Vec)

  ghost predicate WindowOf(x: Window, k: nat) {
    |x.enq| == k && |x.nxt| == k && |x.out| == k
  }

  /** The outputs cover the window: it closes. */
  predicate Closes(se: Vec, to: Vec)
    requires |se| == |to|
  {
    LeV(se, to)
  }

  /**
    From window x to window y in one step with enqueues e and outputs o.  The enqueues are split into
    se, what the window holds afterwards, and sn, what overflows.  When the window closes, the next
    one starts from the packets carried over and the overflow.
   */
  ghost predicate WindowStepFrom(carried: Vec, x: Window, e: Vec, o: Vec, se: Vec, sn: Vec, y: Window, k: nat,
                                 cap: int)
    requires |carried| == k && WindowOf(x, k) && WindowOf(y, k) && |e| == k && |o| == k && |se| == k && |sn| == k
  {
    var to := Add(x.out, o);
    && Add(x.enq, e) == Add(se, sn)
    && (if Closes(se, to) then
          y.enq == Add(carried, sn) && y.nxt == Zero(k) && y.out == Sub(to, se)
        else
          y.enq == se && y.nxt == Add(x.nxt, sn) && y.out == to)
    && 0 <= Sum(se) <= cap && 0 <= Sum(sn) <= cap - 1 && 0 <= Sum(to) <= 2 * cap && Sum(y.nxt) < cap
    && LeV(x.enq, se)
    && (Sum(sn) > 0 ==> Sum(se) == cap)
    && (Sum(se) < cap ==> Sum(sn) == 0)
    && !(Sum(se) < cap && Sum(sn) > 0)
    && LeV(y.out, y.enq)
  }

  /** What the windows hold: packets of the current one and behind it, without the outputs. */
  function Held(x: Window, k: nat): (v: Vec)
    requires WindowOf(x, k)
    ensures |v| == k
  {
    Sub(Add(x.enq, x.nxt), x.out)
  }

  /** The packets that a closing step does not pass on to the next window. */
  function Missing(carried: Vec, x: Window, o: Vec, se: Vec, k: nat): (v: Vec)
    requires |carried| == k && WindowOf(x, k) && |o| == |se| == k
    ensures |v| == k
  {
    if Closes(se, Add(x.out, o)) then Sub(x.nxt, carried) else Zero(k)
  }

  /** One window step changes what the windows hold by the enqueues, the outputs and what it misses. */
  lemma HeldStep(carried: Vec, x: Window, e: Vec, o: Vec, se: Vec, sn: Vec, y: Window, k: nat, cap: int)
    requires |carried| == k && WindowOf(x, k) && WindowOf(y, k) && |e| == |o| == |se| == |sn| == k
    requires WindowStepFrom(carried, x, e, o, se, sn, y, k, cap)
    ensures Add(Held(y, k), Missing(carried, x, o, se, k)) == Sub(Add(Held(x, k), e), o)
  {
    forall t | 0 <= t < k
      ensures Held(y, k)[t] + Missing(carried, x, o, se, k)[t] == Held(x, k)[t] + e[t] - o[t]
    {
      assert Add(x.enq, e)[t] == Add(se, sn)[t];
    }
  }

  /** The packets carried over are those of the step before. */
  ghost predicate WindowStep(x: Window, e: Vec, o: Vec, se: Vec, sn: Vec, y: Window, k: nat, cap: int)
    requires WindowOf(x, k) && WindowOf(y, k) && |e| == k && |o| == k && |se| == k && |sn| == k
  {
    WindowStepFrom(x.nxt, x, e, o, se, sn, y, k, cap)
  }

  function At(w: Windows, j: nat): Window
    requires j < |w.enq| && j < |w.nxt| && j < |w.out|
  {
    Window(w.enq[j], w.nxt[j], w.out[j])
  }

  /** winds at step j */
  ghost predicate WindowAt(tr: Trace, w: Windows, k: nat, cap: int, j: nat)
    requires WindowStepShaped(tr, w, k, j)
  {
    if j == 0 then
      w.enq[0] == tr.e[0] && w.out[0] == tr.o[0] && Sum(w.nxt[0]) == 0
    else
      WindowStep(At(w, j - 1), tr.e[j], tr.o[j], w.tmpEnq[j], w.tmpNxt[j], At(w, j), k, cap)
  }

  ghost predicate WindowStepOk(tr: Trace, w: Windows, k: nat, cap: int, j: nat) {
    WindowStepShaped(tr, w, k, j) && WindowAt(tr, w, k, cap, j)
  }

  ghost predicate WindowRun(tr: Trace, w: Windows, steps: nat, k: nat, cap: int) {
    && WindowShaped(w, steps, k) && WindowBounded(w, cap)
    && forall j :: 0 <= j < steps ==> WindowStepOk(tr, w, k, cap, j)
  }

  /** The limits on the window variables of a later step. */
  lemma WindowLimits(tr: Trace, w: Windows, steps: nat, k: nat, cap: int, j: nat)
    requires WindowRun(tr, w, steps, k, cap) && 0 < j < steps
    ensures WindowStepShaped(tr, w, k, j)
    ensures 0 <= Sum(w.tmpEnq[j]) <= cap && 0 <= Sum(w.tmpNxt[j]) < cap && Sum(w.nxt[j]) < cap
    ensures 0 <= Sum(Add(w.out[j - 1], tr.o[j])) <= 2 * cap
    ensures LeV(w.enq[j - 1], w.tmpEnq[j]) && LeV(w.out[j], w.enq[j])
  {
    assert WindowStepOk(tr, w, k, cap, j);
  }

  // ---------------------------------------------------------------- the constraint builder

  /** bl_size */
  method BlSize(tr: Trace, steps: nat, k: nat) returns (ok: bool)
    requires Shaped(tr, steps, k) && steps > 0
    ensures ok <==> forall j :: 0 <= j < steps ==> BacklogAt(tr, k, j)
    ensures ok ==> Sum(tr.c[0]) == 0 && !tr.b[0]
  {
    ok := Sum(tr.c[0]) == 0;
    ok := ok && !tr.b[0];
    assert ok <==> BacklogAt(tr, k, 0);
    for j := 1 to steps
      invariant ok <==> forall t :: 0 <= t < j ==> BacklogAt(tr, k, t)
    {
      assert StepShaped(tr, k, j);
      ghost var before := ok;
      ok := ok && tr.b[j] == (Sum(tr.c[j]) > 0);
      ok := ok && tr.c[j] == Sub(Add(tr.c[j - 1], tr.e[j - 1]), tr.o[j - 1]);
      assert ok <==> before && BacklogAt(tr, k, j);
    }
  }

  /** enqs */
  method Enqs(tr: Trace, steps: nat, k: nat, cap: int) returns (ok: bool)
    requires Shaped(tr, steps, k) && steps > 0
    ensures ok <==> forall j :: 0 <= j < steps ==> EnqueueAt(tr, k, cap, j)
    ensures ok ==> Sum(tr.e[0]) <= cap && !tr.b[0]
  {
    ok := Sum(tr.e[0]) <= cap && !tr.b[0];
    assert ok <==> EnqueueAt(tr, k, cap, 0);
    for j := 1 to steps
      invariant ok <==> forall t :: 0 <= t < j ==> EnqueueAt(tr, k, cap, t)
    {
      assert StepShaped(tr, k, j);
      ghost var before := ok;
      ok := ok && Sum(Add(tr.e[j], tr.c[j])) <= cap;
      assert ok <==> before && EnqueueAt(tr, k, cap, j);
    }
  }

  /** drops */
  method Drops(tr: Trace, steps: nat, k: nat, cap: int) returns (ok: bool)
    requires Shaped(tr, steps, k) && steps > 0
    ensures ok <==> forall j :: 0 <= j < steps ==> DropAt(tr, k, cap, j)
  {
    ok := Sum(tr.d[0]) == 0;
    assert ok <==> DropAt(tr, k, cap, 0);
    for j := 1 to steps
      invariant ok <==> forall t :: 0 <= t < j ==> DropAt(tr, k, cap, t)
    {
      assert StepShaped(tr, k, j);
      ghost var before := ok;
      ok := ok && if tr.b[j] then Sum(tr.d[j]) > 0 ==> Sum(Add(tr.c[j], tr.e[j])) == cap else Sum(tr.d[j]) == 0;
      assert ok <==> before && DropAt(tr, k, cap, j);
    }
  }

  /** One iteration of the loop in winds. */
  method WindStep(tr: Trace, w: Windows, k: nat, cap: int, j: nat) returns (ok: bool)
    requires j > 0 && WindowStepShaped(tr, w, k, j)
    ensures ok <==> WindowStepOk(tr, w, k, cap, j)
  {
    var se, sn := w.tmpEnq[j], w.tmpNxt[j];
    ok := Add(w.enq[j - 1], tr.e[j]) == Add(se, sn);
    var to := Add(w.out[j - 1], tr.o[j]);
    var constr := if LeV(se, to) then
        w.enq[j] == Add(w.nxt[j - 1], sn) && w.nxt[j] == Zero(k) && w.out[j] == Sub(to, se)
      else
        w.enq[j] == se && w.nxt[j] == Add(w.nxt[j - 1], sn) && w.out[j] == to;
    constr := constr && Sum(se) <= cap && Sum(sn) <= cap - 1 && Sum(sn) >= 0 && Sum(se) >= 0 && Sum(to) >= 0
              && Sum(to) <= 2 * cap && Sum(w.nxt[j]) < cap;
    constr := constr && LeV(w.enq[j - 1], se);
    constr := constr && (Sum(sn) > 0 ==> Sum(se) == cap);
    constr := constr && (Sum(se) < cap ==> Sum(sn) == 0);
    constr := constr && !(Sum(se) < cap && Sum(sn) > 0);
    ok := ok && constr;
    ok := ok && LeV(w.out[j], w.enq[j]);
  }

  /** winds */
  method Winds(tr: Trace, w: Windows, steps: nat, k: nat, cap: int) returns (ok: bool)
    requires Shaped(tr, steps, k) && WindowShaped(w, steps, k) && steps > 0
    ensures ok <==> forall j :: 0 <= j < steps ==> WindowStepOk(tr, w, k, cap, j)
  {
    ok := w.enq[0] == tr.e[0];
    ok := ok && w.out[0] == tr.o[0];
    ok := ok && Sum(w.nxt[0]) == 0;
    assert ok <==> WindowStepOk(tr, w, k, cap, 0);
    for j := 1 to steps
      invariant ok <==> forall t :: 0 <= t < j ==> WindowStepOk(tr, w, k, cap, t)
    {
      assert WindowStepShaped(tr, w, k, j);
      var one := WindStep(tr, w, k, cap, j);
      ok := ok && one;
    }
  }

  /** inputs(i) with windows: the five families in order. */
  method Inputs(tr: Trace, w: Windows, steps: nat, k: nat, cap: int, useWin: bool) returns (ok: bool)
    requires Shaped(tr, steps, k) && Counts(tr) && WindowShaped(w, steps, k) && WindowBounded(w, cap) && steps > 0
    ensures ok <==> BufferRun(tr, steps, k, cap) && (useWin ==> WindowRun(tr, w, steps, k, cap))
  {
    var bl := BlSize(tr, steps, k);
    var enq := Enqs(tr, steps, k, cap);
    var drop := Drops(tr, steps, k, cap);
    var split := EnqDeqSum(tr, steps, k);
    ok := bl && enq && drop && split;
    assert forall j :: 0 <= j < steps ==>
             (StepOk(tr, k, cap, j) <==>
              && BacklogAt(tr, k, j) && EnqueueAt(tr, k, cap, j) && DropAt(tr, k, cap, j) && SplitAt(tr, k, j));
    if useWin {
      var wins := Winds(tr, w, steps, k, cap);
      ok := ok && wins;
    }
  }

  // ---------------------------------------------------------------- tail drop

  /** The totals of one step j > 0: backlog c, offered i, enqueued e, dropped d. */
  ghost predicate StepTotals(c: int, i: int, e: int, d: int, cap: int) {
    && i == e + d
    && e + c <= cap
    && if c > 0 then d > 0 ==> c + e == cap else d == 0
  }

  /**
    Tail drop is exact, but only a backlogged buffer may drop: the constraints admit a split of the
    input exactly when as much is enqueued as there is room for and an empty buffer is not offered
    more than its capacity.
   */
  lemma TailDropExact(c: int, i: int, e: int, d: int, cap: int)
    requires 0 <= c <= cap && e >= 0 && d >= 0
    ensures StepTotals(c, i, e, d, cap) <==> i == e + d && e == Min(i, cap - c) && (c == 0 ==> i <= cap)
  {
  }

  lemma RunStep(tr: Trace, steps: nat, k: nat, cap: int, j: nat)
    requires BufferRun(tr, steps, k, cap) && j < steps
    ensures StepShaped(tr, k, j)
    ensures tr.b[j] == (Sum(tr.c[j]) > 0)
    ensures StepTotals(Sum(tr.c[j]), Sum(tr.i[j]), Sum(tr.e[j]), Sum(tr.d[j]), cap)
    ensures Sum(tr.c[j]) >= 0 && Sum(tr.e[j]) >= 0 && Sum(tr.d[j]) >= 0 && Sum(tr.o[j]) >= 0
  {
    assert StepOk(tr, k, cap, j);
    SumOfCounts(tr.c[j]);
    SumOfCounts(tr.e[j]);
    SumOfCounts(tr.d[j]);
    SumOfCounts(tr.o[j]);
    SumAdd(tr.e[j], tr.d[j]);
    SumAdd(tr.e[j], tr.c[j]);
    SumAdd(tr.c[j], tr.e[j]);
  }

  lemma RunTailDrop(tr: Trace, steps: nat, k: nat, cap: int, j: nat)
    requires BufferRun(tr, steps, k, cap) && j < steps
    ensures Sum(tr.e[j]) == Min(Sum(tr.i[j]), cap - Sum(tr.c[j]))
    ensures Sum(tr.c[j]) == 0 ==> Sum(tr.i[j]) <= cap
  {
    RunStep(tr, steps, k, cap, j);
    TailDropExact(Sum(tr.c[j]), Sum(tr.i[j]), Sum(tr.e[j]), Sum(tr.d[j]), cap);
  }
}
