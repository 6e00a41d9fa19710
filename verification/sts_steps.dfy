/** One more step of a buffer of src/sts_checker.cpp, from the beginning on. */
module StsSteps {
  import opened CountVectors
  import opened BufferTrace
  import opened StsBuffer
  import F = FifoQueue

  /** The variables of one more step. */
  datatype Column = Column(i: Vec, e: Vec, d: Vec, o: Vec, c: Vec, b: bool)

  function Extend(tr: Trace, v: Column): Trace {
    Trace(tr.i + [v.i], tr.e + [v.e], tr.d + [v.d], tr.o + [v.o], tr.c + [v.c], tr.b + [v.b])
  }

  /** The variables of no step. */
  function Empty(): Trace {
    Trace([], [], [], [], [], [])
  }

  /** The backlog after the given number of steps. */
  function Last(tr: Trace, steps: nat, k: nat): (v: Vec)
    requires Shaped(tr, steps, k)
    ensures |v| == k
  {
    if steps == 0 then Zero(k) else tr.c[steps - 1]
  }

  lemma EmptyRun(k: nat, cap: int)
    ensures BufferRun(Empty(), 0, k, cap)
  {
  }

  lemma LastKept(tr: Trace, v: Column, steps: nat, k: nat)
    requires Shaped(tr, steps, k)
    ensures var x := Extend(tr, v);
            && |x.c| == |x.i| == |x.e| == |x.d| == |x.o| == |x.b| == steps + 1
            && (steps > 0 ==> x.c[steps - 1] == tr.c[steps - 1] && x.o[steps - 1] == tr.o[steps - 1])
            && x.i[steps] == v.i && x.e[steps] == v.e && x.d[steps] == v.d && x.o[steps] == v.o && x.c[steps] == v.c
            && x.b[steps] == v.b
  {
  }

  // ---------------------------------------------------------------- choosing what leaves

  /** A packet that fits the window and is really there. */
  lemma ChooseOutput(out: Vec, se: Vec, offered: Vec, sp: int, k: nat) returns (o: Vec)
    requires |out| == |se| == |offered| == k && LeV(out, se) && NonNegative(offered) && 0 <= sp <= 1
    requires sp == 1 ==> Sum(out) < Sum(se)
    requires forall t :: 0 <= t < k && out[t] < se[t] ==> offered[t] > 0
    ensures |o| == k && Within(o, 1) && Sum(o) == sp && LeV(o, offered) && LeV(Add(out, o), se)
  {
    if sp == 0 {
      o := Zero(k);
      SumZero(k);
    } else {
      if forall t :: 0 <= t < k ==> out[t] >= se[t] {
        SumMonotone(se, out);
      }
      var t :| 0 <= t < k && out[t] < se[t];
      o := F.Unit(t, k);
      F.SumUnit(t, k);
    }
  }

  /** Without windows any packet that is there can be sent. */
  lemma ChooseAny(last: Vec, e: Vec, sp: int, k: nat) returns (o: Vec)
    requires |last| == |e| == k && NonNegative(last) && NonNegative(e) && 0 <= sp <= 1
    requires sp == 1 ==> Sum(last) + Sum(e) > 0
    ensures |o| == k && Within(o, 1) && Sum(o) == sp && LeV(o, Add(last, e))
  {
    SumAdd(last, e);
    SumZero(k);
    o := ChooseOutput(Zero(k), Add(last, e), Add(last, e), sp, k);
  }

  lemma ColumnOk(last: Vec, e: Vec, o: Vec, cap: nat, k: nat)
    requires |last| == |e| == |o| == k && NonNegative(last) && NonNegative(e) && NonNegative(o) && LeV(o, Add(last, e))
    requires Sum(last) + Sum(e) <= cap
    ensures Sum(Add(last, e)) == Sum(last) + Sum(e) && Within(Sub(Add(last, e), o), cap)
  {
    var c := Sub(Add(last, e), o);
    SumAdd(last, e);
    SumSub(Add(last, e), o);
    SumOfCounts(o);
    SumOfCounts(c);
  }

  // ---------------------------------------------------------------- putting the step together

  lemma NewStepOk(tr: Trace, steps: nat, k: nat, cap: int, v: Column)
    requires Shaped(tr, steps, k)
    requires |v.i| == |v.e| == |v.d| == |v.o| == |v.c| == k && v.i == Add(v.e, v.d)
    requires v.c == Sub(Add(Last(tr, steps, k), v.e), v.o) && v.b == (Sum(Add(Last(tr, steps, k), v.e)) > 0)
    requires Sum(Add(Last(tr, steps, k), v.e)) <= cap
    requires if v.b then Sum(v.d) > 0 ==> Sum(Add(Last(tr, steps, k), v.e)) == cap else Sum(v.d) == 0
    ensures StepOk(Extend(tr, v), k, cap, steps)
  {
    LastKept(tr, v, steps, k);
    assert Offered(Extend(tr, v), k, steps) == Add(Last(tr, steps, k), v.e);
  }

  lemma OldStepOk(tr: Trace, steps: nat, k: nat, cap: int, v: Column, j: nat)
    requires Shaped(tr, steps, k) && j < steps && StepOk(tr, k, cap, j)
    ensures StepOk(Extend(tr, v), k, cap, j)
  {
    var x := Extend(tr, v);
    assert x.i[j] == tr.i[j] && x.e[j] == tr.e[j] && x.d[j] == tr.d[j];
    assert x.o[j] == tr.o[j] && x.c[j] == tr.c[j] && x.b[j] == tr.b[j] && (j > 0 ==> x.c[j - 1] == tr.c[j - 1]);
    assert Offered(x, k, j) == Offered(tr, k, j);
  }

  lemma ExtendedBuffer(tr: Trace, steps: nat, k: nat, cap: int, v: Column)
    requires BufferRun(tr, steps, k, cap) && StepOk(Extend(tr, v), k, cap, steps)
    requires NonNegative(v.i) && NonNegative(v.e) && NonNegative(v.d) && NonNegative(v.o) && NonNegative(v.c)
    ensures BufferRun(Extend(tr, v), steps + 1, k, cap)
  {
    forall j | 0 <= j < steps + 1
      ensures StepOk(Extend(tr, v), k, cap, j)
    {
      if j < steps {
        assert StepOk(tr, k, cap, j);
        OldStepOk(tr, steps, k, cap, v, j);
      }
    }
  }

  lemma ExtendedWithin(vs: seq<Vec>, v: Vec, upper: int)
    requires AllWithin(vs, upper) && Within(v, upper)
    ensures AllWithin(vs + [v], upper)
  {
  }
}
