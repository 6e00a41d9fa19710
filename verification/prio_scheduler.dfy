/** The strict-priority contention point of src/prio_sts.cpp; buffer 0 has the highest priority. */
module PrioScheduler {
  import opened CountVectors
  import opened BufferTrace
  import opened FifoQueue
  import opened RoundRobin
  import opened Scheduler
  import StsBuffer

  ghost predicate NoneBefore(b: seq<bool>, i: nat)
    requires i <= |b|
  {
    forall l :: 0 <= l < i ==> !b[l]
  }

  ghost predicate SendsAt(bufs: seq<Trace>, i: nat, t: nat)
    requires HasStep(bufs, t) && i < |bufs|
  {
    Sum(bufs[i].o[t]) == if NoneBefore(Flags(bufs, t), i) && Flags(bufs, t)[i] then 1 else 0
  }

  ghost predicate OutAt(bufs: seq<Trace>, t: nat)
    requires HasStep(bufs, t)
  {
    forall i :: 0 <= i < |bufs| ==> SendsAt(bufs, i, t)
  }

  /** out */
  method Out(bufs: seq<Trace>, t: nat) returns (res: bool)
    requires HasStep(bufs, t)
    ensures res <==> OutAt(bufs, t)
  {
    res := true;
    var notUntil := true;
    for i := 0 to |bufs|
      invariant notUntil <==> NoneBefore(Flags(bufs, t), i)
      invariant res <==> forall l :: 0 <= l < i ==> SendsAt(bufs, l, t)
    {
      assert (if notUntil && bufs[i].b[t] then Sum(bufs[i].o[t]) == 1 else Sum(bufs[i].o[t]) == 0)
             <==> SendsAt(bufs, i, t);
      res := res && if notUntil && bufs[i].b[t] then Sum(bufs[i].o[t]) == 1 else Sum(bufs[i].o[t]) == 0;
      assert NoneBefore(Flags(bufs, t), i + 1) <==> NoneBefore(Flags(bufs, t), i) && !Flags(bufs, t)[i];
      notUntil := notUntil && !bufs[i].b[t];
    }
  }

  /** trs: a backlogged buffer behind another backlogged buffer is still backlogged in the next step. */
  method Trs(b: seq<bool>, bp: seq<bool>) returns (res: bool)
    requires |b| == |bp|
    ensures res <==> forall i, l :: 0 <= i < l < |b| && b[i] && b[l] ==> bp[l]
  {
    res := true;
    for i := 0 to |b|
      invariant res <==> forall x, y :: 0 <= x < i && x < y < |b| && b[x] && b[y] ==> bp[y]
    {
      for l := i + 1 to |b|
        invariant res <==> && (forall x, y :: 0 <= x < i && x < y < |b| && b[x] && b[y] ==> bp[y])
                           && (forall y :: i < y < l && b[i] && b[y] ==> bp[y])
      {
        res := res && (b[i] ==> b[l] ==> bp[l]);
      }
    }
  }

  ghost predicate StepOk(bufs: seq<Trace>, t: nat) {
    HasStep(bufs, t) && OutAt(bufs, t)
  }

  ghost predicate Run(bufs: seq<Trace>, steps: nat, k: nat, cap: int) {
    && BuffersRun(bufs, steps, k, cap)
    && forall t :: 0 <= t < steps ==> StepOk(bufs, t)
  }

  /** The transition constraint is redundant: outputs and buffer accounting imply it on every run. */
  lemma TransitionImplied(bufs: seq<Trace>, steps: nat, k: nat, cap: int, t: nat)
    requires Run(bufs, steps, k, cap) && t + 1 < steps
    ensures HasStep(bufs, t) && HasStep(bufs, t + 1)
    ensures forall i, l :: 0 <= i < l < |bufs| && bufs[i].b[t] && bufs[l].b[t] ==> bufs[l].b[t + 1]
  {
    assert StepOk(bufs, t) && StepOk(bufs, t + 1);
    forall i, l | 0 <= i < l < |bufs| && bufs[i].b[t] && bufs[l].b[t]
      ensures bufs[l].b[t + 1]
    {
      assert SendsAt(bufs, l, t);
      assert Flags(bufs, t)[i];
      assert !NoneBefore(Flags(bufs, t), l);
      StsBuffer.RunStep(bufs[l], steps, k, cap, t);
      StsBuffer.RunStep(bufs[l], steps, k, cap, t + 1);
    }
  }

  // ---------------------------------------------------------------- work conservation

  lemma FirstIsServed(bufs: seq<Trace>, t: nat, f: nat)
    requires StepOk(bufs, t) && f < |bufs| && Flags(bufs, t)[f] && NoneBefore(Flags(bufs, t), f)
    ensures Outs(bufs, t) == Unit(f, |bufs|)
  {
    forall i | 0 <= i < |bufs|
      ensures Outs(bufs, t)[i] == Unit(f, |bufs|)[i]
    {
      assert SendsAt(bufs, i, t);
      assert i > f ==> !NoneBefore(Flags(bufs, t), i);
    }
  }

  lemma NoneIsServed(bufs: seq<Trace>, t: nat)
    requires StepOk(bufs, t) && !Some(Flags(bufs, t))
    ensures Outs(bufs, t) == Zero(|bufs|)
  {
    forall i | 0 <= i < |bufs|
      ensures Outs(bufs, t)[i] == 0
    {
      assert SendsAt(bufs, i, t);
      assert !Flags(bufs, t)[i];
    }
  }

  lemma ServesFirst(bufs: seq<Trace>, steps: nat, k: nat, cap: int, t: nat)
    requires Run(bufs, steps, k, cap) && t < steps
    ensures HasStep(bufs, t) && ServesOne(bufs, t)
  {
    assert StepOk(bufs, t);
    FirstOfSome(Flags(bufs, t));
    if Some(Flags(bufs, t)) {
      var f :| 0 <= f < |bufs| && Flags(bufs, t)[f] && forall l :: 0 <= l < f ==> !Flags(bufs, t)[l];
      FirstIsServed(bufs, t, f);
      SumUnit(f, |bufs|);
    } else {
      NoneIsServed(bufs, t);
      SumZero(|bufs|);
    }
  }

  /** Strict priority is work conserving. */
  lemma PriorityConserves(bufs: seq<Trace>, steps: nat, k: nat, cap: int)
    requires Run(bufs, steps, k, cap)
    ensures Conserving(bufs, steps, k, cap)
  {
    forall t | 0 <= t < steps
      ensures HasStep(bufs, t) && ServesOne(bufs, t)
    {
      ServesFirst(bufs, steps, k, cap, t);
    }
  }

  // ---------------------------------------------------------------- blocking

  lemma HigherStep(bufs: seq<Trace>, l: nat, t: nat)
    requires StepOk(bufs, t) && l <= |bufs|
    ensures StepOk(bufs[..l], t) && Flags(bufs[..l], t) == Flags(bufs, t)[..l]
  {
    var higher := bufs[..l];
    assert Flags(higher, t) == Flags(bufs, t)[..l];
    forall i | 0 <= i < l
      ensures SendsAt(higher, i, t)
    {
      assert SendsAt(bufs, i, t);
    }
  }

  /** The buffers with priority over l are themselves a priority contention point. */
  lemma HigherRun(bufs: seq<Trace>, steps: nat, k: nat, cap: int, l: nat)
    requires Run(bufs, steps, k, cap) && l <= |bufs|
    ensures Run(bufs[..l], steps, k, cap)
  {
    forall t | 0 <= t < steps
      ensures StepOk(bufs[..l], t)
    {
      assert StepOk(bufs, t);
      HigherStep(bufs, l, t);
    }
  }

  ghost predicate BlockedAt(bufs: seq<Trace>, l: nat, t: nat)
    requires l < |bufs| && HasStep(bufs, t)
  {
    bufs[l].b[t] && Sum(bufs[l].o[t]) == 0
  }

  /** Buffer l is backlogged and silent during [a, a + w). */
  ghost predicate Blocked(bufs: seq<Trace>, l: nat, a: nat, w: nat)
    requires l < |bufs|
  {
    forall t :: a <= t < a + w ==> HasStep(bufs, t) && BlockedAt(bufs, l, t)
  }

  lemma BlockedMeansHigherServed(bufs: seq<Trace>, steps: nat, k: nat, cap: int, l: nat, t: nat)
    requires Run(bufs, steps, k, cap) && l < |bufs| && t < steps && HasStep(bufs, t)
    ensures HasStep(bufs[..l], t)
    ensures bufs[l].b[t] ==> (Sum(bufs[l].o[t]) == 0 <==> Sum(Outs(bufs[..l], t)) == 1)
  {
    assert StepOk(bufs, t);
    HigherRun(bufs, steps, k, cap, l);
    HigherStep(bufs, l, t);
    ServesFirst(bufs[..l], steps, k, cap, t);
    assert SendsAt(bufs, l, t);
  }

  lemma HigherHasSteps(bufs: seq<Trace>, steps: nat, k: nat, cap: int, l: nat)
    requires Run(bufs, steps, k, cap) && l <= |bufs|
    ensures forall t :: 0 <= t < steps ==> HasStep(bufs[..l], t)
  {
    HigherRun(bufs, steps, k, cap, l);
    RunHasSteps(bufs[..l], steps, k, cap);
  }

  lemma {:induction false} BlockedWindow(bufs: seq<Trace>, steps: nat, k: nat, cap: int, l: nat, a: nat, w: nat)
    requires Run(bufs, steps, k, cap) && l < |bufs| && a + w <= steps && Blocked(bufs, l, a, w)
    ensures forall t :: 0 <= t < steps ==> HasStep(bufs[..l], t)
    ensures OutBetween(bufs[..l], a, a + w) == w
  {
    HigherHasSteps(bufs, steps, k, cap, l);
    if w == 0 {
    } else {
      BlockedWindow(bufs, steps, k, cap, l, a, w - 1);
      assert BlockedAt(bufs, l, a + w - 1);
      BlockedMeansHigherServed(bufs, steps, k, cap, l, a + w - 1);
    }
  }

  /**
    If buffer l is backlogged but silent for w steps in a row, then exactly w packets leave buffers of
    higher priority during these steps, so at least w packets were enqueued there by the end of them.
   */
  lemma BlockingNeedsLoad(bufs: seq<Trace>, steps: nat, k: nat, cap: int, l: nat, a: nat, w: nat)
    requires Run(bufs, steps, k, cap) && l < |bufs| && a + w <= steps && Blocked(bufs, l, a, w)
    ensures forall t :: 0 <= t < steps ==> HasStep(bufs[..l], t)
    ensures OutBetween(bufs[..l], a, a + w) == w
    ensures w > 0 ==> EnqBetween(bufs[..l], 0, a + w) >= w
  {
    BlockedWindow(bufs, steps, k, cap, l, a, w);
    if w > 0 {
      HigherRun(bufs, steps, k, cap, l);
      var higher := bufs[..l];
      TotalsConserved(higher, steps, k, cap, a + w);
      OutSplits(higher, steps, k, cap, a, a + w);
      OutSplits(higher, steps, k, cap, 0, a);
      BufferTotals(higher, steps, k, cap, a + w - 1);
      SumOfCounts(Backlogs(higher, a + w - 1));
    }
  }

  const QUERY_TRESH := 6

  /** query: buffer 2 is backlogged and silent for 6 steps in a row. */
  method QueryHolds(bufs: seq<Trace>, steps: nat) returns (res: bool)
    requires |bufs| > 2 && forall t :: 0 <= t < steps ==> HasStep(bufs, t)
    ensures res <==> exists a :: 0 <= a <= steps - 6 && Blocked(bufs, 2, a, 6)
  {
    res := false;
    var i := 0;
    while i < steps - QUERY_TRESH + 1
      invariant 0 <= i && (i == 0 || i <= steps - QUERY_TRESH + 1)
      invariant res <==> exists a :: 0 <= a < i && Blocked(bufs, 2, a, QUERY_TRESH)
    {
      var part := true;
      for j := 0 to QUERY_TRESH
        invariant part <==> Blocked(bufs, 2, i, j)
      {
        assert HasStep(bufs, i + j);
        part := part && bufs[2].b[i + j];
        part := part && Sum(bufs[2].o[i + j]) == 0;
        assert part ==> BlockedAt(bufs, 2, i + j);
        assert Blocked(bufs, 2, i, j + 1) ==> BlockedAt(bufs, 2, i + j);
      }
      res := res || part;
      i := i + 1;
    }
  }

  /** That needs 6 packets enqueued in buffers 0 and 1 by the end of these steps. */
  lemma QueryNeedsLoad(bufs: seq<Trace>, steps: nat, k: nat, cap: int, a: nat)
    requires Run(bufs, steps, k, cap) && |bufs| > 2 && a + 6 <= steps && Blocked(bufs, 2, a, 6)
    ensures forall t :: 0 <= t < steps ==> HasStep(bufs[..2], t)
    ensures EnqBetween(bufs[..2], 0, a + 6) >= 6
  {
    BlockingNeedsLoad(bufs, steps, k, cap, 2, a, 6);
  }
}
