/**
  A contention point: several buffers (src/sts_checker.cpp) and a scheduler that decides what leaves
  them in each step.
 */
module Scheduler {
  import opened CountVectors
  import opened BufferTrace
  import opened StsBuffer
  import opened RoundRobin

  ghost predicate BuffersRun(bufs: seq<Trace>, steps: nat, k: nat, cap: int) {
    forall i :: 0 <= i < |bufs| ==> BufferRun(bufs[i], steps, k, cap)
  }

  /** Every buffer has an entry for step t. */
  ghost predicate HasStep(bufs: seq<Trace>, t: nat) {
    forall i :: 0 <= i < |bufs| ==>
      t < |bufs[i].b| && t < |bufs[i].o| && t < |bufs[i].e| && t < |bufs[i].c| && t < |bufs[i].d| && t < |bufs[i].i|
  }

  function Flags(bufs: seq<Trace>, t: nat): (b: seq<bool>)
    requires HasStep(bufs, t)
    ensures |b| == |bufs|
  {
    seq(|bufs|, i requires 0 <= i < |bufs| && HasStep(bufs, t) => bufs[i].b[t])
  }

  function Outs(bufs: seq<Trace>, t: nat): (v: Vec)
    requires HasStep(bufs, t)
    ensures |v| == |bufs|
  {
    seq(|bufs|, i requires 0 <= i < |bufs| && HasStep(bufs, t) => Sum(bufs[i].o[t]))
  }

  function Enqs(bufs: seq<Trace>, t: nat): (v: Vec)
    requires HasStep(bufs, t)
    ensures |v| == |bufs|
  {
    seq(|bufs|, i requires 0 <= i < |bufs| && HasStep(bufs, t) => Sum(bufs[i].e[t]))
  }

  /** Backlog totals after step t. */
  function Backlogs(bufs: seq<Trace>, t: nat): (v: Vec)
    requires HasStep(bufs, t)
    ensures |v| == |bufs|
  {
    seq(|bufs|, i requires 0 <= i < |bufs| && HasStep(bufs, t) => Sum(bufs[i].c[t]))
  }

  lemma RunHasStep(bufs: seq<Trace>, steps: nat, k: nat, cap: int, t: nat)
    requires BuffersRun(bufs, steps, k, cap) && t < steps
    ensures HasStep(bufs, t)
  {
  }

  lemma RunHasSteps(bufs: seq<Trace>, steps: nat, k: nat, cap: int)
    requires BuffersRun(bufs, steps, k, cap)
    ensures forall t :: 0 <= t < steps ==> HasStep(bufs, t)
  {
    forall t | 0 <= t < steps
      ensures HasStep(bufs, t)
    {
      RunHasStep(bufs, steps, k, cap, t);
    }
  }

  function BacklogBefore(bufs: seq<Trace>, t: nat): Vec
    requires t > 0 ==> HasStep(bufs, t - 1)
  {
    if t == 0 then Zero(|bufs|) else Backlogs(bufs, t - 1)
  }

  /** Per buffer: backlog after = backlog before + enqueues - outputs, all as totals over types. */
  lemma BufferTotals(bufs: seq<Trace>, steps: nat, k: nat, cap: int, t: nat)
    requires BuffersRun(bufs, steps, k, cap) && t < steps
    ensures HasStep(bufs, t) && (t > 0 ==> HasStep(bufs, t - 1))
    ensures Backlogs(bufs, t) == Sub(Add(BacklogBefore(bufs, t), Enqs(bufs, t)), Outs(bufs, t))
    ensures NonNegative(Backlogs(bufs, t)) && NonNegative(Outs(bufs, t)) && NonNegative(Enqs(bufs, t))
    ensures NonNegative(BacklogBefore(bufs, t))
    ensures forall i :: 0 <= i < |bufs| ==> Flags(bufs, t)[i] == (Add(BacklogBefore(bufs, t), Enqs(bufs, t))[i] > 0)
  {
    RunHasStep(bufs, steps, k, cap, t);
    forall i | 0 <= i < |bufs|
      ensures BacklogBefore(bufs, t)[i] >= 0 && Enqs(bufs, t)[i] >= 0 && Outs(bufs, t)[i] >= 0
      ensures Backlogs(bufs, t)[i] >= 0
      ensures Backlogs(bufs, t)[i] == BacklogBefore(bufs, t)[i] + Enqs(bufs, t)[i] - Outs(bufs, t)[i]
      ensures Flags(bufs, t)[i] == (BacklogBefore(bufs, t)[i] + Enqs(bufs, t)[i] > 0)
    {
      RunStep(bufs[i], steps, k, cap, t);
      SumZero(k);
    }
  }

  // ---------------------------------------------------------------- work conservation

  /** Exactly one packet leaves when some buffer is backlogged, none otherwise. */
  ghost predicate ServesOne(bufs: seq<Trace>, t: nat)
    requires HasStep(bufs, t)
  {
    Sum(Outs(bufs, t)) == if Some(Flags(bufs, t)) then 1 else 0
  }

  lemma PositiveSum(v: Vec)
    requires NonNegative(v)
    ensures Sum(v) > 0 <==> exists i :: 0 <= i < |v| && v[i] > 0
  {
    SumOfCounts(v);
  }

  /** The total backlog follows a recursion that mentions neither the scheduler nor the buffers. */
  lemma TotalBacklogStep(bufs: seq<Trace>, steps: nat, k: nat, cap: int, t: nat)
    requires BuffersRun(bufs, steps, k, cap) && t < steps && HasStep(bufs, t) && ServesOne(bufs, t)
    ensures t > 0 ==> HasStep(bufs, t - 1)
    ensures var work := Sum(BacklogBefore(bufs, t)) + Sum(Enqs(bufs, t));
            Sum(Backlogs(bufs, t)) == if work > 0 then work - 1 else 0
  {
    BufferTotals(bufs, steps, k, cap, t);
    var offered := Add(BacklogBefore(bufs, t), Enqs(bufs, t));
    SumAdd(BacklogBefore(bufs, t), Enqs(bufs, t));
    SumSub(offered, Outs(bufs, t));
    PositiveSum(offered);
    assert Some(Flags(bufs, t)) <==> exists i :: 0 <= i < |bufs| && offered[i] > 0 by {
      if i :| 0 <= i < |bufs| && offered[i] > 0 {
        assert Flags(bufs, t)[i];
      }
      if i :| 0 <= i < |bufs| && Flags(bufs, t)[i] {
        assert offered[i] > 0;
      }
    }
    SumOfCounts(offered);
  }

  ghost predicate Conserving(bufs: seq<Trace>, steps: nat, k: nat, cap: int) {
    && BuffersRun(bufs, steps, k, cap)
    && forall t :: 0 <= t < steps ==> HasStep(bufs, t) && ServesOne(bufs, t)
  }

  ghost predicate SameLoad(x: seq<Trace>, y: seq<Trace>, t: nat) {
    HasStep(x, t) && HasStep(y, t) && Sum(Enqs(x, t)) == Sum(Enqs(y, t))
  }

  lemma SameWorkSameBacklog(x: seq<Trace>, y: seq<Trace>, steps: nat, kx: nat, capx: int, ky: nat, capy: int, t: nat)
    requires BuffersRun(x, steps, kx, capx) && BuffersRun(y, steps, ky, capy) && t < steps
    requires SameLoad(x, y, t) && ServesOne(x, t) && ServesOne(y, t)
    requires t > 0 ==> HasStep(x, t - 1) && HasStep(y, t - 1)
    requires Sum(BacklogBefore(x, t)) == Sum(BacklogBefore(y, t))
    ensures Sum(Backlogs(x, t)) == Sum(Backlogs(y, t))
  {
    TotalBacklogStep(x, steps, kx, capx, t);
    TotalBacklogStep(y, steps, ky, capy, t);
  }

  /**
    Two contention points with work-conserving schedulers and the same number of admitted packets in
    every step have the same total backlog in every step, whatever the policies, the number of
    buffers, the packet types and the capacities are.
   */
  lemma {:induction false} BacklogPolicyIndependent(x: seq<Trace>, y: seq<Trace>, steps: nat, kx: nat, capx: int,
                                                    ky: nat, capy: int, t: nat)
    requires Conserving(x, steps, kx, capx) && Conserving(y, steps, ky, capy) && t < steps
    requires forall u :: 0 <= u <= t ==> SameLoad(x, y, u)
    ensures HasStep(x, t) && HasStep(y, t) && Sum(Backlogs(x, t)) == Sum(Backlogs(y, t))
  {
    assert SameLoad(x, y, t);
    if t > 0 {
      BacklogPolicyIndependent(x, y, steps, kx, capx, ky, capy, t - 1);
    } else {
      SumZero(|x|);
      SumZero(|y|);
    }
    SameWorkSameBacklog(x, y, steps, kx, capx, ky, capy, t);
  }

  // ---------------------------------------------------------------- totals over time

  function OutBetween(bufs: seq<Trace>, a: nat, c: nat): int
    requires a <= c && forall t :: a <= t < c ==> HasStep(bufs, t)
  {
    if a == c then 0 else OutBetween(bufs, a, c - 1) + Sum(Outs(bufs, c - 1))
  }

  function EnqBetween(bufs: seq<Trace>, a: nat, c: nat): int
    requires a <= c && forall t :: a <= t < c ==> HasStep(bufs, t)
  {
    if a == c then 0 else EnqBetween(bufs, a, c - 1) + Sum(Enqs(bufs, c - 1))
  }

  /** Everything enqueued has left or is backlogged. */
  lemma {:induction false} TotalsConserved(bufs: seq<Trace>, steps: nat, k: nat, cap: int, c: nat)
    requires BuffersRun(bufs, steps, k, cap) && 0 < c <= steps
    ensures forall t :: 0 <= t < steps ==> HasStep(bufs, t)
    ensures EnqBetween(bufs, 0, c) == OutBetween(bufs, 0, c) + Sum(Backlogs(bufs, c - 1))
  {
    RunHasSteps(bufs, steps, k, cap);
    BufferTotals(bufs, steps, k, cap, c - 1);
    var before := BacklogBefore(bufs, c - 1);
    SumAdd(before, Enqs(bufs, c - 1));
    SumSub(Add(before, Enqs(bufs, c - 1)), Outs(bufs, c - 1));
    if c == 1 {
      SumZero(|bufs|);
    } else {
      TotalsConserved(bufs, steps, k, cap, c - 1);
    }
  }

  lemma OutNonNegative(bufs: seq<Trace>, steps: nat, k: nat, cap: int, t: nat)
    requires BuffersRun(bufs, steps, k, cap) && t < steps
    ensures HasStep(bufs, t) && Sum(Outs(bufs, t)) >= 0
  {
    BufferTotals(bufs, steps, k, cap, t);
    SumOfCounts(Outs(bufs, t));
  }

  lemma {:induction false} OutSplits(bufs: seq<Trace>, steps: nat, k: nat, cap: int, a: nat, c: nat)
    requires BuffersRun(bufs, steps, k, cap) && a <= c <= steps
    ensures forall t :: 0 <= t < steps ==> HasStep(bufs, t)
    ensures OutBetween(bufs, 0, c) == OutBetween(bufs, 0, a) + OutBetween(bufs, a, c)
    ensures OutBetween(bufs, a, c) >= 0
  {
    RunHasSteps(bufs, steps, k, cap);
    if a < c {
      OutSplits(bufs, steps, k, cap, a, c - 1);
      OutNonNegative(bufs, steps, k, cap, c - 1);
    }
  }
}
