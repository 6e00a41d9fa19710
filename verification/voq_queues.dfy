/** A switch whose VOQs are FIFO queues with tail drop: its counts satisfy every constraint family. */
module VoqQueues {
  import opened CountVectors
  import opened BufferTrace
  import opened StableMatching
  import opened VoqSwitch
  import opened Voqs
  import opened VoqRuns
  import opened FifoQueue
  import opened FifoSimulation
  import opened VoqSystem
  import LeafBuffer

  type Arrivals = map<Voq, seq<seq<nat>>>
  type Histories = map<Voq, seq<Step>>

  /** VOQ e is flagged when its queue holds a packet, and a packet leaves when it is matched. */
  ghost predicate FollowsQueue(voqs: seq<Voq>, x: Snapshot, h: seq<Step>, cap: nat, e: Voq, t: nat) {
    && WellShaped(voqs, x) && e in voqs && t < |h|
    && x.b[e] == (Queue(h, cap, t) != [])
    && h[t].deq == Matched(voqs, x, In, e)
  }

  ghost predicate OfferedTo(h: seq<Step>, offered: seq<seq<nat>>, steps: nat) {
    |h| == steps <= |offered| && forall t :: 0 <= t < steps ==> h[t].arrivals == offered[t]
  }

  ghost predicate Offered(voqs: seq<Voq>, hs: Histories, arrivals: Arrivals, steps: nat) {
    forall e :: e in voqs ==> e in hs && e in arrivals && OfferedTo(hs[e], arrivals[e], steps)
  }

  ghost predicate FollowsThroughout(voqs: seq<Voq>, xs: seq<Snapshot>, h: seq<Step>, cap: nat, e: Voq) {
    forall t :: 0 <= t < |xs| ==> FollowsQueue(voqs, xs[t], h, cap, e, t)
  }

  ghost predicate AllFollow(voqs: seq<Voq>, xs: seq<Snapshot>, hs: Histories, cap: nat) {
    forall e :: e in voqs ==> e in hs && FollowsThroughout(voqs, xs, hs[e], cap, e)
  }

  /** A run of the switch of queues with the given arrivals. */
  ghost predicate QueueSwitchRun(voqs: seq<Voq>, xs: seq<Snapshot>, hs: Histories, arrivals: Arrivals, cap: nat) {
    && Run(voqs, xs)
    && Offered(voqs, hs, arrivals, |xs|)
    && AllFollow(voqs, xs, hs, cap)
  }

  // ---------------------------------------------------------------- closing the loop

  /** The queue before step j depends on the earlier steps only. */
  lemma {:induction false} QueueOfPrefix(h: seq<Step>, last: Step, cap: nat, j: nat)
    requires j <= |h|
    ensures Queue(h + [last], cap, j) == Queue(h, cap, j)
  {
    if j == 0 {
    } else {
      QueueOfPrefix(h, last, cap, j - 1);
      assert (h + [last])[j - 1] == h[j - 1];
    }
  }

  ghost function Flags(voqs: seq<Voq>, hs: Histories, cap: nat, t: nat): Backlog
    requires forall e :: e in voqs ==> e in hs && t <= |hs[e]|
  {
    map e | e in voqs :: Queue(hs[e], cap, t) != []
  }

  ghost function Extended(voqs: seq<Voq>, hs: Histories, arrivals: Arrivals, y: Snapshot, t: nat): Histories
    requires WellShaped(voqs, y) && forall e :: e in voqs ==> e in hs && e in arrivals && t < |arrivals[e]|
  {
    map e | e in voqs :: hs[e] + [Step(arrivals[e][t], Matched(voqs, y, In, e))]
  }

  lemma FollowsOld(voqs: seq<Voq>, x: Snapshot, h: seq<Step>, last: Step, cap: nat, e: Voq, t: nat)
    requires FollowsQueue(voqs, x, h, cap, e, t)
    ensures FollowsQueue(voqs, x, h + [last], cap, e, t)
  {
    QueueOfPrefix(h, last, cap, t);
  }

  lemma FollowsNew(voqs: seq<Voq>, y: Snapshot, h: seq<Step>, last: Step, cap: nat, e: Voq)
    requires WellShaped(voqs, y) && e in voqs && y.b[e] == (Queue(h, cap, |h|) != [])
    requires last.deq == Matched(voqs, y, In, e)
    ensures FollowsQueue(voqs, y, h + [last], cap, e, |h|)
  {
    QueueOfPrefix(h, last, cap, |h|);
  }

  /** One VOQ: its queue gets one step more. */
  lemma FollowNext(voqs: seq<Voq>, xs: seq<Snapshot>, h: seq<Step>, offered: seq<seq<nat>>, last: Step, cap: nat,
                   y: Snapshot, e: Voq)
    requires FollowsThroughout(voqs, xs, h, cap, e) && OfferedTo(h, offered, |xs|) && |xs| < |offered|
    requires WellShaped(voqs, y) && e in voqs && y.b[e] == (Queue(h, cap, |h|) != [])
    requires last == Step(offered[|xs|], Matched(voqs, y, In, e))
    ensures FollowsThroughout(voqs, xs + [y], h + [last], cap, e) && OfferedTo(h + [last], offered, |xs| + 1)
  {
    forall t | 0 <= t < |xs| + 1
      ensures FollowsQueue(voqs, (xs + [y])[t], h + [last], cap, e, t)
    {
      if t < |xs| {
        FollowsOld(voqs, xs[t], h, last, cap, e, t);
      } else {
        FollowsNew(voqs, y, h, last, cap, e);
      }
    }
  }

  lemma Continue(voqs: seq<Voq>, xs: seq<Snapshot>, hs: Histories, arrivals: Arrivals, cap: nat, y: Snapshot)
    requires Run(voqs, xs + [y]) && Offered(voqs, hs, arrivals, |xs|) && AllFollow(voqs, xs, hs, cap)
    requires forall e :: e in voqs ==> |xs| < |arrivals[e]|
    requires y.b == Flags(voqs, hs, cap, |xs|) && WellShaped(voqs, y)
    ensures QueueSwitchRun(voqs, xs + [y], Extended(voqs, hs, arrivals, y, |xs|), arrivals, cap)
  {
    var hs' := Extended(voqs, hs, arrivals, y, |xs|);
    forall e | e in voqs
      ensures e in hs' && FollowsThroughout(voqs, xs + [y], hs'[e], cap, e) && OfferedTo(hs'[e], arrivals[e], |xs| + 1)
    {
      FollowNext(voqs, xs, hs[e], arrivals[e], Step(arrivals[e][|xs|], Matched(voqs, y, In, e)), cap, y, e);
    }
  }

  lemma LastShaped(voqs: seq<Voq>, xs: seq<Snapshot>, y: Snapshot)
    requires Run(voqs, xs + [y])
    ensures WellShaped(voqs, y)
  {
    assert (xs + [y])[|xs|] == y;
  }

  /** Whatever arrives, the switch of queues has a run of any length. */
  lemma {:induction false} QueueSwitchRuns(voqs: seq<Voq>, arrivals: Arrivals, cap: nat, steps: nat)
    returns (xs: seq<Snapshot>, hs: Histories)
    requires Distinct(voqs) && steps > 0
    requires forall e :: e in voqs ==> e in arrivals && steps <= |arrivals[e]|
    ensures |xs| == steps && QueueSwitchRun(voqs, xs, hs, arrivals, cap)
  {
    if steps == 1 {
      var none: Histories := map e | e in voqs :: [];
      var y := RunStarts(voqs, Flags(voqs, none, cap, 0));
      assert [] + [y] == [y];
      Continue(voqs, [], none, arrivals, cap, y);
      xs, hs := [] + [y], Extended(voqs, none, arrivals, y, 0);
    } else {
      var front, before := QueueSwitchRuns(voqs, arrivals, cap, steps - 1);
      var y := RunContinues(voqs, front, Flags(voqs, before, cap, steps - 1));
      LastShaped(voqs, front, y);
      Continue(voqs, front, before, arrivals, cap, y);
      xs, hs := front + [y], Extended(voqs, before, arrivals, y, steps - 1);
    }
  }

  // ---------------------------------------------------------------- down to counts

  /** The counts of one queue: the variables of the VOQ. */
  ghost function CountsOf(h: seq<Step>, k: nat, cap: nat): (tr: Trace)
    ensures LeafImage(h, tr, k, cap)
  {
    var n := |h|;
    Trace(seq(n, j requires 0 <= j < n => CountOf(h[j].arrivals, k)),
          seq(n, j requires 0 <= j < n => CountOf(Admissions(h, cap, j), k)),
          seq(n, j requires 0 <= j < n => CountOf(Dropped(Queue(h, cap, j), h[j].arrivals, cap), k)),
          seq(n, j requires 0 <= j < n => CountOf(Departed(h, cap, j), k)),
          seq(n, j requires 0 <= j < n => CountOf(Queue(h, cap, j), k)),
          seq(n, j requires 0 <= j < n => |Queue(h, cap, j)| > 0))
  }

  /** Every VOQ is offered packets of the k types for all steps. */
  ghost predicate TypedArrivals(voqs: seq<Voq>, arrivals: Arrivals, steps: nat, k: nat) {
    forall e :: e in voqs ==>
      e in arrivals && steps <= |arrivals[e]| && forall t :: 0 <= t < steps ==> Typed(arrivals[e][t], k)
  }

  ghost predicate NotFlooded(h: seq<Step>, cap: nat) {
    forall t :: 0 <= t < |h| && Queue(h, cap, t) == [] ==> |h[t].arrivals| <= cap
  }

  /** No VOQ is offered more than its capacity while its queue is empty. */
  ghost predicate NeverFlooded(voqs: seq<Voq>, hs: Histories, cap: nat) {
    forall e :: e in voqs && e in hs ==> NotFlooded(hs[e], cap)
  }

  /** A matched VOQ holds a packet, so what it sends is in its queue. */
  lemma LeafSteps(voqs: seq<Voq>, xs: seq<Snapshot>, hs: Histories, arrivals: Arrivals, k: nat, cap: nat, e: Voq)
    requires QueueSwitchRun(voqs, xs, hs, arrivals, cap) && NeverFlooded(voqs, hs, cap)
    requires TypedArrivals(voqs, arrivals, |xs|, k) && e in voqs
    ensures LeafFifoRun(hs[e], k, cap)
  {
    forall t | 0 <= t < |hs[e]|
      ensures LeafStep(hs[e], cap, t) && Typed(hs[e][t].arrivals, k)
    {
      assert FollowsQueue(voqs, xs[t], hs[e], cap, e, t);
      assert StepConstraints(voqs, xs[t]);
    }
  }

  lemma OutputOfStep(voqs: seq<Voq>, x: Snapshot, h: seq<Step>, k: nat, cap: nat, e: Voq, t: nat)
    requires FollowsQueue(voqs, x, h, cap, e, t) && TypedRun(h, k) && (h[t].deq ==> Queue(h, cap, t) != [])
    ensures Coupled(voqs, x, CountsOf(h, k, cap), e, t)
  {
    var tr := CountsOf(h, k, cap);
    assert LeafImageAt(h, tr, k, cap, t);
    QueueFits(h, cap, k, t);
    TypedParts(Filled(h, cap, t), |Departed(h, cap, t)|, k);
    SumCountOf(Departed(h, cap, t), k);
  }

  ghost function CountsOfAll(voqs: seq<Voq>, hs: Histories, k: nat, cap: nat): Traces
    requires forall e :: e in voqs ==> e in hs
  {
    map e | e in voqs :: CountsOf(hs[e], k, cap)
  }

  type AllWindows = map<Voq, LeafBuffer.Windows>

  ghost predicate WindowsFit(voqs: seq<Voq>, trs: Traces, ws: AllWindows, steps: nat, k: nat, cap: nat) {
    forall e :: e in voqs ==> e in trs && e in ws && LeafBuffer.WindowRun(trs[e], ws[e], steps, k, cap)
  }

  lemma BuffersJoin(front: seq<Voq>, last: Voq, hs: Histories, steps: nat, k: nat, cap: nat, before: AllWindows,
                    w: LeafBuffer.Windows)
    requires (forall e :: e in front ==> e in hs) && last in hs
    requires Buffers(front, CountsOfAll(front, hs, k, cap), steps, k, cap)
    requires WindowsFit(front, CountsOfAll(front, hs, k, cap), before, steps, k, cap)
    requires LeafBuffer.BufferRun(CountsOf(hs[last], k, cap), steps, k, cap)
    requires LeafBuffer.WindowRun(CountsOf(hs[last], k, cap), w, steps, k, cap)
    ensures Buffers(front + [last], CountsOfAll(front + [last], hs, k, cap), steps, k, cap)
    ensures WindowsFit(front + [last], CountsOfAll(front + [last], hs, k, cap), before[last := w], steps, k, cap)
  {
    var all, ws := CountsOfAll(front + [last], hs, k, cap), before[last := w];
    forall e | e in front + [last]
      ensures e in all && LeafBuffer.BufferRun(all[e], steps, k, cap)
      ensures e in ws && LeafBuffer.WindowRun(all[e], ws[e], steps, k, cap)
    {
      if e != last {
        assert e in front && CountsOfAll(front, hs, k, cap)[e] == all[e];
      }
    }
  }

  lemma {:induction false} BuffersFit(voqs: seq<Voq>, hs: Histories, steps: nat, k: nat, cap: nat)
    returns (ws: AllWindows)
    requires forall e :: e in voqs ==> e in hs && |hs[e]| == steps && LeafFifoRun(hs[e], k, cap)
    requires cap >= 1
    ensures Buffers(voqs, CountsOfAll(voqs, hs, k, cap), steps, k, cap)
    ensures WindowsFit(voqs, CountsOfAll(voqs, hs, k, cap), ws, steps, k, cap)
  {
    if |voqs| == 0 {
      ws := map[];
    } else {
      var front, last := voqs[..|voqs| - 1], voqs[|voqs| - 1];
      var before := BuffersFit(front, hs, steps, k, cap);
      var w := QueueRunIsLeafRun(hs[last], CountsOf(hs[last], k, cap), k, cap);
      ws := before[last := w];
      assert voqs == front + [last];
      BuffersJoin(front, last, hs, steps, k, cap, before, w);
    }
  }

  /** The input of VOQ e in step t is what it is offered. */
  ghost predicate InputAt(trs: Traces, arrivals: Arrivals, k: nat, e: Voq, t: int) {
    && e in trs && e in arrivals && 0 <= t < |arrivals[e]| && t < |trs[e].i|
    && trs[e].i[t] == CountOf(arrivals[e][t], k)
  }

  ghost predicate InputsAre(voqs: seq<Voq>, trs: Traces, arrivals: Arrivals, steps: nat, k: nat) {
    forall e, t :: e in voqs && 0 <= t < steps ==> InputAt(trs, arrivals, k, e, t)
  }

  /** A solution for the whole switch with these inputs, but for windows and the upper ends of the buffers' ranges. */
  ghost predicate FreeSolution(voqs: seq<Voq>, xs: seq<Snapshot>, trs: Traces, arrivals: Arrivals, steps: nat, k: nat,
                               cap: nat) {
    |xs| == steps && SystemRun(voqs, xs, trs, k, cap) && InputsAre(voqs, trs, arrivals, steps, k)
  }

  /** One VOQ: the counts of its queue are coupled to the matching and have the given inputs. */
  lemma QueueCoupled(voqs: seq<Voq>, xs: seq<Snapshot>, h: seq<Step>, offered: seq<seq<nat>>, k: nat, cap: nat,
                     e: Voq)
    requires FollowsThroughout(voqs, xs, h, cap, e) && OfferedTo(h, offered, |xs|) && LeafFifoRun(h, k, cap)
    ensures forall t :: 0 <= t < |xs| ==> Coupled(voqs, xs[t], CountsOf(h, k, cap), e, t)
    ensures forall t :: 0 <= t < |xs| ==> CountsOf(h, k, cap).i[t] == CountOf(offered[t], k)
  {
    forall t | 0 <= t < |xs|
      ensures Coupled(voqs, xs[t], CountsOf(h, k, cap), e, t)
    {
      assert LeafStep(h, cap, t);
      OutputOfStep(voqs, xs[t], h, k, cap, e, t);
    }
  }

  lemma QueuesSolve(voqs: seq<Voq>, xs: seq<Snapshot>, hs: Histories, arrivals: Arrivals, k: nat, cap: nat)
    returns (trs: Traces, ws: AllWindows)
    requires QueueSwitchRun(voqs, xs, hs, arrivals, cap) && NeverFlooded(voqs, hs, cap)
    requires TypedArrivals(voqs, arrivals, |xs|, k) && cap >= 1
    ensures FreeSolution(voqs, xs, trs, arrivals, |xs|, k, cap) && trs == CountsOfAll(voqs, hs, k, cap)
    ensures WindowsFit(voqs, trs, ws, |xs|, k, cap)
  {
    forall e | e in voqs
      ensures LeafFifoRun(hs[e], k, cap)
    {
      LeafSteps(voqs, xs, hs, arrivals, k, cap, e);
    }
    trs := CountsOfAll(voqs, hs, k, cap);
    ws := BuffersFit(voqs, hs, |xs|, k, cap);
    forall e | e in voqs
      ensures forall t :: 0 <= t < |xs| ==>
                Coupled(voqs, xs[t], trs[e], e, t) && trs[e].i[t] == CountOf(arrivals[e][t], k)
    {
      QueueCoupled(voqs, xs, hs[e], arrivals[e], k, cap, e);
    }
  }

  // ---------------------------------------------------------------- back from counts

  /** The step of a queue has the totals of the trace. */
  ghost predicate SameTotals(tr: Trace, h: seq<Step>, k: nat, t: nat) {
    && t < |h| && t < |tr.i| && t < |tr.o| && t < |tr.b|
    && Typed(h[t].arrivals, k) && Sum(tr.i[t]) == |h[t].arrivals|
    && Sum(tr.o[t]) == (if h[t].deq then 1 else 0) && (h[t].deq ==> tr.b[t])
  }

  ghost predicate AllSameTotals(tr: Trace, h: seq<Step>, m: nat, k: nat) {
    |h| == m && forall t :: 0 <= t < m ==> SameTotals(tr, h, k, t)
  }

  lemma TotalsTyped(tr: Trace, h: seq<Step>, m: nat, k: nat)
    requires AllSameTotals(tr, h, m, k)
    ensures TypedRun(h, k)
  {
    forall t | 0 <= t < m
      ensures Typed(h[t].arrivals, k)
    {
      assert SameTotals(tr, h, k, t);
    }
  }

  /** One step in totals: c packets queued, i offered, e admitted, o sent. */
  lemma LengthNext(h: seq<Step>, k: nat, cap: nat, j: nat, u: nat, c: int, i: int, e: int, o: int)
    requires TypedRun(h, k) && j < |h| && u == j + 1 && |Queue(h, cap, j)| == c && |h[j].arrivals| == i
    requires e == Min(i, cap - c) && o == (if h[j].deq then 1 else 0) && (h[j].deq ==> c > 0)
    ensures |Queue(h, cap, u)| == c + e - o
  {
    QueueFits(h, cap, k, j);
    StepSizes(h, cap, j);
  }

  /** The totals of a VOQ in step j and its backlog after it. */
  lemma TraceTotals(tr: Trace, m: nat, k: nat, cap: nat, j: nat, u: nat)
    requires LeafBuffer.BufferRun(tr, m, k, cap) && u == j + 1 < m
    ensures u < |tr.c| && u < |tr.e| && u < |tr.o| && u < |tr.i| && u < |tr.b|
    ensures Sum(tr.e[j]) == Min(Sum(tr.i[j]), cap - Sum(tr.c[j])) && tr.b[j] == (Sum(tr.c[j]) > 0)
    ensures Sum(tr.c[u]) == Sum(tr.c[j]) + Sum(tr.e[j]) - Sum(tr.o[j])
  {
    OneBuffer(tr, m, k, cap, j);
    LeafBuffer.RunTailDrop(tr, m, k, cap, j);
  }

  lemma NextLength(tr: Trace, h: seq<Step>, m: nat, k: nat, cap: nat, j: nat, u: nat)
    requires LeafBuffer.BufferRun(tr, m, k, cap) && AllSameTotals(tr, h, m, k) && u == j + 1 < m
    requires j < |tr.c| && |Queue(h, cap, j)| == Sum(tr.c[j])
    ensures u < |tr.c| && |Queue(h, cap, u)| == Sum(tr.c[u])
  {
    TraceTotals(tr, m, k, cap, j, u);
    TotalsTyped(tr, h, m, k);
    assert SameTotals(tr, h, k, j);
    LengthNext(h, k, cap, j, u, Sum(tr.c[j]), Sum(tr.i[j]), Sum(tr.e[j]), Sum(tr.o[j]));
  }

  lemma {:induction false} QueueLength(tr: Trace, h: seq<Step>, m: nat, k: nat, cap: nat, j: nat)
    requires LeafBuffer.BufferRun(tr, m, k, cap) && AllSameTotals(tr, h, m, k) && j < m
    ensures j < |tr.c| && |Queue(h, cap, j)| == Sum(tr.c[j])
  {
    if j == 0 {
      OneBuffer(tr, m, k, cap, j);
    } else {
      QueueLength(tr, h, m, k, cap, j - 1);
      NextLength(tr, h, m, k, cap, j - 1, j);
    }
  }

  /** The queues behind a run of counts: the same arrivals, and one packet sent in every step with a match. */
  ghost function QueuesOf(voqs: seq<Voq>, xs: seq<Snapshot>, arrivals: Arrivals): Histories
    requires Run(voqs, xs) && forall e :: e in voqs ==> e in arrivals && |xs| <= |arrivals[e]|
  {
    map e | e in voqs ::
      seq(|xs|, t requires 0 <= t < |xs| => Step(arrivals[e][t], Matched(voqs, xs[t], In, e)))
  }

  /** One VOQ: the queue has the totals of the counts, so it follows the switch and is not flooded. */
  lemma CountsFollow(voqs: seq<Voq>, xs: seq<Snapshot>, tr: Trace, h: seq<Step>, k: nat, cap: nat, e: Voq)
    requires (forall t :: 0 <= t < |xs| ==> Coupled(voqs, xs[t], tr, e, t)) && LeafBuffer.BufferRun(tr, |xs|, k, cap)
    requires AllSameTotals(tr, h, |xs|, k)
    requires forall t :: 0 <= t < |xs| ==>
               WellShaped(voqs, xs[t]) && e in voqs && h[t].deq == Matched(voqs, xs[t], In, e)
    ensures FollowsThroughout(voqs, xs, h, cap, e) && NotFlooded(h, cap)
  {
    forall t | 0 <= t < |xs|
      ensures FollowsQueue(voqs, xs[t], h, cap, e, t) && (Queue(h, cap, t) == [] ==> |h[t].arrivals| <= cap)
    {
      QueueLength(tr, h, |xs|, k, cap, t);
      OneBuffer(tr, |xs|, k, cap, t);
      LeafBuffer.RunTailDrop(tr, |xs|, k, cap, t);
      assert SameTotals(tr, h, k, t) && Coupled(voqs, xs[t], tr, e, t);
    }
  }

  lemma HistoryTotals(voqs: seq<Voq>, xs: seq<Snapshot>, trs: Traces, arrivals: Arrivals, k: nat, cap: nat, e: Voq)
    requires FreeSolution(voqs, xs, trs, arrivals, |xs|, k, cap) && TypedArrivals(voqs, arrivals, |xs|, k)
    requires e in voqs
    ensures AllSameTotals(trs[e], QueuesOf(voqs, xs, arrivals)[e], |xs|, k)
  {
    forall t | 0 <= t < |xs|
      ensures SameTotals(trs[e], QueuesOf(voqs, xs, arrivals)[e], k, t)
    {
      assert Coupled(voqs, xs[t], trs[e], e, t) && StepConstraints(voqs, xs[t]) && InputAt(trs, arrivals, k, e, t);
      SumCountOf(arrivals[e][t], k);
    }
  }

  lemma HistoryFollows(voqs: seq<Voq>, xs: seq<Snapshot>, trs: Traces, arrivals: Arrivals, k: nat, cap: nat, e: Voq,
                       h: seq<Step>)
    requires FreeSolution(voqs, xs, trs, arrivals, |xs|, k, cap) && TypedArrivals(voqs, arrivals, |xs|, k)
    requires e in voqs
    requires h == QueuesOf(voqs, xs, arrivals)[e]
    ensures FollowsThroughout(voqs, xs, h, cap, e) && OfferedTo(h, arrivals[e], |xs|) && NotFlooded(h, cap)
  {
    HistoryTotals(voqs, xs, trs, arrivals, k, cap, e);
    CountsFollow(voqs, xs, trs[e], h, k, cap, e);
  }

  lemma CountsAreQueues(voqs: seq<Voq>, xs: seq<Snapshot>, trs: Traces, arrivals: Arrivals, k: nat, cap: nat)
    returns (hs: Histories)
    requires FreeSolution(voqs, xs, trs, arrivals, |xs|, k, cap) && TypedArrivals(voqs, arrivals, |xs|, k)
    ensures QueueSwitchRun(voqs, xs, hs, arrivals, cap) && NeverFlooded(voqs, hs, cap)
    ensures hs == QueuesOf(voqs, xs, arrivals)
  {
    hs := QueuesOf(voqs, xs, arrivals);
    forall e | e in voqs
      ensures FollowsThroughout(voqs, xs, hs[e], cap, e) && OfferedTo(hs[e], arrivals[e], |xs|)
      ensures NotFlooded(hs[e], cap)
    {
      HistoryFollows(voqs, xs, trs, arrivals, k, cap, e, hs[e]);
    }
  }
}
