/** When the constraints of a switch have a solution with given inputs, ranges included. */
module VoqRanges {
  import opened CountVectors
  import opened BufferTrace
  import opened FifoQueue
  import opened FifoSimulation
  import opened SplitRanges
  import opened StableMatching
  import opened VoqSwitch
  import opened Voqs
  import opened VoqRuns
  import opened VoqSystem
  import opened VoqQueues
  import FifoHistories
  import LeafBuffer

  ghost predicate AllInRanges(voqs: seq<Voq>, trs: Traces, rg: Ranges, cap: nat) {
    forall e :: e in voqs ==> e in trs && InRanges(trs[e], rg, cap)
  }

  /**
    A solution of all constraints of the switch with these inputs: matching, heads, buffers and ranges, and windows
    when they are in use.
   */
  ghost predicate Solution(voqs: seq<Voq>, xs: seq<Snapshot>, trs: Traces, ws: AllWindows, arrivals: Arrivals,
                           steps: nat, k: nat, cap: nat, rg: Ranges, useWin: bool) {
    && FreeSolution(voqs, xs, trs, arrivals, steps, k, cap) && AllInRanges(voqs, trs, rg, cap)
    && (useWin ==> WindowsFit(voqs, trs, ws, steps, k, cap))
  }

  // ---------------------------------------------------------------- the condition

  /** How many packets tail drop admits in step t. */
  function Room(h: seq<Step>, cap: nat, t: nat): int
    requires t < |h|
  {
    Min(|h[t].arrivals|, cap - |Queue(h, cap, t)|)
  }

  /**
    What a VOQ is offered in step t fits: the input is in its range and splits within the range of E and D
    at the number admitted, an empty queue is not offered more than its capacity, and a packet may be
    sent if one is.
   */
  ghost predicate StepFits(h: seq<Step>, k: nat, cap: nat, rg: Ranges, t: nat)
    requires t < |h|
  {
    && Within(CountOf(h[t].arrivals, k), rg.maxIn)
    && Splits(CountOf(h[t].arrivals, k), rg.maxEnq, Room(h, cap, t))
    && (Queue(h, cap, t) == [] ==> |h[t].arrivals| <= cap)
    && (h[t].deq ==> rg.maxDeq >= 1)
  }

  ghost predicate HistoryFits(h: seq<Step>, k: nat, cap: nat, rg: Ranges) {
    forall t :: 0 <= t < |h| ==> StepFits(h, k, cap, rg, t)
  }

  ghost predicate AllFit(voqs: seq<Voq>, hs: Histories, k: nat, cap: nat, rg: Ranges) {
    forall e :: e in voqs ==> e in hs && HistoryFits(hs[e], k, cap, rg)
  }

  // ---------------------------------------------------------------- it is necessary

  lemma SendsNeedsRange(o: Vec, maxDeq: nat)
    requires Within(o, maxDeq) && Sum(o) > 0
    ensures maxDeq >= 1
  {
    if maxDeq == 0 {
      SumZero(|o|);
      SumMonotone(o, Zero(|o|));
    }
  }

  lemma TraceFits(tr: Trace, h: seq<Step>, m: nat, k: nat, cap: nat, rg: Ranges, t: nat)
    requires LeafBuffer.BufferRun(tr, m, k, cap) && AllSameTotals(tr, h, m, k) && InRanges(tr, rg, cap) && t < m
    requires tr.i[t] == CountOf(h[t].arrivals, k) && NotFlooded(h, cap)
    ensures StepFits(h, k, cap, rg, t)
  {
    QueueLength(tr, h, m, k, cap, t);
    LeafBuffer.RunTailDrop(tr, m, k, cap, t);
    assert SameTotals(tr, h, k, t) && LeafBuffer.StepOk(tr, k, cap, t);
    SplitsWhen(tr.i[t], tr.e[t], tr.d[t], rg.maxEnq);
    if h[t].deq {
      SendsNeedsRange(tr.o[t], rg.maxDeq);
    }
  }

  lemma SolutionFits(voqs: seq<Voq>, xs: seq<Snapshot>, trs: Traces, ws: AllWindows, arrivals: Arrivals, k: nat,
                     cap: nat, rg: Ranges, useWin: bool) returns (hs: Histories)
    requires Solution(voqs, xs, trs, ws, arrivals, |xs|, k, cap, rg, useWin) && TypedArrivals(voqs, arrivals, |xs|, k)
    ensures QueueSwitchRun(voqs, xs, hs, arrivals, cap) && AllFit(voqs, hs, k, cap, rg)
  {
    hs := CountsAreQueues(voqs, xs, trs, arrivals, k, cap);
    forall e, t | e in voqs && 0 <= t < |xs|
      ensures StepFits(hs[e], k, cap, rg, t)
    {
      HistoryTotals(voqs, xs, trs, arrivals, k, cap, e);
      assert InputAt(trs, arrivals, k, e, t);
      TraceFits(trs[e], hs[e], |xs|, k, cap, rg, t);
    }
  }

  // ---------------------------------------------------------------- it is sufficient: rearranged arrivals

  /** The same packets in another order: what is admitted and what is dropped are within the range. */
  ghost predicate Rearranged(h: seq<Step>, s: Step, k: nat, cap: nat, rg: Ranges, t: nat)
    requires t < |h|
  {
    && s.deq == h[t].deq && Typed(s.arrivals, k) && |s.arrivals| == |h[t].arrivals|
    && CountOf(s.arrivals, k) == CountOf(h[t].arrivals, k)
    && 0 <= Room(h, cap, t)
    && Within(CountOf(s.arrivals[..Room(h, cap, t)], k), rg.maxEnq)
    && Within(CountOf(s.arrivals[Room(h, cap, t)..], k), rg.maxEnq)
  }

  lemma RearrangeStep(h: seq<Step>, k: nat, cap: nat, rg: Ranges, t: nat) returns (s: Step)
    requires TypedRun(h, k) && t < |h| && StepFits(h, k, cap, rg, t)
    ensures Rearranged(h, s, k, cap, rg, t)
  {
    QueueFits(h, cap, k, t);
    var input := CountOf(h[t].arrivals, k);
    assert Typed(h[t].arrivals, k);
    SumCountOf(h[t].arrivals, k);
    var e, d := ChooseSplit(input, rg.maxEnq, Room(h, cap, t));
    var first, rest := FifoHistories.Packets(e, k), FifoHistories.Packets(d, k);
    SumCountOf(first, k);
    SumCountOf(rest, k);
    SumAdd(e, d);
    s := Step(first + rest, h[t].deq);
    CountOfConcat(first, rest, k);
    assert s.arrivals[..|first|] == first && s.arrivals[|first|..] == rest;
  }

  ghost predicate IsRearranged(h: seq<Step>, g: seq<Step>, k: nat, cap: nat, rg: Ranges) {
    |g| == |h| && forall t :: 0 <= t < |h| ==> Rearranged(h, g[t], k, cap, rg, t)
  }

  lemma {:induction false} RearrangeSome(h: seq<Step>, k: nat, cap: nat, rg: Ranges, n: nat) returns (g: seq<Step>)
    requires TypedRun(h, k) && HistoryFits(h, k, cap, rg) && n <= |h|
    ensures |g| == n && forall t :: 0 <= t < n ==> Rearranged(h, g[t], k, cap, rg, t)
  {
    if n == 0 {
      g := [];
    } else {
      var before := RearrangeSome(h, k, cap, rg, n - 1);
      var s := RearrangeStep(h, k, cap, rg, n - 1);
      g := before + [s];
    }
  }

  lemma RearrangedExists(h: seq<Step>, k: nat, cap: nat, rg: Ranges)
    requires TypedRun(h, k) && HistoryFits(h, k, cap, rg)
    ensures exists g :: IsRearranged(h, g, k, cap, rg)
  {
    var g := RearrangeSome(h, k, cap, rg, |h|);
    assert IsRearranged(h, g, k, cap, rg);
  }

  ghost function Rearrange(h: seq<Step>, k: nat, cap: nat, rg: Ranges): (g: seq<Step>)
    requires TypedRun(h, k) && HistoryFits(h, k, cap, rg)
    ensures IsRearranged(h, g, k, cap, rg)
  {
    RearrangedExists(h, k, cap, rg);
    var g :| IsRearranged(h, g, k, cap, rg);
    g
  }

  lemma RearrangedTyped(h: seq<Step>, g: seq<Step>, k: nat, cap: nat, rg: Ranges)
    requires IsRearranged(h, g, k, cap, rg)
    ensures TypedRun(g, k)
  {
    forall t | 0 <= t < |g|
      ensures Typed(g[t].arrivals, k)
    {
      assert Rearranged(h, g[t], k, cap, rg, t);
    }
  }

  ghost predicate SameSizes(h: seq<Step>, g: seq<Step>) {
    |g| == |h| && forall t :: 0 <= t < |h| ==> |h[t].arrivals| == |g[t].arrivals| && h[t].deq == g[t].deq
  }

  /** Queue lengths depend only on how many packets arrive. */
  lemma {:induction false} SizesDecide(h: seq<Step>, g: seq<Step>, cap: nat, t: nat)
    requires SameSizes(h, g) && t <= |h|
    ensures |Queue(g, cap, t)| == |Queue(h, cap, t)| <= cap
  {
    if t == 0 {
    } else {
      SizesDecide(h, g, cap, t - 1);
      StepSizes(h, cap, t - 1);
      StepSizes(g, cap, t - 1);
    }
  }

  lemma SameLength(h: seq<Step>, g: seq<Step>, k: nat, cap: nat, rg: Ranges, t: nat)
    requires IsRearranged(h, g, k, cap, rg) && t <= |h|
    ensures |Queue(g, cap, t)| == |Queue(h, cap, t)|
  {
    forall u | 0 <= u < |h|
      ensures |h[u].arrivals| == |g[u].arrivals| && h[u].deq == g[u].deq
    {
      assert Rearranged(h, g[u], k, cap, rg, u);
    }
    SizesDecide(h, g, cap, t);
  }

  /** The rearranged queue's counts are in their ranges. */
  lemma StepInRanges(h: seq<Step>, g: seq<Step>, k: nat, cap: nat, rg: Ranges, t: nat)
    requires TypedRun(h, k) && HistoryFits(h, k, cap, rg) && IsRearranged(h, g, k, cap, rg) && t < |h|
    ensures var tr := CountsOf(g, k, cap);
            && Within(tr.i[t], rg.maxIn) && Within(tr.e[t], rg.maxEnq) && Within(tr.d[t], rg.maxEnq)
            && Within(tr.o[t], rg.maxDeq) && Within(tr.c[t], cap)
  {
    RearrangedTyped(h, g, k, cap, rg);
    SameLength(h, g, k, cap, rg, t);
    QueueFits(g, cap, k, t);
    QueueFits(h, cap, k, t);
    assert Rearranged(h, g[t], k, cap, rg, t) && StepFits(h, k, cap, rg, t);
    assert Admissions(g, cap, t) == g[t].arrivals[..Room(h, cap, t)];
    SumCountOf(Queue(g, cap, t), k);
    SumOfCounts(CountOf(Queue(g, cap, t), k));
    CountOfOne(Departed(g, cap, t), k);
    if !g[t].deq {
      CountOfNone(k);
    }
  }

  lemma RearrangedInRanges(h: seq<Step>, g: seq<Step>, k: nat, cap: nat, rg: Ranges)
    requires TypedRun(h, k) && HistoryFits(h, k, cap, rg) && IsRearranged(h, g, k, cap, rg)
    ensures InRanges(CountsOf(g, k, cap), rg, cap)
  {
    var tr := CountsOf(g, k, cap);
    forall t | 0 <= t < |g|
      ensures Within(tr.i[t], rg.maxIn) && Within(tr.e[t], rg.maxEnq) && Within(tr.d[t], rg.maxEnq)
      ensures Within(tr.o[t], rg.maxDeq) && Within(tr.c[t], cap)
    {
      StepInRanges(h, g, k, cap, rg, t);
    }
  }

  /** The switch is the same for rearranged arrivals: it depends on queue lengths alone. */
  lemma RearrangedFollows(voqs: seq<Voq>, xs: seq<Snapshot>, h: seq<Step>, g: seq<Step>, k: nat, cap: nat, rg: Ranges,
                          e: Voq)
    requires FollowsThroughout(voqs, xs, h, cap, e) && |h| == |xs|
    requires TypedRun(h, k) && HistoryFits(h, k, cap, rg) && IsRearranged(h, g, k, cap, rg)
    ensures FollowsThroughout(voqs, xs, g, cap, e) && NotFlooded(g, cap)
  {
    forall t | 0 <= t < |xs|
      ensures FollowsQueue(voqs, xs[t], g, cap, e, t) && (Queue(g, cap, t) == [] ==> |g[t].arrivals| <= cap)
    {
      SameLength(h, g, k, cap, rg, t);
      assert FollowsQueue(voqs, xs[t], h, cap, e, t) && Rearranged(h, g[t], k, cap, rg, t)
             && StepFits(h, k, cap, rg, t);
    }
  }

  function ArrivalsOf(h: seq<Step>): (offered: seq<seq<nat>>)
    ensures OfferedTo(h, offered, |h|)
  {
    seq(|h|, t requires 0 <= t < |h| => h[t].arrivals)
  }

  /** Histories of all VOQs, rearranged. */
  ghost predicate AllRearranged(voqs: seq<Voq>, hs: Histories, gs: Histories, k: nat, cap: nat, rg: Ranges) {
    forall e :: e in voqs ==>
      e in hs && e in gs && TypedRun(hs[e], k) && HistoryFits(hs[e], k, cap, rg)
        && IsRearranged(hs[e], gs[e], k, cap, rg)
  }

  lemma OfferedTyped(h: seq<Step>, offered: seq<seq<nat>>, steps: nat, k: nat)
    requires OfferedTo(h, offered, steps) && forall t :: 0 <= t < steps ==> Typed(offered[t], k)
    ensures TypedRun(h, k)
  {
  }

  lemma RearrangeAll(voqs: seq<Voq>, hs: Histories, arrivals: Arrivals, steps: nat, k: nat, cap: nat, rg: Ranges)
    returns (gs: Histories)
    requires Offered(voqs, hs, arrivals, steps) && TypedArrivals(voqs, arrivals, steps, k)
    requires AllFit(voqs, hs, k, cap, rg)
    ensures AllRearranged(voqs, hs, gs, k, cap, rg)
  {
    forall e | e in voqs
      ensures e in hs && TypedRun(hs[e], k) && HistoryFits(hs[e], k, cap, rg)
    {
      OfferedTyped(hs[e], arrivals[e], steps, k);
    }
    gs := map e | e in voqs :: Rearrange(hs[e], k, cap, rg);
  }

  /** The arrivals of the rearranged histories. */
  ghost function NewArrivals(voqs: seq<Voq>, gs: Histories): (r: Arrivals)
    requires forall e :: e in voqs ==> e in gs
    ensures forall e :: e in voqs ==> e in r && r[e] == ArrivalsOf(gs[e])
  {
    map e | e in voqs :: ArrivalsOf(gs[e])
  }

  lemma RearrangedRun(voqs: seq<Voq>, xs: seq<Snapshot>, hs: Histories, gs: Histories, arrivals: Arrivals, k: nat,
                      cap: nat, rg: Ranges)
    requires QueueSwitchRun(voqs, xs, hs, arrivals, cap) && AllRearranged(voqs, hs, gs, k, cap, rg)
    ensures QueueSwitchRun(voqs, xs, gs, NewArrivals(voqs, gs), cap) && NeverFlooded(voqs, gs, cap)
    ensures TypedArrivals(voqs, NewArrivals(voqs, gs), |xs|, k)
  {
    forall e | e in voqs
      ensures FollowsThroughout(voqs, xs, gs[e], cap, e) && NotFlooded(gs[e], cap)
      ensures OfferedTo(gs[e], ArrivalsOf(gs[e]), |xs|) && forall t :: 0 <= t < |xs| ==> Typed(ArrivalsOf(gs[e])[t], k)
    {
      assert OfferedTo(hs[e], arrivals[e], |xs|);
      RearrangedFollows(voqs, xs, hs[e], gs[e], k, cap, rg, e);
      RearrangedTyped(hs[e], gs[e], k, cap, rg);
    }
  }

  /** The inputs are still the given ones: counts do not see the order. */
  lemma SameInputs(voqs: seq<Voq>, trs: Traces, hs: Histories, gs: Histories, arrivals: Arrivals, steps: nat, k: nat,
                   cap: nat, rg: Ranges)
    requires Offered(voqs, hs, arrivals, steps) && AllRearranged(voqs, hs, gs, k, cap, rg)
    requires InputsAre(voqs, trs, NewArrivals(voqs, gs), steps, k)
    ensures InputsAre(voqs, trs, arrivals, steps, k)
  {
    forall e, t | e in voqs && 0 <= t < steps
      ensures InputAt(trs, arrivals, k, e, t)
    {
      assert InputAt(trs, NewArrivals(voqs, gs), k, e, t);
      assert OfferedTo(hs[e], arrivals[e], steps) && Rearranged(hs[e], gs[e][t], k, cap, rg, t);
      assert NewArrivals(voqs, gs)[e][t] == gs[e][t].arrivals;
    }
  }

  lemma FittingSolves(voqs: seq<Voq>, xs: seq<Snapshot>, hs: Histories, arrivals: Arrivals, k: nat, cap: nat,
                      rg: Ranges, useWin: bool) returns (trs: Traces, ws: AllWindows)
    requires QueueSwitchRun(voqs, xs, hs, arrivals, cap) && AllFit(voqs, hs, k, cap, rg)
    requires TypedArrivals(voqs, arrivals, |xs|, k) && cap >= 1
    ensures Solution(voqs, xs, trs, ws, arrivals, |xs|, k, cap, rg, useWin)
  {
    var gs := RearrangeAll(voqs, hs, arrivals, |xs|, k, cap, rg);
    RearrangedRun(voqs, xs, hs, gs, arrivals, k, cap, rg);
    trs, ws := QueuesSolve(voqs, xs, gs, NewArrivals(voqs, gs), k, cap);
    SameInputs(voqs, trs, hs, gs, arrivals, |xs|, k, cap, rg);
    forall e | e in voqs
      ensures InRanges(trs[e], rg, cap)
    {
      RearrangedInRanges(hs[e], gs[e], k, cap, rg);
    }
  }

  /**
    For any typed arrivals and ranges, the constraints of the whole switch have a solution with exactly these
    inputs, with or without windows, if and only if the switch of FIFO queues has a run on them in which every step
    of every VOQ fits.
   */
  lemma SolvableExactlyWhen(voqs: seq<Voq>, arrivals: Arrivals, steps: nat, k: nat, cap: nat, rg: Ranges,
                            useWin: bool)
    requires TypedArrivals(voqs, arrivals, steps, k) && cap >= 1
    ensures (exists xs, trs, ws :: Solution(voqs, xs, trs, ws, arrivals, steps, k, cap, rg, useWin))
            <==> exists xs, hs ::
                   |xs| == steps && QueueSwitchRun(voqs, xs, hs, arrivals, cap) && AllFit(voqs, hs, k, cap, rg)
  {
    if xs, trs, ws :| Solution(voqs, xs, trs, ws, arrivals, steps, k, cap, rg, useWin) {
      var hs := SolutionFits(voqs, xs, trs, ws, arrivals, k, cap, rg, useWin);
    }
    if xs, hs :| |xs| == steps && QueueSwitchRun(voqs, xs, hs, arrivals, cap) && AllFit(voqs, hs, k, cap, rg) {
      var trs, ws := FittingSolves(voqs, xs, hs, arrivals, k, cap, rg, useWin);
    }
  }

  // ---------------------------------------------------------------- small offers

  /** At most cap packets, and per type no more than the ranges of I and of E and D allow. */
  ghost predicate SmallOffer(offer: seq<nat>, k: nat, cap: nat, rg: Ranges) {
    |offer| <= cap && Within(CountOf(offer, k), rg.maxIn) && Within(CountOf(offer, k), rg.maxEnq)
  }

  lemma SmallOfferFits(h: seq<Step>, k: nat, cap: nat, rg: Ranges, t: nat)
    requires TypedRun(h, k) && t < |h| && SmallOffer(h[t].arrivals, k, cap, rg) && rg.maxDeq >= 1
    ensures StepFits(h, k, cap, rg, t)
  {
    QueueFits(h, cap, k, t);
    assert Typed(h[t].arrivals, k);
    SumCountOf(h[t].arrivals, k);
    SmallSplits(CountOf(h[t].arrivals, k), rg.maxEnq, Room(h, cap, t));
  }

  lemma SmallOffersFit(h: seq<Step>, offered: seq<seq<nat>>, steps: nat, k: nat, cap: nat, rg: Ranges)
    requires OfferedTo(h, offered, steps) && rg.maxDeq >= 1
    requires forall t :: 0 <= t < steps ==> Typed(offered[t], k) && SmallOffer(offered[t], k, cap, rg)
    ensures HistoryFits(h, k, cap, rg)
  {
    OfferedTyped(h, offered, steps, k);
    forall t | 0 <= t < |h|
      ensures StepFits(h, k, cap, rg, t)
    {
      SmallOfferFits(h, k, cap, rg, t);
    }
  }

  /** In particular there is a solution, windows included, whenever every offer is small. */
  lemma SwitchAdmitsArrivals(voqs: seq<Voq>, arrivals: Arrivals, steps: nat, k: nat, cap: nat, rg: Ranges,
                             useWin: bool) returns (xs: seq<Snapshot>, trs: Traces, ws: AllWindows)
    requires Distinct(voqs) && steps > 0 && cap >= 1 && rg.maxDeq >= 1 && TypedArrivals(voqs, arrivals, steps, k)
    requires forall e, t :: e in voqs && 0 <= t < steps ==> SmallOffer(arrivals[e][t], k, cap, rg)
    ensures Solution(voqs, xs, trs, ws, arrivals, steps, k, cap, rg, useWin)
  {
    var hs;
    xs, hs := QueueSwitchRuns(voqs, arrivals, cap, steps);
    forall e | e in voqs
      ensures HistoryFits(hs[e], k, cap, rg)
    {
      SmallOffersFit(hs[e], arrivals[e], steps, k, cap, rg);
    }
    trs, ws := FittingSolves(voqs, xs, hs, arrivals, k, cap, rg, useWin);
  }

  // ---------------------------------------------------------------- a capacity does not help against a range

  lemma FiveDoNotFit(h: seq<Step>, five: seq<nat>, cap: nat, rg: Ranges, first: nat)
    requires |h| == 1 && first == 0 && h[first].arrivals == five == [0, 0, 0, 0, 0] && cap == 10 && rg.maxEnq == 4
    ensures !HistoryFits(h, 1, cap, rg)
  {
    OneCount(five);
    OneSum(CountOf(five, 1));
    OneSum(Capped(CountOf(five, 1), rg.maxEnq));
    assert Room(h, cap, first) == 5;
    assert !StepFits(h, 1, cap, rg, first);
  }

  /** Five packets of one type in one step have no solution for capacity 10 when at most 4 can be enqueued. */
  lemma RangeBlocks(voqs: seq<Voq>, arrivals: Arrivals, five: seq<nat>, cap: nat, rg: Ranges, steps: nat,
                    useWin: bool)
    requires voqs == [(0, 1)] && steps == 1 && five == [0, 0, 0, 0, 0] && cap == 10 && rg == Ranges(10, 4, 1)
    requires arrivals == map[(0, 1) := [five]]
    ensures !exists xs, trs, ws :: Solution(voqs, xs, trs, ws, arrivals, steps, 1, cap, rg, useWin)
  {
    assert TypedArrivals(voqs, arrivals, steps, 1);
    assert (0, 1) in voqs;
    forall xs, hs | |xs| == steps && QueueSwitchRun(voqs, xs, hs, arrivals, cap)
      ensures !AllFit(voqs, hs, 1, cap, rg)
    {
      assert OfferedTo(hs[(0, 1)], arrivals[(0, 1)], steps);
      FiveDoNotFit(hs[(0, 1)], five, cap, rg, 0);
    }
    SolvableExactlyWhen(voqs, arrivals, steps, 1, cap, rg, useWin);
  }
}
