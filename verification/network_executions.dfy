/** Executions of a network exist for all arrivals; they are solutions when the offers of the hosts fit. */
module NetworkExecutions {
  import opened CountVectors
  import opened BufferTrace
  import opened FifoQueue
  import opened FifoSimulation
  import opened FifoHistories
  import opened VoqSwitch
  import opened Voqs
  import opened VoqRuns
  import opened VoqSystem
  import opened VoqQueues
  import opened NetworkQueues
  import opened NetworkCarry
  import opened NetworkPorts
  import opened NetworkSolutions
  import opened NetworkExact
  import opened NetworkForward
  import LeafBuffer
  import LeafWindows

  // ---------------------------------------------------------------- queues execute

  lemma QueueMovesAt(h: seq<Step>, tr: Trace, kinds: nat, cap: nat, t: nat)
    requires TypedRun(h, kinds) && LeafImage(h, tr, kinds, cap) && t < |h|
    ensures Moves(tr, kinds, cap, t)
  {
    assert LeafImageAt(h, tr, kinds, cap, t);
    assert LeafBuffer.StepShaped(tr, kinds, t);
    assert t > 0 ==> LeafImageAt(h, tr, kinds, cap, t - 1);
    LeafBacklogImage(h, tr, kinds, cap, t);
    QueueTotal(h, kinds, cap, t, tr.c[t]);
    StepCounts(h, kinds, cap, t);
    StepTotals(h, kinds, cap, t);
    SumCountOf(h[t].arrivals, kinds);
    if t == 0 {
      CountOfNone(kinds);
    }
  }

  /** A FIFO queue does what the counts of a VOQ are asked to do, flooded or not. */
  lemma QueueMoves(h: seq<Step>, kinds: nat, cap: nat)
    requires TypedRun(h, kinds)
    ensures MovesThroughout(CountsOf(h, kinds, cap), |h|, kinds, cap)
  {
    var tr := CountsOf(h, kinds, cap);
    forall t | 0 <= t < |h|
      ensures Moves(tr, kinds, cap, t)
    {
      QueueMovesAt(h, tr, kinds, cap, t);
    }
  }

  /** A run of linked queues with packets of carried types only. */
  ghost predicate CarriedRun(net: Net, s: State, ext: seq<Arrivals>, carry: Carry, kinds: nat, cap: nat, steps: nat) {
    && NetRun(net, s, ext, cap, steps) && WellLinked(net, carry, kinds) && CarriedUntil(net, s.arrs, carry, steps)
    && steps > 0
  }

  ghost function CountsOfRun(net: Net, s: State, kinds: nat, cap: nat, steps: nat): (trss: seq<Traces>)
    requires NodeRuns(net, s, cap, steps)
    ensures |trss| == |net.nodes|
    ensures forall a :: 0 <= a < |net.nodes| ==> trss[a] == CountsOfAll(net.nodes[a], s.hss[a], kinds, cap)
  {
    seq(|net.nodes|, a requires 0 <= a < |net.nodes| =>
      assert NodeRun(net.nodes[a], s.xss[a], s.hss[a], s.arrs[a], cap, steps);
      CountsOfAll(net.nodes[a], s.hss[a], kinds, cap))
  }

  lemma CarriedTyped(net: Net, s: State, ext: seq<Arrivals>, carry: Carry, kinds: nat, cap: nat, steps: nat, a: nat,
                     e: Voq)
    requires CarriedRun(net, s, ext, carry, kinds, cap, steps) && a < |net.nodes| && e in net.nodes[a]
    ensures e in s.hss[a] && |s.hss[a][e]| == steps && TypedRun(s.hss[a][e], kinds)
    ensures e in carry[a] && forall u :: 0 <= u < steps ==> AllIn(s.hss[a][e][u].arrivals, carry[a][e])
  {
    assert NodeRun(net.nodes[a], s.xss[a], s.hss[a], s.arrs[a], cap, steps);
    assert OfferedTo(s.hss[a][e], s.arrs[a][e], steps);
    HistoryCarried(net, s.arrs, carry, s.hss[a][e], steps, steps, a, e);
    forall u | 0 <= u < steps
      ensures Typed(s.hss[a][e][u].arrivals, kinds)
    {
      assert forall x :: 0 <= x < |s.hss[a][e][u].arrivals| ==> s.hss[a][e][u].arrivals[x] in carry[a][e];
    }
  }

  lemma RunCounted(net: Net, s: State, ext: seq<Arrivals>, carry: Carry, kinds: nat, cap: nat, steps: nat, a: nat)
    requires CarriedRun(net, s, ext, carry, kinds, cap, steps) && a < |net.nodes|
    ensures NodeCounted(net, s, CountsOfRun(net, s, kinds, cap, steps)[a], kinds, cap, steps, a)
  {
    forall e | e in net.nodes[a]
      ensures TypedRun(s.hss[a][e], kinds)
    {
      CarriedTyped(net, s, ext, carry, kinds, cap, steps, a, e);
    }
  }

  lemma RunVoq(net: Net, s: State, ext: seq<Arrivals>, carry: Carry, kinds: nat, cap: nat, steps: nat, trs: Traces,
               a: nat, e: Voq)
    requires CarriedRun(net, s, ext, carry, kinds, cap, steps) && a < |net.nodes| && e in net.nodes[a]
    requires NodeCounted(net, s, trs, kinds, cap, steps, a)
    ensures e in trs && e in carry[a] && CountsOnly(trs[e], carry[a][e], steps, kinds)
    ensures MovesThroughout(trs[e], steps, kinds, cap)
    ensures |s.xss[a]| == steps && forall t :: 0 <= t < steps ==> Coupled(net.nodes[a], s.xss[a][t], trs[e], e, t)
  {
    CarriedTyped(net, s, ext, carry, kinds, cap, steps, a, e);
    assert NodeRun(net.nodes[a], s.xss[a], s.hss[a], s.arrs[a], cap, steps);
    QueueMoves(s.hss[a][e], kinds, cap);
    QueueCountsOnly(s.hss[a][e], carry[a][e], kinds, cap);
    forall t | 0 <= t < steps
      ensures Coupled(net.nodes[a], s.xss[a][t], trs[e], e, t)
    {
      VoqCounts(net.nodes[a], s.xss[a], s.hss[a], s.arrs[a], kinds, cap, steps, t, e);
    }
  }

  lemma RoutedIsTowards(d: seq<nat>, hop: seq<int>, r: int, kinds: nat)
    ensures CountOf(Towards(d, hop, r), kinds) == RoutedTo(CountOf(d, kinds), hop, r)
  {
    forall k | 0 <= k < kinds
      ensures CountOf(Towards(d, hop, r), kinds)[k] == RoutedTo(CountOf(d, kinds), hop, r)[k]
    {
      TowardsCount(d, hop, r, kinds, k);
    }
  }

  /** What comes to a VOQ of the run is what leaves over the link and is bound for its output. */
  lemma RunFed(net: Net, s: State, ext: seq<Arrivals>, carry: Carry, kinds: nat, cap: nat, steps: nat,
               trss: seq<Traces>, b: nat, e: Voq, t: nat)
    requires CarriedRun(net, s, ext, carry, kinds, cap, steps) && trss == CountsOfRun(net, s, kinds, cap, steps)
    requires b < |net.nodes| && e in net.nodes[b] && t < steps
    ensures Fed(net, trss, ext, kinds, b, e, t)
  {
    RunCounted(net, s, ext, carry, kinds, cap, steps, b);
    var i := LinkTo(net.links, b, e.0);
    if i < 0 {
      HostInput(net, s, ext, kinds, cap, steps, trss[b], b, e, t);
    } else {
      var l := net.links[i];
      RunCounted(net, s, ext, carry, kinds, cap, steps, l.fromNode);
      LinkOut(net, s, kinds, cap, steps, trss[l.fromNode], l, t);
      LinkIn(net, s, ext, kinds, cap, steps, trss[b], i, t);
      RoutedIsTowards(OverLink(net, s, cap, steps, l, t), net.hop[b], e.1, kinds);
    }
  }

  lemma RunExecutes(net: Net, s: State, ext: seq<Arrivals>, carry: Carry, kinds: nat, cap: nat, steps: nat)
    requires CarriedRun(net, s, ext, carry, kinds, cap, steps)
    ensures Executes(net, ext, carry, kinds, cap, steps, s.xss, CountsOfRun(net, s, kinds, cap, steps))
  {
    var trss := CountsOfRun(net, s, kinds, cap, steps);
    forall a, e | 0 <= a < |net.nodes| && e in net.nodes[a]
      ensures e in trss[a] && e in carry[a] && CountsOnly(trss[a][e], carry[a][e], steps, kinds)
      ensures MovesThroughout(trss[a][e], steps, kinds, cap)
      ensures |s.xss[a]| == steps && forall t :: 0 <= t < steps ==> Coupled(net.nodes[a], s.xss[a][t], trss[a][e], e, t)
    {
      RunCounted(net, s, ext, carry, kinds, cap, steps, a);
      RunVoq(net, s, ext, carry, kinds, cap, steps, trss[a], a, e);
    }
    forall a | 0 <= a < |net.nodes|
      ensures |s.xss[a]| == steps && Run(net.nodes[a], s.xss[a])
    {
      assert NodeRun(net.nodes[a], s.xss[a], s.hss[a], s.arrs[a], cap, steps);
    }
    forall a, e, t | 0 <= a < |net.nodes| && e in net.nodes[a] && 0 <= t < steps
      ensures Fed(net, trss, ext, kinds, a, e, t)
    {
      RunFed(net, s, ext, carry, kinds, cap, steps, trss, a, e, t);
    }
    ExecutionParts(net, ext, carry, kinds, cap, steps, s.xss, trss);
  }

  /** Whatever carried types the hosts send, and however much of them, the network has an execution. */
  lemma ExecutionExists(net: Net, ext: seq<Arrivals>, carry: Carry, kinds: nat, cap: nat, steps: nat)
    returns (xss: seq<seq<Snapshot>>, trss: seq<Traces>)
    requires WellLinked(net, carry, kinds) && steps > 0 && HostsCarried(net, ext, carry, steps)
    ensures Executes(net, ext, carry, kinds, cap, steps, xss, trss)
  {
    var s := NetworkRuns(net, ext, cap, steps);
    AllCarried(net, s, ext, carry, kinds, cap, steps);
    RunExecutes(net, s, ext, carry, kinds, cap, steps);
    xss, trss := s.xss, CountsOfRun(net, s, kinds, cap, steps);
  }

  // ---------------------------------------------------------------- which arrivals are admitted

  /** At every VOQ the outputs fit the ends of the windows. */
  ghost predicate OutputsFitWindows(net: Net, trss: seq<Traces>, steps: nat, kinds: nat, cap: nat) {
    && |trss| == |net.nodes|
    && forall a, e :: 0 <= a < |net.nodes| && e in net.nodes[a] ==>
         e in trss[a] && Shaped(trss[a][e], steps, kinds) && LeafWindows.AllOutputsFit(trss[a][e], steps, kinds, cap)
  }

  lemma CoupledSends(voqs: seq<Voq>, xs: seq<Snapshot>, tr: Trace, e: Voq)
    requires Run(voqs, xs) && |xs| <= |tr.o| && |xs| <= |tr.b|
    requires forall t :: 0 <= t < |xs| ==> Coupled(voqs, xs[t], tr, e, t)
    ensures SendsWhenBacklogged(tr, |xs|)
  {
    forall t | 0 <= t < |xs|
      ensures Sum(tr.o[t]) <= 1 && (Sum(tr.o[t]) == 1 ==> tr.b[t])
    {
      assert Coupled(voqs, xs[t], tr, e, t) && StepConstraints(voqs, xs[t]);
    }
  }

  /** A VOQ of a switch has windows if and only if its outputs fit their ends. */
  lemma VoqHasWindows(voqs: seq<Voq>, xs: seq<Snapshot>, tr: Trace, kinds: nat, cap: nat, e: Voq)
    requires Run(voqs, xs) && LeafBuffer.BufferRun(tr, |xs|, kinds, cap) && cap >= 1
    requires forall t :: 0 <= t < |xs| ==> Coupled(voqs, xs[t], tr, e, t)
    ensures (exists w :: LeafBuffer.WindowRun(tr, w, |xs|, kinds, cap))
            <==> LeafWindows.AllOutputsFit(tr, |xs|, kinds, cap)
  {
    CoupledSends(voqs, xs, tr, e);
    LeafWindows.HasWindowsExactlyWhen(tr, |xs|, kinds, cap);
  }

  /** An execution in which what the hosts offer fits and, with windows in use, the outputs fit their ends. */
  ghost predicate FittingExecution(net: Net, ext: seq<Arrivals>, carry: Carry, kinds: nat, cap: nat, rg: Ranges,
                                   useWin: bool, steps: nat, xss: seq<seq<Snapshot>>, trss: seq<Traces>) {
    && Executes(net, ext, carry, kinds, cap, steps, xss, trss) && HostsFit(net, trss, cap, rg, steps)
    && (useWin ==> OutputsFitWindows(net, trss, steps, kinds, cap))
  }

  lemma SolutionIsFitting(net: Net, ext: seq<Arrivals>, carry: Carry, kinds: nat, cap: nat, rg: Ranges, useWin: bool,
                          steps: nat, xss: seq<seq<Snapshot>>, trss: seq<Traces>, wss: seq<AllWindows>)
    requires WellLinked(net, carry, kinds) && cap >= 1
    requires NetSolution(net, ext, carry, kinds, cap, rg, useWin, steps, xss, trss, wss)
    ensures FittingExecution(net, ext, carry, kinds, cap, rg, useWin, steps, xss, trss)
  {
    SolutionExecutes(net, ext, carry, kinds, cap, rg, useWin, steps, xss, trss, wss);
    if useWin {
      forall a, e | 0 <= a < |net.nodes| && e in net.nodes[a]
        ensures e in trss[a] && Shaped(trss[a][e], steps, kinds)
        ensures LeafWindows.AllOutputsFit(trss[a][e], steps, kinds, cap)
      {
        assert NodeSolution(net.nodes[a], xss[a], trss[a], wss[a], kinds, cap, steps, useWin);
        assert LeafBuffer.WindowRun(trss[a][e], wss[a][e], steps, kinds, cap);
        VoqHasWindows(net.nodes[a], xss[a], trss[a][e], kinds, cap, e);
      }
    }
  }

  /** The windows of one VOQ, if there are any. */
  ghost function SomeWindows(tr: Trace, steps: nat, kinds: nat, cap: int): (w: LeafBuffer.Windows)
    ensures (exists v :: LeafBuffer.WindowRun(tr, v, steps, kinds, cap)) ==>
              LeafBuffer.WindowRun(tr, w, steps, kinds, cap)
  {
    if v :| LeafBuffer.WindowRun(tr, v, steps, kinds, cap) then v else LeafBuffer.Windows([], [], [], [], [])
  }

  ghost function AllSomeWindows(net: Net, trss: seq<Traces>, steps: nat, kinds: nat, cap: int): (wss: seq<AllWindows>)
    requires |trss| == |net.nodes|
    ensures |wss| == |net.nodes|
    ensures forall a, e :: 0 <= a < |net.nodes| && e in net.nodes[a] && e in trss[a] ==>
              e in wss[a] && wss[a][e] == SomeWindows(trss[a][e], steps, kinds, cap)
  {
    seq(|net.nodes|, a requires 0 <= a < |net.nodes| =>
      map e | e in net.nodes[a] && e in trss[a] :: SomeWindows(trss[a][e], steps, kinds, cap))
  }

  lemma FittingHasWindows(net: Net, ext: seq<Arrivals>, carry: Carry, kinds: nat, cap: nat, rg: Ranges, steps: nat,
                          xss: seq<seq<Snapshot>>, trss: seq<Traces>)
    requires WellLinked(net, carry, kinds) && cap >= 1 && SomeRanges(rg)
    requires FittingExecution(net, ext, carry, kinds, cap, rg, true, steps, xss, trss)
    ensures AllWindowsFit(net, trss, AllSomeWindows(net, trss, steps, kinds, cap), steps, kinds, cap)
  {
    ExecutionParts(net, ext, carry, kinds, cap, steps, xss, trss);
    ExecutionFits(net, ext, carry, kinds, cap, rg, steps, xss, trss);
    var wss := AllSomeWindows(net, trss, steps, kinds, cap);
    forall a, e | 0 <= a < |net.nodes| && e in net.nodes[a]
      ensures e in trss[a] && e in wss[a] && LeafBuffer.WindowRun(trss[a][e], wss[a][e], steps, kinds, cap)
    {
      VoqSolves(net.nodes[a], xss[a], trss[a], carry[a], kinds, cap, rg, steps, e);
      VoqHasWindows(net.nodes[a], xss[a], trss[a][e], kinds, cap, e);
    }
  }

  lemma FittingIsSolution(net: Net, ext: seq<Arrivals>, carry: Carry, kinds: nat, cap: nat, rg: Ranges, useWin: bool,
                          steps: nat, xss: seq<seq<Snapshot>>, trss: seq<Traces>)
    requires WellLinked(net, carry, kinds) && cap >= 1 && SomeRanges(rg)
    requires FittingExecution(net, ext, carry, kinds, cap, rg, useWin, steps, xss, trss)
    ensures Solvable(net, ext, carry, kinds, cap, rg, useWin, steps)
  {
    var wss := AllSomeWindows(net, trss, steps, kinds, cap);
    if useWin {
      FittingHasWindows(net, ext, carry, kinds, cap, rg, steps, xss, trss);
    }
    ExecutionSolves(net, ext, carry, kinds, cap, rg, useWin, steps, xss, trss, wss);
  }

  /**
    Which arrivals a network admits, with or without windows: its constraints have a solution with given arrivals if and
    only if it has an execution on them in which the offers of the hosts fit and, with windows, all outputs do.
   */
  lemma SolvableExactlyWhen(net: Net, ext: seq<Arrivals>, carry: Carry, kinds: nat, cap: nat, rg: Ranges,
                            useWin: bool, steps: nat)
    requires WellLinked(net, carry, kinds) && cap >= 1 && SomeRanges(rg)
    ensures Solvable(net, ext, carry, kinds, cap, rg, useWin, steps)
            <==> exists xss, trss :: FittingExecution(net, ext, carry, kinds, cap, rg, useWin, steps, xss, trss)
  {
    if Solvable(net, ext, carry, kinds, cap, rg, useWin, steps) {
      var xss, trss, wss :| NetSolution(net, ext, carry, kinds, cap, rg, useWin, steps, xss, trss, wss);
      SolutionIsFitting(net, ext, carry, kinds, cap, rg, useWin, steps, xss, trss, wss);
    }
    if xss, trss :| FittingExecution(net, ext, carry, kinds, cap, rg, useWin, steps, xss, trss) {
      FittingIsSolution(net, ext, carry, kinds, cap, rg, useWin, steps, xss, trss);
    }
  }
}
