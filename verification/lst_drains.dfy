/** The leaf-spine network empties once the hosts stop; every packet has then arrived or was dropped. */
module LstDrains {
  import opened CountVectors
  import opened BufferTrace
  import opened StableMatching
  import opened VoqSwitch
  import opened Voqs
  import opened VoqRuns
  import opened VoqSystem
  import opened VoqQueues
  import opened LstTables
  import opened LstNetwork
  import opened LstSolutions
  import opened LstConservation
  import opened NetworkQueues
  import opened NetworkCarry
  import opened NetworkPorts
  import opened NetworkSolutions
  import opened NetworkSums
  import opened NetworkFlows
  import opened NetworkDrains
  import opened FifoQueue
  import opened FifoSimulation
  import LeafBuffer

  // ---------------------------------------------------------------- weights

  /** How many switches a packet in VOQ e of switch a still has to leave. */
  function WeightOf(top: Topology, a: nat, e: Voq): int {
    if a >= top.leafs then 2 else if e.1 >= top.hosts then 3 else 1
  }

  ghost function LstWeight(x: Lst): (weight: seq<Values>)
    requires IsBuilt(x)
    ensures AllHave(NetOf(x), weight)
    ensures forall a, e :: 0 <= a < |weight| && e in NetOf(x).nodes[a] ==> weight[a][e] == WeightOf(x.top, a, e)
  {
    seq(|NetOf(x).nodes|, a requires 0 <= a < |NetOf(x).nodes| =>
      map e | e in NetOf(x).nodes[a] :: WeightOf(x.top, a, e))
  }

  function LstRank(x: Lst): seq<int> {
    seq(|x.links|, i requires 0 <= i < |x.links| => if x.links[i].fromNode < x.top.leafs then 2 else 1)
  }

  /** Every link brings a packet closer to its host. */
  lemma LstFalls(x: Lst)
    requires IsBuilt(x)
    ensures Falls(NetOf(x), LstWeight(x), LstRank(x))
  {
    LinksFitLst(x);
    forall i | 0 <= i < |x.links|
      ensures FallsAlong(NetOf(x), LstWeight(x), x.links[i], LstRank(x)[i])
    {
      assert x.links[i] in x.links && IsLink(x.top, x.links[i]);
    }
  }

  // ---------------------------------------------------------------- packets in the network

  ghost function NetBacklogs(net: Net, trss: seq<Traces>, t: nat): (vs: seq<Values>)
    requires NetHasStep(net, trss, t)
    ensures AllHave(net, vs) && forall a :: 0 <= a < |net.nodes| ==> vs[a] == Backlogs(net.nodes[a], trss[a], t)
  {
    seq(|net.nodes|, a requires 0 <= a < |net.nodes| => Backlogs(net.nodes[a], trss[a], t))
  }

  ghost function Packets(x: Lst, trss: seq<Traces>, t: nat): int
    requires IsBuilt(x) && NetHasStep(NetOf(x), trss, t)
  {
    NetTotal(NetOf(x), NetBacklogs(NetOf(x), trss, t), |NetOf(x).nodes|)
  }

  /** A packet weighs at least 1 and at most 3. */
  lemma PacketsWeigh(x: Lst, trss: seq<Traces>, t: nat)
    requires IsBuilt(x) && NetHasStep(NetOf(x), trss, t)
    ensures Packets(x, trss, t) <= Weight(NetOf(x), LstWeight(x), trss, t) <= 3 * Packets(x, trss, t)
  {
    var net, waiting, queues := NetOf(x), Waiting(NetOf(x), LstWeight(x), trss, t), NetBacklogs(NetOf(x), trss, t);
    forall a | 0 <= a < |net.nodes|
      ensures IsScaled(net.nodes[a], waiting[a], queues[a], 3) && IsAtMost(net.nodes[a], queues[a], waiting[a])
    {
      forall e | e in net.nodes[a]
        ensures queues[a][e] <= waiting[a][e] <= 3 * queues[a][e]
      {
        MulAtMost(1, WeightOf(x.top, a, e), Sum(trss[a][e].c[t]));
        MulAtMost(WeightOf(x.top, a, e), 3, Sum(trss[a][e].c[t]));
      }
    }
    NetTotalScaled(net, waiting, queues, 3, |net.nodes|);
    NetTotalAtMost(net, queues, waiting, |net.nodes|);
  }

  /** No packets means that every backlog is 0. */
  lemma NoPackets(x: Lst, trss: seq<Traces>, t: nat, a: nat, e: Voq)
    requires IsBuilt(x) && NetHasStep(NetOf(x), trss, t) && Packets(x, trss, t) <= 0
    requires a < |NetOf(x).nodes| && e in NetOf(x).nodes[a]
    ensures e in trss[a] && t < |trss[a][e].c| && Sum(trss[a][e].c[t]) == 0
  {
    NetTotalAtLeast(NetOf(x), NetBacklogs(NetOf(x), trss, t), |NetOf(x).nodes|, a, e);
  }

  // ---------------------------------------------------------------- draining

  lemma SolutionLinked(x: Lst, ext: seq<Arrivals>, cap: nat, rg: Ranges, useWin: bool, steps: nat,
                       xss: seq<seq<Snapshot>>, trss: seq<Traces>, wss: seq<AllWindows>)
    requires IsBuilt(x) && LstSolution(x, ext, cap, rg, useWin, steps, xss, trss, wss)
    ensures LinkedRun(NetOf(x), xss, trss, KindsOf(x), cap, steps)
  {
    LinksFitLst(x);
    LinkEndsDiffer(x.top, x.links, In);
    LinkEndsDiffer(x.top, x.links, Out);
    forall a | 0 <= a < |NetOf(x).nodes|
      ensures CoupledRun(NetOf(x).nodes[a], xss[a], trss[a], KindsOf(x), cap, steps)
    {
      assert NodeSolution(NetOf(x).nodes[a], xss[a], trss[a], wss[a], KindsOf(x), cap, steps, useWin);
    }
  }

  /** The hosts send nothing in steps first to last - 1. */
  ghost predicate HostsStop(x: Lst, ext: seq<Arrivals>, first: nat, last: nat)
    requires x.top.leafs <= |ext|
  {
    forall a, e, t :: 0 <= a < x.top.leafs && e in x.leafList && e.0 < x.top.hosts && first <= t < last ==>
      e in ext[a] && t < |ext[a][e]| && ext[a][e][t] == []
  }

  lemma SilentVoq(x: Lst, ext: seq<Arrivals>, cap: nat, rg: Ranges, useWin: bool, steps: nat, xss: seq<seq<Snapshot>>,
                  trss: seq<Traces>, wss: seq<AllWindows>, first: nat, last: nat, t: nat, a: nat, e: Voq)
    requires IsBuilt(x) && LstSolution(x, ext, cap, rg, useWin, steps, xss, trss, wss)
    requires HostsStop(x, ext, first, last) && first <= t < last < steps
    requires a < |NetOf(x).nodes| && e in NetOf(x).nodes[a] && Free(x.links, |x.links|, In, a, e.0)
    ensures e in trss[a] && t < |trss[a][e].i| && Sum(trss[a][e].i[t]) == 0
  {
    FreeIsHost(x.top, x.links, In, a, e.0);
    OuterIsHost(x, a, e);
    assert InputAt(trss[a], ext[a], KindsOf(x), e, t);
    assert ext[a][e][t] == [];
    CountOfNone(KindsOf(x));
    SumZero(KindsOf(x));
  }

  lemma SilentStep(x: Lst, ext: seq<Arrivals>, cap: nat, rg: Ranges, useWin: bool, steps: nat,
                   xss: seq<seq<Snapshot>>, trss: seq<Traces>, wss: seq<AllWindows>, first: nat, last: nat, t: nat)
    requires IsBuilt(x) && LstSolution(x, ext, cap, rg, useWin, steps, xss, trss, wss)
    requires HostsStop(x, ext, first, last) && first <= t < last < steps
    ensures SilentAt(NetOf(x), trss, t)
  {
    SolutionLinked(x, ext, cap, rg, useWin, steps, xss, trss, wss);
    AllHaveStep(NetOf(x), xss, trss, KindsOf(x), cap, steps, t);
    forall a, e | 0 <= a < |NetOf(x).nodes| && e in NetOf(x).nodes[a] && Free(x.links, |x.links|, In, a, e.0)
      ensures e in trss[a] && Sum(trss[a][e].i[t]) == 0
    {
      SilentVoq(x, ext, cap, rg, useWin, steps, xss, trss, wss, first, last, t, a, e);
    }
  }

  lemma SilentHosts(x: Lst, ext: seq<Arrivals>, cap: nat, rg: Ranges, useWin: bool, steps: nat,
                    xss: seq<seq<Snapshot>>, trss: seq<Traces>, wss: seq<AllWindows>, first: nat, last: nat)
    requires IsBuilt(x) && LstSolution(x, ext, cap, rg, useWin, steps, xss, trss, wss)
    requires HostsStop(x, ext, first, last) && last < steps
    ensures SilentBetween(NetOf(x), trss, first, last)
  {
    forall t | first <= t < last
      ensures SilentAt(NetOf(x), trss, t)
    {
      SilentStep(x, ext, cap, rg, useWin, steps, xss, trss, wss, first, last, t);
    }
  }

  /**
    Once the hosts stop, the network is empty after at most three steps per packet in it: in every solution, for
    every topology, workload, capacity and matching.
   */
  lemma EmptiesInTime(x: Lst, ext: seq<Arrivals>, cap: nat, rg: Ranges, useWin: bool, steps: nat,
                      xss: seq<seq<Snapshot>>, trss: seq<Traces>, wss: seq<AllWindows>, first: nat, last: nat)
    requires IsBuilt(x) && LstSolution(x, ext, cap, rg, useWin, steps, xss, trss, wss)
    requires first <= last < steps && HostsStop(x, ext, first, last)
    ensures NetHasStep(NetOf(x), trss, first) && NetHasStep(NetOf(x), trss, last)
    ensures last - first >= 3 * Packets(x, trss, first) ==>
              forall a, e :: 0 <= a < |trss| && e in NetOf(x).nodes[a] ==> Sum(trss[a][e].c[last]) == 0
  {
    SolutionLinked(x, ext, cap, rg, useWin, steps, xss, trss, wss);
    SilentHosts(x, ext, cap, rg, useWin, steps, xss, trss, wss, first, last);
    LstFalls(x);
    NetworkEmpties(NetOf(x), LstWeight(x), LstRank(x), xss, trss, KindsOf(x), cap, steps, first, last);
    PacketsWeigh(x, trss, first);
    PacketsWeigh(x, trss, last);
    if last - first >= 3 * Packets(x, trss, first) {
      forall a, e | 0 <= a < |trss| && e in NetOf(x).nodes[a]
        ensures Sum(trss[a][e].c[last]) == 0
      {
        NoPackets(x, trss, last, a, e);
      }
    }
  }

  // ---------------------------------------------------------------- arrived or dropped

  /** Packets of type k that the VOQs dropped in the first n steps. */
  ghost function NetDropped(net: Net, trss: seq<Traces>, steps: nat, cap: int, n: nat, kinds: nat,
                            k: nat): (vs: seq<Values>)
    requires NetRuns(net, trss, steps, kinds, cap) && n <= steps && k < kinds
    ensures AllHave(net, vs)
    ensures forall a, e :: 0 <= a < |net.nodes| && e in net.nodes[a] ==>
              vs[a][e] == Cumulative(trss[a][e].d, n, kinds)[k]
  {
    seq(|net.nodes|, a requires 0 <= a < |net.nodes| =>
      assert BufferRuns(net.nodes[a], trss[a], steps, kinds, cap);
      map e | e in net.nodes[a] :: Cumulative(trss[a][e].d, n, kinds)[k])
  }

  lemma EmptyKeeps(tr: Trace, steps: nat, kinds: nat, cap: int, n: nat, k: nat)
    requires LeafBuffer.BufferRun(tr, steps, kinds, cap) && 0 < n < steps && k < kinds && Sum(tr.c[n]) == 0
    ensures Kept(tr, n, kinds, k) == Cumulative(tr.d, n, kinds)[k]
  {
    assert LeafBuffer.StepOk(tr, kinds, cap, n);
    SumOfCounts(tr.c[n]);
    assert tr.c[n][k] == 0;
  }

  /** In an empty network all that is kept was dropped. */
  lemma EmptyMeansDropped(x: Lst, trss: seq<Traces>, cap: int, steps: nat, n: nat, k: nat)
    requires IsBuilt(x) && ListedRun(x, trss, cap, steps) && 0 < n < steps && k < KindsOf(x)
    requires NetHasStep(NetOf(x), trss, n)
    requires forall a, e :: 0 <= a < |trss| && e in NetOf(x).nodes[a] ==> Sum(trss[a][e].c[n]) == 0
    ensures StillInside(x, trss, cap, steps, n, k)
            == NetTotal(NetOf(x), NetDropped(NetOf(x), trss, steps, cap, n, KindsOf(x), k), |NetOf(x).nodes|)
  {
    var net := NetOf(x);
    var kept, dropped := NetKept(net, trss, steps, cap, n, KindsOf(x), k),
      NetDropped(net, trss, steps, cap, n, KindsOf(x), k);
    forall a | 0 <= a < |net.nodes|
      ensures IsAtMost(net.nodes[a], kept[a], dropped[a]) && IsAtMost(net.nodes[a], dropped[a], kept[a])
    {
      forall e | e in net.nodes[a]
        ensures kept[a][e] == dropped[a][e]
      {
        assert BufferRuns(net.nodes[a], trss[a], steps, KindsOf(x), cap);
        EmptyKeeps(trss[a][e], steps, KindsOf(x), cap, n, k);
      }
    }
    NetTotalAtMost(net, kept, dropped, |net.nodes|);
    NetTotalAtMost(net, dropped, kept, |net.nodes|);
  }

  /**
    End to end: that long after the hosts have stopped, every packet that they sent has arrived at the one
    host it is for, or was dropped.
   */
  lemma AllArriveOrDrop(x: Lst, ext: seq<Arrivals>, cap: nat, rg: Ranges, useWin: bool, steps: nat,
                        xss: seq<seq<Snapshot>>, trss: seq<Traces>, wss: seq<AllWindows>, first: nat, last: nat,
                        s: nat, l: nat, h: nat)
    requires IsBuilt(x) && LstSolution(x, ext, cap, rg, useWin, steps, xss, trss, wss)
    requires first <= last < steps && 0 < last && HostsStop(x, ext, first, last)
    requires s < x.top.spines && l < x.top.leafs && h < x.top.hosts
    ensures ListedRun(x, trss, cap, steps) && TypeOf(x.top, s, l, h) < KindsOf(x) && NetHasStep(NetOf(x), trss, first)
    ensures var k := TypeOf(x.top, s, l, h);
            last - first >= 3 * Packets(x, trss, first) ==>
              HostsFlow(x, trss, cap, steps, In, last, k)
              == Received(x, trss, cap, steps, last, k, l, h)
                 + NetTotal(NetOf(x), NetDropped(NetOf(x), trss, steps, cap, last, KindsOf(x), k), |NetOf(x).nodes|)
  {
    SolutionFits(x, ext, cap, rg, useWin, steps, xss, trss, wss);
    LstConserves(x, trss, cap, steps, last, s, l, h);
    EmptiesInTime(x, ext, cap, rg, useWin, steps, xss, trss, wss, first, last);
    if last - first >= 3 * Packets(x, trss, first) {
      EmptyMeansDropped(x, trss, cap, steps, last, TypeOf(x.top, s, l, h));
    }
  }
}
