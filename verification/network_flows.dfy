/** What a network of linked switches conserves, per packet type, in every solution of its constraints. */
module NetworkFlows {
  import opened CountVectors
  import opened BufferTrace
  import opened StableMatching
  import opened VoqSwitch
  import opened Voqs
  import opened VoqSystem
  import opened NetworkQueues
  import opened NetworkPorts
  import opened NetworkSums
  import LeafBuffer

  // ---------------------------------------------------------------- one VOQ

  /** Packets of type k in or out of a VOQ in the first n steps. */
  function Flow(tr: Trace, side: Side, n: nat, kinds: nat, k: nat): int
    requires n <= |tr.i| && n <= |tr.o| && k < kinds
    requires forall t :: 0 <= t < n ==> |tr.i[t]| == |tr.o[t]| == kinds
  {
    if side.In? then Cumulative(tr.i, n, kinds)[k] else Cumulative(tr.o, n, kinds)[k]
  }

  /** Packets of type k that have not left after n steps: backlogged or dropped. */
  function Kept(tr: Trace, n: nat, kinds: nat, k: nat): int
    requires Shaped(tr, |tr.i|, kinds) && 0 < n <= |tr.i| && k < kinds
  {
    Cumulative(tr.d, n, kinds)[k] + tr.c[n - 1][k] + tr.e[n - 1][k] - tr.o[n - 1][k]
  }

  lemma {:induction false} VoqConserves(tr: Trace, steps: nat, kinds: nat, cap: int, n: nat, k: nat)
    requires LeafBuffer.BufferRun(tr, steps, kinds, cap) && 0 < n <= steps && k < kinds
    ensures Flow(tr, In, n, kinds, k) == Flow(tr, Out, n, kinds, k) + Kept(tr, n, kinds, k)
  {
    assert LeafBuffer.StepOk(tr, kinds, cap, n - 1);
    if n == 1 {
      SumOfCounts(tr.c[0]);
      assert Cumulative(tr.i, n - 1, kinds) == Cumulative(tr.o, n - 1, kinds) == Cumulative(tr.d, n - 1, kinds)
             == Zero(kinds);
    } else {
      VoqConserves(tr, steps, kinds, cap, n - 1, k);
    }
  }

  // ---------------------------------------------------------------- one port

  ghost predicate HasFlows(voqs: seq<Voq>, trs: Traces, n: nat, kinds: nat) {
    forall e :: e in voqs ==> e in trs && n <= |trs[e].i| && n <= |trs[e].o|
                              && forall t :: 0 <= t < n ==> |trs[e].i[t]| == |trs[e].o[t]| == kinds
  }

  /** The flows of all VOQs of a switch in n steps. */
  ghost function Flows(voqs: seq<Voq>, trs: Traces, side: Side, n: nat, kinds: nat, k: nat): (v: Values)
    requires HasFlows(voqs, trs, n, kinds) && k < kinds
    ensures Has(voqs, v) && forall e :: e in voqs ==> v[e] == Flow(trs[e], side, n, kinds, k)
  {
    map e | e in voqs :: Flow(trs[e], side, n, kinds, k)
  }

  lemma {:induction false} FlowStep(voqs: seq<Voq>, trs: Traces, side: Side, port: int, n: nat, kinds: nat, k: nat,
                                    m: nat)
    requires HasFlows(voqs, trs, n + 1, kinds) && k < kinds && m <= |voqs|
    ensures HasFlows(voqs, trs, n, kinds) && HasCounts(voqs, trs, n, kinds)
    ensures TotalAt(voqs, Flows(voqs, trs, side, n + 1, kinds, k), side, iset{port}, m)
            == TotalAt(voqs, Flows(voqs, trs, side, n, kinds, k), side, iset{port}, m)
               + PortCounts(voqs, trs, side, port, n, kinds, m)[k]
  {
    if m == 0 {
    } else {
      FlowStep(voqs, trs, side, port, n, kinds, k, m - 1);
    }
  }

  lemma {:induction false} NoFlowYet(voqs: seq<Voq>, trs: Traces, side: Side, ports: iset<int>, n: nat, kinds: nat,
                                     k: nat, m: nat)
    requires HasFlows(voqs, trs, n, kinds) && k < kinds && m <= |voqs| && n == 0
    ensures TotalAt(voqs, Flows(voqs, trs, side, n, kinds, k), side, ports, m) == 0
  {
    if m == 0 {
    } else {
      NoFlowYet(voqs, trs, side, ports, n, kinds, k, m - 1);
    }
  }

  /** What passes a port in n steps. */
  ghost function PortFlow(voqs: seq<Voq>, trs: Traces, side: Side, port: int, n: nat, kinds: nat, k: nat): int
    requires HasFlows(voqs, trs, n, kinds) && k < kinds
  {
    PortTotal(voqs, Flows(voqs, trs, side, n, kinds, k), side, port)
  }

  /** The same, step by step. */
  ghost function Passed(voqs: seq<Voq>, trs: Traces, side: Side, port: int, n: nat, kinds: nat, k: nat): int
    requires HasFlows(voqs, trs, n, kinds) && k < kinds
  {
    if n == 0 then 0 else
      assert HasCounts(voqs, trs, n - 1, kinds);
      Passed(voqs, trs, side, port, n - 1, kinds, k) + PortCounts(voqs, trs, side, port, n - 1, kinds, |voqs|)[k]
  }

  lemma PassedStep(voqs: seq<Voq>, trs: Traces, side: Side, port: int, before: nat, n: nat, kinds: nat, k: nat)
    requires HasFlows(voqs, trs, n, kinds) && HasFlows(voqs, trs, before, kinds) && k < kinds && n == before + 1
    requires PortFlow(voqs, trs, side, port, before, kinds, k) == Passed(voqs, trs, side, port, before, kinds, k)
    ensures PortFlow(voqs, trs, side, port, n, kinds, k) == Passed(voqs, trs, side, port, n, kinds, k)
  {
    FlowStep(voqs, trs, side, port, before, kinds, k, |voqs|);
  }

  lemma {:induction false} FlowIsPassed(voqs: seq<Voq>, trs: Traces, side: Side, port: int, n: nat, kinds: nat,
                                        k: nat)
    requires HasFlows(voqs, trs, n, kinds) && k < kinds
    ensures PortFlow(voqs, trs, side, port, n, kinds, k) == Passed(voqs, trs, side, port, n, kinds, k)
  {
    if n == 0 {
      NoFlowYet(voqs, trs, side, iset{port}, n, kinds, k, |voqs|);
    } else {
      var before := n - 1;
      FlowIsPassed(voqs, trs, side, port, before, kinds, k);
      PassedStep(voqs, trs, side, port, before, n, kinds, k);
    }
  }

  ghost predicate LinkHasFlows(net: Net, trss: seq<Traces>, l: Link, n: nat, kinds: nat) {
    && l.fromNode < |net.nodes| && l.toNode < |net.nodes| && |trss| == |net.nodes|
    && HasFlows(net.nodes[l.fromNode], trss[l.fromNode], n, kinds)
    && HasFlows(net.nodes[l.toNode], trss[l.toNode], n, kinds)
  }

  lemma {:induction false} LinkPassed(net: Net, trss: seq<Traces>, l: Link, n: nat, kinds: nat, k: nat)
    requires LinkHasFlows(net, trss, l, n, kinds) && k < kinds
    requires forall t :: 0 <= t < n ==> LinkHolds(net, trss, l, t, kinds)
    ensures Passed(net.nodes[l.fromNode], trss[l.fromNode], Out, l.fromPort, n, kinds, k)
            == Passed(net.nodes[l.toNode], trss[l.toNode], In, l.toPort, n, kinds, k)
  {
    if n == 0 {
    } else {
      LinkPassed(net, trss, l, n - 1, kinds, k);
      assert LinkHolds(net, trss, l, n - 1, kinds);
    }
  }

  /** A link whose ports count alike in every step carries at one end what it carries at the other. */
  lemma LinkFlow(net: Net, trss: seq<Traces>, l: Link, n: nat, kinds: nat, k: nat)
    requires LinkHasFlows(net, trss, l, n, kinds) && k < kinds
    requires forall t :: 0 <= t < n ==> LinkHolds(net, trss, l, t, kinds)
    ensures PortFlow(net.nodes[l.fromNode], trss[l.fromNode], Out, l.fromPort, n, kinds, k)
            == PortFlow(net.nodes[l.toNode], trss[l.toNode], In, l.toPort, n, kinds, k)
  {
    LinkPassed(net, trss, l, n, kinds, k);
    FlowIsPassed(net.nodes[l.fromNode], trss[l.fromNode], Out, l.fromPort, n, kinds, k);
    FlowIsPassed(net.nodes[l.toNode], trss[l.toNode], In, l.toPort, n, kinds, k);
  }

  // ---------------------------------------------------------------- the whole network

  ghost predicate NetHasFlows(net: Net, trss: seq<Traces>, n: nat, kinds: nat) {
    |trss| == |net.nodes| && forall a :: 0 <= a < |net.nodes| ==> HasFlows(net.nodes[a], trss[a], n, kinds)
  }

  ghost function NetFlows(net: Net, trss: seq<Traces>, side: Side, n: nat, kinds: nat, k: nat): (vs: seq<Values>)
    requires NetHasFlows(net, trss, n, kinds) && k < kinds
    ensures AllHave(net, vs)
    ensures forall a :: 0 <= a < |net.nodes| ==> vs[a] == Flows(net.nodes[a], trss[a], side, n, kinds, k)
  {
    seq(|net.nodes|, a requires 0 <= a < |net.nodes| => Flows(net.nodes[a], trss[a], side, n, kinds, k))
  }

  ghost predicate BufferRuns(voqs: seq<Voq>, trs: Traces, steps: nat, kinds: nat, cap: int) {
    forall e :: e in voqs ==> e in trs && LeafBuffer.BufferRun(trs[e], steps, kinds, cap)
  }

  ghost predicate NetRuns(net: Net, trss: seq<Traces>, steps: nat, kinds: nat, cap: int) {
    |trss| == |net.nodes| && forall a :: 0 <= a < |net.nodes| ==> BufferRuns(net.nodes[a], trss[a], steps, kinds, cap)
  }

  /** What the VOQs of all switches keep. */
  ghost function NetKept(net: Net, trss: seq<Traces>, steps: nat, cap: int, n: nat, kinds: nat,
                         k: nat): (vs: seq<Values>)
    requires NetRuns(net, trss, steps, kinds, cap) && 0 < n <= steps && k < kinds
    ensures AllHave(net, vs)
    ensures forall a, e :: 0 <= a < |net.nodes| && e in net.nodes[a] ==> vs[a][e] == Kept(trss[a][e], n, kinds, k)
  {
    seq(|net.nodes|, a requires 0 <= a < |net.nodes| =>
      assert BufferRuns(net.nodes[a], trss[a], steps, kinds, cap);
      map e | e in net.nodes[a] :: Kept(trss[a][e], n, kinds, k))
  }

  lemma RunsHaveFlows(voqs: seq<Voq>, trs: Traces, steps: nat, kinds: nat, cap: int, n: nat)
    requires BufferRuns(voqs, trs, steps, kinds, cap) && n <= steps
    ensures HasFlows(voqs, trs, n, kinds)
  {
  }

  lemma AllConserve(net: Net, trss: seq<Traces>, steps: nat, cap: int, n: nat, kinds: nat, k: nat)
    requires NetRuns(net, trss, steps, kinds, cap) && NetHasFlows(net, trss, n, kinds) && 0 < n <= steps && k < kinds
    ensures NetTotal(net, NetFlows(net, trss, In, n, kinds, k), |net.nodes|)
            == NetTotal(net, NetFlows(net, trss, Out, n, kinds, k), |net.nodes|)
               + NetTotal(net, NetKept(net, trss, steps, cap, n, kinds, k), |net.nodes|)
  {
    var ins, outs := NetFlows(net, trss, In, n, kinds, k), NetFlows(net, trss, Out, n, kinds, k);
    var kept := NetKept(net, trss, steps, cap, n, kinds, k);
    forall a | 0 <= a < |net.nodes|
      ensures IsSum(net.nodes[a], ins[a], outs[a], kept[a])
    {
      assert BufferRuns(net.nodes[a], trss[a], steps, kinds, cap);
      forall e | e in net.nodes[a]
        ensures ins[a][e] == outs[a][e] + kept[a][e]
      {
        VoqConserves(trss[a][e], steps, kinds, cap, n, k);
      }
    }
    NetTotalSum(net, ins, outs, kept, |net.nodes|);
  }

  ghost predicate AllLinksHold(net: Net, trss: seq<Traces>, n: nat, kinds: nat) {
    forall i, t :: 0 <= i < |net.links| && 0 <= t < n ==> LinkHolds(net, trss, net.links[i], t, kinds)
  }

  lemma LinksConserve(net: Net, trss: seq<Traces>, n: nat, kinds: nat, k: nat)
    requires NetHasFlows(net, trss, n, kinds) && k < kinds
    requires LinksFit(net) && EndsDiffer(net.links, In) && EndsDiffer(net.links, Out)
    requires AllLinksHold(net, trss, n, kinds)
    ensures var ins, outs := NetFlows(net, trss, In, n, kinds, k), NetFlows(net, trss, Out, n, kinds, k);
            NoGain(net, ins, outs) && NoLoss(net, ins, outs)
  {
    var ins, outs := NetFlows(net, trss, In, n, kinds, k), NetFlows(net, trss, Out, n, kinds, k);
    forall i | 0 <= i < |net.links|
      ensures LinkGap(net, ins, outs, net.links[i]) == 0
    {
      LinkFlow(net, trss, net.links[i], n, kinds, k);
    }
  }

  /**
    In every solution for a network, per packet type: what enters by ports without links has left by
    ports without links, or is backlogged in or was dropped by some VOQ.
   */
  lemma NetworkConserves(net: Net, trss: seq<Traces>, steps: nat, cap: int, n: nat, kinds: nat, k: nat)
    requires NetRuns(net, trss, steps, kinds, cap) && 0 < n <= steps && k < kinds
    requires LinksFit(net) && EndsDiffer(net.links, In) && EndsDiffer(net.links, Out)
    requires AllLinksHold(net, trss, steps, kinds)
    ensures NetHasFlows(net, trss, n, kinds)
    ensures NetFree(net, NetFlows(net, trss, In, n, kinds, k), |net.links|, In, |net.nodes|)
            == NetFree(net, NetFlows(net, trss, Out, n, kinds, k), |net.links|, Out, |net.nodes|)
               + NetTotal(net, NetKept(net, trss, steps, cap, n, kinds, k), |net.nodes|)
  {
    forall a | 0 <= a < |net.nodes|
      ensures HasFlows(net.nodes[a], trss[a], n, kinds)
    {
      RunsHaveFlows(net.nodes[a], trss[a], steps, kinds, cap, n);
    }
    AllConserve(net, trss, steps, cap, n, kinds, k);
    LinksConserve(net, trss, n, kinds, k);
    LinksBalance(net, NetFlows(net, trss, In, n, kinds, k), NetFlows(net, trss, Out, n, kinds, k), |net.links|);
  }
}
