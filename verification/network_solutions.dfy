/** When the constraints of all switches and links of a network have a solution together. */
module NetworkSolutions {
  import opened BufferTrace
  import opened FifoQueue
  import opened FifoSimulation
  import opened VoqSwitch
  import opened Voqs
  import opened VoqSystem
  import opened VoqQueues
  import opened VoqRanges
  import opened NetworkQueues
  import opened NetworkCarry
  import opened NetworkPorts

  // ---------------------------------------------------------------- all switches and links

  ghost predicate NodeSolved(net: Net, s: State, trs: Traces, ws: AllWindows, kinds: nat, cap: nat, steps: nat,
                             a: nat)
    requires NodeRuns(net, s, cap, steps) && a < |net.nodes|
  {
    && FreeSolution(net.nodes[a], s.xss[a], trs, s.arrs[a], steps, kinds, cap)
    && WindowsFit(net.nodes[a], trs, ws, steps, kinds, cap)
    && NodeRun(net.nodes[a], s.xss[a], s.hss[a], s.arrs[a], cap, steps)
    && trs == CountsOfAll(net.nodes[a], s.hss[a], kinds, cap)
    && forall e :: e in net.nodes[a] ==> LeafFifoRun(s.hss[a][e], kinds, cap)
  }

  ghost predicate SmallAt(net: Net, arrs: seq<Arrivals>, kinds: nat, cap: nat, rg: Ranges, t: int) {
    && |arrs| == |net.nodes|
    && forall a, e :: 0 <= a < |net.nodes| && e in net.nodes[a] ==>
         e in arrs[a] && 0 <= t < |arrs[a][e]| && SmallOffer(arrs[a][e][t], kinds, cap, rg)
  }

  /** A run on which every VOQ is offered only small offers of types that it may carry. */
  ghost predicate GoodRun(net: Net, s: State, ext: seq<Arrivals>, carry: Carry, kinds: nat, cap: nat, rg: Ranges,
                          steps: nat) {
    && NetRun(net, s, ext, cap, steps) && Closed(net, carry, kinds) && cap >= 1 && steps > 0 && SomeRanges(rg)
    && CarriedUntil(net, s.arrs, carry, steps) && forall t :: 0 <= t < steps ==> SmallAt(net, s.arrs, kinds, cap, rg, t)
  }

  lemma RunIsGood(net: Net, s: State, ext: seq<Arrivals>, carry: Carry, kinds: nat, cap: nat, rg: Ranges, steps: nat)
    requires NetRun(net, s, ext, cap, steps) && Closed(net, carry, kinds) && cap >= 1 && steps > 0 && SomeRanges(rg)
    requires HostsCarried(net, ext, carry, steps) && HostsSmall(net, ext, kinds, cap, rg, steps)
    ensures GoodRun(net, s, ext, carry, kinds, cap, rg, steps)
  {
    AllCarried(net, s, ext, carry, kinds, cap, steps);
    forall t | 0 <= t < steps
      ensures SmallAt(net, s.arrs, kinds, cap, rg, t)
    {
      forall a, e | 0 <= a < |net.nodes| && e in net.nodes[a]
        ensures e in s.arrs[a] && t < |s.arrs[a][e]| && SmallOffer(s.arrs[a][e][t], kinds, cap, rg)
      {
        SmallArrive(net, s, ext, kinds, cap, rg, steps, t, a, e);
      }
    }
  }

  lemma ArrivesTyped(net: Net, arrs: seq<Arrivals>, carry: Carry, kinds: nat, cap: nat, rg: Ranges, a: nat, e: Voq,
                     t: nat)
    requires Closed(net, carry, kinds) && CarriedAt(net, arrs, carry, t) && SmallAt(net, arrs, kinds, cap, rg, t)
    requires a < |net.nodes| && e in net.nodes[a]
    ensures e in arrs[a] && t < |arrs[a][e]| && Typed(arrs[a][e][t], kinds) && SmallOffer(arrs[a][e][t], kinds, cap, rg)
  {
    forall x | 0 <= x < |arrs[a][e][t]|
      ensures arrs[a][e][t][x] < kinds
    {
      assert arrs[a][e][t][x] in carry[a][e];
    }
  }

  /** What one VOQ is offered throughout a good run. */
  lemma OffersFit(net: Net, s: State, ext: seq<Arrivals>, carry: Carry, kinds: nat, cap: nat, rg: Ranges, steps: nat,
                  a: nat, e: Voq)
    requires GoodRun(net, s, ext, carry, kinds, cap, rg, steps) && a < |net.nodes| && e in net.nodes[a]
    ensures e in s.hss[a] && e in s.arrs[a] && OfferedTo(s.hss[a][e], s.arrs[a][e], steps)
    ensures forall t :: 0 <= t < steps ==> Typed(s.arrs[a][e][t], kinds) && SmallOffer(s.arrs[a][e][t], kinds, cap, rg)
  {
    assert NodeRun(net.nodes[a], s.xss[a], s.hss[a], s.arrs[a], cap, steps);
    forall t | 0 <= t < steps
      ensures Typed(s.arrs[a][e][t], kinds) && SmallOffer(s.arrs[a][e][t], kinds, cap, rg)
    {
      assert CarriedAt(net, s.arrs, carry, t) && SmallAt(net, s.arrs, kinds, cap, rg, t);
      ArrivesTyped(net, s.arrs, carry, kinds, cap, rg, a, e, t);
    }
  }

  lemma NodeFits(net: Net, s: State, ext: seq<Arrivals>, carry: Carry, kinds: nat, cap: nat, rg: Ranges, steps: nat,
                 a: nat)
    requires GoodRun(net, s, ext, carry, kinds, cap, rg, steps) && a < |net.nodes|
    ensures TypedArrivals(net.nodes[a], s.arrs[a], steps, kinds) && NeverFlooded(net.nodes[a], s.hss[a], cap)
  {
    forall e | e in net.nodes[a]
      ensures e in s.arrs[a] && steps <= |s.arrs[a][e]| && forall t :: 0 <= t < steps ==> Typed(s.arrs[a][e][t], kinds)
      ensures NotFlooded(s.hss[a][e], cap)
    {
      OffersFit(net, s, ext, carry, kinds, cap, rg, steps, a, e);
    }
  }

  lemma SolutionAt(net: Net, s: State, kinds: nat, cap: nat, steps: nat, a: nat) returns (trs: Traces, ws: AllWindows)
    requires NodeRuns(net, s, cap, steps) && a < |net.nodes| && steps > 0 && cap >= 1
    requires TypedArrivals(net.nodes[a], s.arrs[a], steps, kinds) && NeverFlooded(net.nodes[a], s.hss[a], cap)
    ensures NodeSolved(net, s, trs, ws, kinds, cap, steps, a)
  {
    assert NodeRun(net.nodes[a], s.xss[a], s.hss[a], s.arrs[a], cap, steps);
    trs, ws := QueuesSolve(net.nodes[a], s.xss[a], s.hss[a], s.arrs[a], kinds, cap);
    forall e | e in net.nodes[a]
      ensures LeafFifoRun(s.hss[a][e], kinds, cap)
    {
      LeafSteps(net.nodes[a], s.xss[a], s.hss[a], s.arrs[a], kinds, cap, e);
    }
  }

  lemma SolveNode(net: Net, s: State, ext: seq<Arrivals>, carry: Carry, kinds: nat, cap: nat, rg: Ranges, steps: nat,
                  a: nat) returns (trs: Traces, ws: AllWindows)
    requires GoodRun(net, s, ext, carry, kinds, cap, rg, steps) && a < |net.nodes|
    ensures NodeSolved(net, s, trs, ws, kinds, cap, steps, a)
  {
    NodeFits(net, s, ext, carry, kinds, cap, rg, steps, a);
    trs, ws := SolutionAt(net, s, kinds, cap, steps, a);
  }

  lemma SolutionExists(net: Net, s: State, ext: seq<Arrivals>, carry: Carry, kinds: nat, cap: nat, rg: Ranges,
                       steps: nat, a: nat)
    requires GoodRun(net, s, ext, carry, kinds, cap, rg, steps) && a < |net.nodes|
    ensures exists trs, ws :: NodeSolved(net, s, trs, ws, kinds, cap, steps, a)
  {
    var trs, ws := SolveNode(net, s, ext, carry, kinds, cap, rg, steps, a);
  }

  ghost function SolutionOf(net: Net, s: State, ext: seq<Arrivals>, carry: Carry, kinds: nat, cap: nat, rg: Ranges,
                            steps: nat, a: nat): (r: (Traces, AllWindows))
    requires GoodRun(net, s, ext, carry, kinds, cap, rg, steps) && a < |net.nodes|
    ensures NodeSolved(net, s, r.0, r.1, kinds, cap, steps, a)
  {
    SolutionExists(net, s, ext, carry, kinds, cap, rg, steps, a);
    var trs, ws :| NodeSolved(net, s, trs, ws, kinds, cap, steps, a);
    (trs, ws)
  }

  ghost predicate AllSolved(net: Net, s: State, trss: seq<Traces>, wss: seq<AllWindows>, kinds: nat, cap: nat,
                            steps: nat)
    requires NodeRuns(net, s, cap, steps)
  {
    |trss| == |wss| == |net.nodes| && forall a :: 0 <= a < |net.nodes| ==>
        NodeSolved(net, s, trss[a], wss[a], kinds, cap, steps, a)
  }

  lemma NodesSolved(net: Net, s: State, ext: seq<Arrivals>, carry: Carry, kinds: nat, cap: nat, rg: Ranges,
                    steps: nat) returns (trss: seq<Traces>, wss: seq<AllWindows>)
    requires GoodRun(net, s, ext, carry, kinds, cap, rg, steps)
    ensures AllSolved(net, s, trss, wss, kinds, cap, steps)
  {
    trss := seq(|net.nodes|, a requires 0
      <= a < |net.nodes| => SolutionOf(net, s, ext, carry, kinds, cap, rg, steps, a).0);
    wss := seq(|net.nodes|, a requires 0
      <= a < |net.nodes| => SolutionOf(net, s, ext, carry, kinds, cap, rg, steps, a).1);
  }

  /** One VOQ in step t: its input is what arrives, its output what departs. */
  lemma VoqCounts(voqs: seq<Voq>, xs: seq<Snapshot>, hs: Histories, arr: Arrivals, kinds: nat, cap: nat, steps: nat,
                  t: nat, e: Voq)
    requires NodeRun(voqs, xs, hs, arr, cap, steps) && t < steps && e in voqs && TypedRun(hs[e], kinds)
    ensures Coupled(voqs, xs[t], CountsOf(hs[e], kinds, cap), e, t)
    ensures HasQueues(voqs, xs[t], QueuesAt(voqs, hs, cap, t)) && Shaped(CountsOf(hs[e], kinds, cap), steps, kinds)
    ensures CountsOf(hs[e], kinds, cap).i[t] == CountOf(arr[e][t], kinds)
    ensures CountsOf(hs[e], kinds, cap).o[t] == CountOf(Sends(voqs, xs[t], QueuesAt(voqs, hs, cap, t))[e], kinds)
  {
    assert FollowsThroughout(voqs, xs, hs[e], cap, e) && FollowsQueue(voqs, xs[t], hs[e], cap, e, t);
    assert StepConstraints(voqs, xs[t]);
    OutputOfStep(voqs, xs[t], hs[e], kinds, cap, e, t);
    SendsDeparted(voqs, xs[t], QueuesAt(voqs, hs, cap, t), hs[e], cap, e, t);
    assert LeafImageAt(hs[e], CountsOf(hs[e], kinds, cap), kinds, cap, t);
  }

  /** The traces are the counts of the queues of switch a. */
  ghost predicate NodeCounted(net: Net, s: State, trs: Traces, kinds: nat, cap: nat, steps: nat, a: nat)
    requires NodeRuns(net, s, cap, steps) && a < |net.nodes|
  {
    && trs == CountsOfAll(net.nodes[a], s.hss[a], kinds, cap)
    && forall e :: e in net.nodes[a] ==> TypedRun(s.hss[a][e], kinds)
  }

  /** What these counts are in step t. */
  lemma RunCounts(net: Net, s: State, trs: Traces, kinds: nat, cap: nat, steps: nat, a: nat, t: nat)
    requires NodeRuns(net, s, cap, steps) && a < |net.nodes| && t < steps
    requires NodeCounted(net, s, trs, kinds, cap, steps, a)
    ensures HasCounts(net.nodes[a], trs, t, kinds)
    ensures HasQueues(net.nodes[a], s.xss[a][t], QueuesAt(net.nodes[a], s.hss[a], cap, t))
    ensures forall e :: e in net.nodes[a] ==> trs[e].i[t] == CountOf(s.arrs[a][e][t], kinds)
    ensures var sent := Sends(net.nodes[a], s.xss[a][t], QueuesAt(net.nodes[a], s.hss[a], cap, t));
            forall e :: e in net.nodes[a] ==> trs[e].o[t] == CountOf(sent[e], kinds)
  {
    var voqs, xs, hs, arr := net.nodes[a], s.xss[a], s.hss[a], s.arrs[a];
    assert WellShaped(voqs, xs[t]);
    forall e | e in voqs
      ensures e in trs && Shaped(trs[e], steps, kinds) && trs[e].i[t] == CountOf(arr[e][t], kinds)
      ensures trs[e].o[t] == CountOf(Sends(voqs, xs[t], QueuesAt(voqs, hs, cap, t))[e], kinds)
    {
      VoqCounts(voqs, xs, hs, arr, kinds, cap, steps, t, e);
    }
  }

  ghost predicate InEndsDiffer(links: seq<Link>) {
    forall i, j :: 0 <= i < j < |links| ==> links[i].toNode != links[j].toNode || links[i].toPort != links[j].toPort
  }

  /** What passes the link in step t. */
  ghost function OverLink(net: Net, s: State, cap: nat, steps: nat, l: Link, t: nat): seq<nat>
    requires NodeRuns(net, s, cap, steps) && t < steps && l.fromNode < |net.nodes|
    requires HasQueues(net.nodes[l.fromNode], s.xss[l.fromNode][t],
             QueuesAt(net.nodes[l.fromNode], s.hss[l.fromNode], cap, t))
  {
    var a := l.fromNode;
    LeavingBy(net.nodes[a], Sends(net.nodes[a], s.xss[a][t], QueuesAt(net.nodes[a], s.hss[a], cap, t)), l.fromPort,
      |net.nodes[a]|)
  }

  /** The output port of the link counts what passes it. */
  lemma LinkOut(net: Net, s: State, kinds: nat, cap: nat, steps: nat, trs: Traces, l: Link, t: nat)
    requires NodeRuns(net, s, cap, steps) && t < steps && l.fromNode < |net.nodes|
    requires NodeCounted(net, s, trs, kinds, cap, steps, l.fromNode)
    ensures HasQueues(net.nodes[l.fromNode], s.xss[l.fromNode][t],
            QueuesAt(net.nodes[l.fromNode], s.hss[l.fromNode], cap, t))
    ensures HasCounts(net.nodes[l.fromNode], trs, t, kinds)
    ensures PortCounts(net.nodes[l.fromNode], trs, Out, l.fromPort, t, kinds, |net.nodes[l.fromNode]|)
            == CountOf(OverLink(net, s, cap, steps, l, t), kinds)
  {
    var a := l.fromNode;
    RunCounts(net, s, trs, kinds, cap, steps, a, t);
    var sent := Sends(net.nodes[a], s.xss[a][t], QueuesAt(net.nodes[a], s.hss[a], cap, t));
    OutCounts(net.nodes[a], sent, trs, l.fromPort, t, kinds, |net.nodes[a]|);
  }

  /** The VOQs of the input port are offered what passes the link, by next hop. */
  lemma LinkIn(net: Net, s: State, ext: seq<Arrivals>, kinds: nat, cap: nat, steps: nat, trs: Traces, i: nat, t: nat)
    requires NetRun(net, s, ext, cap, steps) && InEndsDiffer(net.links) && i < |net.links| && t < steps
    requires NodeCounted(net, s, trs, kinds, cap, steps, net.links[i].toNode)
    requires var l := net.links[i];
             HasQueues(net.nodes[l.fromNode], s.xss[l.fromNode][t],
               QueuesAt(net.nodes[l.fromNode], s.hss[l.fromNode], cap, t))
    ensures HasCounts(net.nodes[net.links[i].toNode], trs, t, kinds)
    ensures InputsTowards(net.nodes[net.links[i].toNode], trs, OverLink(net, s, cap, steps, net.links[i], t),
                          net.hop[net.links[i].toNode], net.links[i].toPort, t, kinds)
  {
    var b, port := net.links[i].toNode, net.links[i].toPort;
    RunCounts(net, s, trs, kinds, cap, steps, b, t);
    assert LinkedAt(net, s, ext, cap, steps, t);
    assert LinkTo(net.links, b, port) == i;
  }

  lemma LinkSolved(net: Net, s: State, ext: seq<Arrivals>, carry: Carry, kinds: nat, cap: nat, steps: nat,
                   trss: seq<Traces>, wss: seq<AllWindows>, i: nat, t: nat)
    requires NetRun(net, s, ext, cap, steps) && Closed(net, carry, kinds) && CarriedUntil(net, s.arrs, carry, steps)
    requires AllSolved(net, s, trss, wss, kinds, cap, steps) && InEndsDiffer(net.links) && i < |net.links| && t < steps
    ensures LinkHolds(net, trss, net.links[i], t, kinds)
  {
    var l := net.links[i];
    assert NodeSolved(net, s, trss[l.fromNode], wss[l.fromNode], kinds, cap, steps, l.fromNode);
    assert NodeSolved(net, s, trss[l.toNode], wss[l.toNode], kinds, cap, steps, l.toNode);
    LinkOut(net, s, kinds, cap, steps, trss[l.fromNode], l, t);
    LinkIn(net, s, ext, kinds, cap, steps, trss[l.toNode], i, t);
    var d := OverLink(net, s, cap, steps, l, t);
    forall k | k in d
      ensures k < |net.hop[l.toNode]| && (l.toPort, net.hop[l.toNode][k]) in net.nodes[l.toNode]
    {
      LinkCarried(net, s, carry, kinds, cap, steps, t, l, s.xss[l.fromNode][t], k);
    }
    InCounts(net.nodes[l.toNode], trss[l.toNode], d, net.hop[l.toNode], l.toPort, t, kinds);
  }

  // ---------------------------------------------------------------- sparse buffers

  ghost predicate ZeroAt(tr: Trace, t: nat, k: nat, kinds: nat)
    requires Shaped(tr, |tr.i|, kinds) && t < |tr.i| && k < kinds
  {
    tr.i[t][k] == 0 && tr.e[t][k] == 0 && tr.d[t][k] == 0 && tr.o[t][k] == 0 && tr.c[t][k] == 0
  }

  /** A buffer counts only packets of its types; all other counts are 0. */
  ghost predicate CountsOnly(tr: Trace, types: set<nat>, steps: nat, kinds: nat) {
    Shaped(tr, steps, kinds) && forall t, k :: 0 <= t < steps && 0 <= k < kinds && k !in types ==>
        ZeroAt(tr, t, k, kinds)
  }

  lemma OtherTypes(s: seq<nat>, types: set<nat>, kinds: nat, k: nat)
    requires AllIn(s, types) && k !in types && k < kinds
    ensures CountOf(s, kinds)[k] == 0
  {
    assert k !in s;
  }

  lemma QueueCountsOnly(h: seq<Step>, types: set<nat>, kinds: nat, cap: nat)
    requires forall u :: 0 <= u < |h| ==> AllIn(h[u].arrivals, types)
    ensures CountsOnly(CountsOf(h, kinds, cap), types, |h|, kinds)
  {
    forall t, k | 0 <= t < |h| && 0 <= k < kinds && k !in types
      ensures ZeroAt(CountsOf(h, kinds, cap), t, k, kinds)
    {
      QueueCarried(h, cap, t, types);
      assert AllIn(h[t].arrivals, types);
      OtherTypes(h[t].arrivals, types, kinds, k);
      OtherTypes(Admissions(h, cap, t), types, kinds, k);
      OtherTypes(Dropped(Queue(h, cap, t), h[t].arrivals, cap), types, kinds, k);
      OtherTypes(Departed(h, cap, t), types, kinds, k);
      OtherTypes(Queue(h, cap, t), types, kinds, k);
    }
  }

  lemma SolvedCarries(net: Net, s: State, carry: Carry, kinds: nat, cap: nat, steps: nat, trs: Traces, ws: AllWindows,
                      a: nat, e: Voq)
    requires NodeRuns(net, s, cap, steps) && CarriedUntil(net, s.arrs, carry, steps) && a < |net.nodes|
    requires e in net.nodes[a]
    requires |carry| == |net.nodes| && e in carry[a] && NodeSolved(net, s, trs, ws, kinds, cap, steps, a)
    ensures e in trs && CountsOnly(trs[e], carry[a][e], steps, kinds)
  {
    HistoryCarried(net, s.arrs, carry, s.hss[a][e], steps, steps, a, e);
    QueueCountsOnly(s.hss[a][e], carry[a][e], kinds, cap);
  }

  lemma SolvedInRanges(h: seq<Step>, offered: seq<seq<nat>>, steps: nat, kinds: nat, cap: nat, rg: Ranges)
    requires OfferedTo(h, offered, steps) && SomeRanges(rg)
    requires forall t :: 0 <= t < steps ==> Typed(offered[t], kinds) && SmallOffer(offered[t], kinds, cap, rg)
    ensures InRanges(CountsOf(h, kinds, cap), rg, cap)
  {
    OfferedTyped(h, offered, steps, kinds);
    QueueRunInRange(h, CountsOf(h, kinds, cap), kinds, cap, rg.maxIn, rg.maxEnq, rg.maxDeq);
  }

  ghost predicate VoqSolved(trs: Traces, types: map<Voq, set<nat>>, kinds: nat, cap: nat, rg: Ranges, steps: nat,
                            e: Voq) {
    e in trs && e in types && CountsOnly(trs[e], types[e], steps, kinds) && InRanges(trs[e], rg, cap)
  }

  ghost predicate NodeSolution(voqs: seq<Voq>, xs: seq<Snapshot>, trs: Traces, ws: AllWindows, kinds: nat, cap: nat,
                               steps: nat, useWin: bool) {
    |xs| == steps && SystemRun(voqs, xs, trs, kinds, cap) && (useWin ==> WindowsFit(voqs, trs, ws, steps, kinds, cap))
  }

  /**
    A solution of the constraints of all switches, ranges and, when in use, windows included, and of all links, with
    what the hosts send; every VOQ has variables only for the types it may carry.
   */
  ghost predicate NetSolution(net: Net, ext: seq<Arrivals>, carry: Carry, kinds: nat, cap: nat, rg: Ranges,
                              useWin: bool, steps: nat, xss: seq<seq<Snapshot>>, trss: seq<Traces>,
                              wss: seq<AllWindows>) {
    && |xss| == |trss| == |wss| == |net.nodes| == |ext| == |carry|
    && (forall a, e :: 0 <= a < |net.nodes| && e in net.nodes[a] ==>
         VoqSolved(trss[a], carry[a], kinds, cap, rg, steps, e))
    && (forall a :: 0 <= a < |net.nodes| ==>
         NodeSolution(net.nodes[a], xss[a], trss[a], wss[a], kinds, cap, steps, useWin))
    && (forall i, t :: 0 <= i < |net.links| && 0 <= t < steps ==> LinkHolds(net, trss, net.links[i], t, kinds))
    && forall a, e, t :: 0 <= a < |net.nodes| && e in net.nodes[a] && Outer(net, a, e) && 0 <= t < steps ==>
         InputAt(trss[a], ext[a], kinds, e, t)
  }

  ghost predicate CountsCarried(net: Net, trss: seq<Traces>, carry: Carry, steps: nat, kinds: nat) {
    && |carry| == |trss| == |net.nodes|
    && forall a, e :: 0 <= a < |net.nodes| && e in net.nodes[a] ==>
         e in trss[a] && e in carry[a] && CountsOnly(trss[a][e], carry[a][e], steps, kinds)
  }

  /** Which types the VOQs have variables for does not matter when they count only those. */
  lemma OtherCarry(net: Net, ext: seq<Arrivals>, carry: Carry, other: Carry, kinds: nat, cap: nat, rg: Ranges,
                   useWin: bool, steps: nat, xss: seq<seq<Snapshot>>, trss: seq<Traces>, wss: seq<AllWindows>)
    requires NetSolution(net, ext, carry, kinds, cap, rg, useWin, steps, xss, trss, wss)
    requires CountsCarried(net, trss, other, steps, kinds)
    ensures NetSolution(net, ext, other, kinds, cap, rg, useWin, steps, xss, trss, wss)
  {
    forall a, e | 0 <= a < |net.nodes| && e in net.nodes[a]
      ensures VoqSolved(trss[a], other[a], kinds, cap, rg, steps, e)
    {
      assert VoqSolved(trss[a], carry[a], kinds, cap, rg, steps, e);
    }
  }

  /** What a host sends is the input of its VOQ. */
  lemma HostInput(net: Net, s: State, ext: seq<Arrivals>, kinds: nat, cap: nat, steps: nat, trs: Traces, a: nat,
                  e: Voq, t: nat)
    requires NetRun(net, s, ext, cap, steps) && a < |net.nodes| && e in net.nodes[a] && Outer(net, a, e) && t < steps
    requires NodeCounted(net, s, trs, kinds, cap, steps, a)
    ensures InputAt(trs, ext[a], kinds, e, t)
  {
    RunCounts(net, s, trs, kinds, cap, steps, a, t);
    assert LinkedAt(net, s, ext, cap, steps, t);
  }

  lemma SolvedVoq(net: Net, s: State, ext: seq<Arrivals>, carry: Carry, kinds: nat, cap: nat, rg: Ranges, steps: nat,
                  trs: Traces, ws: AllWindows, a: nat, e: Voq)
    requires GoodRun(net, s, ext, carry, kinds, cap, rg, steps) && a < |net.nodes| && e in net.nodes[a]
    requires NodeSolved(net, s, trs, ws, kinds, cap, steps, a)
    ensures |carry| == |net.nodes| && VoqSolved(trs, carry[a], kinds, cap, rg, steps, e)
  {
    OffersFit(net, s, ext, carry, kinds, cap, rg, steps, a, e);
    SolvedCarries(net, s, carry, kinds, cap, steps, trs, ws, a, e);
    SolvedInRanges(s.hss[a][e], s.arrs[a][e], steps, kinds, cap, rg);
  }

  /**
    When all hosts make small offers of carried types, the constraints of all switches and links together
    have a solution with these inputs: the network does not block.
   */
  lemma NetworkSolvable(net: Net, ext: seq<Arrivals>, carry: Carry, kinds: nat, cap: nat, rg: Ranges, useWin: bool,
                        steps: nat) returns (xss: seq<seq<Snapshot>>, trss: seq<Traces>, wss: seq<AllWindows>)
    requires Closed(net, carry, kinds) && InEndsDiffer(net.links) && cap >= 1 && steps > 0 && SomeRanges(rg)
    requires HostsCarried(net, ext, carry, steps) && HostsSmall(net, ext, kinds, cap, rg, steps)
    ensures NetSolution(net, ext, carry, kinds, cap, rg, useWin, steps, xss, trss, wss)
  {
    var s := NetworkRuns(net, ext, cap, steps);
    RunIsGood(net, s, ext, carry, kinds, cap, rg, steps);
    trss, wss := NodesSolved(net, s, ext, carry, kinds, cap, rg, steps);
    xss := s.xss;
    forall i, t | 0 <= i < |net.links| && 0 <= t < steps
      ensures LinkHolds(net, trss, net.links[i], t, kinds)
    {
      LinkSolved(net, s, ext, carry, kinds, cap, steps, trss, wss, i, t);
    }
    forall a | 0 <= a < |net.nodes|
      ensures NodeSolution(net.nodes[a], xss[a], trss[a], wss[a], kinds, cap, steps, useWin)
    {
      assert NodeSolved(net, s, trss[a], wss[a], kinds, cap, steps, a);
    }
    forall a, e | 0 <= a < |net.nodes| && e in net.nodes[a]
      ensures VoqSolved(trss[a], carry[a], kinds, cap, rg, steps, e)
    {
      SolvedVoq(net, s, ext, carry, kinds, cap, rg, steps, trss[a], wss[a], a, e);
    }
    forall a, e, t | 0 <= a < |net.nodes| && e in net.nodes[a] && Outer(net, a, e) && 0 <= t < steps
      ensures InputAt(trss[a], ext[a], kinds, e, t)
    {
      assert NodeSolved(net, s, trss[a], wss[a], kinds, cap, steps, a);
      HostInput(net, s, ext, kinds, cap, steps, trss[a], a, e, t);
    }
  }
}
