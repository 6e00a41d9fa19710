/** Which host arrivals a network admits from every moment on. */
module NetworkExact {
  import opened CountVectors
  import opened BufferTrace
  import opened FifoQueue
  import opened Voqs
  import opened VoqSystem
  import opened VoqQueues
  import opened NetworkQueues
  import opened NetworkCarry
  import opened NetworkSolutions
  import LeafBuffer

  // ---------------------------------------------------------------- the first step of a solution

  /** A buffer starts empty, so it admits all of its first input. */
  lemma FirstInput(tr: Trace, steps: nat, kinds: nat, cap: nat, rg: Ranges)
    requires LeafBuffer.BufferRun(tr, steps, kinds, cap) && InRanges(tr, rg, cap) && steps > 0
    ensures Sum(tr.i[0]) <= cap && Within(tr.i[0], rg.maxIn) && Within(tr.i[0], rg.maxEnq)
  {
    LeafBuffer.RunTailDrop(tr, steps, kinds, cap, 0);
    assert LeafBuffer.StepOk(tr, kinds, cap, 0);
    SumOfCounts(tr.d[0]);
  }

  lemma OnlyTypes(offer: seq<nat>, types: set<nat>, kinds: nat)
    requires Typed(offer, kinds) && forall k :: 0 <= k < kinds && k !in types ==> CountOf(offer, kinds)[k] == 0
    ensures AllIn(offer, types)
  {
    forall x | x in offer
      ensures x in types
    {
      assert x in multiset(offer) && CountOf(offer, kinds)[x] > 0;
    }
  }

  /** What a VOQ counts in the first step of a solution, it was offered. */
  lemma FirstOffer(trs: Traces, ext: Arrivals, types: map<Voq, set<nat>>, kinds: nat, cap: nat, rg: Ranges,
                   steps: nat, e: Voq)
    requires VoqSolved(trs, types, kinds, cap, rg, steps, e) && LeafBuffer.BufferRun(trs[e], steps, kinds, cap)
    requires steps > 0 && InputAt(trs, ext, kinds, e, 0) && Typed(ext[e][0], kinds)
    ensures OfferCarried(ext, types, e, 0) && OfferSmall(ext, e, kinds, cap, rg, 0)
  {
    FirstInput(trs[e], steps, kinds, cap, rg);
    SumCountOf(ext[e][0], kinds);
    forall k | 0 <= k < kinds && k !in types[e]
      ensures CountOf(ext[e][0], kinds)[k] == 0
    {
      assert ZeroAt(trs[e], 0, k, kinds);
    }
    OnlyTypes(ext[e][0], types[e], kinds);
  }

  // ---------------------------------------------------------------- from every moment on

  /** The arrivals from a moment on. */
  function After(ext: seq<Arrivals>, from: nat): (r: seq<Arrivals>)
    ensures |r| == |ext|
    ensures forall a, e :: 0 <= a < |ext| && e in ext[a] && from <= |ext[a][e]| ==>
              e in r[a] && r[a][e] == ext[a][e][from..]
  {
    seq(|ext|, a requires 0 <= a < |ext| => map e | e in ext[a] && from <= |ext[a][e]| :: ext[a][e][from..])
  }

  ghost predicate Solvable(net: Net, ext: seq<Arrivals>, carry: Carry, kinds: nat, cap: nat, rg: Ranges, useWin: bool,
                           steps: nat) {
    exists xss, trss, wss :: NetSolution(net, ext, carry, kinds, cap, rg, useWin, steps, xss, trss, wss)
  }

  /** Started empty at the moment, the network has a solution for what the hosts send from then on. */
  ghost predicate SolvableFrom(net: Net, ext: seq<Arrivals>, carry: Carry, kinds: nat, cap: nat, rg: Ranges,
                               useWin: bool, steps: nat, from: nat)
    requires from <= steps
  {
    Solvable(net, After(ext, from), carry, kinds, cap, rg, useWin, steps - from)
  }

  ghost predicate HostsTyped(net: Net, ext: seq<Arrivals>, kinds: nat, steps: nat) {
    && Hosts(net, ext, steps)
    && forall a, e, t :: 0 <= a < |net.nodes| && e in net.nodes[a] && Outer(net, a, e) && 0 <= t < steps ==>
         Typed(ext[a][e][t], kinds)
  }

  lemma OffersAfter(net: Net, ext: seq<Arrivals>, carry: Carry, kinds: nat, cap: nat, rg: Ranges, steps: nat,
                    from: nat)
    requires HostsCarried(net, ext, carry, steps) && HostsSmall(net, ext, kinds, cap, rg, steps) && from <= steps
    ensures HostsCarried(net, After(ext, from), carry, steps - from)
    ensures HostsSmall(net, After(ext, from), kinds, cap, rg, steps - from)
  {
    var later, n := After(ext, from), steps - from;
    assert Hosts(net, later, n);
    forall a, e, t | 0 <= a < |net.nodes| && e in net.nodes[a] && Outer(net, a, e) && 0 <= t < n
      ensures OfferCarried(later[a], carry[a], e, t) && OfferSmall(later[a], e, kinds, cap, rg, t)
    {
      assert OfferCarried(ext[a], carry[a], e, from + t) && OfferSmall(ext[a], e, kinds, cap, rg, from + t);
      assert later[a][e][t] == ext[a][e][from + t];
    }
  }

  lemma FirstOfSolution(net: Net, ext: seq<Arrivals>, carry: Carry, kinds: nat, cap: nat, rg: Ranges, useWin: bool,
                        steps: nat, a: nat, e: Voq)
    requires Solvable(net, ext, carry, kinds, cap, rg, useWin, steps) && steps > 0
    requires a < |net.nodes| && e in net.nodes[a] && Outer(net, a, e)
    requires |ext| == |net.nodes| && e in ext[a] && 0 < |ext[a][e]| && Typed(ext[a][e][0], kinds)
    ensures |carry| == |net.nodes| && OfferCarried(ext[a], carry[a], e, 0) && OfferSmall(ext[a], e, kinds, cap, rg, 0)
  {
    var xss, trss, wss :| NetSolution(net, ext, carry, kinds, cap, rg, useWin, steps, xss, trss, wss);
    assert NodeSolution(net.nodes[a], xss[a], trss[a], wss[a], kinds, cap, steps, useWin);
    assert VoqSolved(trss[a], carry[a], kinds, cap, rg, steps, e) && InputAt(trss[a], ext[a], kinds, e, 0);
    FirstOffer(trss[a], ext[a], carry[a], kinds, cap, rg, steps, e);
  }

  /** What is offered at a moment from which the network is solvable is carried and small. */
  lemma OfferAtFits(net: Net, ext: seq<Arrivals>, carry: Carry, kinds: nat, cap: nat, rg: Ranges, useWin: bool,
                    steps: nat, a: nat, e: Voq, t: nat)
    requires HostsTyped(net, ext, kinds, steps) && t < steps
    requires SolvableFrom(net, ext, carry, kinds, cap, rg, useWin, steps, t)
    requires a < |net.nodes| && e in net.nodes[a] && Outer(net, a, e) && |carry| == |net.nodes|
    ensures OfferCarried(ext[a], carry[a], e, t) && OfferSmall(ext[a], e, kinds, cap, rg, t)
  {
    assert After(ext, t)[a][e][0] == ext[a][e][t];
    FirstOfSolution(net, After(ext, t), carry, kinds, cap, rg, useWin, steps - t, a, e);
  }

  /**
    Which arrivals a network admits whenever they begin: for any network, ranges and capacity, the
    constraints of all switches and links have a solution from every moment on if and only if every offer of
    a host, in every step, is small and of types that its VOQ may carry.
   */
  lemma AdmittedExactlyWhen(net: Net, ext: seq<Arrivals>, carry: Carry, kinds: nat, cap: nat, rg: Ranges,
                            useWin: bool, steps: nat)
    requires Closed(net, carry, kinds) && InEndsDiffer(net.links) && cap >= 1 && SomeRanges(rg)
    requires HostsTyped(net, ext, kinds, steps)
    ensures HostsCarried(net, ext, carry, steps) && HostsSmall(net, ext, kinds, cap, rg, steps)
            <==> forall from :: 0 <= from < steps ==> SolvableFrom(net, ext, carry, kinds, cap, rg, useWin, steps, from)
  {
    if HostsCarried(net, ext, carry, steps) && HostsSmall(net, ext, kinds, cap, rg, steps) {
      forall from | 0 <= from < steps
        ensures SolvableFrom(net, ext, carry, kinds, cap, rg, useWin, steps, from)
      {
        OffersAfter(net, ext, carry, kinds, cap, rg, steps, from);
        var xss, trss, wss := NetworkSolvable(net, After(ext, from), carry, kinds, cap, rg, useWin, steps - from);
      }
    }
    if forall from :: 0 <= from < steps ==> SolvableFrom(net, ext, carry, kinds, cap, rg, useWin, steps, from) {
      forall a, e, t | 0 <= a < |net.nodes| && e in net.nodes[a] && Outer(net, a, e) && 0 <= t < steps
        ensures OfferCarried(ext[a], carry[a], e, t) && OfferSmall(ext[a], e, kinds, cap, rg, t)
      {
        OfferAtFits(net, ext, carry, kinds, cap, rg, useWin, steps, a, e, t);
      }
    }
  }
}
