/**
  The constraints of a network and its forward execution.  The constraints equate what the ports of all links
  count in the same step; the execution computes, step by step, what comes to every VOQ and what tail drop does.
 */
module NetworkForward {
  import opened CountVectors
  import opened BufferTrace
  import opened StableMatching
  import opened VoqSwitch
  import opened Voqs
  import opened VoqRuns
  import opened VoqSystem
  import opened VoqQueues
  import opened NetworkQueues
  import opened NetworkCarry
  import opened NetworkPorts
  import opened NetworkSolutions
  import LeafBuffer

  // ---------------------------------------------------------------- one VOQ

  /** One step of a VOQ: its backlog, what tail drop admits of the input, and the next backlog. */
  ghost predicate Moves(tr: Trace, kinds: nat, cap: int, t: nat) {
    && LeafBuffer.StepShaped(tr, kinds, t)
    && tr.c[t] == (if t == 0 then Zero(kinds) else Sub(Add(tr.c[t - 1], tr.e[t - 1]), tr.o[t - 1]))
    && tr.b[t] == (Sum(tr.c[t]) > 0)
    && tr.i[t] == Add(tr.e[t], tr.d[t]) && Sum(tr.e[t]) == Min(Sum(tr.i[t]), cap - Sum(tr.c[t]))
  }

  ghost predicate MovesThroughout(tr: Trace, steps: nat, kinds: nat, cap: int) {
    Shaped(tr, steps, kinds) && Counts(tr) && forall t :: 0 <= t < steps ==> Moves(tr, kinds, cap, t)
  }

  /** An empty VOQ is not offered more than its capacity. */
  predicate Fits(tr: Trace, cap: int, t: nat)
    requires t < |tr.c| && t < |tr.i|
  {
    Sum(tr.c[t]) == 0 ==> Sum(tr.i[t]) <= cap
  }

  lemma MoveSizes(tr: Trace, kinds: nat, cap: int, t: nat)
    requires Moves(tr, kinds, cap, t) && Counts(tr)
    ensures 0 <= Sum(tr.c[t]) <= cap && Sum(tr.e[t]) >= 0 && Sum(tr.d[t]) >= 0
    ensures Sum(tr.i[t]) == Sum(tr.e[t]) + Sum(tr.d[t])
  {
    SumOfCounts(tr.c[t]);
    SumOfCounts(tr.e[t]);
    SumOfCounts(tr.d[t]);
    SumAdd(tr.e[t], tr.d[t]);
  }

  lemma StepMoves(tr: Trace, steps: nat, kinds: nat, cap: int, t: nat)
    requires LeafBuffer.BufferRun(tr, steps, kinds, cap) && t < steps
    ensures Moves(tr, kinds, cap, t) && Fits(tr, cap, t)
  {
    assert LeafBuffer.StepOk(tr, kinds, cap, t);
    LeafBuffer.RunStep(tr, steps, kinds, cap, t);
    LeafBuffer.RunTailDrop(tr, steps, kinds, cap, t);
    SumOfCounts(tr.c[t]);
  }

  lemma MovesStep(tr: Trace, kinds: nat, cap: int, t: nat)
    requires Moves(tr, kinds, cap, t) && Counts(tr) && Fits(tr, cap, t)
    ensures LeafBuffer.StepOk(tr, kinds, cap, t)
  {
    MoveSizes(tr, kinds, cap, t);
    LeafBuffer.TailDropExact(Sum(tr.c[t]), Sum(tr.i[t]), Sum(tr.e[t]), Sum(tr.d[t]), cap);
    SumAdd(tr.e[t], tr.c[t]);
    SumAdd(tr.c[t], tr.e[t]);
    SumZero(kinds);
  }

  /** The relation of a VOQ is its execution, but for floods of an empty VOQ. */
  lemma BufferIsExecution(tr: Trace, steps: nat, kinds: nat, cap: int)
    ensures LeafBuffer.BufferRun(tr, steps, kinds, cap)
            <==> MovesThroughout(tr, steps, kinds, cap) && forall t :: 0 <= t < steps ==> Fits(tr, cap, t)
  {
    if LeafBuffer.BufferRun(tr, steps, kinds, cap) {
      forall t | 0 <= t < steps
        ensures Moves(tr, kinds, cap, t) && Fits(tr, cap, t)
      {
        StepMoves(tr, steps, kinds, cap, t);
      }
    }
    if MovesThroughout(tr, steps, kinds, cap) && forall t :: 0 <= t < steps ==> Fits(tr, cap, t) {
      forall t | 0 <= t < steps
        ensures LeafBuffer.StepOk(tr, kinds, cap, t)
      {
        MovesStep(tr, kinds, cap, t);
      }
    }
  }

  // ---------------------------------------------------------------- the network

  /** The counts of the types that the table sends to output r. */
  function RoutedTo(v: Vec, hop: seq<int>, r: int): (u: Vec)
    ensures |u| == |v|
  {
    seq(|v|, k requires 0 <= k < |v| => if k < |hop| && hop[k] == r then v[k] else 0)
  }

  /** A VOQ may carry only types that the table sends to its output. */
  ghost predicate Routes(net: Net, carry: Carry) {
    && |carry| == |net.nodes| == |net.hop|
    && forall a, e, k :: 0 <= a < |net.nodes| && e in net.nodes[a] && e in carry[a] && k in carry[a][e] ==>
         k < |net.hop[a]| && net.hop[a][k] == e.1
  }

  /** What leaves over a link in step t. */
  ghost function Leaving(net: Net, trss: seq<Traces>, l: Link, t: nat, kinds: nat): (v: Vec)
    requires l.fromNode < |net.nodes| == |trss| && HasCounts(net.nodes[l.fromNode], trss[l.fromNode], t, kinds)
    ensures |v| == kinds
  {
    PortCounts(net.nodes[l.fromNode], trss[l.fromNode], Out, l.fromPort, t, kinds, |net.nodes[l.fromNode]|)
  }

  /** VOQ e of switch b gets what the host offers, or what comes over the link and is bound for its output. */
  ghost predicate Fed(net: Net, trss: seq<Traces>, ext: seq<Arrivals>, kinds: nat, b: nat, e: Voq, t: nat) {
    && |trss| == |ext| == |net.nodes| == |net.hop| && b < |net.nodes|
    && var i := LinkTo(net.links, b, e.0);
       if i < 0 then
         InputAt(trss[b], ext[b], kinds, e, t)
       else
         && e in trss[b] && t < |trss[b][e].i| && net.links[i].fromNode < |net.nodes|
         && HasCounts(net.nodes[net.links[i].fromNode], trss[net.links[i].fromNode], t, kinds)
         && trss[b][e].i[t] == RoutedTo(Leaving(net, trss, net.links[i], t, kinds), net.hop[b], e.1)
  }

  ghost predicate NodeMoves(voqs: seq<Voq>, xs: seq<Snapshot>, trs: Traces, types: map<Voq, set<nat>>, kinds: nat,
                            cap: int, steps: nat) {
    && |xs| == steps && Run(voqs, xs)
    && (forall e :: e in voqs ==>
          && e in trs && e in types && CountsOnly(trs[e], types[e], steps, kinds)
          && MovesThroughout(trs[e], steps, kinds, cap))
    && forall t, e :: 0 <= t < |xs| && e in voqs ==> Coupled(voqs, xs[t], trs[e], e, t)
  }

  /**
    An execution of the network.  In every step the matchings follow the backlogs, a matched VOQ sends one packet of
    some type, links and tables bring the packets to the next VOQs, and tail drop admits what fits.
   */
  ghost predicate Executes(net: Net, ext: seq<Arrivals>, carry: Carry, kinds: nat, cap: nat, steps: nat,
                           xss: seq<seq<Snapshot>>, trss: seq<Traces>) {
    && |xss| == |trss| == |net.nodes| == |ext| == |carry|
    && (forall a :: 0 <= a < |net.nodes| ==> NodeMoves(net.nodes[a], xss[a], trss[a], carry[a], kinds, cap, steps))
    && forall a, e, t :: 0 <= a < |net.nodes| && e in net.nodes[a] && 0 <= t < steps ==>
         Fed(net, trss, ext, kinds, a, e, t)
  }

  /** What a host offers fits: it does not flood an empty VOQ, and input, enqueues and drops are in their ranges. */
  ghost predicate HostFits(trs: Traces, cap: nat, rg: Ranges, e: Voq, t: int) {
    && e in trs && 0 <= t < |trs[e].c| && t < |trs[e].i| && t < |trs[e].e| && t < |trs[e].d|
    && Fits(trs[e], cap, t)
    && Within(trs[e].i[t], rg.maxIn) && Within(trs[e].e[t], rg.maxEnq) && Within(trs[e].d[t], rg.maxEnq)
  }

  ghost predicate HostsFit(net: Net, trss: seq<Traces>, cap: nat, rg: Ranges, steps: nat) {
    && |trss| == |net.nodes|
    && forall a, e, t :: 0 <= a < |net.nodes| && e in net.nodes[a] && Outer(net, a, e) && 0 <= t < steps ==>
         HostFits(trss[a], cap, rg, e, t)
  }

  // ---------------------------------------------------------------- links, seen from one VOQ

  /** The VOQ counts packets of type k only if the table sends them to its output r. */
  predicate RoutedAt(tr: Trace, hop: seq<int>, r: int, t: nat, k: nat)
    requires t < |tr.i| && k < |tr.i[t]|
  {
    tr.i[t][k] != 0 ==> k < |hop| && hop[k] == r
  }

  ghost predicate InputsRouted(voqs: seq<Voq>, trs: Traces, hop: seq<int>, t: nat, kinds: nat)
    requires HasCounts(voqs, trs, t, kinds)
  {
    forall e, k :: e in voqs && 0 <= k < kinds ==> RoutedAt(trs[e], hop, e.1, t, k)
  }

  lemma RoutedInNext(voqs: seq<Voq>, trs: Traces, hop: seq<int>, p: int, t: nat, kinds: nat, m: nat, n: nat, k: nat)
    requires HasCounts(voqs, trs, t, kinds) && Distinct(voqs) && n == m + 1 <= |voqs| && k < kinds
    requires InputsRouted(voqs, trs, hop, t, kinds)
    requires PortCounts(voqs, trs, In, p, t, kinds, m)[k]
             == if k < |hop| && (p, hop[k]) in voqs[..m] then trs[(p, hop[k])].i[t][k] else 0
    ensures PortCounts(voqs, trs, In, p, t, kinds, n)[k]
            == if k < |hop| && (p, hop[k]) in voqs[..n] then trs[(p, hop[k])].i[t][k] else 0
  {
    assert voqs[m] in voqs && RoutedAt(trs[voqs[m]], hop, voqs[m].1, t, k);
    if k < |hop| {
      PrefixMember(voqs, m, n, (p, hop[k]));
    }
  }

  /** An input port counts a type at the VOQ to which the table sends it. */
  lemma {:induction false} RoutedIn(voqs: seq<Voq>, trs: Traces, hop: seq<int>, p: int, t: nat, kinds: nat, n: nat,
                                    k: nat)
    requires HasCounts(voqs, trs, t, kinds) && Distinct(voqs) && n <= |voqs| && k < kinds
    requires InputsRouted(voqs, trs, hop, t, kinds)
    ensures PortCounts(voqs, trs, In, p, t, kinds, n)[k]
            == if k < |hop| && (p, hop[k]) in voqs[..n] then trs[(p, hop[k])].i[t][k] else 0
  {
    if n == 0 {
    } else {
      RoutedIn(voqs, trs, hop, p, t, kinds, n - 1, k);
      RoutedInNext(voqs, trs, hop, p, t, kinds, n - 1, n, k);
    }
  }

  /** The port counts v if and only if every VOQ gets its part of v, when each type of v finds a VOQ. */
  lemma PortCountsParts(voqs: seq<Voq>, trs: Traces, hop: seq<int>, p: int, t: nat, kinds: nat, v: Vec)
    requires HasCounts(voqs, trs, t, kinds) && Distinct(voqs) && |v| == kinds && InputsRouted(voqs, trs, hop, t, kinds)
    requires forall k :: 0 <= k < kinds && v[k] != 0 ==> k < |hop| && (p, hop[k]) in voqs
    ensures PortCounts(voqs, trs, In, p, t, kinds, |voqs|) == v
            <==> forall e :: e in voqs && e.0 == p ==> trs[e].i[t] == RoutedTo(v, hop, e.1)
  {
    var port := PortCounts(voqs, trs, In, p, t, kinds, |voqs|);
    assert voqs[..|voqs|] == voqs;
    forall k | 0 <= k < kinds
      ensures port[k] == if k < |hop| && (p, hop[k]) in voqs then trs[(p, hop[k])].i[t][k] else 0
    {
      RoutedIn(voqs, trs, hop, p, t, kinds, |voqs|, k);
    }
    if port == v {
      forall e | e in voqs && e.0 == p
        ensures trs[e].i[t] == RoutedTo(v, hop, e.1)
      {
        forall k | 0 <= k < kinds
          ensures trs[e].i[t][k] == RoutedTo(v, hop, e.1)[k]
        {
          assert RoutedAt(trs[e], hop, e.1, t, k) && (k < |hop| && hop[k] == e.1 ==> (p, hop[k]) == e);
        }
      }
    }
    if forall e :: e in voqs && e.0 == p ==> trs[e].i[t] == RoutedTo(v, hop, e.1) {
      forall k | 0 <= k < kinds
        ensures port[k] == v[k]
      {
        if k < |hop| && (p, hop[k]) in voqs {
          assert trs[(p, hop[k])].i[t] == RoutedTo(v, hop, hop[k]);
        }
      }
    }
  }

  // ---------------------------------------------------------------- all links

  /** A network whose links accept what may leave over them, and traces that count only carried types. */
  ghost predicate Carries(net: Net, trss: seq<Traces>, carry: Carry, steps: nat, kinds: nat) {
    && Closed(net, carry, kinds) && Routes(net, carry) && InEndsDiffer(net.links)
    && CountsCarried(net, trss, carry, steps, kinds)
  }

  lemma CarriedRouted(tr: Trace, types: set<nat>, hop: seq<int>, r: int, steps: nat, kinds: nat, t: nat, k: nat)
    requires CountsOnly(tr, types, steps, kinds) && t < steps && k < kinds
    requires forall x :: x in types ==> x < |hop| && hop[x] == r
    ensures RoutedAt(tr, hop, r, t, k)
  {
    assert k in types || ZeroAt(tr, t, k, kinds);
  }

  lemma CarriedCounts(net: Net, trss: seq<Traces>, carry: Carry, steps: nat, kinds: nat, a: nat, t: nat)
    requires Carries(net, trss, carry, steps, kinds) && a < |net.nodes| && t < steps
    ensures HasCounts(net.nodes[a], trss[a], t, kinds)
    ensures InputsRouted(net.nodes[a], trss[a], net.hop[a], t, kinds)
  {
    var voqs, trs := net.nodes[a], trss[a];
    forall e, k | e in voqs && 0 <= k < kinds
      ensures RoutedAt(trs[e], net.hop[a], e.1, t, k)
    {
      CarriedRouted(trs[e], carry[a][e], net.hop[a], e.1, steps, kinds, t, k);
    }
  }

  /** What leaves over a link finds a VOQ behind it. */
  lemma LeavingAccepted(net: Net, trss: seq<Traces>, carry: Carry, steps: nat, kinds: nat, l: Link, t: nat, k: nat)
    requires Carries(net, trss, carry, steps, kinds) && l in net.links && t < steps && k < kinds
    requires l.fromNode < |net.nodes| && HasCounts(net.nodes[l.fromNode], trss[l.fromNode], t, kinds)
    requires Leaving(net, trss, l, t, kinds)[k] != 0
    ensures Accepts(net, carry, l, k)
  {
    var voqs, trs := net.nodes[l.fromNode], trss[l.fromNode];
    if NoneAt(voqs, trs, Out, l.fromPort, t, kinds, k) {
      NothingAtPort(voqs, trs, Out, l.fromPort, t, kinds, k, |voqs|);
    }
    var e :| e in voqs && e.1 == l.fromPort && trs[e].o[t][k] != 0;
    assert k !in carry[l.fromNode][e] ==> ZeroAt(trs[e], t, k, kinds);
    assert LinkAccepts(net, carry, l);
  }

  /** The VOQs at the end of the link get what leaves over it. */
  ghost predicate PortFed(net: Net, trss: seq<Traces>, l: Link, t: nat, kinds: nat) {
    && l.fromNode < |net.nodes| && l.toNode < |net.nodes| == |net.hop| == |trss|
    && HasCounts(net.nodes[l.fromNode], trss[l.fromNode], t, kinds)
    && HasCounts(net.nodes[l.toNode], trss[l.toNode], t, kinds)
    && forall e :: e in net.nodes[l.toNode] && e.0 == l.toPort ==>
         trss[l.toNode][e].i[t] == RoutedTo(Leaving(net, trss, l, t, kinds), net.hop[l.toNode], e.1)
  }

  /** A link holds if and only if every VOQ behind it gets its part. */
  lemma LinkIsRouting(net: Net, trss: seq<Traces>, carry: Carry, steps: nat, kinds: nat, l: Link, t: nat)
    requires Carries(net, trss, carry, steps, kinds) && l in net.links && t < steps
    ensures LinkHolds(net, trss, l, t, kinds) <==> PortFed(net, trss, l, t, kinds)
  {
    var b := l.toNode;
    CarriedCounts(net, trss, carry, steps, kinds, l.fromNode, t);
    CarriedCounts(net, trss, carry, steps, kinds, b, t);
    var v := Leaving(net, trss, l, t, kinds);
    forall k | 0 <= k < kinds && v[k] != 0
      ensures k < |net.hop[b]| && (l.toPort, net.hop[b][k]) in net.nodes[b]
    {
      LeavingAccepted(net, trss, carry, steps, kinds, l, t, k);
    }
    PortCountsParts(net.nodes[b], trss[b], net.hop[b], l.toPort, t, kinds, v);
  }

  ghost predicate InnerFed(net: Net, trss: seq<Traces>, ext: seq<Arrivals>, kinds: nat, t: nat) {
    forall b, e :: 0 <= b < |net.nodes| && e in net.nodes[b] && !Outer(net, b, e) ==>
      Fed(net, trss, ext, kinds, b, e, t)
  }

  lemma FedAtPort(net: Net, trss: seq<Traces>, ext: seq<Arrivals>, carry: Carry, steps: nat, kinds: nat, i: nat,
                  t: nat)
    requires Carries(net, trss, carry, steps, kinds) && t < steps && |ext| == |net.nodes| && i < |net.links|
    requires InnerFed(net, trss, ext, kinds, t)
    ensures PortFed(net, trss, net.links[i], t, kinds)
  {
    var l := net.links[i];
    CarriedCounts(net, trss, carry, steps, kinds, l.fromNode, t);
    CarriedCounts(net, trss, carry, steps, kinds, l.toNode, t);
    assert LinkTo(net.links, l.toNode, l.toPort) == i;
    forall e | e in net.nodes[l.toNode] && e.0 == l.toPort
      ensures trss[l.toNode][e].i[t] == RoutedTo(Leaving(net, trss, l, t, kinds), net.hop[l.toNode], e.1)
    {
      assert !Outer(net, l.toNode, e) && Fed(net, trss, ext, kinds, l.toNode, e, t);
    }
  }

  /** All links hold in a step if and only if all VOQs behind links get their parts. */
  lemma LinksAreRouting(net: Net, trss: seq<Traces>, ext: seq<Arrivals>, carry: Carry, steps: nat, kinds: nat, t: nat)
    requires Carries(net, trss, carry, steps, kinds) && t < steps && |ext| == |net.nodes|
    ensures (forall i :: 0 <= i < |net.links| ==> LinkHolds(net, trss, net.links[i], t, kinds))
            <==> InnerFed(net, trss, ext, kinds, t)
  {
    forall i | 0 <= i < |net.links|
      ensures LinkHolds(net, trss, net.links[i], t, kinds) <==> PortFed(net, trss, net.links[i], t, kinds)
    {
      LinkIsRouting(net, trss, carry, steps, kinds, net.links[i], t);
    }
    if forall i :: 0 <= i < |net.links| ==> LinkHolds(net, trss, net.links[i], t, kinds) {
      forall b, e | 0 <= b < |net.nodes| && e in net.nodes[b] && !Outer(net, b, e)
        ensures Fed(net, trss, ext, kinds, b, e, t)
      {
        assert PortFed(net, trss, net.links[LinkTo(net.links, b, e.0)], t, kinds);
      }
    }
    if InnerFed(net, trss, ext, kinds, t) {
      forall i | 0 <= i < |net.links|
        ensures PortFed(net, trss, net.links[i], t, kinds)
      {
        FedAtPort(net, trss, ext, carry, steps, kinds, i, t);
      }
    }
  }

  // ---------------------------------------------------------------- what comes over links fits

  lemma {:induction false} SentOnce(voqs: seq<Voq>, trs: Traces, m: set<Voq>, q: int, t: nat, kinds: nat, n: nat)
    requires HasCounts(voqs, trs, t, kinds) && n <= |voqs| && Distinct(voqs) && ConflictFree(m)
    requires forall e :: e in voqs ==> Sum(trs[e].o[t]) == if e in m then 1 else 0
    ensures Sum(PortCounts(voqs, trs, Out, q, t, kinds, n)) <= 1
    ensures Sum(PortCounts(voqs, trs, Out, q, t, kinds, n)) > 0 ==> SomeAt(voqs, m, q, n)
  {
    if n == 0 {
      SumZero(kinds);
    } else {
      SentOnce(voqs, trs, m, q, t, kinds, n - 1);
      var last := voqs[n - 1];
      if last.1 == q {
        SumAdd(PortCounts(voqs, trs, Out, q, t, kinds, n - 1), trs[last].o[t]);
        if last in m {
          assert !SomeAt(voqs, m, q, n - 1);
        }
      }
    }
  }

  /** At most one packet leaves over a link in a step. */
  lemma LeavesOnce(voqs: seq<Voq>, xs: seq<Snapshot>, trs: Traces, q: int, t: nat, kinds: nat)
    requires HasCounts(voqs, trs, t, kinds) && Distinct(voqs) && Run(voqs, xs) && t < |xs|
    requires forall e :: e in voqs ==> Coupled(voqs, xs[t], trs[e], e, t)
    ensures Sum(PortCounts(voqs, trs, Out, q, t, kinds, |voqs|)) <= 1
  {
    StepIsConflictFree(voqs, xs[t]);
    forall e | e in voqs
      ensures Sum(trs[e].o[t]) == if e in Served(voqs, xs[t]) then 1 else 0
    {
      assert Coupled(voqs, xs[t], trs[e], e, t);
    }
    SentOnce(voqs, trs, Served(voqs, xs[t]), q, t, kinds, |voqs|);
  }

  lemma PartFits(v: Vec, hop: seq<int>, r: int)
    requires Sum(v) <= 1 && NonNegative(RoutedTo(v, hop, r)) && NonNegative(v)
    ensures Sum(RoutedTo(v, hop, r)) <= 1
  {
    SumMonotone(RoutedTo(v, hop, r), v);
  }

  /** A VOQ that is offered at most one packet in a step. */
  lemma OneFits(tr: Trace, kinds: nat, cap: nat, rg: Ranges, t: nat)
    requires Moves(tr, kinds, cap, t) && Counts(tr) && Sum(tr.i[t]) <= 1 && cap >= 1 && SomeRanges(rg)
    ensures Fits(tr, cap, t) && Within(tr.i[t], rg.maxIn) && Within(tr.e[t], rg.maxEnq) && Within(tr.d[t], rg.maxEnq)
  {
    MoveSizes(tr, kinds, cap, t);
    SumOfCounts(tr.i[t]);
    SumOfCounts(tr.e[t]);
    SumOfCounts(tr.d[t]);
  }

  /** The outputs and the backlog of a VOQ are always in their ranges. */
  lemma SentFits(voqs: seq<Voq>, x: Snapshot, tr: Trace, kinds: nat, cap: nat, rg: Ranges, e: Voq, t: nat)
    requires Moves(tr, kinds, cap, t) && Counts(tr) && Coupled(voqs, x, tr, e, t) && SomeRanges(rg)
    ensures Within(tr.o[t], rg.maxDeq) && Within(tr.c[t], cap)
  {
    MoveSizes(tr, kinds, cap, t);
    SumOfCounts(tr.o[t]);
    SumOfCounts(tr.c[t]);
  }

  // ---------------------------------------------------------------- solutions are executions

  /** Everything that both sides share: a run of the matchings, and counts of carried types that are coupled to it. */
  ghost predicate Framed(net: Net, ext: seq<Arrivals>, carry: Carry, kinds: nat, steps: nat, xss: seq<seq<Snapshot>>,
                         trss: seq<Traces>) {
    && |xss| == |trss| == |net.nodes| == |ext| == |carry| && CountsCarried(net, trss, carry, steps, kinds)
    && (forall a :: 0 <= a < |net.nodes| ==> |xss[a]| == steps && Run(net.nodes[a], xss[a]))
    && forall a, e, t :: 0 <= a < |net.nodes| && e in net.nodes[a] && 0 <= t < steps ==>
         Coupled(net.nodes[a], xss[a][t], trss[a][e], e, t)
  }

  ghost predicate AllMove(net: Net, trss: seq<Traces>, kinds: nat, cap: int, steps: nat) {
    && |trss| == |net.nodes|
    && forall a, e :: 0 <= a < |net.nodes| && e in net.nodes[a] ==>
         e in trss[a] && MovesThroughout(trss[a][e], steps, kinds, cap)
  }

  ghost predicate AllFed(net: Net, trss: seq<Traces>, ext: seq<Arrivals>, kinds: nat, steps: nat) {
    forall a, e, t :: 0 <= a < |net.nodes| && e in net.nodes[a] && 0 <= t < steps ==>
      Fed(net, trss, ext, kinds, a, e, t)
  }

  lemma ExecutionParts(net: Net, ext: seq<Arrivals>, carry: Carry, kinds: nat, cap: nat, steps: nat,
                       xss: seq<seq<Snapshot>>, trss: seq<Traces>)
    ensures Executes(net, ext, carry, kinds, cap, steps, xss, trss)
            <==> && Framed(net, ext, carry, kinds, steps, xss, trss) && AllMove(net, trss, kinds, cap, steps)
                 && AllFed(net, trss, ext, kinds, steps)
  {
    if && Framed(net, ext, carry, kinds, steps, xss, trss) && AllMove(net, trss, kinds, cap, steps)
       && AllFed(net, trss, ext, kinds, steps) {
      assert forall a :: 0 <= a < |net.nodes| ==>
               NodeMoves(net.nodes[a], xss[a], trss[a], carry[a], kinds, cap, steps);
    }
  }

  lemma SolutionFramed(net: Net, ext: seq<Arrivals>, carry: Carry, kinds: nat, cap: nat, rg: Ranges, useWin: bool,
                       steps: nat, xss: seq<seq<Snapshot>>, trss: seq<Traces>, wss: seq<AllWindows>)
    requires NetSolution(net, ext, carry, kinds, cap, rg, useWin, steps, xss, trss, wss)
    ensures Framed(net, ext, carry, kinds, steps, xss, trss) && AllMove(net, trss, kinds, cap, steps)
    ensures HostsFit(net, trss, cap, rg, steps)
  {
    forall a, e | 0 <= a < |net.nodes| && e in net.nodes[a]
      ensures e in trss[a] && e in carry[a] && CountsOnly(trss[a][e], carry[a][e], steps, kinds)
      ensures MovesThroughout(trss[a][e], steps, kinds, cap) && InRanges(trss[a][e], rg, cap)
      ensures forall t :: 0 <= t < steps ==> Fits(trss[a][e], cap, t)
      ensures |xss[a]| == steps && forall t :: 0 <= t < steps ==> Coupled(net.nodes[a], xss[a][t], trss[a][e], e, t)
    {
      assert VoqSolved(trss[a], carry[a], kinds, cap, rg, steps, e);
      assert NodeSolution(net.nodes[a], xss[a], trss[a], wss[a], kinds, cap, steps, useWin);
      BufferIsExecution(trss[a][e], steps, kinds, cap);
    }
    forall a | 0 <= a < |net.nodes|
      ensures |xss[a]| == steps && Run(net.nodes[a], xss[a])
    {
      assert NodeSolution(net.nodes[a], xss[a], trss[a], wss[a], kinds, cap, steps, useWin);
    }
  }

  /** A network whose tables, lists and links fit together. */
  ghost predicate WellLinked(net: Net, carry: Carry, kinds: nat) {
    Closed(net, carry, kinds) && Routes(net, carry) && InEndsDiffer(net.links)
  }

  lemma SolutionExecutes(net: Net, ext: seq<Arrivals>, carry: Carry, kinds: nat, cap: nat, rg: Ranges, useWin: bool,
                         steps: nat, xss: seq<seq<Snapshot>>, trss: seq<Traces>, wss: seq<AllWindows>)
    requires WellLinked(net, carry, kinds)
    requires NetSolution(net, ext, carry, kinds, cap, rg, useWin, steps, xss, trss, wss)
    ensures Executes(net, ext, carry, kinds, cap, steps, xss, trss) && HostsFit(net, trss, cap, rg, steps)
  {
    SolutionFramed(net, ext, carry, kinds, cap, rg, useWin, steps, xss, trss, wss);
    forall a, e, t | 0 <= a < |net.nodes| && e in net.nodes[a] && 0 <= t < steps
      ensures Fed(net, trss, ext, kinds, a, e, t)
    {
      if Outer(net, a, e) {
        assert InputAt(trss[a], ext[a], kinds, e, t);
      } else {
        LinksAreRouting(net, trss, ext, carry, steps, kinds, t);
      }
    }
    ExecutionParts(net, ext, carry, kinds, cap, steps, xss, trss);
  }

  lemma PortNonNegative(voqs: seq<Voq>, trs: Traces, side: Side, port: int, t: nat, kinds: nat)
    requires HasCounts(voqs, trs, t, kinds) && NoneNegative(voqs, trs, side, t, kinds)
    ensures NonNegative(PortCounts(voqs, trs, side, port, t, kinds, |voqs|))
  {
    forall k | 0 <= k < kinds
      ensures PortCounts(voqs, trs, side, port, t, kinds, |voqs|)[k] >= 0
    {
      NothingPasses(voqs, trs, side, port, t, kinds, k, |voqs|);
    }
  }

  /** At most one packet passes a link in a step of an execution. */
  lemma LinkSendsOnce(net: Net, ext: seq<Arrivals>, carry: Carry, kinds: nat, cap: nat, steps: nat,
                      xss: seq<seq<Snapshot>>, trss: seq<Traces>, l: Link, t: nat)
    requires WellLinked(net, carry, kinds) && Framed(net, ext, carry, kinds, steps, xss, trss)
    requires AllMove(net, trss, kinds, cap, steps) && l.fromNode < |net.nodes| && t < steps
    ensures HasCounts(net.nodes[l.fromNode], trss[l.fromNode], t, kinds)
    ensures Sum(Leaving(net, trss, l, t, kinds)) <= 1 && NonNegative(Leaving(net, trss, l, t, kinds))
  {
    var a := l.fromNode;
    CarriedCounts(net, trss, carry, steps, kinds, a, t);
    forall e | e in net.nodes[a]
      ensures NonNegative(CountsAt(trss[a][e], Out, t))
    {
      assert MovesThroughout(trss[a][e], steps, kinds, cap);
    }
    PortNonNegative(net.nodes[a], trss[a], Out, l.fromPort, t, kinds);
    LeavesOnce(net.nodes[a], xss[a], trss[a], l.fromPort, t, kinds);
  }

  /** So what comes over links always fits. */
  lemma InnerFits(net: Net, ext: seq<Arrivals>, carry: Carry, kinds: nat, cap: nat, rg: Ranges, steps: nat,
                  xss: seq<seq<Snapshot>>, trss: seq<Traces>, b: nat, e: Voq, t: nat)
    requires WellLinked(net, carry, kinds) && Framed(net, ext, carry, kinds, steps, xss, trss)
    requires AllMove(net, trss, kinds, cap, steps) && AllFed(net, trss, ext, kinds, steps)
    requires b < |net.nodes| && e in net.nodes[b] && !Outer(net, b, e) && t < steps && cap >= 1 && SomeRanges(rg)
    ensures HostFits(trss[b], cap, rg, e, t)
  {
    var l := net.links[LinkTo(net.links, b, e.0)];
    assert Fed(net, trss, ext, kinds, b, e, t) && MovesThroughout(trss[b][e], steps, kinds, cap);
    assert Moves(trss[b][e], kinds, cap, t);
    LinkSendsOnce(net, ext, carry, kinds, cap, steps, xss, trss, l, t);
    PartFits(Leaving(net, trss, l, t, kinds), net.hop[b], e.1);
    OneFits(trss[b][e], kinds, cap, rg, t);
  }

  ghost predicate AllFitAt(net: Net, trss: seq<Traces>, cap: nat, rg: Ranges, steps: nat) {
    forall a, e, t :: 0 <= a < |net.nodes| && e in net.nodes[a] && 0 <= t < steps && a < |trss| ==>
      HostFits(trss[a], cap, rg, e, t)
  }

  /** A VOQ of an execution, all of whose inputs fit, meets its constraints. */
  lemma VoqSolves(voqs: seq<Voq>, xs: seq<Snapshot>, trs: Traces, types: map<Voq, set<nat>>, kinds: nat, cap: nat,
                  rg: Ranges, steps: nat, e: Voq)
    requires e in voqs && e in trs && e in types && CountsOnly(trs[e], types[e], steps, kinds) && SomeRanges(rg)
    requires MovesThroughout(trs[e], steps, kinds, cap) && |xs| == steps
    requires forall t :: 0 <= t < steps ==> HostFits(trs, cap, rg, e, t) && Coupled(voqs, xs[t], trs[e], e, t)
    ensures LeafBuffer.BufferRun(trs[e], steps, kinds, cap) && VoqSolved(trs, types, kinds, cap, rg, steps, e)
  {
    forall t | 0 <= t < steps
      ensures Fits(trs[e], cap, t) && Within(trs[e].o[t], rg.maxDeq) && Within(trs[e].c[t], cap)
      ensures Within(trs[e].i[t], rg.maxIn) && Within(trs[e].e[t], rg.maxEnq) && Within(trs[e].d[t], rg.maxEnq)
    {
      assert HostFits(trs, cap, rg, e, t) && Coupled(voqs, xs[t], trs[e], e, t);
      SentFits(voqs, xs[t], trs[e], kinds, cap, rg, e, t);
    }
    BufferIsExecution(trs[e], steps, kinds, cap);
  }

  ghost predicate AllWindowsFit(net: Net, trss: seq<Traces>, wss: seq<AllWindows>, steps: nat, kinds: nat, cap: nat) {
    && |trss| == |wss| == |net.nodes|
    && forall a :: 0 <= a < |net.nodes| ==> WindowsFit(net.nodes[a], trss[a], wss[a], steps, kinds, cap)
  }

  lemma ExecutionFits(net: Net, ext: seq<Arrivals>, carry: Carry, kinds: nat, cap: nat, rg: Ranges, steps: nat,
                      xss: seq<seq<Snapshot>>, trss: seq<Traces>)
    requires WellLinked(net, carry, kinds) && cap >= 1 && SomeRanges(rg) && HostsFit(net, trss, cap, rg, steps)
    requires Framed(net, ext, carry, kinds, steps, xss, trss)
    requires AllMove(net, trss, kinds, cap, steps) && AllFed(net, trss, ext, kinds, steps)
    ensures AllFitAt(net, trss, cap, rg, steps)
  {
    forall a, e, t | 0 <= a < |net.nodes| && e in net.nodes[a] && 0 <= t < steps
      ensures HostFits(trss[a], cap, rg, e, t)
    {
      if !Outer(net, a, e) {
        InnerFits(net, ext, carry, kinds, cap, rg, steps, xss, trss, a, e, t);
      }
    }
  }

  lemma ExecutionSolves(net: Net, ext: seq<Arrivals>, carry: Carry, kinds: nat, cap: nat, rg: Ranges, useWin: bool,
                        steps: nat, xss: seq<seq<Snapshot>>, trss: seq<Traces>, wss: seq<AllWindows>)
    requires WellLinked(net, carry, kinds) && cap >= 1 && SomeRanges(rg) && HostsFit(net, trss, cap, rg, steps)
    requires Executes(net, ext, carry, kinds, cap, steps, xss, trss) && |wss| == |net.nodes|
    requires useWin ==> AllWindowsFit(net, trss, wss, steps, kinds, cap)
    ensures NetSolution(net, ext, carry, kinds, cap, rg, useWin, steps, xss, trss, wss)
  {
    ExecutionParts(net, ext, carry, kinds, cap, steps, xss, trss);
    ExecutionFits(net, ext, carry, kinds, cap, rg, steps, xss, trss);
    forall a, e | 0 <= a < |net.nodes| && e in net.nodes[a]
      ensures VoqSolved(trss[a], carry[a], kinds, cap, rg, steps, e)
      ensures LeafBuffer.BufferRun(trss[a][e], steps, kinds, cap)
    {
      VoqSolves(net.nodes[a], xss[a], trss[a], carry[a], kinds, cap, rg, steps, e);
    }
    forall a | 0 <= a < |net.nodes|
      ensures NodeSolution(net.nodes[a], xss[a], trss[a], wss[a], kinds, cap, steps, useWin)
    {
    }
    forall i, t | 0 <= i < |net.links| && 0 <= t < steps
      ensures LinkHolds(net, trss, net.links[i], t, kinds)
    {
      LinksAreRouting(net, trss, ext, carry, steps, kinds, t);
    }
    forall a, e, t | 0 <= a < |net.nodes| && e in net.nodes[a] && Outer(net, a, e) && 0 <= t < steps
      ensures InputAt(trss[a], ext[a], kinds, e, t)
    {
      assert Fed(net, trss, ext, kinds, a, e, t);
    }
  }

  /**
    The solutions of the constraints of a network are the executions in which the offers of the hosts fit: no
    other VOQ is ever asked for more than it can take.  With windows in use they must exist as well.
   */
  lemma SolutionsAreExecutions(net: Net, ext: seq<Arrivals>, carry: Carry, kinds: nat, cap: nat, rg: Ranges,
                               useWin: bool, steps: nat, xss: seq<seq<Snapshot>>, trss: seq<Traces>,
                               wss: seq<AllWindows>)
    requires WellLinked(net, carry, kinds) && cap >= 1 && SomeRanges(rg) && |wss| == |net.nodes|
    ensures NetSolution(net, ext, carry, kinds, cap, rg, useWin, steps, xss, trss, wss)
            <==> && Executes(net, ext, carry, kinds, cap, steps, xss, trss) && HostsFit(net, trss, cap, rg, steps)
                 && (useWin ==> AllWindowsFit(net, trss, wss, steps, kinds, cap))
  {
    if NetSolution(net, ext, carry, kinds, cap, rg, useWin, steps, xss, trss, wss) {
      SolutionExecutes(net, ext, carry, kinds, cap, rg, useWin, steps, xss, trss, wss);
      forall a | 0 <= a < |net.nodes| && useWin
        ensures WindowsFit(net.nodes[a], trss[a], wss[a], steps, kinds, cap)
      {
        assert NodeSolution(net.nodes[a], xss[a], trss[a], wss[a], kinds, cap, steps, useWin);
      }
    }
    if && Executes(net, ext, carry, kinds, cap, steps, xss, trss) && HostsFit(net, trss, cap, rg, steps)
       && (useWin ==> AllWindowsFit(net, trss, wss, steps, kinds, cap)) {
      ExecutionSolves(net, ext, carry, kinds, cap, rg, useWin, steps, xss, trss, wss);
    }
  }
}
