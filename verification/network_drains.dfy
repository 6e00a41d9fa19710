/** Once nothing enters it any more, a network of linked switches empties. */
module NetworkDrains {
  import opened CountVectors
  import opened BufferTrace
  import opened StableMatching
  import opened VoqSwitch
  import opened Voqs
  import opened VoqRuns
  import opened VoqSystem
  import opened NetworkQueues
  import opened NetworkPorts
  import opened NetworkSums
  import opened NetworkFlows
  import LeafBuffer

  // ---------------------------------------------------------------- weights

  /** Going over the link lowers the weight: above r before it, at most r behind it. */
  ghost predicate FallsAlong(net: Net, weight: seq<Values>, l: Link, r: int)
    requires AllHave(net, weight) && l.fromNode < |net.nodes| && l.toNode < |net.nodes|
  {
    && (forall e :: e in net.nodes[l.fromNode] && e.1 == l.fromPort ==> weight[l.fromNode][e] > r)
    && forall e :: e in net.nodes[l.toNode] && e.0 == l.toPort ==> weight[l.toNode][e] <= r
  }

  ghost predicate Positive(voqs: seq<Voq>, w: Values) {
    Has(voqs, w) && forall e :: e in voqs ==> w[e] >= 1
  }

  /** A positive weight for every VOQ that falls along every link; rank holds the levels of the links. */
  ghost predicate Falls(net: Net, weight: seq<Values>, rank: seq<int>) {
    && AllHave(net, weight) && LinksFit(net) && |rank| == |net.links|
    && (forall a :: 0 <= a < |net.nodes| ==> Positive(net.nodes[a], weight[a]))
    && forall i :: 0 <= i < |net.links| ==> FallsAlong(net, weight, net.links[i], rank[i])
  }

  // ---------------------------------------------------------------- packets in one step

  ghost predicate HasStep(voqs: seq<Voq>, trs: Traces, t: nat) {
    forall e :: e in voqs ==> e in trs && t < |trs[e].i| && t < |trs[e].o| && t < |trs[e].c|
  }

  /** What every VOQ counts in step t, in or out. */
  ghost function Sums(voqs: seq<Voq>, trs: Traces, side: Side, t: nat): (v: Values)
    requires HasStep(voqs, trs, t)
    ensures Has(voqs, v) && forall e :: e in voqs ==> v[e] == Sum(CountsAt(trs[e], side, t))
  {
    map e | e in voqs :: Sum(CountsAt(trs[e], side, t))
  }

  ghost function Backlogs(voqs: seq<Voq>, trs: Traces, t: nat): (v: Values)
    requires HasStep(voqs, trs, t)
    ensures Has(voqs, v) && forall e :: e in voqs ==> v[e] == Sum(trs[e].c[t])
  {
    map e | e in voqs :: Sum(trs[e].c[t])
  }

  ghost function Times(voqs: seq<Voq>, w: Values, less: int, v: Values): (r: Values)
    requires Has(voqs, w) && Has(voqs, v)
    ensures Has(voqs, r) && forall e :: e in voqs ==> r[e] == (w[e] - less) * v[e]
  {
    map e | e in voqs :: (w[e] - less) * v[e]
  }

  /** One VOQ in one step: what is queued afterwards and what is sent is there before or comes in. */
  ghost predicate VoqStep(w: int, before: int, after: int, input: int, output: int) {
    before >= 0 && after >= 0 && input >= 0 && output >= 0
    && w * after + output + (w - 1) * output <= w * before + w * input
  }

  lemma WeighStep(w: int, before: int, after: int, input: int, enq: int, output: int)
    requires w >= 1 && before >= 0 && after >= 0 && input >= enq && input >= 0 && output >= 0
    requires after == before + enq - output
    ensures VoqStep(w, before, after, input, output)
  {
    assert w * after == w * before + w * enq - w * output;
    assert w * enq <= w * input;
    assert (w - 1) * output == w * output - output;
  }

  lemma BufferSteps(tr: Trace, steps: nat, kinds: nat, cap: int, w: int, t: nat)
    requires LeafBuffer.BufferRun(tr, steps, kinds, cap) && t + 1 < steps && w >= 1
    ensures VoqStep(w, Sum(tr.c[t]), Sum(tr.c[t + 1]), Sum(tr.i[t]), Sum(tr.o[t]))
  {
    OneBuffer(tr, steps, kinds, cap, t);
    OneBuffer(tr, steps, kinds, cap, t + 1);
    LeafBuffer.RunTailDrop(tr, steps, kinds, cap, t);
    assert LeafBuffer.StepOk(tr, kinds, cap, t);
    SumOfCounts(tr.i[t]);
    SumOfCounts(tr.o[t]);
    SumOfCounts(tr.d[t]);
    SumAdd(tr.e[t], tr.d[t]);
    WeighStep(w, Sum(tr.c[t]), Sum(tr.c[t + 1]), Sum(tr.i[t]), Sum(tr.e[t]), Sum(tr.o[t]));
  }

  // ---------------------------------------------------------------- a link in one step

  /** What a port counts in a step, over all types. */
  lemma {:induction false} PortSum(voqs: seq<Voq>, trs: Traces, side: Side, port: int, t: nat, kinds: nat, m: nat)
    requires HasCounts(voqs, trs, t, kinds) && HasStep(voqs, trs, t) && m <= |voqs|
    ensures Sum(PortCounts(voqs, trs, side, port, t, kinds, m))
            == TotalAt(voqs, Sums(voqs, trs, side, t), side, iset{port}, m)
  {
    if m == 0 {
      SumZero(kinds);
    } else {
      PortSum(voqs, trs, side, port, t, kinds, m - 1);
      SumAdd(PortCounts(voqs, trs, side, port, t, kinds, m - 1), CountsAt(trs[voqs[m - 1]], side, t));
    }
  }

  lemma {:induction false} ScaledAtMost(voqs: seq<Voq>, v: Values, u: Values, side: Side, port: int, r: int, m: nat)
    requires Has(voqs, v) && Has(voqs, u) && m <= |voqs|
    requires forall e :: e in voqs && Own(side, e) == port ==> v[e] <= r * u[e]
    ensures TotalAt(voqs, v, side, iset{port}, m) <= r * TotalAt(voqs, u, side, iset{port}, m)
  {
    if m == 0 {
    } else {
      ScaledAtMost(voqs, v, u, side, port, r, m - 1);
      var rest, last := TotalAt(voqs, u, side, iset{port}, m - 1), u[voqs[m - 1]];
      Distribute(r, rest, last);
    }
  }

  lemma {:induction false} ScaledAtLeast(voqs: seq<Voq>, v: Values, u: Values, side: Side, port: int, r: int, m: nat)
    requires Has(voqs, v) && Has(voqs, u) && m <= |voqs|
    requires forall e :: e in voqs && Own(side, e) == port ==> v[e] >= r * u[e]
    ensures TotalAt(voqs, v, side, iset{port}, m) >= r * TotalAt(voqs, u, side, iset{port}, m)
  {
    if m == 0 {
    } else {
      ScaledAtLeast(voqs, v, u, side, port, r, m - 1);
      var rest, last := TotalAt(voqs, u, side, iset{port}, m - 1), u[voqs[m - 1]];
      Distribute(r, rest, last);
    }
  }

  /** Buffer runs of a switch coupled to its matching. */
  ghost predicate CoupledRun(voqs: seq<Voq>, xs: seq<Snapshot>, trs: Traces, kinds: nat, cap: int, steps: nat) {
    Distinct(voqs) && |xs| == steps && SystemRun(voqs, xs, trs, kinds, cap)
  }

  /** Runs of all switches with linked ports that count alike. */
  ghost predicate LinkedRun(net: Net, xss: seq<seq<Snapshot>>, trss: seq<Traces>, kinds: nat, cap: int, steps: nat) {
    && |xss| == |trss| == |net.nodes| && LinksFit(net) && EndsDiffer(net.links, In) && EndsDiffer(net.links, Out)
    && (forall a :: 0 <= a < |net.nodes| ==> CoupledRun(net.nodes[a], xss[a], trss[a], kinds, cap, steps))
    && AllLinksHold(net, trss, steps, kinds)
  }

  ghost predicate NonNegativeSums(voqs: seq<Voq>, trs: Traces, t: nat) {
    HasStep(voqs, trs, t) && forall e :: e in voqs ==>
        Sum(trs[e].i[t]) >= 0 && Sum(trs[e].o[t]) >= 0 && Sum(trs[e].c[t]) >= 0
  }

  lemma RunHasStep(voqs: seq<Voq>, xs: seq<Snapshot>, trs: Traces, kinds: nat, cap: int, steps: nat, t: nat)
    requires CoupledRun(voqs, xs, trs, kinds, cap, steps) && t < steps
    ensures NonNegativeSums(voqs, trs, t)
  {
    forall e | e in voqs
      ensures e in trs && t < |trs[e].i| && t < |trs[e].o| && t < |trs[e].c|
      ensures Sum(trs[e].i[t]) >= 0 && Sum(trs[e].o[t]) >= 0 && Sum(trs[e].c[t]) >= 0
    {
      assert LeafBuffer.BufferRun(trs[e], steps, kinds, cap);
      SumOfCounts(trs[e].i[t]);
      SumOfCounts(trs[e].o[t]);
      SumOfCounts(trs[e].c[t]);
    }
  }

  ghost predicate NetHasStep(net: Net, trss: seq<Traces>, t: nat) {
    |trss| == |net.nodes| && forall a :: 0 <= a < |net.nodes| ==> NonNegativeSums(net.nodes[a], trss[a], t)
  }

  lemma AllHaveStep(net: Net, xss: seq<seq<Snapshot>>, trss: seq<Traces>, kinds: nat, cap: int, steps: nat, t: nat)
    requires LinkedRun(net, xss, trss, kinds, cap, steps) && t < steps
    ensures NetHasStep(net, trss, t)
  {
    forall a | 0 <= a < |net.nodes|
      ensures NonNegativeSums(net.nodes[a], trss[a], t)
    {
      RunHasStep(net.nodes[a], xss[a], trss[a], kinds, cap, steps, t);
    }
  }

  /** The inputs of all VOQs in step t, weighed. */
  ghost function Entering(net: Net, weight: seq<Values>, trss: seq<Traces>, t: nat): (vs: seq<Values>)
    requires AllHave(net, weight) && NetHasStep(net, trss, t)
    ensures AllHave(net, vs)
    ensures forall a :: 0 <= a < |net.nodes| ==>
              vs[a] == Times(net.nodes[a], weight[a], 0, Sums(net.nodes[a], trss[a], In, t))
  {
    seq(|net.nodes|, a requires 0 <= a < |net.nodes| =>
      Times(net.nodes[a], weight[a], 0, Sums(net.nodes[a], trss[a], In, t)))
  }

  /** The outputs, weighed one less. */
  ghost function Leaving(net: Net, weight: seq<Values>, trss: seq<Traces>, t: nat): (vs: seq<Values>)
    requires AllHave(net, weight) && NetHasStep(net, trss, t)
    ensures AllHave(net, vs)
    ensures forall a :: 0 <= a < |net.nodes| ==>
              vs[a] == Times(net.nodes[a], weight[a], 1, Sums(net.nodes[a], trss[a], Out, t))
  {
    seq(|net.nodes|, a requires 0 <= a < |net.nodes| =>
      Times(net.nodes[a], weight[a], 1, Sums(net.nodes[a], trss[a], Out, t)))
  }

  lemma MulAtMost(x: int, y: int, z: int)
    requires x <= y && z >= 0
    ensures x * z <= y * z
  {
  }

  lemma InputWeighs(voqs: seq<Voq>, w: Values, trs: Traces, port: int, r: int, t: nat, kinds: nat)
    requires Has(voqs, w) && NonNegativeSums(voqs, trs, t) && HasCounts(voqs, trs, t, kinds)
    requires forall e :: e in voqs && e.0 == port ==> w[e] <= r
    ensures PortTotal(voqs, Times(voqs, w, 0, Sums(voqs, trs, In, t)), In, port)
            <= r * Sum(PortCounts(voqs, trs, In, port, t, kinds, |voqs|))
  {
    var u := Sums(voqs, trs, In, t);
    forall e | e in voqs && Own(In, e) == port
      ensures Times(voqs, w, 0, u)[e] <= r * u[e]
    {
      MulAtMost(w[e], r, u[e]);
    }
    ScaledAtMost(voqs, Times(voqs, w, 0, u), u, In, port, r, |voqs|);
    PortSum(voqs, trs, In, port, t, kinds, |voqs|);
  }

  lemma OutputWeighs(voqs: seq<Voq>, w: Values, trs: Traces, port: int, r: int, t: nat, kinds: nat)
    requires Has(voqs, w) && NonNegativeSums(voqs, trs, t) && HasCounts(voqs, trs, t, kinds)
    requires forall e :: e in voqs && e.1 == port ==> w[e] > r
    ensures PortTotal(voqs, Times(voqs, w, 1, Sums(voqs, trs, Out, t)), Out, port)
            >= r * Sum(PortCounts(voqs, trs, Out, port, t, kinds, |voqs|))
  {
    var u := Sums(voqs, trs, Out, t);
    forall e | e in voqs && Own(Out, e) == port
      ensures Times(voqs, w, 1, u)[e] >= r * u[e]
    {
      MulAtMost(r, w[e] - 1, u[e]);
    }
    ScaledAtLeast(voqs, Times(voqs, w, 1, u), u, Out, port, r, |voqs|);
    PortSum(voqs, trs, Out, port, t, kinds, |voqs|);
  }

  /** What crosses a link weighs less behind it. */
  lemma LinkFalls(net: Net, weight: seq<Values>, rank: seq<int>, trss: seq<Traces>, kinds: nat, t: nat, i: nat)
    requires Falls(net, weight, rank) && NetHasStep(net, trss, t) && i < |net.links|
    requires LinkHolds(net, trss, net.links[i], t, kinds)
    ensures LinkGap(net, Entering(net, weight, trss, t), Leaving(net, weight, trss, t), net.links[i]) <= 0
  {
    var l := net.links[i];
    assert FallsAlong(net, weight, l, rank[i]);
    InputWeighs(net.nodes[l.toNode], weight[l.toNode], trss[l.toNode], l.toPort, rank[i], t, kinds);
    OutputWeighs(net.nodes[l.fromNode], weight[l.fromNode], trss[l.fromNode], l.fromPort, rank[i], t, kinds);
  }

  // ---------------------------------------------------------------- the network in one step

  /** No VOQ at a port without a link gets anything in step t. */
  ghost predicate Silent(net: Net, trss: seq<Traces>, t: nat)
    requires NetHasStep(net, trss, t)
  {
    forall a, e :: 0 <= a < |net.nodes| && e in net.nodes[a] && Free(net.links, |net.links|, In, a, e.0) ==>
      e in trss[a] && Sum(trss[a][e].i[t]) == 0
  }

  lemma NothingEnters(net: Net, weight: seq<Values>, trss: seq<Traces>, t: nat)
    requires AllHave(net, weight) && NetHasStep(net, trss, t) && Silent(net, trss, t)
    ensures NetFree(net, Entering(net, weight, trss, t), |net.links|, In, |net.nodes|) == 0
  {
    var vs := Entering(net, weight, trss, t);
    forall a | 0 <= a < |net.nodes|
      ensures NothingAt(net.nodes[a], vs[a], In, FreePorts(net.links, |net.links|, In, a))
    {
      forall e | e in net.nodes[a] && Free(net.links, |net.links|, In, a, e.0)
        ensures vs[a][e] == 0
      {
        assert Sum(trss[a][e].i[t]) == 0;
      }
    }
    NetFreeOfNothing(net, vs, |net.links|, In, |net.nodes|);
  }

  lemma LeavesNonNegative(voqs: seq<Voq>, w: Values, trs: Traces, t: nat)
    requires Positive(voqs, w) && NonNegativeSums(voqs, trs, t)
    ensures AllNonNegative(voqs, Times(voqs, w, 1, Sums(voqs, trs, Out, t)))
  {
    forall e | e in voqs
      ensures Times(voqs, w, 1, Sums(voqs, trs, Out, t))[e] >= 0
    {
      MulAtMost(0, w[e] - 1, Sum(trs[e].o[t]));
    }
  }

  lemma LeavesSomething(net: Net, weight: seq<Values>, rank: seq<int>, trss: seq<Traces>, t: nat)
    requires Falls(net, weight, rank) && NetHasStep(net, trss, t)
    ensures NetFree(net, Leaving(net, weight, trss, t), |net.links|, Out, |net.nodes|) >= 0
  {
    forall a | 0 <= a < |net.nodes|
      ensures AllNonNegative(net.nodes[a], Leaving(net, weight, trss, t)[a])
    {
      LeavesNonNegative(net.nodes[a], weight[a], trss[a], t);
    }
    NetFreeNonNegative(net, Leaving(net, weight, trss, t), |net.links|, Out, |net.nodes|);
  }

  /** In a silent step, what enters the VOQs weighs no more than what leaves them, weighed one less. */
  lemma InnerFalls(net: Net, weight: seq<Values>, rank: seq<int>, xss: seq<seq<Snapshot>>, trss: seq<Traces>,
                   kinds: nat, cap: int, steps: nat, t: nat)
    requires LinkedRun(net, xss, trss, kinds, cap, steps) && Falls(net, weight, rank) && t < steps
    requires NetHasStep(net, trss, t) && Silent(net, trss, t)
    ensures NetTotal(net, Entering(net, weight, trss, t), |net.nodes|)
            <= NetTotal(net, Leaving(net, weight, trss, t), |net.nodes|)
  {
    var ins, outs := Entering(net, weight, trss, t), Leaving(net, weight, trss, t);
    forall i | 0 <= i < |net.links|
      ensures LinkGap(net, ins, outs, net.links[i]) <= 0
    {
      LinkFalls(net, weight, rank, trss, kinds, t, i);
    }
    LinksBalance(net, ins, outs, |net.links|);
    NothingEnters(net, weight, trss, t);
    LeavesSomething(net, weight, rank, trss, t);
  }

  /** What all VOQs hold before step t, weighed. */
  ghost function Waiting(net: Net, weight: seq<Values>, trss: seq<Traces>, t: nat): (vs: seq<Values>)
    requires AllHave(net, weight) && NetHasStep(net, trss, t)
    ensures AllHave(net, vs)
    ensures forall a :: 0 <= a < |net.nodes| ==>
              vs[a] == Times(net.nodes[a], weight[a], 0, Backlogs(net.nodes[a], trss[a], t))
  {
    seq(|net.nodes|, a requires 0 <= a < |net.nodes| =>
      Times(net.nodes[a], weight[a], 0, Backlogs(net.nodes[a], trss[a], t)))
  }

  ghost function Sent(net: Net, trss: seq<Traces>, t: nat): (vs: seq<Values>)
    requires NetHasStep(net, trss, t)
    ensures AllHave(net, vs) && forall a :: 0 <= a < |net.nodes| ==> vs[a] == Sums(net.nodes[a], trss[a], Out, t)
  {
    seq(|net.nodes|, a requires 0 <= a < |net.nodes| => Sums(net.nodes[a], trss[a], Out, t))
  }

  /** after and what is sent and what leaves are at most what was there and what enters. */
  ghost predicate Covered(voqs: seq<Voq>, after: Values, sent: Values, leaving: Values, before: Values,
                          entering: Values) {
    && Has(voqs, after) && Has(voqs, sent) && Has(voqs, leaving) && Has(voqs, before) && Has(voqs, entering)
    && forall e :: e in voqs ==> after[e] + sent[e] + leaving[e] <= before[e] + entering[e]
  }

  lemma {:induction false} TotalCovered(voqs: seq<Voq>, after: Values, sent: Values, leaving: Values, before: Values,
                                        entering: Values, m: nat)
    requires Covered(voqs, after, sent, leaving, before, entering) && m <= |voqs|
    ensures Total(voqs, after, m) + Total(voqs, sent, m) + Total(voqs, leaving, m)
            <= Total(voqs, before, m) + Total(voqs, entering, m)
  {
    if m == 0 {
    } else {
      TotalCovered(voqs, after, sent, leaving, before, entering, m - 1);
      assert voqs[m - 1] in voqs;
    }
  }

  ghost predicate NetCovered(net: Net, after: seq<Values>, sent: seq<Values>, leaving: seq<Values>,
                             before: seq<Values>, entering: seq<Values>) {
    && AllHave(net, after) && AllHave(net, sent) && AllHave(net, leaving) && AllHave(net, before)
    && AllHave(net, entering)
    && forall a :: 0 <= a < |net.nodes| ==> Covered(net.nodes[a], after[a], sent[a], leaving[a], before[a], entering[a])
  }

  lemma {:induction false} NetTotalCovered(net: Net, after: seq<Values>, sent: seq<Values>, leaving: seq<Values>,
                                           before: seq<Values>, entering: seq<Values>, b: nat)
    requires NetCovered(net, after, sent, leaving, before, entering) && b <= |net.nodes|
    ensures NetTotal(net, after, b) + NetTotal(net, sent, b) + NetTotal(net, leaving, b)
            <= NetTotal(net, before, b) + NetTotal(net, entering, b)
  {
    if b == 0 {
    } else {
      var a := b - 1;
      NetTotalCovered(net, after, sent, leaving, before, entering, a);
      TotalCovered(net.nodes[a], after[a], sent[a], leaving[a], before[a], entering[a], |net.nodes[a]|);
    }
  }

  lemma NodeCovered(voqs: seq<Voq>, w: Values, xs: seq<Snapshot>, trs: Traces, kinds: nat, cap: int, steps: nat,
                    t: nat)
    requires CoupledRun(voqs, xs, trs, kinds, cap, steps) && Positive(voqs, w) && t + 1 < steps
    requires HasStep(voqs, trs, t) && HasStep(voqs, trs, t + 1)
    ensures Covered(voqs, Times(voqs, w, 0, Backlogs(voqs, trs, t + 1)), Sums(voqs, trs, Out, t),
                    Times(voqs, w, 1, Sums(voqs, trs, Out, t)),
                    Times(voqs, w, 0, Backlogs(voqs, trs, t)), Times(voqs, w, 0, Sums(voqs, trs, In, t)))
  {
    forall e | e in voqs
      ensures VoqStep(w[e], Sum(trs[e].c[t]), Sum(trs[e].c[t + 1]), Sum(trs[e].i[t]), Sum(trs[e].o[t]))
    {
      BufferSteps(trs[e], steps, kinds, cap, w[e], t);
    }
  }

  /** The weight of all packets in the network. */
  ghost function Weight(net: Net, weight: seq<Values>, trss: seq<Traces>, t: nat): int
    requires AllHave(net, weight) && NetHasStep(net, trss, t)
  {
    NetTotal(net, Waiting(net, weight, trss, t), |net.nodes|)
  }

  /** A silent step takes off the weight at least what is sent. */
  lemma StepFalls(net: Net, weight: seq<Values>, rank: seq<int>, xss: seq<seq<Snapshot>>, trss: seq<Traces>,
                  kinds: nat, cap: int, steps: nat, t: nat)
    requires LinkedRun(net, xss, trss, kinds, cap, steps) && Falls(net, weight, rank) && t + 1 < steps
    requires NetHasStep(net, trss, t) && NetHasStep(net, trss, t + 1) && Silent(net, trss, t)
    ensures Weight(net, weight, trss, t + 1) + NetTotal(net, Sent(net, trss, t), |net.nodes|)
            <= Weight(net, weight, trss, t)
  {
    var after, before := Waiting(net, weight, trss, t + 1), Waiting(net, weight, trss, t);
    var entering, leaving := Entering(net, weight, trss, t), Leaving(net, weight, trss, t);
    forall a | 0 <= a < |net.nodes|
      ensures Covered(net.nodes[a], after[a], Sent(net, trss, t)[a], leaving[a], before[a], entering[a])
    {
      NodeCovered(net.nodes[a], weight[a], xss[a], trss[a], kinds, cap, steps, t);
    }
    NetTotalCovered(net, after, Sent(net, trss, t), leaving, before, entering, |net.nodes|);
    InnerFalls(net, weight, rank, xss, trss, kinds, cap, steps, t);
  }

  // ---------------------------------------------------------------- something is sent

  /** A switch with a backlogged VOQ sends a packet. */
  lemma SomeSender(voqs: seq<Voq>, xs: seq<Snapshot>, trs: Traces, kinds: nat, cap: int, steps: nat, t: nat, e: Voq)
    returns (f: Voq)
    requires CoupledRun(voqs, xs, trs, kinds, cap, steps) && t < steps && NonNegativeSums(voqs, trs, t)
    requires e in voqs && Sum(trs[e].c[t]) > 0
    ensures f in voqs && Sum(trs[f].o[t]) > 0
  {
    QueuedAtLeast(voqs, trs, t, e);
    ServesWhenQueued(voqs, xs, trs, kinds, cap, t);
    f :| f in Served(voqs, xs[t]);
    assert Coupled(voqs, xs[t], trs[f], f, t);
  }

  /** If waiting packets weigh anything, something is sent. */
  ghost predicate SendsIfWaiting(voqs: seq<Voq>, waiting: Values, sent: Values) {
    && Has(voqs, waiting) && AllNonNegative(voqs, sent)
    && (Total(voqs, waiting, |voqs|) > 0 ==> Total(voqs, sent, |voqs|) > 0)
  }

  lemma PositiveFactor(x: int, y: int)
    requires x * y > 0 && x >= 1
    ensures y > 0
  {
  }

  lemma WaitingSends(voqs: seq<Voq>, w: Values, xs: seq<Snapshot>, trs: Traces, kinds: nat, cap: int, steps: nat,
                     t: nat) returns (f: Voq)
    requires CoupledRun(voqs, xs, trs, kinds, cap, steps) && Positive(voqs, w) && t < steps
    requires NonNegativeSums(voqs, trs, t)
    requires Total(voqs, Times(voqs, w, 0, Backlogs(voqs, trs, t)), |voqs|) > 0
    ensures f in voqs && Sum(trs[f].o[t]) > 0
  {
    var waiting := Times(voqs, w, 0, Backlogs(voqs, trs, t));
    var e := SomePositive(voqs, waiting, |voqs|);
    assert waiting[e] == w[e] * Sum(trs[e].c[t]);
    PositiveFactor(w[e], Sum(trs[e].c[t]));
    f := SomeSender(voqs, xs, trs, kinds, cap, steps, t, e);
  }

  lemma TotalPositive(voqs: seq<Voq>, v: Values, e: Voq)
    requires AllNonNegative(voqs, v) && e in voqs && v[e] > 0
    ensures Total(voqs, v, |voqs|) > 0
  {
    assert voqs[..|voqs|] == voqs;
    TotalAtLeast(voqs, v, |voqs|, e);
  }

  lemma NodeSends(voqs: seq<Voq>, w: Values, xs: seq<Snapshot>, trs: Traces, kinds: nat, cap: int, steps: nat, t: nat)
    requires CoupledRun(voqs, xs, trs, kinds, cap, steps) && Positive(voqs, w) && t < steps
    requires NonNegativeSums(voqs, trs, t)
    ensures SendsIfWaiting(voqs, Times(voqs, w, 0, Backlogs(voqs, trs, t)), Sums(voqs, trs, Out, t))
  {
    if Total(voqs, Times(voqs, w, 0, Backlogs(voqs, trs, t)), |voqs|) > 0 {
      var f := WaitingSends(voqs, w, xs, trs, kinds, cap, steps, t);
      TotalPositive(voqs, Sums(voqs, trs, Out, t), f);
    }
  }

  lemma {:induction false} SomeNodeSends(net: Net, waiting: seq<Values>, sent: seq<Values>, b: nat)
    requires AllHave(net, waiting) && AllHave(net, sent) && b <= |net.nodes|
    requires forall a :: 0 <= a < |net.nodes| ==> SendsIfWaiting(net.nodes[a], waiting[a], sent[a])
    ensures NetTotal(net, sent, b) >= 0
    ensures NetTotal(net, waiting, b) > 0 ==> NetTotal(net, sent, b) > 0
  {
    if b == 0 {
    } else {
      SomeNodeSends(net, waiting, sent, b - 1);
      assert SendsIfWaiting(net.nodes[b - 1], waiting[b - 1], sent[b - 1]);
      TotalNonNegative(net.nodes[b - 1], sent[b - 1], |net.nodes[b - 1]|);
    }
  }

  /** A network with packets sends one. */
  lemma NetSends(net: Net, weight: seq<Values>, rank: seq<int>, xss: seq<seq<Snapshot>>, trss: seq<Traces>,
                 kinds: nat, cap: int, steps: nat, t: nat)
    requires LinkedRun(net, xss, trss, kinds, cap, steps) && t < steps && NetHasStep(net, trss, t)
    requires Falls(net, weight, rank)
    ensures NetTotal(net, Sent(net, trss, t), |net.nodes|) >= if Weight(net, weight, trss, t) > 0 then 1 else 0
  {
    forall a | 0 <= a < |net.nodes|
      ensures SendsIfWaiting(net.nodes[a], Waiting(net, weight, trss, t)[a], Sent(net, trss, t)[a])
    {
      NodeSends(net.nodes[a], weight[a], xss[a], trss[a], kinds, cap, steps, t);
    }
    SomeNodeSends(net, Waiting(net, weight, trss, t), Sent(net, trss, t), |net.nodes|);
  }

  // ---------------------------------------------------------------- draining

  lemma WeightNonNegative(net: Net, weight: seq<Values>, trss: seq<Traces>, t: nat)
    requires AllHave(net, weight) && NetHasStep(net, trss, t)
    requires forall a :: 0 <= a < |net.nodes| ==> Positive(net.nodes[a], weight[a])
    ensures Weight(net, weight, trss, t) >= 0
  {
    forall a | 0 <= a < |net.nodes|
      ensures AllNonNegative(net.nodes[a], Waiting(net, weight, trss, t)[a])
    {
      forall e | e in net.nodes[a]
        ensures Waiting(net, weight, trss, t)[a][e] >= 0
      {
        MulAtMost(0, weight[a][e], Sum(trss[a][e].c[t]));
      }
    }
    NetNonNegative(net, Waiting(net, weight, trss, t), |net.nodes|);
  }

  ghost predicate SilentAt(net: Net, trss: seq<Traces>, t: int) {
    t >= 0 && NetHasStep(net, trss, t) && Silent(net, trss, t)
  }

  ghost predicate SilentBetween(net: Net, trss: seq<Traces>, first: nat, last: nat) {
    forall t :: first <= t < last ==> SilentAt(net, trss, t)
  }

  /** A count falls unless it is 0. */
  predicate Drops(before: int, after: int) {
    0 <= before && 0 <= after <= before && (before > 0 ==> after < before)
  }

  /** What may be left after n such falls. */
  predicate LeftAfter(before: int, n: nat, after: int) {
    0 <= after <= if before <= n then 0 else before - n
  }

  lemma SilentStep(net: Net, weight: seq<Values>, rank: seq<int>, xss: seq<seq<Snapshot>>, trss: seq<Traces>,
                   kinds: nat, cap: int, steps: nat, t: nat, u: nat)
    requires LinkedRun(net, xss, trss, kinds, cap, steps) && Falls(net, weight, rank) && u == t + 1 < steps
    requires NetHasStep(net, trss, t) && NetHasStep(net, trss, u) && SilentAt(net, trss, t)
    ensures Weight(net, weight, trss, u) <= Weight(net, weight, trss, t)
    ensures Weight(net, weight, trss, t) > 0 ==> Weight(net, weight, trss, u) < Weight(net, weight, trss, t)
  {
    StepFalls(net, weight, rank, xss, trss, kinds, cap, steps, t);
    NetSends(net, weight, rank, xss, trss, kinds, cap, steps, t);
  }

  ghost function WeightAt(net: Net, weight: seq<Values>, trss: seq<Traces>, t: nat): int {
    if AllHave(net, weight) && NetHasStep(net, trss, t) then Weight(net, weight, trss, t) else 0
  }

  lemma WeightAtNonNegative(net: Net, weight: seq<Values>, rank: seq<int>, trss: seq<Traces>, t: nat)
    requires Falls(net, weight, rank)
    ensures WeightAt(net, weight, trss, t) >= 0
  {
    if NetHasStep(net, trss, t) {
      WeightNonNegative(net, weight, trss, t);
    }
  }

  lemma WeightAtFalls(net: Net, weight: seq<Values>, rank: seq<int>, xss: seq<seq<Snapshot>>, trss: seq<Traces>,
                      kinds: nat, cap: int, steps: nat, t: nat, u: nat)
    requires LinkedRun(net, xss, trss, kinds, cap, steps) && Falls(net, weight, rank) && u == t + 1 < steps
    requires SilentAt(net, trss, t)
    ensures Drops(WeightAt(net, weight, trss, t), WeightAt(net, weight, trss, u))
  {
    AllHaveStep(net, xss, trss, kinds, cap, steps, u);
    SilentStep(net, weight, rank, xss, trss, kinds, cap, steps, t, u);
    WeightAtNonNegative(net, weight, rank, trss, t);
    WeightAtNonNegative(net, weight, rank, trss, u);
  }

  lemma SilentThere(net: Net, trss: seq<Traces>, first: nat, last: nat, t: nat)
    requires SilentBetween(net, trss, first, last) && first <= t < last
    ensures SilentAt(net, trss, t)
  {
  }

  lemma WeightsDrop(net: Net, weight: seq<Values>, rank: seq<int>, xss: seq<seq<Snapshot>>, trss: seq<Traces>,
                    kinds: nat, cap: int, steps: nat, first: nat, last: nat, t: nat, u: nat)
    requires LinkedRun(net, xss, trss, kinds, cap, steps) && Falls(net, weight, rank) && last < steps
    requires SilentBetween(net, trss, first, last) && first <= t && u == t + 1 <= last
    ensures Drops(WeightAt(net, weight, trss, t), WeightAt(net, weight, trss, u))
  {
    SilentThere(net, trss, first, last, t);
    WeightAtFalls(net, weight, rank, xss, trss, kinds, cap, steps, t, u);
  }

  ghost predicate DropsBetween(net: Net, weight: seq<Values>, trss: seq<Traces>, first: nat, last: nat) {
    forall t: nat, u: nat :: first <= t && u == t + 1 && u <= last ==>
      Drops(WeightAt(net, weight, trss, t), WeightAt(net, weight, trss, u))
  }

  lemma {:induction false} WeightFalls(net: Net, weight: seq<Values>, trss: seq<Traces>, first: nat, last: nat,
                                       n: nat, t: nat)
    requires DropsBetween(net, weight, trss, first, last) && t == first + n <= last
    requires WeightAt(net, weight, trss, first) >= 0
    ensures LeftAfter(WeightAt(net, weight, trss, first), n, WeightAt(net, weight, trss, t))
  {
    if n == 0 {
    } else {
      WeightFalls(net, weight, trss, first, last, n - 1, t - 1);
      assert Drops(WeightAt(net, weight, trss, t - 1), WeightAt(net, weight, trss, t));
    }
  }

  lemma WeightsDropBetween(net: Net, weight: seq<Values>, rank: seq<int>, xss: seq<seq<Snapshot>>, trss: seq<Traces>,
                           kinds: nat, cap: int, steps: nat, first: nat, last: nat)
    requires LinkedRun(net, xss, trss, kinds, cap, steps) && Falls(net, weight, rank) && last < steps
    requires SilentBetween(net, trss, first, last)
    ensures DropsBetween(net, weight, trss, first, last)
  {
    forall t: nat, u: nat | first <= t && u == t + 1 && u <= last
      ensures Drops(WeightAt(net, weight, trss, t), WeightAt(net, weight, trss, u))
    {
      WeightsDrop(net, weight, rank, xss, trss, kinds, cap, steps, first, last, t, u);
    }
  }

  /**
    Once nothing enters by ports without links, every step takes at least one off the weight of all packets, in
    every solution for a network in which some weight falls along all links.
   */
  lemma NetworkEmpties(net: Net, weight: seq<Values>, rank: seq<int>, xss: seq<seq<Snapshot>>, trss: seq<Traces>,
                       kinds: nat, cap: int, steps: nat, first: nat, last: nat)
    requires LinkedRun(net, xss, trss, kinds, cap, steps) && Falls(net, weight, rank) && first <= last < steps
    requires SilentBetween(net, trss, first, last)
    ensures NetHasStep(net, trss, first) && NetHasStep(net, trss, last)
    ensures LeftAfter(Weight(net, weight, trss, first), last - first, Weight(net, weight, trss, last))
  {
    AllHaveStep(net, xss, trss, kinds, cap, steps, first);
    AllHaveStep(net, xss, trss, kinds, cap, steps, last);
    WeightsDropBetween(net, weight, rank, xss, trss, kinds, cap, steps, first, last);
    WeightAtNonNegative(net, weight, rank, trss, first);
    WeightFalls(net, weight, trss, first, last, last - first, last);
  }
}
