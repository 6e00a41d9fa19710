/** The links of lst.cpp, read from the sparse buffers of the switches at both ends. */
module LstLinks {
  import opened CountVectors
  import opened BufferTrace
  import opened Demux
  import opened VoqSwitch
  import opened Voqs
  import opened VoqSystem
  import opened VoqQueues
  import opened VoqRuns
  import opened LstTables
  import opened LstRouting
  import opened LstLists
  import opened LstDemux
  import opened LstNetwork
  import opened LstSolutions
  import opened NetworkQueues
  import opened NetworkCarry
  import opened NetworkPorts
  import opened NetworkSolutions
  import opened NetworkFlows
  import PL = PortLists

  // ---------------------------------------------------------------- sparse counts of a trace

  /** The counts of the used types. */
  function Projected(used: seq<int>, v: Vec): (local: Vec)
    requires GoodTypes(used, |v|)
    ensures |local| == |used|
  {
    seq(|used|, j requires 0 <= j < |used| => v[used[j]])
  }

  /** The sparse buffer expands to the inputs, or outputs, of the trace. */
  ghost predicate Stores(tr: Trace, b: Sparse, side: Side, steps: nat, k: nat) {
    && Shaped(tr, steps, k) && GoodTypes(b.used, k) && |b.counts| == steps
    && forall t :: 0 <= t < steps ==>
         |b.used| <= |b.counts[t]| && Expanded(b.used, b.counts[t], k) == CountsAt(tr, side, t)
  }

  lemma ProjectedExpands(used: seq<int>, v: Vec, k: nat)
    requires GoodTypes(used, k) && |v| == k && forall y :: 0 <= y < k && y !in used ==> v[y] == 0
    ensures Expanded(used, Projected(used, v), k) == v
  {
  }

  function SparseOf(tr: Trace, used: seq<int>, side: Side, steps: nat, k: nat): (b: Sparse)
    requires Shaped(tr, steps, k) && GoodTypes(used, k)
  {
    Sparse(used, seq(steps, t requires 0 <= t < steps => Projected(used, CountsAt(tr, side, t))))
  }

  /** A trace that counts only types of the list is stored without loss. */
  lemma ListedIsStored(tr: Trace, used: seq<int>, types: set<nat>, side: Side, steps: nat, k: nat)
    requires CountsOnly(tr, types, steps, k) && GoodTypes(used, k) && forall y :: y in types ==> y in used
    ensures Stores(tr, SparseOf(tr, used, side, steps, k), side, steps, k)
  {
    forall t | 0 <= t < steps
      ensures Expanded(used, Projected(used, CountsAt(tr, side, t)), k) == CountsAt(tr, side, t)
    {
      forall y | 0 <= y < k && y !in used
        ensures CountsAt(tr, side, t)[y] == 0
      {
        assert ZeroAt(tr, t, y, k);
      }
      ProjectedExpands(used, CountsAt(tr, side, t), k);
    }
  }

  // ---------------------------------------------------------------- ports

  ghost predicate AllStored(voqs: seq<Voq>, trs: Traces, buffs: Buffers, side: Side, steps: nat, k: nat) {
    forall e :: e in voqs ==> e in trs && e in buffs && Stores(trs[e], buffs[e], side, steps, k)
  }

  lemma StoredHasStep(voqs: seq<Voq>, trs: Traces, buffs: Buffers, side: Side, steps: nat, k: nat, t: nat)
    requires AllStored(voqs, trs, buffs, side, steps, k) && t < steps
    ensures HasStep(voqs, buffs, k, t) && HasCounts(voqs, trs, t, k)
  {
  }

  /** A port's sum over its sparse VOQs is what the port counts. */
  lemma {:induction false} SumIsCounts(voqs: seq<Voq>, trs: Traces, buffs: Buffers, side: Side, port: int, steps: nat,
                                       k: nat, t: nat, m: nat)
    requires AllStored(voqs, trs, buffs, side, steps, k) && t < steps && m <= |voqs|
    ensures HasStep(voqs, buffs, k, t) && HasCounts(voqs, trs, t, k)
    ensures forall i :: 0 <= i < |Peers(voqs[..m], side, port)| ==>
              Join(side, port, Peers(voqs[..m], side, port)[i]) in voqs
    ensures PortSum(voqs, buffs, k, t, side, port, Peers(voqs[..m], side, port))
            == PortCounts(voqs, trs, side, port, t, k, m)
  {
    StoredHasStep(voqs, trs, buffs, side, steps, k, t);
    PeersJoin(voqs[..m], side, port);
    if m == 0 {
    } else {
      SumIsCounts(voqs, trs, buffs, side, port, steps, k, t, m - 1);
      var last := voqs[m - 1];
      assert voqs[..m][..m - 1] == voqs[..m - 1] && voqs[..m][m - 1] == last;
      var before := Peers(voqs[..m - 1], side, port);
      if Own(side, last) == port {
        assert Peers(voqs[..m], side, port) == before + [Peer(side, last)];
        assert (before + [Peer(side, last)])[..|before|] == before;
        assert Join(side, port, Peer(side, last)) == last && Stores(trs[last], buffs[last], side, steps, k);
      } else {
        assert Peers(voqs[..m], side, port) == before;
      }
    }
  }

  /** get_out_port for one step. */
  method OutCountsAt(voqs: seq<Voq>, buffs: Buffers, port: int, t: nat, steps: nat, k: nat, ghost trs: Traces)
    returns (v: Vec)
    requires AllStored(voqs, trs, buffs, Out, steps, k) && t < steps
    ensures HasCounts(voqs, trs, t, k) && v == PortCounts(voqs, trs, Out, port, t, k, |voqs|)
  {
    SumIsCounts(voqs, trs, buffs, Out, port, steps, k, t, |voqs|);
    assert voqs[..|voqs|] == voqs;
    v := SumOutPort(voqs, buffs, k, t, port);
  }

  /** get_out_port: all steps. */
  method OutStream(voqs: seq<Voq>, buffs: Buffers, port: int, steps: nat, k: nat, ghost trs: Traces)
    returns (vs: seq<Vec>)
    requires AllStored(voqs, trs, buffs, Out, steps, k)
    ensures AllOf(vs, steps, k)
    ensures forall t :: 0 <= t < steps ==>
              HasCounts(voqs, trs, t, k) && vs[t] == PortCounts(voqs, trs, Out, port, t, k, |voqs|)
  {
    vs := [];
    for t := 0 to steps
      invariant AllOf(vs, t, k)
      invariant forall u :: 0 <= u < t ==>
                  HasCounts(voqs, trs, u, k) && vs[u] == PortCounts(voqs, trs, Out, port, u, k, |voqs|)
    {
      var v := OutCountsAt(voqs, buffs, port, t, steps, k, trs);
      vs := vs + [v];
    }
  }

  /** DemuxSwitch::get_in_port for one step. */
  method InCountsAt(voqs: seq<Voq>, buffs: Buffers, port: int, nextHop: seq<int>, t: nat, steps: nat, k: nat,
                    ghost trs: Traces) returns (v: Vec)
    requires AllStored(voqs, trs, buffs, In, steps, k) && t < steps && ReadsPort(voqs, buffs, k, t, port, nextHop)
    ensures HasCounts(voqs, trs, t, k) && v == PortCounts(voqs, trs, In, port, t, k, |voqs|)
  {
    SumIsCounts(voqs, trs, buffs, In, port, steps, k, t, |voqs|);
    assert voqs[..|voqs|] == voqs;
    v := DemuxInPort(voqs, buffs, k, t, port, nextHop);
    assert v == PortSum(voqs, buffs, k, t, In, port, Peers(voqs, In, port));
  }

  /** DemuxSwitch::get_in_port: all steps. */
  method InStream(voqs: seq<Voq>, buffs: Buffers, port: int, nextHop: seq<int>, steps: nat, k: nat, ghost trs: Traces)
    returns (vs: seq<Vec>)
    requires AllStored(voqs, trs, buffs, In, steps, k)
    requires forall t :: 0 <= t < steps ==> ReadsPort(voqs, buffs, k, t, port, nextHop)
    ensures AllOf(vs, steps, k)
    ensures forall t :: 0 <= t < steps ==>
              HasCounts(voqs, trs, t, k) && vs[t] == PortCounts(voqs, trs, In, port, t, k, |voqs|)
  {
    vs := [];
    for t := 0 to steps
      invariant AllOf(vs, t, k)
      invariant forall u :: 0 <= u < t ==>
                  HasCounts(voqs, trs, u, k) && vs[u] == PortCounts(voqs, trs, In, port, u, k, |voqs|)
    {
      var v := InCountsAt(voqs, buffs, port, nextHop, t, steps, k, trs);
      vs := vs + [v];
    }
  }

  // ---------------------------------------------------------------- leaves and spines

  /** The sparse buffers of switch a hold the counts of the traces for the types of their lists. */
  ghost predicate StoredAt(x: Lst, a: nat, trs: Traces, buffs: Buffers, side: Side, steps: nat)
    requires IsBuilt(x) && a < |NetOf(x).nodes|
  {
    && AllStored(VoqsAt(x, a), trs, buffs, side, steps, KindsOf(x))
    && forall e :: e in VoqsAt(x, a) ==> e in buffs && e in ListsAt(x, a) && buffs[e].used == ListsAt(x, a)[e]
  }

  ghost predicate NetStored(x: Lst, trss: seq<Traces>, buffss: seq<Buffers>, side: Side, steps: nat)
    requires IsBuilt(x)
  {
    && |trss| == |buffss| == |NetOf(x).nodes|
    && forall a :: 0 <= a < |NetOf(x).nodes| ==> StoredAt(x, a, trss[a], buffss[a], side, steps)
  }

  lemma SwitchReadsPort(x: Lst, a: nat, trs: Traces, buffs: Buffers, steps: nat, t: nat, port: int)
    requires IsBuilt(x) && a < |NetOf(x).nodes| && StoredAt(x, a, trs, buffs, In, steps) && t < steps
    ensures ReadsPort(VoqsAt(x, a), buffs, KindsOf(x), t, port, NetOf(x).hop[a])
  {
    ListsAreVoqs(x.top, x.w, x.uses, x.lists);
    assert MadeFrom(VoqsAt(x, a), buffs, ListsAt(x, a), t) by {
      forall e | e in VoqsAt(x, a)
        ensures t < |buffs[e].counts| && |ListsAt(x, a)[e]| <= |buffs[e].counts[t]|
      {
        assert Stores(trs[e], buffs[e], In, steps, KindsOf(x));
      }
    }
    if a < x.top.leafs {
      LeafReadsPorts(x.top, x.w, x.uses, a, x.lists[a], VoqsAt(x, a), buffs, t, port);
    } else {
      SpineReadsPorts(x.top, x.w, a - x.top.leafs, VoqsAt(x, a), buffs, t, port);
    }
  }

  /** link_ports for one link: the streams of both ports. */
  method LinkOne(x: Lst, l: Link, outs: Buffers, ins: Buffers, steps: nat, ghost trss: seq<Traces>) returns (ok: bool)
    requires IsBuilt(x) && IsLink(x.top, l) && |trss| == |NetOf(x).nodes|
    requires l.fromNode < |NetOf(x).nodes| && l.toNode < |NetOf(x).nodes|
    requires StoredAt(x, l.fromNode, trss[l.fromNode], outs, Out, steps)
    requires StoredAt(x, l.toNode, trss[l.toNode], ins, In, steps)
    ensures ok <==> forall t :: 0 <= t < steps ==> LinkHolds(NetOf(x), trss, l, t, KindsOf(x))
  {
    forall t | 0 <= t < steps
      ensures ReadsPort(VoqsAt(x, l.toNode), ins, KindsOf(x), t, l.toPort, NetOf(x).hop[l.toNode])
    {
      SwitchReadsPort(x, l.toNode, trss[l.toNode], ins, steps, t, l.toPort);
    }
    var output := OutStream(VoqsAt(x, l.fromNode), outs, l.fromPort, steps, KindsOf(x), trss[l.fromNode]);
    var input := InStream(VoqsAt(x, l.toNode), ins, l.toPort, NetOf(x).hop[l.toNode], steps, KindsOf(x),
      trss[l.toNode]);
    ok := LinkPorts(output, input, steps, KindsOf(x));
    assert output == input <==> forall t :: 0 <= t < steps ==> output[t] == input[t];
    assert forall t :: 0 <= t < steps ==> (output[t] == input[t] <==> LinkHolds(NetOf(x), trss, l, t, KindsOf(x)));
  }

  ghost predicate LinkHeld(x: Lst, trss: seq<Traces>, l: Link, steps: nat)
    requires IsBuilt(x)
  {
    forall t :: 0 <= t < steps ==> LinkHolds(NetOf(x), trss, l, t, KindsOf(x))
  }

  ghost predicate PairHeld(x: Lst, trss: seq<Traces>, i: nat, j: nat, steps: nat)
    requires IsBuilt(x)
  {
    LinkHeld(x, trss, Up(x.top, i, j), steps) && LinkHeld(x, trss, Down(x.top, i, j), steps)
  }

  ghost predicate LeafHeld(x: Lst, trss: seq<Traces>, i: nat, n: nat, steps: nat)
    requires IsBuilt(x)
  {
    forall j :: 0 <= j < n ==> PairHeld(x, trss, i, j, steps)
  }

  ghost predicate LeavesHeld(x: Lst, trss: seq<Traces>, n: nat, steps: nat)
    requires IsBuilt(x)
  {
    forall i :: 0 <= i < n ==> LeafHeld(x, trss, i, x.top.spines, steps)
  }

  lemma LinksHeld(x: Lst, trss: seq<Traces>, steps: nat)
    requires IsBuilt(x)
    ensures AllLinksHold(NetOf(x), trss, steps, KindsOf(x)) <==> LeavesHeld(x, trss, x.top.leafs, steps)
  {
    if AllLinksHold(NetOf(x), trss, steps, KindsOf(x)) {
      forall i, j | 0 <= i < x.top.leafs && 0 <= j < x.top.spines
        ensures PairHeld(x, trss, i, j, steps)
      {
        assert Up(x.top, i, j) in x.links && Down(x.top, i, j) in x.links;
      }
    }
    if LeavesHeld(x, trss, x.top.leafs, steps) {
      forall y | 0 <= y < |x.links|
        ensures LinkHeld(x, trss, x.links[y], steps)
      {
        var l := x.links[y];
        assert l in x.links && LeafHeld(x, trss, LeafOf(x.top, l), x.top.spines, steps);
        assert PairHeld(x, trss, LeafOf(x.top, l), SpineOf(x.top, l), steps);
        UpOrDown(x.top, l);
      }
    }
  }

  /** The body of the loops: leaf i and spine j, both directions. */
  method LinkPairOf(x: Lst, i: nat, j: nat, outs: seq<Buffers>, ins: seq<Buffers>, steps: nat,
                    ghost trss: seq<Traces>) returns (ok: bool)
    requires IsBuilt(x) && NetStored(x, trss, outs, Out, steps) && NetStored(x, trss, ins, In, steps)
    requires i < x.top.leafs && j < x.top.spines
    ensures ok <==> PairHeld(x, trss, i, j, steps)
  {
    var spine := x.top.leafs + j;
    var up := LinkOne(x, Up(x.top, i, j), outs[i], ins[spine], steps, trss);
    var down := LinkOne(x, Down(x.top, i, j), outs[spine], ins[i], steps, trss);
    ok := up && down;
  }

  method LinkLeaf(x: Lst, i: nat, outs: seq<Buffers>, ins: seq<Buffers>, steps: nat, ghost trss: seq<Traces>)
    returns (ok: bool)
    requires IsBuilt(x) && NetStored(x, trss, outs, Out, steps) && NetStored(x, trss, ins, In, steps) && i < x.top.leafs
    ensures ok <==> LeafHeld(x, trss, i, x.top.spines, steps)
  {
    ok := true;
    for j := 0 to x.top.spines
      invariant ok <==> LeafHeld(x, trss, i, j, steps)
    {
      var both := LinkPairOf(x, i, j, outs, ins, steps, trss);
      ok := ok && both;
    }
  }

  /** The loops over leaves and spines: they accept exactly the counts for which all links hold at all steps. */
  method LinkSwitches(x: Lst, outs: seq<Buffers>, ins: seq<Buffers>, steps: nat, ghost trss: seq<Traces>)
    returns (ok: bool)
    requires IsBuilt(x) && NetStored(x, trss, outs, Out, steps) && NetStored(x, trss, ins, In, steps)
    ensures ok <==> AllLinksHold(NetOf(x), trss, steps, KindsOf(x))
  {
    ok := true;
    for i := 0 to x.top.leafs
      invariant ok <==> LeavesHeld(x, trss, i, steps)
    {
      var all := LinkLeaf(x, i, outs, ins, steps, trss);
      ok := ok && all;
    }
    LinksHeld(x, trss, steps);
  }

  // ---------------------------------------------------------------- solutions are stored

  /** The sparse buffers of switch a for given traces. */
  ghost predicate SparseAt(x: Lst, a: nat, trs: Traces, steps: nat)
    requires IsBuilt(x) && a < |NetOf(x).nodes|
  {
    forall e :: e in VoqsAt(x, a) ==>
      e in trs && e in ListsAt(x, a) && Shaped(trs[e], steps, KindsOf(x)) && GoodTypes(ListsAt(x, a)[e], KindsOf(x))
  }

  ghost function SparseBuffers(x: Lst, a: nat, trs: Traces, side: Side, steps: nat): (buffs: Buffers)
    requires IsBuilt(x) && a < |NetOf(x).nodes| && SparseAt(x, a, trs, steps)
  {
    map e | e in VoqsAt(x, a) :: SparseOf(trs[e], ListsAt(x, a)[e], side, steps, KindsOf(x))
  }

  lemma ListsFit(x: Lst, a: nat, e: Voq)
    requires IsBuilt(x) && a < |NetOf(x).nodes| && e in VoqsAt(x, a)
    ensures e in ListsAt(x, a) && GoodTypes(ListsAt(x, a)[e], KindsOf(x))
    ensures forall y :: e in ListedOf(x)[a] && y in ListedOf(x)[a][e] ==> y in ListsAt(x, a)[e]
  {
    ListsAreVoqs(x.top, x.w, x.uses, x.lists);
    if a < x.top.leafs {
      LeafListsGood(x.top, x.w, x.uses, a, x.lists[a]);
      assert PL.GoodList(x.w.leafHop[a], e, x.lists[a][e]) && LeafTableOk(x.top, a, x.w.leafHop[a]);
    } else {
      var j := a - x.top.leafs;
      SpineListsGood(x.top, x.w, j);
      assert PL.GoodList(x.w.spineHop[j], e, x.w.spineVoqs[j][e]) && SpineTableOk(x.top, x.w.spineHop[j]);
    }
    assert forall y :: 0 <= y < |ListsAt(x, a)[e]| ==> ListsAt(x, a)[e][y] in ListsAt(x, a)[e];
  }

  /** Every solution fits into the sparse buffers: nothing is lost by storing the listed types only. */
  lemma SolutionIsStored(x: Lst, ext: seq<Arrivals>, cap: nat, rg: Ranges, useWin: bool, steps: nat,
                         xss: seq<seq<Snapshot>>, trss: seq<Traces>, wss: seq<AllWindows>, a: nat, side: Side)
    requires IsBuilt(x) && LstSolution(x, ext, cap, rg, useWin, steps, xss, trss, wss)
    requires a < |NetOf(x).nodes|
    ensures SparseAt(x, a, trss[a], steps)
    ensures StoredAt(x, a, trss[a], SparseBuffers(x, a, trss[a], side, steps), side, steps)
  {
    forall e | e in VoqsAt(x, a)
      ensures e in trss[a] && e in ListsAt(x, a) && GoodTypes(ListsAt(x, a)[e], KindsOf(x))
      ensures Shaped(trss[a][e], steps, KindsOf(x))
      ensures Stores(trss[a][e], SparseOf(trss[a][e], ListsAt(x, a)[e], side, steps, KindsOf(x)), side, steps,
              KindsOf(x))
    {
      ListsFit(x, a, e);
      assert VoqSolved(trss[a], ListedOf(x)[a], KindsOf(x), cap, rg, steps, e);
      ListedIsStored(trss[a][e], ListsAt(x, a)[e], ListedOf(x)[a][e], side, steps, KindsOf(x));
    }
  }

  /**
    In every solution for the leaf-spine network, the port that a switch demultiplexes from its sparse buffers
    counts, for every type, what the links compare.
   */
  lemma DemuxReadsCounts(x: Lst, ext: seq<Arrivals>, cap: nat, rg: Ranges, useWin: bool, steps: nat,
                         xss: seq<seq<Snapshot>>, trss: seq<Traces>, wss: seq<AllWindows>, a: nat, port: int, t: nat,
                         k: nat)
    requires IsBuilt(x) && LstSolution(x, ext, cap, rg, useWin, steps, xss, trss, wss)
    requires a < |NetOf(x).nodes| && t < steps && k < KindsOf(x)
    ensures SparseAt(x, a, trss[a], steps) && HasCounts(VoqsAt(x, a), trss[a], t, KindsOf(x))
    ensures HasStep(VoqsAt(x, a), SparseBuffers(x, a, trss[a], In, steps), KindsOf(x), t)
    ensures |NetOf(x).hop[a]| == KindsOf(x)
    ensures DemuxValue(VoqsAt(x, a), SparseBuffers(x, a, trss[a], In, steps), KindsOf(x), t, port, NetOf(x).hop[a], k)
            == PortCounts(VoqsAt(x, a), trss[a], In, port, t, KindsOf(x), |VoqsAt(x, a)|)[k]
  {
    SolutionIsStored(x, ext, cap, rg, useWin, steps, xss, trss, wss, a, In);
    var voqs, buffs := VoqsAt(x, a), SparseBuffers(x, a, trss[a], In, steps);
    SwitchReadsPort(x, a, trss[a], buffs, steps, t, port);
    SumIsCounts(voqs, trss[a], buffs, In, port, steps, KindsOf(x), t, |voqs|);
    assert voqs[..|voqs|] == voqs;
  }
}
