/** Where the packets of the leaf-spine network are: at their host, backlogged or dropped. */
module LstConservation {
  import opened CountVectors
  import opened BufferTrace
  import opened VoqSwitch
  import opened Voqs
  import opened VoqSystem
  import opened LstTables
  import opened LstRouting
  import opened LstLists
  import opened LstNetwork
  import opened LstSolutions
  import opened NetworkQueues
  import opened NetworkCarry
  import opened NetworkPorts
  import opened NetworkSolutions
  import opened NetworkSums
  import opened NetworkFlows
  import opened StableMatching
  import opened VoqQueues
  import PL = PortLists

  ghost predicate NothingElse(tr: Trace, types: seq<int>, steps: nat, kinds: nat) {
    && Shaped(tr, steps, kinds)
    && forall t, k :: 0 <= t < steps && 0 <= k < kinds && k !in types ==> tr.o[t][k] == 0
  }

  /** A VOQ counts only packets of the types that its list names; all other counts are 0. */
  ghost predicate OnlyListed(voqs: seq<Voq>, trs: Traces, lists: map<Voq, seq<int>>, steps: nat, kinds: nat) {
    forall e :: e in voqs ==> e in trs && e in lists && NothingElse(trs[e], lists[e], steps, kinds)
  }

  lemma {:induction false} NothingFlows(tr: Trace, types: seq<int>, steps: nat, kinds: nat, n: nat, k: nat)
    requires NothingElse(tr, types, steps, kinds) && n <= steps && k < kinds && k !in types
    ensures Flow(tr, Out, n, kinds, k) == 0
  {
    if n == 0 {
    } else {
      NothingFlows(tr, types, steps, kinds, n - 1, k);
      assert tr.o[n - 1][k] == 0;
    }
  }

  // ---------------------------------------------------------------- free ports

  lemma LinkEndsDiffer(n: Topology, links: seq<Link>, side: Side)
    requires LinkList(n, links)
    ensures EndsDiffer(links, side)
  {
    forall i, j | 0 <= i < j < |links|
      ensures !EndsAt(links[i], side, NodeOf(links[j], side), PortOf(links[j], side))
    {
      assert links[i] in links && links[j] in links && links[i] != links[j];
    }
  }

  /** The free ports are the host ports of the leaves, on both sides. */
  lemma FreeIsHost(n: Topology, links: seq<Link>, side: Side, a: nat, port: nat)
    requires LinkList(n, links) && a < n.leafs + n.spines
    requires if a < n.leafs then port < n.hosts + n.spines else port < n.leafs
    ensures Free(links, |links|, side, a, port) <==> a < n.leafs && port < n.hosts
  {
    if a < n.leafs && port >= n.hosts {
      var l := if side.In? then Down(n, a, port - n.hosts) else Up(n, a, port - n.hosts);
      assert l in links && EndsAt(l, side, a, port);
    } else if a >= n.leafs {
      var l := if side.In? then Up(n, port, a - n.leafs) else Down(n, port, a - n.leafs);
      assert l in links && EndsAt(l, side, a, port);
    } else {
      forall i | 0 <= i < |links|
        ensures !EndsAt(links[i], side, a, port)
      {
        assert links[i] in links;
      }
    }
  }

  predicate IsHostPort(top: Topology, port: int) {
    port < top.hosts
  }

  ghost function HostPorts(top: Topology): iset<int> {
    iset p | IsHostPort(top, p)
  }

  /** The values at the host ports of a leaf. */
  ghost function HostTotal(top: Topology, voqs: seq<Voq>, v: Values, side: Side): int
    requires Has(voqs, v)
  {
    TotalAt(voqs, v, side, HostPorts(top), |voqs|)
  }

  ghost predicate LeavesHave(top: Topology, voqs: seq<Voq>, vs: seq<Values>) {
    top.leafs <= |vs| && forall a :: 0 <= a < top.leafs ==> Has(voqs, vs[a])
  }

  /** The values at the host ports of the first b leaves. */
  ghost function HostsTotal(top: Topology, voqs: seq<Voq>, vs: seq<Values>, side: Side, b: nat): int
    requires LeavesHave(top, voqs, vs) && b <= top.leafs
  {
    if b == 0 then 0 else HostsTotal(top, voqs, vs, side, b - 1) + HostTotal(top, voqs, vs[b - 1], side)
  }

  lemma LeafFree(top: Topology, links: seq<Link>, voqs: seq<Voq>, v: Values, side: Side, a: nat)
    requires Has(voqs, v) && LinkList(top, links) && a < top.leafs && forall e :: e in voqs ==> IsLeafVoq(top, e)
    ensures TotalAt(voqs, v, side, FreePorts(links, |links|, side, a), |voqs|) == HostTotal(top, voqs, v, side)
  {
    forall e | e in voqs
      ensures Own(side, e) in FreePorts(links, |links|, side, a) <==> Own(side, e) in HostPorts(top)
    {
      FreeIsHost(top, links, side, a, Own(side, e));
    }
    SamePorts(voqs, v, side, FreePorts(links, |links|, side, a), HostPorts(top), |voqs|);
  }

  lemma SpineFree(top: Topology, links: seq<Link>, voqs: seq<Voq>, v: Values, side: Side, a: nat)
    requires Has(voqs, v) && LinkList(top, links) && top.leafs <= a < top.leafs + top.spines
    requires forall e :: e in voqs ==> IsSpineVoq(top, e)
    ensures TotalAt(voqs, v, side, FreePorts(links, |links|, side, a), |voqs|) == 0
  {
    forall e | e in voqs
      ensures Own(side, e) !in FreePorts(links, |links|, side, a)
    {
      FreeIsHost(top, links, side, a, Own(side, e));
    }
    SamePorts(voqs, v, side, FreePorts(links, |links|, side, a), iset{}, |voqs|);
    NoPorts(voqs, v, side, |voqs|);
  }

  lemma FreeAt(x: Lst, v: Values, side: Side, a: nat)
    requires IsBuilt(x) && a < |NetOf(x).nodes| && Has(NetOf(x).nodes[a], v)
    ensures TotalAt(NetOf(x).nodes[a], v, side, FreePorts(x.links, |x.links|, side, a), |NetOf(x).nodes[a]|)
            == if a < x.top.leafs then HostTotal(x.top, x.leafList, v, side) else 0
  {
    if a < x.top.leafs {
      LeafFree(x.top, x.links, x.leafList, v, side, a);
    } else {
      SpineFree(x.top, x.links, x.spineList, v, side, a);
    }
  }

  ghost predicate HostsAt(top: Topology, net: Net, leafList: seq<Voq>, vs: seq<Values>, side: Side, a: nat)
    requires AllHave(net, vs) && LeavesHave(top, leafList, vs) && a < |net.nodes|
  {
    TotalAt(net.nodes[a], vs[a], side, FreePorts(net.links, |net.links|, side, a), |net.nodes[a]|)
    == if a < top.leafs then HostTotal(top, leafList, vs[a], side) else 0
  }

  lemma {:induction false} SumHosts(top: Topology, net: Net, leafList: seq<Voq>, vs: seq<Values>, side: Side, b: nat)
    requires AllHave(net, vs) && LeavesHave(top, leafList, vs) && b <= |net.nodes|
    requires forall a :: 0 <= a < |net.nodes| ==> HostsAt(top, net, leafList, vs, side, a)
    ensures NetFree(net, vs, |net.links|, side, b)
            == HostsTotal(top, leafList, vs, side, if b < top.leafs then b else top.leafs)
  {
    if b == 0 {
    } else {
      SumHosts(top, net, leafList, vs, side, b - 1);
      assert HostsAt(top, net, leafList, vs, side, b - 1);
    }
  }

  /** The values at the free ports of the network are those at the host ports of the leaves. */
  lemma FreeIsHosts(x: Lst, vs: seq<Values>, side: Side)
    requires IsBuilt(x) && AllHave(NetOf(x), vs) && LeavesHave(x.top, x.leafList, vs)
    ensures NetFree(NetOf(x), vs, |x.links|, side, |NetOf(x).nodes|)
            == HostsTotal(x.top, x.leafList, vs, side, x.top.leafs)
  {
    forall a | 0 <= a < |NetOf(x).nodes|
      ensures HostsAt(x.top, NetOf(x), x.leafList, vs, side, a)
    {
      FreeAt(x, vs[a], side, a);
    }
    SumHosts(x.top, NetOf(x), x.leafList, vs, side, |NetOf(x).nodes|);
  }

  // ---------------------------------------------------------------- only the destination receives

  /** At a host port the list of a leaf's VOQ names a type only for its destination. */
  lemma ListedAtHost(top: Topology, uses: seq<PL.Use>, ports: PL.Lists, a: nat, e: Voq, s: nat, l: nat, h: nat)
    requires Proper(top) && UsesIn(top, uses) && ListsOk(top, uses, a, ports) && e in ports
    requires s < top.spines && l < top.leafs && h < top.hosts && e.1 < top.hosts && TypeOf(top, s, l, h) in ports[e]
    ensures a == l && e.1 == h
  {
    assert Wanted(top, uses, a, e, s, l, h);
  }

  ghost predicate SendsFrom(top: Topology, voqs: seq<Voq>, v: Values, a: nat, l: nat, h: nat)
    requires Has(voqs, v)
  {
    HostTotal(top, voqs, v, Out) == if a == l then PortTotal(voqs, v, Out, h) else 0
  }

  /** So leaf l sends the type to host port h, and no other leaf sends it to a host. */
  lemma LeafSends(top: Topology, uses: seq<PL.Use>, ports: PL.Lists, voqs: seq<Voq>, trs: Traces, a: nat, steps: nat,
                  n: nat, kinds: nat, k: nat, s: nat, l: nat, h: nat)
    requires Proper(top) && UsesIn(top, uses) && ListsOk(top, uses, a, ports)
    requires OnlyListed(voqs, trs, ports, steps, kinds)
    requires s < top.spines && l < top.leafs && h < top.hosts && k == TypeOf(top, s, l, h) && k < kinds && n <= steps
    requires HasFlows(voqs, trs, n, kinds)
    ensures SendsFrom(top, voqs, Flows(voqs, trs, Out, n, kinds, k), a, l, h)
  {
    var v := Flows(voqs, trs, Out, n, kinds, k);
    forall e | e in voqs && v[e] != 0 && e.1 < top.hosts
      ensures a == l && e.1 == h
    {
      if k in ports[e] {
        ListedAtHost(top, uses, ports, a, e, s, l, h);
      } else {
        NothingFlows(trs[e], ports[e], steps, kinds, n, k);
      }
    }
    SamePorts(voqs, v, Out, HostPorts(top), if a == l then iset{h} else iset{}, |voqs|);
    NoPorts(voqs, v, Out, |voqs|);
  }

  lemma {:induction false} SumReceived(top: Topology, voqs: seq<Voq>, vs: seq<Values>, l: nat, h: nat, b: nat)
    requires LeavesHave(top, voqs, vs) && b <= top.leafs && l < top.leafs
    requires forall a :: 0 <= a < top.leafs ==> SendsFrom(top, voqs, vs[a], a, l, h)
    ensures HostsTotal(top, voqs, vs, Out, b) == if l < b then PortTotal(voqs, vs[l], Out, h) else 0
  {
    if b == 0 {
    } else {
      SumReceived(top, voqs, vs, l, h, b - 1);
      assert SendsFrom(top, voqs, vs[b - 1], b - 1, l, h);
    }
  }

  // ---------------------------------------------------------------- end to end

  /** Buffer runs of all VOQs, links that hold, and only listed types at the leaves. */
  ghost predicate ListedRun(x: Lst, trss: seq<Traces>, cap: int, steps: nat)
    requires IsBuilt(x)
  {
    && NetRuns(NetOf(x), trss, steps, KindsOf(x), cap) && AllLinksHold(NetOf(x), trss, steps, KindsOf(x))
    && forall a :: 0 <= a < x.top.leafs ==> OnlyListed(x.leafList, trss[a], x.lists[a], steps, KindsOf(x))
  }

  lemma LinksFitLst(x: Lst)
    requires IsBuilt(x)
    ensures LinksFit(NetOf(x))
  {
    forall i | 0 <= i < |x.links|
      ensures x.links[i].fromNode < |NetOf(x).nodes| && x.links[i].toNode < |NetOf(x).nodes|
    {
      assert x.links[i] in x.links;
    }
  }

  lemma ListedFlows(x: Lst, trss: seq<Traces>, cap: int, steps: nat, n: nat)
    requires IsBuilt(x) && ListedRun(x, trss, cap, steps) && n <= steps
    ensures NetHasFlows(NetOf(x), trss, n, KindsOf(x))
    ensures forall a :: 0 <= a < x.top.leafs ==> HasFlows(x.leafList, trss[a], n, KindsOf(x))
  {
    forall a | 0 <= a < |NetOf(x).nodes|
      ensures HasFlows(VoqsAt(x, a), trss[a], n, KindsOf(x))
    {
      RunsHaveFlows(NetOf(x).nodes[a], trss[a], steps, KindsOf(x), cap, n);
    }
  }

  /** The type's packets that the hosts of all leaves have sent, or received, in n steps. */
  ghost function HostsFlow(x: Lst, trss: seq<Traces>, cap: int, steps: nat, side: Side, n: nat, k: nat): int
    requires IsBuilt(x) && ListedRun(x, trss, cap, steps) && n <= steps && k < KindsOf(x)
  {
    ListedFlows(x, trss, cap, steps, n);
    HostsTotal(x.top, x.leafList, NetFlows(NetOf(x), trss, side, n, KindsOf(x), k), side, x.top.leafs)
  }

  lemma FreeFlow(x: Lst, trss: seq<Traces>, cap: int, steps: nat, side: Side, n: nat, k: nat)
    requires IsBuilt(x) && ListedRun(x, trss, cap, steps) && n <= steps && k < KindsOf(x)
    ensures NetHasFlows(NetOf(x), trss, n, KindsOf(x))
    ensures NetFree(NetOf(x), NetFlows(NetOf(x), trss, side, n, KindsOf(x), k), |x.links|, side, |NetOf(x).nodes|)
            == HostsFlow(x, trss, cap, steps, side, n, k)
  {
    ListedFlows(x, trss, cap, steps, n);
    FreeIsHosts(x, NetFlows(NetOf(x), trss, side, n, KindsOf(x), k), side);
  }

  /** Those that have left leaf l by the port of host h. */
  ghost function Received(x: Lst, trss: seq<Traces>, cap: int, steps: nat, n: nat, k: nat, l: nat, h: nat): int
    requires IsBuilt(x) && ListedRun(x, trss, cap, steps) && n <= steps && k < KindsOf(x) && l < x.top.leafs
  {
    ListedFlows(x, trss, cap, steps, n);
    PortFlow(x.leafList, trss[l], Out, h, n, KindsOf(x), k)
  }

  lemma HostsReceive(x: Lst, trss: seq<Traces>, cap: int, steps: nat, n: nat, k: nat, s: nat, l: nat, h: nat)
    requires IsBuilt(x) && ListedRun(x, trss, cap, steps) && n <= steps
    requires s < x.top.spines && l < x.top.leafs && h < x.top.hosts && k == TypeOf(x.top, s, l, h) && k < KindsOf(x)
    ensures HostsFlow(x, trss, cap, steps, Out, n, k) == Received(x, trss, cap, steps, n, k, l, h)
  {
    ListedFlows(x, trss, cap, steps, n);
    var vs := NetFlows(NetOf(x), trss, Out, n, KindsOf(x), k);
    forall a | 0 <= a < x.top.leafs
      ensures SendsFrom(x.top, x.leafList, vs[a], a, l, h)
    {
      LeafSends(x.top, x.uses, x.lists[a], x.leafList, trss[a], a, steps, n, KindsOf(x), k, s, l, h);
    }
    SumReceived(x.top, x.leafList, vs, l, h, x.top.leafs);
  }

  /** Packets of the type that are backlogged or were dropped in the first n steps, over all VOQs. */
  ghost function StillInside(x: Lst, trss: seq<Traces>, cap: int, steps: nat, n: nat, k: nat): int
    requires IsBuilt(x) && ListedRun(x, trss, cap, steps) && 0 < n <= steps && k < KindsOf(x)
  {
    NetTotal(NetOf(x), NetKept(NetOf(x), trss, steps, cap, n, KindsOf(x), k), |NetOf(x).nodes|)
  }

  /**
    In every solution for the leaf-spine network, for every topology, workload and type: all packets of
    the type that the hosts have sent in the first n steps have arrived at the one host it is for, or are
    backlogged or were dropped in some VOQ.
   */
  lemma LstConserves(x: Lst, trss: seq<Traces>, cap: int, steps: nat, n: nat, s: nat, l: nat, h: nat)
    requires IsBuilt(x) && ListedRun(x, trss, cap, steps) && 0 < n <= steps
    requires s < x.top.spines && l < x.top.leafs && h < x.top.hosts
    ensures TypeOf(x.top, s, l, h) < KindsOf(x)
    ensures var k := TypeOf(x.top, s, l, h);
            HostsFlow(x, trss, cap, steps, In, n, k)
            == Received(x, trss, cap, steps, n, k, l, h) + StillInside(x, trss, cap, steps, n, k)
  {
    TypeDecodes(x.top, s, l, h);
    var k := TypeOf(x.top, s, l, h);
    LinkEndsDiffer(x.top, x.links, In);
    LinkEndsDiffer(x.top, x.links, Out);
    LinksFitLst(x);
    NetworkConserves(NetOf(x), trss, steps, cap, n, KindsOf(x), k);
    FreeFlow(x, trss, cap, steps, In, n, k);
    FreeFlow(x, trss, cap, steps, Out, n, k);
    HostsReceive(x, trss, cap, steps, n, k, s, l, h);
  }

  lemma CarriesListed(n: Topology, tr: Trace, ports: PL.Lists, e: Voq, steps: nat, kinds: nat)
    requires e in ports && CountsOnly(tr, Carried(ports, AllTypes(n))[e], steps, kinds)
    ensures NothingElse(tr, ports[e], steps, kinds)
  {
    forall t, k | 0 <= t < steps && 0 <= k < kinds && k !in ports[e]
      ensures tr.o[t][k] == 0
    {
      assert ZeroAt(tr, t, k, kinds);
    }
  }

  /** The solutions that NeverBlocks provides are such runs, so they conserve packets end to end. */
  lemma SolutionFits(x: Lst, ext: seq<Arrivals>, cap: nat, rg: Ranges, useWin: bool, steps: nat,
                     xss: seq<seq<Snapshot>>, trss: seq<Traces>, wss: seq<AllWindows>)
    requires IsBuilt(x) && LstSolution(x, ext, cap, rg, useWin, steps, xss, trss, wss)
    ensures ListedRun(x, trss, cap, steps)
  {
    var net, kinds := NetOf(x), KindsOf(x);
    forall a | 0 <= a < |net.nodes|
      ensures BufferRuns(net.nodes[a], trss[a], steps, kinds, cap)
    {
      assert NodeSolution(net.nodes[a], xss[a], trss[a], wss[a], kinds, cap, steps, useWin);
    }
    ListsAreVoqs(x.top, x.w, x.uses, x.lists);
    forall a, e | 0 <= a < x.top.leafs && e in x.leafList
      ensures e in trss[a] && e in x.lists[a] && NothingElse(trss[a][e], x.lists[a][e], steps, kinds)
    {
      assert e in net.nodes[a] && VoqSolved(trss[a], ListedOf(x)[a], kinds, cap, rg, steps, e);
      CarriesListed(x.top, trss[a][e], x.lists[a], e, steps, kinds);
    }
  }
}
