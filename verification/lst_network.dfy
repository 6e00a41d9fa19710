/** The leaf-spine network of lst.cpp, all switches and links together, for every topology and workload. */
module LstNetwork {
  import opened BufferTrace
  import opened LstTables
  import opened LstRouting
  import opened LstLists
  import opened Voqs
  import opened VoqQueues
  import opened VoqRanges
  import opened NetworkQueues
  import opened NetworkCarry
  import opened NetworkSolutions
  import PL = PortLists

  // ---------------------------------------------------------------- links

  /** From leaf i to spine j; spines are numbered behind the leaves. */
  function Up(n: Topology, i: nat, j: nat): Link {
    Link(i, n.hosts + j, n.leafs + j, i)
  }

  function Down(n: Topology, i: nat, j: nat): Link {
    Link(n.leafs + j, i, i, n.hosts + j)
  }

  function LeafOf(n: Topology, l: Link): nat {
    if l.fromNode < n.leafs then l.fromNode else l.toNode
  }

  function SpineOf(n: Topology, l: Link): int {
    (if l.fromNode < n.leafs then l.toNode else l.fromNode) - n.leafs
  }

  predicate IsLink(n: Topology, l: Link) {
    && LeafOf(n, l) < n.leafs && 0 <= SpineOf(n, l) < n.spines
    && if l.fromNode < n.leafs then
         l.fromPort == n.hosts + SpineOf(n, l) && l.toPort == LeafOf(n, l)
       else
         l.fromPort == LeafOf(n, l) && l.toPort == n.hosts + SpineOf(n, l)
  }

  /** Exactly the links between leaves and spines, each once. */
  ghost predicate LinkList(n: Topology, links: seq<Link>) {
    Distinct(links) && forall l :: l in links <==> IsLink(n, l)
  }

  /** A port of the network's switches by its name in the link table. */
  function PortName(n: Topology, node: nat, port: int): Port {
    if node < n.leafs then LeafPort(node, port) else SpinePort(node - n.leafs, port)
  }

  function LinkFrom(n: Topology, p: Port): Link
    requires InterSwitch(n, p)
  {
    match p
    case LeafPort(leaf, port) => Up(n, leaf, port - n.hosts)
    case SpinePort(spine, port) => Down(n, port, spine)
  }

  /** The link that the table holds for a port. */
  lemma TableLink(n: Topology, links: map<Port, Port>, p: Port)
    requires Linked(n, links) && InterSwitch(n, p)
    ensures var l := LinkFrom(n, p);
            && IsLink(n, l) && p in links
            && p == PortName(n, l.fromNode, l.fromPort) && links[p] == PortName(n, l.toNode, l.toPort)
  {
    var l := LinkFrom(n, p);
    assert PairLinked(n, links, LeafOf(n, l), SpineOf(n, l));
  }

  lemma LinkStarts(n: Topology, l: Link)
    requires IsLink(n, l)
    ensures InterSwitch(n, PortName(n, l.fromNode, l.fromPort)) && l == LinkFrom(n, PortName(n, l.fromNode, l.fromPort))
  {
  }

  /** The links of the table, as a list. */
  method ListLinks(n: Topology, table: map<Port, Port>) returns (links: seq<Link>)
    requires Linked(n, table)
    ensures LinkList(n, links)
    ensures forall l :: l in links ==>
              && PortName(n, l.fromNode, l.fromPort) in table
              && table[PortName(n, l.fromNode, l.fromPort)] == PortName(n, l.toNode, l.toPort)
  {
    forall l | IsLink(n, l)
      ensures PortName(n, l.fromNode, l.fromPort) in table
      ensures table[PortName(n, l.fromNode, l.fromPort)] == PortName(n, l.toNode, l.toPort)
    {
      LinkStarts(n, l);
      TableLink(n, table, PortName(n, l.fromNode, l.fromPort));
    }
    links := [];
    var todo := table.Keys;
    while todo != {}
      invariant todo <= table.Keys && Distinct(links)
      invariant forall l :: l in links <==> IsLink(n, l) && PortName(n, l.fromNode, l.fromPort) !in todo
      decreases |todo|
    {
      var p :| p in todo;
      TableLink(n, table, p);
      ghost var before := links;
      links := links + [LinkFrom(n, p)];
      todo := todo - {p};
      forall l
        ensures l in links <==> IsLink(n, l) && PortName(n, l.fromNode, l.fromPort) !in todo
      {
        assert l in links <==> l in before || l == LinkFrom(n, p);
        if IsLink(n, l) {
          LinkStarts(n, l);
        }
      }
    }
  }

  /** A link is determined by the port where it ends, and by the port where it starts. */
  lemma LinksDiffer(n: Topology, links: seq<Link>)
    requires LinkList(n, links)
    ensures InEndsDiffer(links)
  {
    forall x, y | 0 <= x < y < |links|
      ensures links[x].toNode != links[y].toNode || links[x].toPort != links[y].toPort
    {
      assert links[x] in links && links[y] in links && links[x] != links[y];
    }
  }

  // ---------------------------------------------------------------- the network

  /** VOQ lists of the leaves and of the spines, in any order. */
  ghost predicate ListVoqs(n: Topology, leafList: seq<Voq>, spineList: seq<Voq>) {
    && Distinct(leafList) && (forall e :: e in leafList <==> IsLeafVoq(n, e))
    && Distinct(spineList) && (forall e :: e in spineList <==> IsSpineVoq(n, e))
  }

  function LstNet(n: Topology, w: Network, links: seq<Link>, leafList: seq<Voq>, spineList: seq<Voq>): (net: Net)
    requires |w.leafHop| == n.leafs && |w.spineHop| == n.spines
    ensures |net.nodes| == |net.hop| == n.leafs + n.spines && net.links == links
    ensures forall a :: 0 <= a < |net.nodes| ==> net.nodes[a] == if a < n.leafs then leafList else spineList
    ensures forall a :: 0 <= a < |net.nodes| ==>
              net.hop[a] == if a < n.leafs then w.leafHop[a] else w.spineHop[a - n.leafs]
  {
    Net(seq(n.leafs + n.spines, a => if a < n.leafs then leafList else spineList), w.leafHop + w.spineHop, links)
  }

  ghost predicate IsUsed(n: Topology, uses: seq<PL.Use>, k: nat, s: nat, l: nat, h: nat) {
    && s < n.spines && l < n.leafs && h < n.hosts && k == TypeOf(n, s, l, h)
    && EcmpUsed(uses, s) && DstUsed(uses, HostOf(n, l, h))
  }

  ghost predicate UsedType(n: Topology, uses: seq<PL.Use>, k: nat) {
    exists s: nat, l: nat, h: nat :: IsUsed(n, uses, k, s, l, h)
  }

  /** The types of a spine and a destination host that are in use. */
  ghost function UsedTypes(n: Topology, uses: seq<PL.Use>): set<nat> {
    set k: nat | k < PktTypes(n) && UsedType(n, uses, k)
  }

  predicate IsType(n: Topology, k: int) {
    0 <= k < PktTypes(n)
  }

  ghost function AllTypes(n: Topology): set<nat> {
    set k: nat | k < PktTypes(n) && IsType(n, k)
  }

  ghost function Carried(lists: map<Voq, seq<int>>, types: set<nat>): map<Voq, set<nat>> {
    map e | e in lists :: set k | k in types && k in lists[e]
  }

  ghost function CarryAt(n: Topology, w: Network, uses: seq<PL.Use>, lists: seq<PL.Lists>, a: nat): map<Voq, set<nat>>
    requires |lists| == n.leafs && |w.spineVoqs| == n.spines && a < n.leafs + n.spines
  {
    if a < n.leafs then Carried(lists[a], AllTypes(n)) else Carried(w.spineVoqs[a - n.leafs], UsedTypes(n, uses))
  }

  /** What may come to every VOQ: at leaves the listed types, at spines the listed types in use. */
  ghost function LstCarry(n: Topology, w: Network, uses: seq<PL.Use>, lists: seq<PL.Lists>): (carry: Carry)
    requires |lists| == n.leafs && |w.spineVoqs| == n.spines
    ensures |carry| == n.leafs + n.spines
    ensures forall a :: 0 <= a < |carry| ==> carry[a] == CarryAt(n, w, uses, lists, a)
  {
    seq(n.leafs + n.spines, a requires 0 <= a < n.leafs + n.spines => CarryAt(n, w, uses, lists, a))
  }

  /** Everything that is built for a topology and a workload. */
  ghost predicate Built(n: Topology, w: Network, uses: seq<PL.Use>, lists: seq<PL.Lists>) {
    && NetworkOk(n, w) && UsesIn(n, uses) && |lists| == n.leafs
    && forall i :: 0 <= i < n.leafs ==> ListsOk(n, uses, i, lists[i])
  }

  // ---------------------------------------------------------------- what leaves over a link is accepted

  lemma WantedIsUsed(n: Topology, uses: seq<PL.Use>, leaf: nat, e: Voq, k: nat, s: nat, l: nat, h: nat)
    requires UsesIn(n, uses) && leaf < n.leafs && s < n.spines && l < n.leafs && h < n.hosts
    requires k == TypeOf(n, s, l, h) && Wanted(n, uses, leaf, e, s, l, h)
    ensures IsUsed(n, uses, k, s, l, h)
  {
    if 0 <= e.0 < n.hosts && 0 <= HostOf(n, leaf, e.0) < TotalHosts(n) {
      assert MaySend(uses, HostOf(n, leaf, e.0), s, HostOf(n, l, h));
    }
  }

  /** The VOQ behind the link to which the table sends the type lists it. */
  ghost predicate ListedBehind(l: Link, hop: seq<int>, lists: map<Voq, seq<int>>, types: set<nat>, k: nat) {
    k < |hop| && (l.toPort, hop[k]) in lists && k in lists[(l.toPort, hop[k])] && k in types
  }

  /** A type listed at leaf i for spine j is listed there by the VOQ to which spine j's table sends it. */
  lemma UpListed(n: Topology, w: Network, uses: seq<PL.Use>, ports: PL.Lists, i: nat, j: nat, e: Voq, k: nat)
    requires NetworkOk(n, w) && UsesIn(n, uses) && i < n.leafs && j < n.spines && ListsOk(n, uses, i, ports)
    requires e in ports && e.1 == n.hosts + j && k in ports[e]
    ensures ListedBehind(Up(n, i, j), w.spineHop[j], w.spineVoqs[j], UsedTypes(n, uses), k)
  {
    assert SpineTableOk(n, w.spineHop[j]) && SpineVoqsOk(n, j, w.spineVoqs[j]);
    var s, l, h := TypeEncodes(n, k);
    assert Wanted(n, uses, i, e, s, l, h);
    WantedIsUsed(n, uses, i, e, k, s, l, h);
    assert SpineHopOk(n, w.spineHop[j], s, l, h);
    assert IsSpineVoq(n, (i, l));
    SpineListExact(n, w, j, (i, l), s, l, h);
  }

  /** A type in use that spine j lists for leaf i is listed there by the VOQ to which the leaf's table sends it. */
  lemma DownListed(n: Topology, w: Network, uses: seq<PL.Use>, ports: PL.Lists, i: nat, j: nat, e: Voq, k: nat)
    requires NetworkOk(n, w) && UsesIn(n, uses) && i < n.leafs && j < n.spines && ListsOk(n, uses, i, ports)
    requires e in w.spineVoqs[j] && e.1 == i && k in w.spineVoqs[j][e] && k in UsedTypes(n, uses)
    ensures ListedBehind(Down(n, i, j), w.leafHop[i], ports, AllTypes(n), k)
  {
    assert LeafTableOk(n, i, w.leafHop[i]);
    var s: nat, l: nat, h: nat :| IsUsed(n, uses, k, s, l, h);
    SpineListExact(n, w, j, e, s, l, h);
    assert LeafHopOk(n, i, w.leafHop[i], s, l, h);
    assert IsLeafVoq(n, (n.hosts + j, h));
    assert Wanted(n, uses, i, (n.hosts + j, h), s, l, h);
  }

  ghost predicate LinkLists(l: Link, la: map<Voq, seq<int>>, ta: set<nat>, hop: seq<int>, lb: map<Voq, seq<int>>,
                            tb: set<nat>) {
    forall e, k :: e in la && e.1 == l.fromPort && k in la[e] && k in ta ==> ListedBehind(l, hop, lb, tb, k)
  }

  /** The lists at both ends of a link decide whether it accepts. */
  lemma LinkCloses(net: Net, carry: Carry, l: Link, la: map<Voq, seq<int>>, ta: set<nat>, hop: seq<int>,
                   lb: map<Voq, seq<int>>, tb: set<nat>)
    requires l.fromNode < |net.nodes| == |net.hop| == |carry| && l.toNode < |net.nodes|
    requires carry[l.fromNode] == Carried(la, ta) && carry[l.toNode] == Carried(lb, tb) && net.hop[l.toNode] == hop
    requires LinkLists(l, la, ta, hop, lb, tb) && forall e :: e in lb ==> e in net.nodes[l.toNode]
    ensures LinkAccepts(net, carry, l)
  {
    forall e, k | e in net.nodes[l.fromNode] && e.1 == l.fromPort && e in carry[l.fromNode] && k in carry[l.fromNode][e]
      ensures Accepts(net, carry, l, k)
    {
      assert ListedBehind(l, hop, lb, tb, k);
    }
  }

  lemma UpCloses(n: Topology, w: Network, uses: seq<PL.Use>, lists: seq<PL.Lists>, i: nat, j: nat)
    requires Built(n, w, uses, lists) && i < n.leafs && j < n.spines
    ensures LinkLists(Up(n, i, j), lists[i], AllTypes(n), w.spineHop[j], w.spineVoqs[j], UsedTypes(n, uses))
  {
    forall e, k: nat | e in lists[i] && e.1 == n.hosts + j && k in lists[i][e]
      ensures ListedBehind(Up(n, i, j), w.spineHop[j], w.spineVoqs[j], UsedTypes(n, uses), k)
    {
      UpListed(n, w, uses, lists[i], i, j, e, k);
    }
  }

  lemma DownCloses(n: Topology, w: Network, uses: seq<PL.Use>, lists: seq<PL.Lists>, i: nat, j: nat)
    requires Built(n, w, uses, lists) && i < n.leafs && j < n.spines
    ensures LinkLists(Down(n, i, j), w.spineVoqs[j], UsedTypes(n, uses), w.leafHop[i], lists[i], AllTypes(n))
  {
    forall e, k: nat | e in w.spineVoqs[j] && e.1 == i && k in w.spineVoqs[j][e] && k in UsedTypes(n, uses)
      ensures ListedBehind(Down(n, i, j), w.leafHop[i], lists[i], AllTypes(n), k)
    {
      DownListed(n, w, uses, lists[i], i, j, e, k);
    }
  }

  /** Leaf lists are for leaf VOQs, spine lists for spine VOQs. */
  lemma ListsAreVoqs(n: Topology, w: Network, uses: seq<PL.Use>, lists: seq<PL.Lists>)
    requires Built(n, w, uses, lists)
    ensures forall i, e :: 0 <= i < n.leafs ==> (e in lists[i] <==> IsLeafVoq(n, e))
    ensures forall j, e :: 0 <= j < n.spines ==> (e in w.spineVoqs[j] <==> IsSpineVoq(n, e))
  {
    forall i | 0 <= i < n.leafs
      ensures forall e :: e in lists[i] <==> IsLeafVoq(n, e)
    {
      assert ListsOk(n, uses, i, lists[i]);
    }
    forall j | 0 <= j < n.spines
      ensures forall e :: e in w.spineVoqs[j] <==> IsSpineVoq(n, e)
    {
      assert SpineVoqsOk(n, j, w.spineVoqs[j]);
    }
  }

  lemma UpAccepted(n: Topology, w: Network, uses: seq<PL.Use>, lists: seq<PL.Lists>, net: Net, carry: Carry, i: nat,
                   j: nat)
    requires Built(n, w, uses, lists) && i < n.leafs && j < n.spines
    requires |net.nodes| == |net.hop| == |carry| == n.leafs + n.spines && net.hop[n.leafs + j] == w.spineHop[j]
    requires forall e :: e in net.nodes[n.leafs + j] <==> IsSpineVoq(n, e)
    requires carry[i] == Carried(lists[i], AllTypes(n))
    requires carry[n.leafs + j] == Carried(w.spineVoqs[j], UsedTypes(n, uses))
    ensures LinkAccepts(net, carry, Up(n, i, j))
  {
    ListsAreVoqs(n, w, uses, lists);
    UpCloses(n, w, uses, lists, i, j);
    LinkCloses(net, carry, Up(n, i, j), lists[i], AllTypes(n), w.spineHop[j], w.spineVoqs[j], UsedTypes(n, uses));
  }

  lemma DownAccepted(n: Topology, w: Network, uses: seq<PL.Use>, lists: seq<PL.Lists>, net: Net, carry: Carry, i: nat,
                     j: nat)
    requires Built(n, w, uses, lists) && i < n.leafs && j < n.spines
    requires |net.nodes| == |net.hop| == |carry| == n.leafs + n.spines && net.hop[i] == w.leafHop[i]
    requires forall e :: e in net.nodes[i] <==> IsLeafVoq(n, e)
    requires carry[i] == Carried(lists[i], AllTypes(n))
    requires carry[n.leafs + j] == Carried(w.spineVoqs[j], UsedTypes(n, uses))
    ensures LinkAccepts(net, carry, Down(n, i, j))
  {
    ListsAreVoqs(n, w, uses, lists);
    DownCloses(n, w, uses, lists, i, j);
    LinkCloses(net, carry, Down(n, i, j), w.spineVoqs[j], UsedTypes(n, uses), w.leafHop[i], lists[i], AllTypes(n));
  }

  // ---------------------------------------------------------------- all of it

  /** What check_wl builds for a topology and a workload, with the VOQs of leaves and spines as lists. */
  datatype Lst = Lst(top: Topology, w: Network, uses: seq<PL.Use>, lists: seq<PL.Lists>, links: seq<Link>,
                     leafList: seq<Voq>, spineList: seq<Voq>)

  ghost predicate IsBuilt(x: Lst) {
    Built(x.top, x.w, x.uses, x.lists) && LinkList(x.top, x.links) && ListVoqs(x.top, x.leafList, x.spineList)
  }

  function NetOf(x: Lst): Net
    requires IsBuilt(x)
  {
    LstNet(x.top, x.w, x.links, x.leafList, x.spineList)
  }

  ghost function CarryOf(x: Lst): Carry
    requires IsBuilt(x)
  {
    LstCarry(x.top, x.w, x.uses, x.lists)
  }

  function KindsOf(x: Lst): nat {
    PktTypes(x.top)
  }

  /** The VOQs of switch a. */
  function VoqsAt(x: Lst, a: nat): seq<Voq> {
    if a < x.top.leafs then x.leafList else x.spineList
  }

  lemma UpOrDown(n: Topology, l: Link)
    requires IsLink(n, l)
    ensures l == Up(n, LeafOf(n, l), SpineOf(n, l)) || l == Down(n, LeafOf(n, l), SpineOf(n, l))
    ensures l.fromNode < n.leafs + n.spines && l.toNode < n.leafs + n.spines
  {
  }

  lemma UpClosesAt(x: Lst, l: Link, i: nat, j: nat)
    requires IsBuilt(x) && i < x.top.leafs && j < x.top.spines && l == Up(x.top, i, j)
    ensures LinkAccepts(NetOf(x), CarryOf(x), l)
  {
    var net, carry := NetOf(x), CarryOf(x);
    assert carry[i] == CarryAt(x.top, x.w, x.uses, x.lists, i);
    assert carry[x.top.leafs + j] == CarryAt(x.top, x.w, x.uses, x.lists, x.top.leafs + j);
    UpAccepted(x.top, x.w, x.uses, x.lists, net, carry, i, j);
  }

  lemma DownClosesAt(x: Lst, l: Link, i: nat, j: nat)
    requires IsBuilt(x) && i < x.top.leafs && j < x.top.spines && l == Down(x.top, i, j)
    ensures LinkAccepts(NetOf(x), CarryOf(x), l)
  {
    var net, carry := NetOf(x), CarryOf(x);
    assert carry[i] == CarryAt(x.top, x.w, x.uses, x.lists, i);
    assert carry[x.top.leafs + j] == CarryAt(x.top, x.w, x.uses, x.lists, x.top.leafs + j);
    DownAccepted(x.top, x.w, x.uses, x.lists, net, carry, i, j);
  }

  lemma LinkClosesAt(x: Lst, l: Link)
    requires IsBuilt(x) && IsLink(x.top, l)
    ensures l.fromNode < |NetOf(x).nodes| && l.toNode < |NetOf(x).nodes| && LinkAccepts(NetOf(x), CarryOf(x), l)
  {
    UpOrDown(x.top, l);
    var i, j := LeafOf(x.top, l), SpineOf(x.top, l);
    if l == Up(x.top, i, j) {
      UpClosesAt(x, l, i, j);
    } else {
      DownClosesAt(x, l, i, j);
    }
  }

  /** Whatever may leave a leaf or a spine over a link finds its VOQ behind it. */
  lemma LstClosed(x: Lst)
    requires IsBuilt(x)
    ensures Closed(NetOf(x), CarryOf(x), KindsOf(x))
  {
    ListsAreVoqs(x.top, x.w, x.uses, x.lists);
    forall i | 0 <= i < |x.links|
      ensures x.links[i].fromNode < |NetOf(x).nodes| && x.links[i].toNode < |NetOf(x).nodes|
      ensures LinkAccepts(NetOf(x), CarryOf(x), x.links[i])
    {
      assert x.links[i] in x.links;
      LinkClosesAt(x, x.links[i]);
    }
  }

  method ListOf(voqs: set<Voq>) returns (list: seq<Voq>)
    ensures Distinct(list) && forall e :: e in list <==> e in voqs
  {
    list := [];
    var todo := voqs;
    while todo != {}
      invariant todo <= voqs && Distinct(list) && forall e :: e in list <==> e in voqs && e !in todo
      decreases |todo|
    {
      var e :| e in todo;
      todo := todo - {e};
      list := list + [e];
    }
  }

  /** For every topology and workload there is such a network, and it is closed. */
  method BuildAll(n: Topology, uses: seq<PL.Use>) returns (x: Lst)
    requires Proper(n) && UsesIn(n, uses)
    ensures x.top == n && x.uses == uses && IsBuilt(x) && Closed(NetOf(x), CarryOf(x), KindsOf(x))
  {
    var w := BuildNetwork(n);
    var lists := BuildLists(n, uses);
    var links := ListLinks(n, w.links);
    var leafList := ListOf(w.leafVoqs);
    assert SpineVoqsOk(n, 0, w.spineVoqs[0]);
    var spineList := ListOf(w.spineVoqs[0].Keys);
    x := Lst(n, w, uses, lists, links, leafList, spineList);
    LstClosed(x);
  }

  // ---------------------------------------------------------------- what the hosts send

  /** Only the host ports of leaves have no link. */
  lemma OuterIsHost(x: Lst, a: nat, e: Voq)
    requires IsBuilt(x) && a < |NetOf(x).nodes| && e in NetOf(x).nodes[a]
    ensures Outer(NetOf(x), a, e) <==> a < x.top.leafs && e.0 < x.top.hosts
  {
    assert forall i :: 0 <= i < |x.links| ==> x.links[i] in x.links;
    if a < x.top.leafs && e.0 >= x.top.hosts {
      assert Down(x.top, a, e.0 - x.top.hosts) in x.links;
    } else if a >= x.top.leafs {
      assert Up(x.top, e.0, a - x.top.leafs) in x.links;
    }
  }

  ghost predicate OffersFor(voqs: seq<Voq>, ext: Arrivals, steps: nat) {
    forall e :: e in voqs ==> e in ext && steps <= |ext[e]|
  }

  /** Entries for all VOQs and steps; those for ports with links do not count. */
  ghost predicate Offers(x: Lst, ext: seq<Arrivals>, steps: nat) {
    |ext| == x.top.leafs + x.top.spines && forall a :: 0 <= a < |ext| ==> OffersFor(VoqsAt(x, a), ext[a], steps)
  }

  /** A host makes a small offer of types that the list of the VOQ names. */
  ghost predicate HostOffers(n: Topology, ports: PL.Lists, ext: Arrivals, e: Voq, cap: nat, rg: Ranges, t: int) {
    && e in ext && 0 <= t < |ext[e]| && SmallOffer(ext[e][t], PktTypes(n), cap, rg)
    && e in ports && forall k :: k in ext[e][t] ==> IsType(n, k) && k in ports[e]
  }

  ghost predicate HostsSend(x: Lst, ext: seq<Arrivals>, cap: nat, rg: Ranges, steps: nat)
    requires |x.lists| == x.top.leafs <= |ext|
  {
    forall a, e, t :: 0 <= a < x.top.leafs && e in x.leafList && e.0 < x.top.hosts && 0 <= t < steps ==>
      HostOffers(x.top, x.lists[a], ext[a], e, cap, rg, t)
  }

  lemma OffersAreHosts(x: Lst, ext: seq<Arrivals>, steps: nat)
    requires IsBuilt(x) && Offers(x, ext, steps)
    ensures Hosts(NetOf(x), ext, steps)
  {
    forall a, e | 0 <= a < |ext| && e in VoqsAt(x, a)
      ensures e in ext[a] && steps <= |ext[a][e]|
    {
      assert OffersFor(VoqsAt(x, a), ext[a], steps);
    }
  }

  lemma HostOfferMeans(n: Topology, ports: PL.Lists, ext: Arrivals, e: Voq, cap: nat, rg: Ranges, t: nat)
    ensures HostOffers(n, ports, ext, e, cap, rg, t)
            <==> OfferCarried(ext, Carried(ports, AllTypes(n)), e, t) && OfferSmall(ext, e, PktTypes(n), cap, rg, t)
  {
    if OfferCarried(ext, Carried(ports, AllTypes(n)), e, t) {
      assert forall k :: k in ext[e][t] ==> k in AllTypes(n) && k in ports[e];
    }
  }

  lemma HostOfferMeansAt(x: Lst, ext: seq<Arrivals>, cap: nat, rg: Ranges, a: nat, e: Voq, t: nat)
    requires IsBuilt(x) && |ext| == |NetOf(x).nodes| && a < |ext| && e in NetOf(x).nodes[a]
    ensures Outer(NetOf(x), a, e) <==> a < x.top.leafs && e.0 < x.top.hosts
    ensures a < x.top.leafs ==>
              (HostOffers(x.top, x.lists[a], ext[a], e, cap, rg, t)
               <==> OfferCarried(ext[a], CarryOf(x)[a], e, t) && OfferSmall(ext[a], e, KindsOf(x), cap, rg, t))
  {
    OuterIsHost(x, a, e);
    if a < x.top.leafs {
      HostOfferMeans(x.top, x.lists[a], ext[a], e, cap, rg, t);
    }
  }

  /** What the hosts send is what enters the network by ports without links. */
  lemma SendMeans(x: Lst, ext: seq<Arrivals>, cap: nat, rg: Ranges, steps: nat)
    requires IsBuilt(x) && Offers(x, ext, steps)
    ensures HostsSend(x, ext, cap, rg, steps)
            <==> HostsCarried(NetOf(x), ext, CarryOf(x), steps) && HostsSmall(NetOf(x), ext, KindsOf(x), cap, rg, steps)
  {
    OffersAreHosts(x, ext, steps);
    forall a, e, t | 0 <= a < |ext| && e in NetOf(x).nodes[a] && 0 <= t < steps
      ensures Outer(NetOf(x), a, e) <==> a < x.top.leafs && e.0 < x.top.hosts
      ensures a < x.top.leafs ==>
                (HostOffers(x.top, x.lists[a], ext[a], e, cap, rg, t)
                 <==> OfferCarried(ext[a], CarryOf(x)[a], e, t) && OfferSmall(ext[a], e, KindsOf(x), cap, rg, t))
    {
      HostOfferMeansAt(x, ext, cap, rg, a, e, t);
    }
  }

  // ---------------------------------------------------------------- lists beyond the workload

  /**
    Two leaves with one host each: host 0 may send to host 1 by spine 0, host 1 to host 0 by spine 1.  No
    host may send to host 1 by spine 1, but leaf 1 lists that type for its VOQ from spine 1.
   */
  lemma ListsExceedUses(n: Topology, uses: seq<PL.Use>, ports: PL.Lists)
    requires n == Topology(2, 2, 1) && uses == [PL.Use({1}, {0}), PL.Use({0}, {1})]
    requires |uses| == TotalHosts(n) && ListsOk(n, uses, 1, ports)
    ensures (2, 0) in ports && TypeOf(n, 1, 1, 0) in ports[(2, 0)]
    ensures forall i :: 0 <= i < |uses| ==> !MaySend(uses, i, 1, HostOf(n, 1, 0))
  {
    assert 1 in uses[0].dsts && 1 in uses[1].ecmps;
    assert EcmpUsed(uses, 1) && DstUsed(uses, 1);
    assert IsLeafVoq(n, (2, 0)) && Wanted(n, uses, 1, (2, 0), 1, 1, 0);
  }
}
