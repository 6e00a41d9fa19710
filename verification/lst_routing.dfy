/**
  A packet's way through the leaf-spine network of lst.cpp: next-hop tables, VOQs and links.
 */
module LstRouting {
  import opened LstTables
  import opened Voqs

  /** A port of a switch. */
  datatype Port = LeafPort(leaf: int, port: int) | SpinePort(spine: int, port: int)

  datatype Network = Network(
    leafHop: seq<seq<int>>,
    spineHop: seq<seq<int>>,
    leafVoqs: set<Voq>,
    spineVoqs: seq<map<Voq, seq<int>>>,
    links: map<Port, Port>)

  /** lst.cpp:249-264: the link between leaf i and spine j, in both directions. */
  ghost predicate PairLinked(n: Topology, links: map<Port, Port>, i: nat, j: nat) {
    && LeafPort(i, n.hosts + j) in links && links[LeafPort(i, n.hosts + j)] == SpinePort(j, i)
    && SpinePort(j, i) in links && links[SpinePort(j, i)] == LeafPort(i, n.hosts + j)
  }

  ghost predicate InterSwitch(n: Topology, p: Port) {
    match p
    case LeafPort(leaf, port) => 0 <= leaf < n.leafs && n.hosts <= port < n.hosts + n.spines
    case SpinePort(spine, port) => 0 <= spine < n.spines && 0 <= port < n.leafs
  }

  /** Every leaf is linked to every spine, and nothing else is linked. */
  ghost predicate Linked(n: Topology, links: map<Port, Port>) {
    && (forall i, j :: 0 <= i < n.leafs && 0 <= j < n.spines ==> PairLinked(n, links, i, j))
    && forall p :: p in links ==> InterSwitch(n, p)
  }

  /** The two link_ports calls for one leaf and one spine; the other links stay. */
  function LinkPair(n: Topology, links: map<Port, Port>, i: nat, j: nat): (r: map<Port, Port>)
    ensures PairLinked(n, r, i, j)
    ensures forall a, b :: (a != i || b != j) && PairLinked(n, links, a, b) ==> PairLinked(n, r, a, b)
    ensures forall p :: p in r <==> p in links || p == LeafPort(i, n.hosts + j) || p == SpinePort(j, i)
  {
    links[LeafPort(i, n.hosts + j) := SpinePort(j, i)][SpinePort(j, i) := LeafPort(i, n.hosts + j)]
  }

  method BuildLinks(n: Topology) returns (links: map<Port, Port>)
    ensures Linked(n, links)
  {
    links := map[];
    for i := 0 to n.leafs
      invariant forall a, b :: 0 <= a < i && 0 <= b < n.spines ==> PairLinked(n, links, a, b)
      invariant forall p :: p in links ==> InterSwitch(n, p)
    {
      for j := 0 to n.spines
        invariant forall a, b :: 0 <= a < i && 0 <= b < n.spines ==> PairLinked(n, links, a, b)
        invariant forall b :: 0 <= b < j ==> PairLinked(n, links, i, b)
        invariant forall p :: p in links ==> InterSwitch(n, p)
      {
        links := LinkPair(n, links, i, j);
      }
    }
  }

  ghost predicate LeafTableOk(n: Topology, leaf: nat, table: seq<int>)
    requires Proper(n)
  {
    && |table| == PktTypes(n)
    && forall s, l, h :: 0 <= s < n.spines && 0 <= l < n.leafs && 0 <= h < n.hosts ==>
         LeafHopOk(n, leaf, table, s, l, h)
  }

  ghost predicate SpineTableOk(n: Topology, table: seq<int>)
    requires Proper(n)
  {
    && |table| == PktTypes(n)
    && forall s, l, h :: 0 <= s < n.spines && 0 <= l < n.leafs && 0 <= h < n.hosts ==> SpineHopOk(n, table, s, l, h)
  }

  ghost predicate SpineVoqsOk(n: Topology, spine: nat, voqs: map<Voq, seq<int>>) {
    && (forall e :: e in voqs <==> IsSpineVoq(n, e))
    && forall e :: e in voqs ==> SpineTypes(n, spine, e.1, voqs[e])
  }

  ghost predicate NetworkOk(n: Topology, w: Network) {
    && Proper(n)
    && |w.leafHop| == n.leafs && (forall i :: 0 <= i < n.leafs ==> LeafTableOk(n, i, w.leafHop[i]))
    && |w.spineHop| == n.spines && (forall i :: 0 <= i < n.spines ==> SpineTableOk(n, w.spineHop[i]))
    && (forall e :: e in w.leafVoqs <==> IsLeafVoq(n, e))
    && |w.spineVoqs| == n.spines && (forall i :: 0 <= i < n.spines ==> SpineVoqsOk(n, i, w.spineVoqs[i]))
    && Linked(n, w.links)
  }

  /** The tables and links that check_wl builds. */
  method BuildNetwork(n: Topology) returns (w: Network)
    requires Proper(n)
    ensures NetworkOk(n, w)
  {
    var leafHop: seq<seq<int>> := [];
    for i := 0 to n.leafs
      invariant |leafHop| == i && forall x :: 0 <= x < i ==> LeafTableOk(n, x, leafHop[x])
    {
      var table := LeafNextHop(n, i);
      leafHop := leafHop + [table];
    }
    var spineHop: seq<seq<int>> := [];
    var spineVoqs: seq<map<Voq, seq<int>>> := [];
    for i := 0 to n.spines
      invariant |spineHop| == |spineVoqs| == i
      invariant forall x :: 0 <= x < i ==> SpineTableOk(n, spineHop[x]) && SpineVoqsOk(n, x, spineVoqs[x])
    {
      var voqs := SpinePorts(n, i);
      var table := SpineNextHop(n);
      spineHop := spineHop + [table];
      spineVoqs := spineVoqs + [voqs];
    }
    var leafVoqs := LeafPorts(n);
    var links := BuildLinks(n);
    w := Network(leafHop, spineHop, leafVoqs, spineVoqs, links);
  }

  // ---------------------------------------------------------------- moving a packet

  datatype Place = Entering(at: Port) | Delivered(leaf: int, host: int) | Stuck

  /** One switch: look up the next hop, use the VOQ to it, and cross the link behind it. */
  ghost function Hop(n: Topology, w: Network, k: nat, x: Place): Place
    requires NetworkOk(n, w) && k < PktTypes(n)
  {
    match x
    case Entering(LeafPort(leaf, port)) =>
      if !(0 <= leaf < n.leafs) then Stuck else
        assert LeafTableOk(n, leaf, w.leafHop[leaf]);
        var out := w.leafHop[leaf][k];
        if (port, out) !in w.leafVoqs then Stuck
        else if out < n.hosts then Delivered(leaf, out)
        else if LeafPort(leaf, out) in w.links then Entering(w.links[LeafPort(leaf, out)]) else Stuck
    case Entering(SpinePort(spine, port)) =>
      if !(0 <= spine < n.spines) then Stuck else
        assert SpineTableOk(n, w.spineHop[spine]);
        var out := w.spineHop[spine][k];
        if (port, out) !in w.spineVoqs[spine] || k !in w.spineVoqs[spine][(port, out)] then Stuck
        else if SpinePort(spine, out) in w.links then Entering(w.links[SpinePort(spine, out)]) else Stuck
    case Delivered(_, _) => x
    case Stuck => x
  }

  lemma LeafHopAt(n: Topology, w: Network, s: nat, l: nat, h: nat, leaf: nat, port: int)
    requires NetworkOk(n, w) && s < n.spines && l < n.leafs && h < n.hosts && leaf < n.leafs
    requires 0 <= port < n.hosts + n.spines
    ensures TypeOf(n, s, l, h) < PktTypes(n)
    ensures var next := Hop(n, w, TypeOf(n, s, l, h), Entering(LeafPort(leaf, port)));
            if l == leaf then next == (if port == h then Stuck else Delivered(leaf, h))
            else port < n.hosts ==> next == Entering(SpinePort(s, leaf))
  {
    TypeDecodes(n, s, l, h);
    assert LeafTableOk(n, leaf, w.leafHop[leaf]);
    assert LeafHopOk(n, leaf, w.leafHop[leaf], s, l, h);
    assert PairLinked(n, w.links, leaf, s);
  }

  lemma SpineHopAt(n: Topology, w: Network, s: nat, l: nat, h: nat, port: nat)
    requires NetworkOk(n, w) && s < n.spines && l < n.leafs && h < n.hosts && port < n.leafs && port != l
    ensures TypeOf(n, s, l, h) < PktTypes(n)
    ensures Hop(n, w, TypeOf(n, s, l, h), Entering(SpinePort(s, port))) == Entering(LeafPort(l, n.hosts + s))
  {
    TypeDecodes(n, s, l, h);
    var k := TypeOf(n, s, l, h);
    assert SpineTableOk(n, w.spineHop[s]) && SpineVoqsOk(n, s, w.spineVoqs[s]);
    assert SpineHopOk(n, w.spineHop[s], s, l, h);
    assert (port, l) in w.spineVoqs[s];
    assert SpineTypes(n, s, l, w.spineVoqs[s][(port, l)]);
    assert w.spineVoqs[s][(port, l)][h] == k;
    assert PairLinked(n, w.links, l, s);
  }

  /**
    From host (sl, sh) a packet of the type for host (l, h) by spine s reaches that host: in one switch
    within a leaf, else by leaf, spine s and leaf.  It is refused at the first switch exactly when it is
    addressed to its own source.
   */
  lemma Delivers(n: Topology, w: Network, s: nat, l: nat, h: nat, sl: nat, sh: nat)
    requires NetworkOk(n, w) && s < n.spines && l < n.leafs && h < n.hosts && sl < n.leafs && sh < n.hosts
    ensures TypeOf(n, s, l, h) < PktTypes(n)
    ensures var k, start := TypeOf(n, s, l, h), Entering(LeafPort(sl, sh));
            var one := Hop(n, w, k, start);
            var two := Hop(n, w, k, one);
            var three := Hop(n, w, k, two);
            && (l == sl && h == sh <==> one == Stuck)
            && (l == sl && h != sh ==> one == Delivered(l, h))
            && (l != sl ==> one == Entering(SpinePort(s, sl)) && two == Entering(LeafPort(l, n.hosts + s)))
            && (l != sl || h != sh ==> three == Delivered(l, h))
  {
    LeafHopAt(n, w, s, l, h, sl, sh);
    if l != sl {
      SpineHopAt(n, w, s, l, h, sl);
      LeafHopAt(n, w, s, l, h, l, n.hosts + s);
    }
  }

  /** The same for an arbitrary type: each type has one destination, and every other host can reach it. */
  lemma EveryTypeDelivers(n: Topology, w: Network, k: nat) returns (s: nat, l: nat, h: nat)
    requires NetworkOk(n, w) && k < PktTypes(n)
    ensures s < n.spines && l < n.leafs && h < n.hosts && k == TypeOf(n, s, l, h)
    ensures forall sl, sh :: 0 <= sl < n.leafs && 0 <= sh < n.hosts ==>
              var end := Hop(n, w, k, Hop(n, w, k, Hop(n, w, k, Entering(LeafPort(sl, sh)))));
              end == if sl == l && sh == h then Stuck else Delivered(l, h)
  {
    s, l, h := TypeEncodes(n, k);
    forall sl, sh | 0 <= sl < n.leafs && 0 <= sh < n.hosts
      ensures Hop(n, w, k, Hop(n, w, k, Hop(n, w, k, Entering(LeafPort(sl, sh)))))
              == if sl == l && sh == h then Stuck else Delivered(l, h)
    {
      Delivers(n, w, s, l, h, sl, sh);
    }
  }

  /** A spine lists a type at a VOQ exactly when the type names this spine and its next hop is the VOQ's output. */
  lemma SpineListExact(n: Topology, w: Network, spine: nat, e: Voq, s: nat, l: nat, h: nat)
    requires NetworkOk(n, w) && spine < n.spines && e in w.spineVoqs[spine]
    requires s < n.spines && l < n.leafs && h < n.hosts
    ensures TypeOf(n, s, l, h) in w.spineVoqs[spine][e] <==> s == spine && l == e.1
  {
    assert SpineVoqsOk(n, spine, w.spineVoqs[spine]);
    var types := w.spineVoqs[spine][e];
    assert SpineTypes(n, spine, e.1, types);
    TypeDecodes(n, s, l, h);
    assert types[h] == TypeOf(n, spine, e.1, h);
    if TypeOf(n, s, l, h) in types {
      var x :| 0 <= x < |types| && types[x] == TypeOf(n, s, l, h);
      TypeDecodes(n, spine, e.1, x);
    }
  }
}
