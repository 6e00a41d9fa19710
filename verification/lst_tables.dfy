/**
  The routing tables of the leaf-spine experiment (lst.cpp), for any number of spines, leaves and
  hosts per leaf.  A packet type encodes a spine and a destination host.
 */
module LstTables {
  import opened Voqs

  /** Topology: every leaf has hosts ports 0 .. hosts-1 and one port per spine behind them. */
  datatype Topology = Topology(spines: nat, leafs: nat, hosts: nat)

  predicate Proper(n: Topology) {
    n.spines > 0 && n.leafs > 0 && n.hosts > 0
  }

  function TotalHosts(n: Topology): nat {
    n.leafs * n.hosts
  }

  function PktTypes(n: Topology): nat {
    n.spines * TotalHosts(n)
  }

  /** The type of a packet for host h of leaf l by way of spine s. */
  function TypeOf(n: Topology, s: nat, l: nat, h: nat): nat {
    s * TotalHosts(n) + (n.hosts * l + h)
  }

  // ---------------------------------------------------------------- decoding a type

  lemma MulMonotone(a: nat, b: nat, c: nat)
    requires a <= b
    ensures a * c <= b * c
  {
  }

  lemma DivModOf(q: nat, r: nat, d: nat)
    requires r < d
    ensures (q * d + r) / d == q && (q * d + r) % d == r
  {
    var x := q * d + r;
    assert x == (x / d) * d + x % d;
    if x / d < q {
      MulMonotone(x / d + 1, q, d);
      assert false;
    }
    if x / d > q {
      MulMonotone(q + 1, x / d, d);
      assert false;
    }
  }

  /** A type determines its spine, its leaf and its host, and is a valid table index. */
  lemma TypeDecodes(n: Topology, s: nat, l: nat, h: nat)
    requires Proper(n) && s < n.spines && l < n.leafs && h < n.hosts
    ensures n.hosts * l + h < TotalHosts(n)
    ensures TypeOf(n, s, l, h) < PktTypes(n)
    ensures TypeOf(n, s, l, h) / TotalHosts(n) == s
    ensures TypeOf(n, s, l, h) % TotalHosts(n) == n.hosts * l + h
    ensures (n.hosts * l + h) / n.hosts == l && (n.hosts * l + h) % n.hosts == h
  {
    MulMonotone(l + 1, n.leafs, n.hosts);
    assert n.hosts * l + h < (l + 1) * n.hosts;
    MulMonotone(s + 1, n.spines, TotalHosts(n));
    DivModOf(s, n.hosts * l + h, TotalHosts(n));
    DivModOf(l, h, n.hosts);
  }

  /** Every index of the tables is such a type. */
  lemma TypeEncodes(n: Topology, k: nat) returns (s: nat, l: nat, h: nat)
    requires Proper(n) && k < PktTypes(n)
    ensures s < n.spines && l < n.leafs && h < n.hosts && k == TypeOf(n, s, l, h)
  {
    var t := TotalHosts(n);
    assert t > 0 by { MulMonotone(1, n.leafs, n.hosts); }
    s := k / t;
    var host := k % t;
    l, h := host / n.hosts, host % n.hosts;
    assert k == s * t + host && host == n.hosts * l + h;
    if s >= n.spines {
      MulMonotone(n.spines, s, t);
      assert false;
    }
    if l >= n.leafs {
      MulMonotone(n.leafs, l, n.hosts);
      assert false;
    }
  }

  // ---------------------------------------------------------------- table builders

  predicate IsLeafVoq(n: Topology, e: Voq) {
    && 0 <= e.0 < n.hosts + n.spines && 0 <= e.1 < n.hosts + n.spines
    && e.0 != e.1 && (e.0 < n.hosts || e.1 < n.hosts)
  }

  /** get_leaf_ports: all pairs of distinct ports with a host port at one end at least. */
  method LeafPorts(n: Topology) returns (ports: set<Voq>)
    ensures forall e :: e in ports <==> IsLeafVoq(n, e)
    ensures forall a, b :: (a, b) in ports <==>
              && 0 <= a < n.hosts + n.spines && 0 <= b < n.hosts + n.spines && a != b && (a < n.hosts || b < n.hosts)
  {
    var totalPorts := n.hosts + n.spines;
    ports := {};
    for hostPort := 0 to n.hosts
      invariant forall e :: e in ports <==> IsLeafVoq(n, e) && (e.0 < hostPort || e.1 < hostPort)
    {
      for i := 0 to totalPorts
        invariant forall e :: e in ports <==>
          && IsLeafVoq(n, e)
          && (e.0 < hostPort || e.1 < hostPort || (e.0 == hostPort && e.1 < i) || (e.1 == hostPort && e.0 < i))
      {
        if hostPort != i {
          ports := ports + {(hostPort, i), (i, hostPort)};
        }
      }
    }
  }

  /** get_port_to_ecmp: the spine behind a leaf port, -1 for a host port. */
  method PortToEcmp(n: Topology) returns (result: seq<int>)
    ensures |result| == n.hosts + n.spines
    ensures forall p :: 0 <= p < |result| ==> result[p] == if p < n.hosts then -1 else p - n.hosts
  {
    result := [];
    for i := 0 to n.hosts
      invariant |result| == i && forall p :: 0 <= p < i ==> result[p] == -1
    {
      result := result + [-1];
    }
    for i := 0 to n.spines
      invariant |result| == n.hosts + i
      invariant forall p :: 0 <= p < |result| ==> result[p] == if p < n.hosts then -1 else p - n.hosts
    {
      result := result + [i];
    }
  }

  /** get_port_index_to_input_index: the host behind a leaf port, -1 for a spine port. */
  method PortToInput(n: Topology, leaf: nat) returns (result: seq<int>)
    ensures |result| == n.hosts + n.spines
    ensures forall p :: 0 <= p < |result| ==> result[p] == if p < n.hosts then n.hosts * leaf + p else -1
  {
    result := [];
    for i := 0 to n.hosts
      invariant |result| == i && forall p :: 0 <= p < i ==> result[p] == n.hosts * leaf + p
    {
      var hostIndex := n.hosts * leaf + i;
      result := result + [hostIndex];
    }
    for i := 0 to n.spines
      invariant |result| == n.hosts + i
      invariant forall p :: 0 <= p < |result| ==> result[p] == if p < n.hosts then n.hosts * leaf + p else -1
    {
      result := result + [-1];
    }
  }

  /** The table of a leaf says: own hosts by their port, everything else to the port of the type's spine. */
  ghost predicate LeafHopOk(n: Topology, leaf: nat, table: seq<int>, s: nat, l: nat, h: nat)
    requires Proper(n) && s < n.spines && l < n.leafs && h < n.hosts && |table| == PktTypes(n)
  {
    TypeDecodes(n, s, l, h);
    table[TypeOf(n, s, l, h)] == if l == leaf then h else n.hosts + s
  }

  function LeafHop(hosts: nat, totalHosts: nat, leaf: nat, k: nat): int
    requires totalHosts > 0 && hosts > 0
  {
    var hostIndex := k % totalHosts;
    if leaf * hosts <= hostIndex < (leaf + 1) * hosts then hostIndex % hosts else hosts + k / totalHosts
  }

  /** The body of the loop. */
  method HopOf(hosts: nat, totalHosts: nat, leaf: nat, i: nat) returns (hop: int)
    requires totalHosts > 0 && hosts > 0
    ensures hop == LeafHop(hosts, totalHosts, leaf, i)
  {
    var hostIndex := i % totalHosts;
    var hostIsInLeaf := hostIndex >= leaf * hosts && hostIndex < (leaf + 1) * hosts;
    if hostIsInLeaf {
      hop := hostIndex % hosts;
    } else {
      hop := hosts + i / totalHosts;
    }
  }

  /** The host range test of the table picks exactly the hosts of the leaf. */
  lemma InLeaf(hosts: nat, leaf: nat, l: nat, h: nat)
    requires h < hosts
    ensures leaf * hosts <= hosts * l + h < (leaf + 1) * hosts <==> l == leaf
  {
    if l < leaf {
      MulMonotone(l + 1, leaf, hosts);
      assert (l + 1) * hosts == hosts * l + hosts;
    }
    if l > leaf {
      MulMonotone(leaf + 1, l, hosts);
    }
  }

  lemma LeafHopDecoded(n: Topology, leaf: nat, s: nat, l: nat, h: nat)
    requires Proper(n) && s < n.spines && l < n.leafs && h < n.hosts
    ensures TotalHosts(n) > 0
    ensures LeafHop(n.hosts, TotalHosts(n), leaf, TypeOf(n, s, l, h)) == if l == leaf then h else n.hosts + s
  {
    TypeDecodes(n, s, l, h);
    InLeaf(n.hosts, leaf, l, h);
  }

  lemma LeafTableDecodes(n: Topology, leaf: nat, table: seq<int>, s: nat, l: nat, h: nat)
    requires Proper(n) && s < n.spines && l < n.leafs && h < n.hosts && TotalHosts(n) > 0 && |table| == PktTypes(n)
    requires forall k :: 0 <= k < |table| ==> table[k] == LeafHop(n.hosts, TotalHosts(n), leaf, k)
    ensures LeafHopOk(n, leaf, table, s, l, h)
  {
    TypeDecodes(n, s, l, h);
    LeafHopDecoded(n, leaf, s, l, h);
  }

  /** get_pkt_type_to_next_hop_port */
  method LeafNextHop(n: Topology, leaf: nat) returns (result: seq<int>)
    requires Proper(n)
    ensures |result| == PktTypes(n)
    ensures forall s, l, h :: 0 <= s < n.spines && 0 <= l < n.leafs && 0 <= h < n.hosts ==>
              LeafHopOk(n, leaf, result, s, l, h)
  {
    var totalHosts := n.leafs * n.hosts;
    var pktTypes := n.spines * totalHosts;
    MulMonotone(1, n.leafs, n.hosts);
    result := [];
    for i := 0 to pktTypes
      invariant |result| == i
      invariant forall k :: 0 <= k < i ==> result[k] == LeafHop(n.hosts, totalHosts, leaf, k)
    {
      var hop := HopOf(n.hosts, totalHosts, leaf, i);
      result := result + [hop];
    }
    forall s, l, h | 0 <= s < n.spines && 0 <= l < n.leafs && 0 <= h < n.hosts
      ensures LeafHopOk(n, leaf, result, s, l, h)
    {
      LeafTableDecodes(n, leaf, result, s, l, h);
    }
  }

  ghost predicate SpineHopOk(n: Topology, table: seq<int>, s: nat, l: nat, h: nat)
    requires Proper(n) && s < n.spines && l < n.leafs && h < n.hosts && |table| == PktTypes(n)
  {
    TypeDecodes(n, s, l, h);
    table[TypeOf(n, s, l, h)] == l
  }

  /** get_pkt_type_to_next_hop_port_spine: the port of the destination's leaf, whichever spine it is. */
  method SpineNextHop(n: Topology) returns (result: seq<int>)
    requires Proper(n)
    ensures |result| == PktTypes(n)
    ensures forall s, l, h :: 0 <= s < n.spines && 0 <= l < n.leafs && 0 <= h < n.hosts ==>
              SpineHopOk(n, result, s, l, h)
  {
    var totalHosts := n.leafs * n.hosts;
    var pktTypes := n.spines * totalHosts;
    MulMonotone(1, n.leafs, n.hosts);
    result := [];
    for i := 0 to pktTypes
      invariant |result| == i
      invariant forall k :: 0 <= k < i ==> result[k] == (k % totalHosts) / n.hosts
    {
      var hostIndex := i % totalHosts;
      var leafIndex := hostIndex / n.hosts;
      result := result + [leafIndex];
    }
    forall s, l, h | 0 <= s < n.spines && 0 <= l < n.leafs && 0 <= h < n.hosts
      ensures SpineHopOk(n, result, s, l, h)
    {
      TypeDecodes(n, s, l, h);
    }
  }

  /** get_pkt_type_to_dst_index and get_pkt_type_to_spine_index */
  method DstAndSpine(n: Topology) returns (dst: map<int, int>, spine: map<int, int>)
    requires Proper(n)
    ensures forall k :: k in dst <==> 0 <= k < PktTypes(n)
    ensures forall k :: k in spine <==> 0 <= k < PktTypes(n)
    ensures forall s, l, h :: 0 <= s < n.spines && 0 <= l < n.leafs && 0 <= h < n.hosts ==>
              TypeOf(n, s, l, h) in dst && TypeOf(n, s, l, h) in spine
              && dst[TypeOf(n, s, l, h)] == n.hosts * l + h && spine[TypeOf(n, s, l, h)] == s
  {
    var totalHosts := n.leafs * n.hosts;
    var pktTypes := n.spines * totalHosts;
    MulMonotone(1, n.leafs, n.hosts);
    dst, spine := map[], map[];
    for i := 0 to pktTypes
      invariant forall k :: k in dst <==> 0 <= k < i
      invariant forall k :: k in spine <==> 0 <= k < i
      invariant forall k :: 0 <= k < i ==> dst[k] == k % totalHosts && spine[k] == k / totalHosts
    {
      dst := dst[i := i % totalHosts];
      spine := spine[i := i / totalHosts];
    }
    forall s, l, h | 0 <= s < n.spines && 0 <= l < n.leafs && 0 <= h < n.hosts
      ensures TypeOf(n, s, l, h) in dst && TypeOf(n, s, l, h) in spine
      ensures dst[TypeOf(n, s, l, h)] == n.hosts * l + h && spine[TypeOf(n, s, l, h)] == s
    {
      TypeDecodes(n, s, l, h);
    }
  }

  predicate IsSpineVoq(n: Topology, e: Voq) {
    0 <= e.0 < n.leafs && 0 <= e.1 < n.leafs && e.0 != e.1
  }

  /** The list is the types with this spine and next hop, by host. */
  ghost predicate SpineTypes(n: Topology, spine: nat, leaf: int, types: seq<int>) {
    leaf >= 0 && |types| == n.hosts && forall h :: 0 <= h < n.hosts ==> types[h] == TypeOf(n, spine, leaf, h)
  }

  /** get_spine_port_map: for every pair of leaves the types that the spine carries between them. */
  method SpinePorts(n: Topology, spine: nat) returns (result: map<Voq, seq<int>>)
    ensures forall e :: e in result <==> IsSpineVoq(n, e)
    ensures forall e :: e in result ==> SpineTypes(n, spine, e.1, result[e])
    ensures forall a, b :: (a, b) in result <==> 0 <= a < n.leafs && 0 <= b < n.leafs && a != b
    ensures forall a, b, h :: (a, b) in result && 0 <= h < n.hosts ==>
              |result[(a, b)]| == n.hosts && result[(a, b)][h] == TypeOf(n, spine, b, h)
  {
    var totalHosts := n.hosts * n.leafs;
    result := map[];
    for i := 0 to n.leafs
      invariant forall e :: e in result <==> IsSpineVoq(n, e) && e.0 < i
      invariant forall e :: e in result ==> SpineTypes(n, spine, e.1, result[e])
    {
      for j := 0 to n.leafs
        invariant forall e :: e in result <==> IsSpineVoq(n, e) && (e.0 < i || (e.0 == i && e.1 < j))
        invariant forall e :: e in result ==> SpineTypes(n, spine, e.1, result[e])
      {
        if i != j {
          var types: seq<int> := [];
          for k := 0 to n.hosts
            invariant |types| == k && forall x :: 0 <= x < k ==> types[x] == TypeOf(n, spine, j, x)
          {
            var hostIndex := n.hosts * j + k;
            var hostPktType := spine * totalHosts + hostIndex;
            types := types + [hostPktType];
          }
          result := result[(i, j) := types];
        }
      }
    }
  }
}
