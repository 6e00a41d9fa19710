/**
  The packet types that the leaf-spine experiment (lst.cpp, check_wl) gives to every VOQ, against the
  routes that its tables define.  A host's VOQ carries exactly the types that the host may send that way;
  a VOQ from a spine port carries every pair of a used destination and a used spine, even one that no
  single host uses.
 */
module LstLists {
  import opened LstTables
  import opened LstRouting
  import opened Voqs
  import PL = PortLists

  function HostOf(n: Topology, l: nat, h: nat): int {
    n.hosts * l + h
  }

  /** The output port that a leaf uses for the type (s, l, h). */
  function OutputOf(n: Topology, leaf: nat, s: nat, l: nat, h: nat): int {
    if l == leaf then h else n.hosts + s
  }

  /** The spines and destinations that one host may use in the workload. */
  ghost predicate UseIn(n: Topology, u: PL.Use) {
    && (forall x :: x in u.ecmps ==> 0 <= x < n.spines)
    && (forall x :: x in u.dsts ==> 0 <= x < TotalHosts(n))
  }

  ghost predicate UsesIn(n: Topology, uses: seq<PL.Use>) {
    |uses| == TotalHosts(n) && forall i :: 0 <= i < |uses| ==> UseIn(n, uses[i])
  }

  ghost predicate DstUsed(uses: seq<PL.Use>, x: int) {
    exists i :: 0 <= i < |uses| && x in uses[i].dsts
  }

  ghost predicate EcmpUsed(uses: seq<PL.Use>, x: int) {
    exists i :: 0 <= i < |uses| && x in uses[i].ecmps
  }

  /** get_used_vals for both kinds of value, and get_zero_inputs. */
  method UsedVals(uses: seq<PL.Use>) returns (dsts: set<int>, ecmps: set<int>, zero: set<int>)
    ensures forall x :: x in dsts <==> DstUsed(uses, x)
    ensures forall x :: x in ecmps <==> EcmpUsed(uses, x)
    ensures forall i :: i in zero <==> 0 <= i < |uses| && uses[i].dsts == {}
  {
    dsts, ecmps, zero := {}, {}, {};
    for i := 0 to |uses|
      invariant forall x :: x in dsts <==> exists k :: 0 <= k < i && x in uses[k].dsts
      invariant forall x :: x in ecmps <==> exists k :: 0 <= k < i && x in uses[k].ecmps
      invariant forall k :: k in zero <==> 0 <= k < i && uses[k].dsts == {}
    {
      dsts := dsts + uses[i].dsts;
      ecmps := ecmps + uses[i].ecmps;
      if uses[i].dsts == {} {
        zero := zero + {i};
      }
    }
  }

  // ---------------------------------------------------------------- the tables of one leaf

  ghost predicate DecodesAt(n: Topology, tb: PL.Tables, s: nat, l: nat, h: nat)
    requires Proper(n)
  {
    var k := TypeOf(n, s, l, h);
    k in tb.dst && k in tb.ecmp && tb.dst[k] == HostOf(n, l, h) && tb.ecmp[k] == s
  }

  ghost predicate PortTables(n: Topology, leaf: nat, tb: PL.Tables) {
    && |tb.portToEcmp| == |tb.portToInput| == n.hosts + n.spines
    && (forall p :: 0 <= p < |tb.portToEcmp| ==> tb.portToEcmp[p] == if p < n.hosts then -1 else p - n.hosts)
    && (forall p :: 0 <= p < |tb.portToInput| ==> tb.portToInput[p] == if p < n.hosts then n.hosts * leaf + p else -1)
  }

  ghost predicate TablesOf(n: Topology, leaf: nat, tb: PL.Tables) {
    && Proper(n) && LeafTableOk(n, leaf, tb.nextHop) && PortTables(n, leaf, tb)
    && (forall k :: 0 <= k < PktTypes(n) ==> k in tb.dst && k in tb.ecmp)
    && forall s, l, h :: 0 <= s < n.spines && 0 <= l < n.leafs && 0 <= h < n.hosts ==> DecodesAt(n, tb, s, l, h)
  }

  /** fix: a VOQ from a spine port gets the used types that come by this spine and leave by its output. */
  lemma FixMeans(n: Topology, leaf: nat, tb: PL.Tables, dsts: set<int>, ecmps: set<int>, zero: set<int>, e: Voq,
                 s: nat, l: nat, h: nat)
    requires TablesOf(n, leaf, tb) && IsLeafVoq(n, e) && -1 !in zero
    requires s < n.spines && l < n.leafs && h < n.hosts
    ensures TypeOf(n, s, l, h) < |tb.nextHop| && TypeOf(n, s, l, h) in tb.dst && TypeOf(n, s, l, h) in tb.ecmp
    ensures PL.FixAdds(tb, dsts, ecmps, zero, n.hosts, e, TypeOf(n, s, l, h))
            <==> && e.0 == n.hosts + s && e.1 == OutputOf(n, leaf, s, l, h)
                 && s in ecmps && HostOf(n, l, h) in dsts
  {
    TypeDecodes(n, s, l, h);
    assert DecodesAt(n, tb, s, l, h) && LeafHopOk(n, leaf, tb.nextHop, s, l, h);
  }

  lemma SameType(n: Topology, s: nat, d: nat, s': nat, d': nat)
    requires Proper(n) && d < TotalHosts(n) && d' < TotalHosts(n)
    requires PL.TypeNumber(TotalHosts(n), s, d) == PL.TypeNumber(TotalHosts(n), s', d')
    ensures s == s' && d == d'
  {
    DivModOf(s, d, TotalHosts(n));
    DivModOf(s', d', TotalHosts(n));
  }

  /** update_ports: a VOQ from a host port gets the types that this host may send and that leave by its output. */
  lemma UpdateMeans(n: Topology, leaf: nat, tb: PL.Tables, use: PL.Use, e: Voq, s: nat, l: nat, h: nat)
    requires TablesOf(n, leaf, tb) && IsLeafVoq(n, e) && UseIn(n, use)
    requires s < n.spines && l < n.leafs && h < n.hosts
    ensures PL.UpdateAdds(tb, use, TotalHosts(n), e, TypeOf(n, s, l, h))
            <==> e.1 == OutputOf(n, leaf, s, l, h) && s in use.ecmps && HostOf(n, l, h) in use.dsts
  {
    var k := TypeOf(n, s, l, h);
    TypeDecodes(n, s, l, h);
    assert LeafHopOk(n, leaf, tb.nextHop, s, l, h);
    assert k == PL.TypeNumber(TotalHosts(n), s, HostOf(n, l, h));
    if PL.UpdateAdds(tb, use, TotalHosts(n), e, k) {
      var ecmp, dst :| ecmp in use.ecmps && dst in use.dsts && PL.AddsPair(tb, TotalHosts(n), e, ecmp, dst, k);
      SameType(n, ecmp, dst, s, HostOf(n, l, h));
    } else if e.1 == OutputOf(n, leaf, s, l, h) && s in use.ecmps && HostOf(n, l, h) in use.dsts {
      assert PL.AddsPair(tb, TotalHosts(n), e, s, HostOf(n, l, h), k);
    }
  }

  // ---------------------------------------------------------------- all lists of a leaf

  ghost predicate MaySend(uses: seq<PL.Use>, i: int, s: int, d: int)
    requires 0 <= i < |uses|
  {
    s in uses[i].ecmps && d in uses[i].dsts
  }

  /** The type (s, l, h) is wanted at VOQ e of the leaf. */
  ghost predicate Wanted(n: Topology, uses: seq<PL.Use>, leaf: nat, e: Voq, s: nat, l: nat, h: nat)
    requires |uses| == TotalHosts(n)
  {
    && e.1 == OutputOf(n, leaf, s, l, h)
    && if 0 <= e.0 < n.hosts && 0 <= HostOf(n, leaf, e.0) < TotalHosts(n) then
         MaySend(uses, HostOf(n, leaf, e.0), s, HostOf(n, l, h))
       else
         e.0 == n.hosts + s && EcmpUsed(uses, s) && DstUsed(uses, HostOf(n, l, h))
  }

  /** A leaf's lists: every VOQ has one, with valid types, each once and exactly those wanted there. */
  ghost predicate ListsOk(n: Topology, uses: seq<PL.Use>, leaf: nat, ports: PL.Lists)
    requires |uses| == TotalHosts(n)
  {
    && (forall e :: e in ports <==> IsLeafVoq(n, e))
    && (forall e :: e in ports ==> Distinct(ports[e]))
    && (forall e, k :: e in ports && k in ports[e] ==> 0 <= k < PktTypes(n))
    && forall e, s, l, h :: e in ports && 0 <= s < n.spines && 0 <= l < n.leafs && 0 <= h < n.hosts ==>
         (TypeOf(n, s, l, h) in ports[e] <==> Wanted(n, uses, leaf, e, s, l, h))
  }

  /** The vals_per_input of a leaf: the workload of its own hosts. */
  method HostUses(n: Topology, uses: seq<PL.Use>, leaf: nat) returns (vals: seq<PL.Use>)
    requires Proper(n) && |uses| == TotalHosts(n) && leaf < n.leafs
    ensures |vals| == n.hosts
    ensures forall j :: 0 <= j < n.hosts ==> HostOf(n, leaf, j) < |uses| && vals[j] == uses[HostOf(n, leaf, j)]
  {
    vals := [];
    MulMonotone(leaf + 1, n.leafs, n.hosts);
    assert (leaf + 1) * n.hosts == leaf * n.hosts + n.hosts;
    for j := 0 to n.hosts
      invariant |vals| == j
      invariant forall x :: 0 <= x < j ==> HostOf(n, leaf, x) < |uses| && vals[x] == uses[HostOf(n, leaf, x)]
    {
      var hostIndex := leaf * n.hosts + j;
      vals := vals + [uses[hostIndex]];
    }
  }

  method BuildTables(n: Topology, leaf: nat) returns (tb: PL.Tables)
    requires Proper(n)
    ensures TablesOf(n, leaf, tb)
  {
    var dst, ecmp := DstAndSpine(n);
    var portToEcmp := PortToEcmp(n);
    var nextHop := LeafNextHop(n, leaf);
    var portToInput := PortToInput(n, leaf);
    tb := PL.Tables(nextHop, dst, ecmp, portToEcmp, portToInput);
    forall s, l, h | 0 <= s < n.spines && 0 <= l < n.leafs && 0 <= h < n.hosts
      ensures DecodesAt(n, tb, s, l, h)
    {
    }
  }

  lemma NumberInRange(n: Topology, s: nat, d: nat)
    requires s < n.spines && d < TotalHosts(n)
    ensures 0 <= PL.TypeNumber(TotalHosts(n), s, d) < PktTypes(n)
  {
    MulMonotone(s + 1, n.spines, TotalHosts(n));
    assert (s + 1) * TotalHosts(n) == s * TotalHosts(n) + TotalHosts(n);
  }

  lemma UseFitsTables(n: Topology, leaf: nat, tb: PL.Tables, use: PL.Use)
    requires TablesOf(n, leaf, tb) && UseIn(n, use)
    ensures PL.UseFits(tb, use, TotalHosts(n))
  {
    forall ecmp, dst | ecmp in use.ecmps && dst in use.dsts
      ensures 0 <= PL.TypeNumber(TotalHosts(n), ecmp, dst) < |tb.nextHop|
    {
      NumberInRange(n, ecmp, dst);
    }
  }

  /** What fix and update_ports leave in the lists is what is wanted. */
  lemma ListedIsWanted(n: Topology, uses: seq<PL.Use>, leaf: nat, tb: PL.Tables, vals: seq<PL.Use>, dsts: set<int>,
                       ecmps: set<int>, zero: set<int>, e: Voq, s: nat, l: nat, h: nat)
    requires TablesOf(n, leaf, tb) && UsesIn(n, uses) && leaf < n.leafs && IsLeafVoq(n, e) && -1 !in zero
    requires s < n.spines && l < n.leafs && h < n.hosts
    requires (forall x :: x in dsts <==> DstUsed(uses, x)) && forall x :: x in ecmps <==> EcmpUsed(uses, x)
    requires |vals| == n.hosts
    requires forall j :: 0 <= j < n.hosts ==> HostOf(n, leaf, j) < |uses| && vals[j] == uses[HostOf(n, leaf, j)]
    ensures TypeOf(n, s, l, h) < |tb.nextHop| && TypeOf(n, s, l, h) in tb.dst && TypeOf(n, s, l, h) in tb.ecmp
    ensures (PL.FixAdds(tb, dsts, ecmps, zero, n.hosts, e, TypeOf(n, s, l, h))
             || (tb.portToInput[e.0] != -1
                 && PL.UpdateAdds(tb, vals[tb.portToInput[e.0] % |vals|], TotalHosts(n), e, TypeOf(n, s, l, h))))
            <==> Wanted(n, uses, leaf, e, s, l, h)
  {
    FixMeans(n, leaf, tb, dsts, ecmps, zero, e, s, l, h);
    if e.0 < n.hosts {
      DivModOf(leaf, e.0, n.hosts);
      assert tb.portToInput[e.0] == leaf * n.hosts + e.0;
      assert UseIn(n, uses[HostOf(n, leaf, e.0)]);
      UpdateMeans(n, leaf, tb, vals[e.0], e, s, l, h);
    }
  }

  /** The lists of one leaf. */
  method LeafListsOf(n: Topology, uses: seq<PL.Use>, leaf: nat, dsts: set<int>, ecmps: set<int>, zero: set<int>)
    returns (ports: PL.Lists)
    requires Proper(n) && UsesIn(n, uses) && leaf < n.leafs && -1 !in zero
    requires (forall x :: x in dsts <==> DstUsed(uses, x)) && forall x :: x in ecmps <==> EcmpUsed(uses, x)
    ensures ListsOk(n, uses, leaf, ports)
  {
    var voqs := LeafPorts(n);
    var tb := BuildTables(n, leaf);
    var vals := HostUses(n, uses, leaf);
    forall i | 0 <= i < |vals|
      ensures PL.UseFits(tb, vals[i], TotalHosts(n))
    {
      assert UseIn(n, uses[HostOf(n, leaf, i)]);
      UseFitsTables(n, leaf, tb, vals[i]);
    }
    ports := PL.LeafLists(voqs, tb, dsts, ecmps, zero, n.hosts, vals, TotalHosts(n));
    forall e, s, l, h | e in ports && 0 <= s < n.spines && 0 <= l < n.leafs && 0 <= h < n.hosts
      ensures TypeOf(n, s, l, h) in ports[e] <==> Wanted(n, uses, leaf, e, s, l, h)
    {
      ListedIsWanted(n, uses, leaf, tb, vals, dsts, ecmps, zero, e, s, l, h);
    }
  }

  /** lst.cpp:185-209 in check_wl: the lists of all leaves for a workload. */
  method BuildLists(n: Topology, uses: seq<PL.Use>) returns (lists: seq<PL.Lists>)
    requires Proper(n) && UsesIn(n, uses)
    ensures |lists| == n.leafs && forall i :: 0 <= i < n.leafs ==> ListsOk(n, uses, i, lists[i])
  {
    var dsts, ecmps, zero := UsedVals(uses);
    lists := [];
    for i := 0 to n.leafs
      invariant |lists| == i && forall x :: 0 <= x < i ==> ListsOk(n, uses, x, lists[x])
    {
      var ports := LeafListsOf(n, uses, i, dsts, ecmps, zero);
      lists := lists + [ports];
    }
  }

  // ---------------------------------------------------------------- lists and routes

  ghost predicate Listed(ports: map<Voq, seq<int>>, e: Voq, k: int) {
    e in ports && k in ports[e]
  }

  lemma HostInRange(n: Topology, l: nat, h: nat)
    requires l < n.leafs && h < n.hosts
    ensures 0 <= HostOf(n, l, h) < TotalHosts(n)
  {
    MulMonotone(l + 1, n.leafs, n.hosts);
    assert (l + 1) * n.hosts == l * n.hosts + n.hosts;
  }

  /**
    No packet meets a VOQ that cannot hold it: every VOQ on the route of a type that host (sl, sh) may
    send lists that type.
   */
  lemma RouteIsListed(n: Topology, w: Network, uses: seq<PL.Use>, lists: seq<PL.Lists>, s: nat, l: nat, h: nat,
                      sl: nat, sh: nat)
    requires NetworkOk(n, w) && UsesIn(n, uses) && s < n.spines && l < n.leafs && h < n.hosts
    requires |lists| == n.leafs && forall i :: 0 <= i < n.leafs ==> ListsOk(n, uses, i, lists[i])
    requires sl < n.leafs && sh < n.hosts && (l != sl || h != sh)
    requires 0 <= HostOf(n, sl, sh) < |uses| && MaySend(uses, HostOf(n, sl, sh), s, HostOf(n, l, h))
    ensures l == sl ==> Listed(lists[sl], (sh, h), TypeOf(n, s, l, h))
    ensures l != sl ==> && Listed(lists[sl], (sh, n.hosts + s), TypeOf(n, s, l, h))
                        && Listed(w.spineVoqs[s], (sl, l), TypeOf(n, s, l, h))
                        && Listed(lists[l], (n.hosts + s, h), TypeOf(n, s, l, h))
  {
    var k := TypeOf(n, s, l, h);
    assert ListsOk(n, uses, sl, lists[sl]) && ListsOk(n, uses, l, lists[l]);
    assert Wanted(n, uses, sl, (sh, OutputOf(n, sl, s, l, h)), s, l, h);
    if l != sl {
      assert DstUsed(uses, HostOf(n, l, h)) && EcmpUsed(uses, s);
      assert Wanted(n, uses, l, (n.hosts + s, h), s, l, h);
      assert SpineVoqsOk(n, s, w.spineVoqs[s]);
      SpineListExact(n, w, s, (sl, l), s, l, h);
    }
  }

  /** And nothing else: a host's VOQ lists a type only if the host may send it and the table routes it there. */
  lemma HostListIsMinimal(n: Topology, w: Network, uses: seq<PL.Use>, leaf: nat, ports: PL.Lists, e: Voq, k: nat)
    returns (s: nat, l: nat, h: nat)
    requires NetworkOk(n, w) && UsesIn(n, uses) && leaf < n.leafs && ListsOk(n, uses, leaf, ports)
    requires Listed(ports, e, k) && 0 <= e.0 < n.hosts && k < PktTypes(n)
    ensures 0 <= HostOf(n, leaf, e.0) < |uses| && |w.leafHop[leaf]| == PktTypes(n)
    ensures s < n.spines && l < n.leafs && h < n.hosts && k == TypeOf(n, s, l, h)
    ensures MaySend(uses, HostOf(n, leaf, e.0), s, HostOf(n, l, h)) && w.leafHop[leaf][k] == e.1
  {
    s, l, h := TypeEncodes(n, k);
    HostInRange(n, leaf, e.0);
    assert Wanted(n, uses, leaf, e, s, l, h);
    assert LeafTableOk(n, leaf, w.leafHop[leaf]);
    assert LeafHopOk(n, leaf, w.leafHop[leaf], s, l, h);
  }
}
