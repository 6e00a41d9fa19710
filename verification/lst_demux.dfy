/** The switches that lst.cpp builds read their input ports correctly by demultiplexing. */
module LstDemux {
  import opened CountVectors
  import opened Demux
  import opened LstLists
  import opened LstRouting
  import opened LstTables
  import opened VoqSwitch
  import opened Voqs
  import PL = PortLists

  /** A leaf's lists are good for the leaf's table: every type is listed only where the table sends it. */
  lemma LeafListsGood(n: Topology, w: Network, uses: seq<PL.Use>, leaf: nat, ports: PL.Lists)
    requires NetworkOk(n, w) && |uses| == TotalHosts(n) && leaf < n.leafs && ListsOk(n, uses, leaf, ports)
    ensures PL.GoodLists(w.leafHop[leaf], ports)
  {
    forall e, k | e in ports && k in ports[e]
      ensures 0 <= k < |w.leafHop[leaf]| && w.leafHop[leaf][k] == e.1
    {
      assert LeafTableOk(n, leaf, w.leafHop[leaf]);
      var s, l, h := TypeEncodes(n, k);
      assert Wanted(n, uses, leaf, e, s, l, h);
      assert LeafHopOk(n, leaf, w.leafHop[leaf], s, l, h);
    }
  }

  /** So are a spine's. */
  lemma SpineListsGood(n: Topology, w: Network, spine: nat)
    requires NetworkOk(n, w) && spine < n.spines
    ensures PL.GoodLists(w.spineHop[spine], w.spineVoqs[spine])
  {
    var voqs, table := w.spineVoqs[spine], w.spineHop[spine];
    assert SpineVoqsOk(n, spine, voqs) && SpineTableOk(n, table);
    forall e | e in voqs
      ensures PL.GoodList(table, e, voqs[e])
    {
      assert IsSpineVoq(n, e) && SpineTypes(n, spine, e.1, voqs[e]);
      forall k | k in voqs[e]
        ensures 0 <= k < |table| && table[k] == e.1
      {
        var h :| 0 <= h < n.hosts && voqs[e][h] == k;
        TypeDecodes(n, spine, e.1, h);
        assert SpineHopOk(n, table, spine, e.1, h);
      }
    }
  }

  /** Buffers made from the lists, one per VOQ, each with its counts for step t. */
  ghost predicate MadeFrom(voqs: seq<Voq>, buffs: Buffers, lists: map<Voq, seq<int>>, t: nat) {
    && Distinct(voqs) && (forall e :: e in voqs <==> e in lists)
    && forall e :: e in voqs ==>
         e in buffs && buffs[e].used == lists[e] && t < |buffs[e].counts| && |lists[e]| <= |buffs[e].counts[t]|
  }

  /** Reading input port src by next hop gives, for every type, the sum over the port's VOQs. */
  ghost predicate ReadsPort(voqs: seq<Voq>, buffs: Buffers, k: nat, t: nat, src: int, nextHop: seq<int>) {
    && HasStep(voqs, buffs, k, t) && |nextHop| == k
    && (forall i :: 0 <= i < |Peers(voqs, In, src)| ==> Join(In, src, Peers(voqs, In, src)[i]) in voqs)
    && forall x :: 0 <= x < k ==>
         PortSum(voqs, buffs, k, t, In, src, Peers(voqs, In, src))[x] == DemuxValue(voqs, buffs, k, t, src, nextHop, x)
  }

  lemma GoodListsRead(voqs: seq<Voq>, buffs: Buffers, lists: map<Voq, seq<int>>, t: nat, src: int, nextHop: seq<int>)
    requires MadeFrom(voqs, buffs, lists, t) && PL.GoodLists(nextHop, lists)
    ensures ReadsPort(voqs, buffs, |nextHop|, t, src, nextHop)
  {
    var k := |nextHop|;
    assert UsesNextHop(voqs, buffs, nextHop) && HasStep(voqs, buffs, k, t) by {
      forall e | e in voqs
        ensures e in buffs && PL.GoodList(nextHop, e, buffs[e].used) && GoodTypes(buffs[e].used, k)
      {
        assert PL.GoodList(nextHop, e, lists[e]);
        assert forall j :: 0 <= j < |buffs[e].used| ==> buffs[e].used[j] in lists[e];
      }
    }
    PeersJoin(voqs, In, src);
    forall x | 0 <= x < k
      ensures PortSum(voqs, buffs, k, t, In, src, Peers(voqs, In, src))[x]
              == DemuxValue(voqs, buffs, k, t, src, nextHop, x)
    {
      DemuxEqualsSum(voqs, buffs, k, t, src, nextHop, x);
    }
  }

  /** Every input port of every leaf, with the lists of any workload. */
  lemma LeafReadsPorts(n: Topology, w: Network, uses: seq<PL.Use>, leaf: nat, ports: PL.Lists, voqs: seq<Voq>,
                       buffs: Buffers, t: nat, src: int)
    requires NetworkOk(n, w) && |uses| == TotalHosts(n) && leaf < n.leafs && ListsOk(n, uses, leaf, ports)
    requires MadeFrom(voqs, buffs, ports, t)
    ensures ReadsPort(voqs, buffs, PktTypes(n), t, src, w.leafHop[leaf])
  {
    assert LeafTableOk(n, leaf, w.leafHop[leaf]);
    LeafListsGood(n, w, uses, leaf, ports);
    GoodListsRead(voqs, buffs, ports, t, src, w.leafHop[leaf]);
  }

  /** Every input port of every spine. */
  lemma SpineReadsPorts(n: Topology, w: Network, spine: nat, voqs: seq<Voq>, buffs: Buffers, t: nat, src: int)
    requires NetworkOk(n, w) && spine < n.spines && MadeFrom(voqs, buffs, w.spineVoqs[spine], t)
    ensures ReadsPort(voqs, buffs, PktTypes(n), t, src, w.spineHop[spine])
  {
    assert SpineTableOk(n, w.spineHop[spine]);
    SpineListsGood(n, w, spine);
    GoodListsRead(voqs, buffs, w.spineVoqs[spine], t, src, w.spineHop[spine]);
  }
}
