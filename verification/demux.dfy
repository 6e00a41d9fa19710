/** Sparse buffers and the demultiplexing switch (src/leaf_spine/leaf_buff.cpp, demux_switch.cpp). */
module Demux {
  import opened CountVectors
  import opened StableMatching
  import opened VoqSwitch
  import opened Voqs
  import opened VoqConstraints
  import PortLists

  /** A VOQ's used types, and its counts per step in the order of that list. */
  datatype Sparse = Sparse(used: seq<int>, counts: seq<Vec>)

  ghost predicate GoodTypes(used: seq<int>, k: nat) {
    Distinct(used) && forall j :: 0 <= j < |used| ==> 0 <= used[j] < k
  }

  /** The position of type x in the list, -1 when it is not used. */
  function LocalIdx(used: seq<int>, x: int): (r: int)
    ensures r == -1 <==> x !in used
    ensures r != -1 ==> 0 <= r < |used| && used[r] == x
  {
    if |used| == 0 then -1
    else if used[|used| - 1] == x then |used| - 1
    else LocalIdx(used[..|used| - 1], x)
  }

  /** get_pkt_type_to_local_vec_idx */
  method LocalIndex(used: seq<int>, k: nat) returns (result: map<int, int>)
    requires GoodTypes(used, k)
    ensures forall x :: x in result <==> 0 <= x < k
    ensures forall x :: 0 <= x < k ==> result[x] == LocalIdx(used, x)
  {
    result := map[];
    for i := 0 to k
      invariant forall x :: x in result <==> 0 <= x < i
      invariant forall x :: 0 <= x < i ==> result[x] == -1
    {
      result := result[i := -1];
    }
    for j := 0 to |used|
      invariant forall x :: x in result <==> 0 <= x < k
      invariant forall x :: 0 <= x < k ==> result[x] == LocalIdx(used[..j], x)
    {
      assert used[..j + 1][..j] == used[..j];
      result := result[used[j] := j];
    }
    assert used[..|used|] == used;
  }

  function Expanded(used: seq<int>, local: Vec, k: nat): (v: Vec)
    requires |used| <= |local|
    ensures |v| == k
  {
    seq(k, x requires 0 <= x < k => if LocalIdx(used, x) == -1 then 0 else local[LocalIdx(used, x)])
  }

  /** getExpandedI, getExpandedO, getExpandedC for one time step. */
  method Expand(used: seq<int>, local: Vec, k: nat) returns (v: Vec)
    requires GoodTypes(used, k) && |used| <= |local|
    ensures v == Expanded(used, local, k)
  {
    var m := LocalIndex(used, k);
    v := [];
    for i := 0 to k
      invariant |v| == i && forall x :: 0 <= x < i ==> v[x] == Expanded(used, local, k)[x]
    {
      if m[i] == -1 {
        v := v + [0];
      } else {
        v := v + [local[m[i]]];
      }
    }
  }

  /** Reading the used types back out of an expanded vector gives the stored counts; unused types are 0. */
  lemma ExpandInvertsProjection(used: seq<int>, local: Vec, k: nat)
    requires GoodTypes(used, k) && |used| <= |local|
    ensures forall j :: 0 <= j < |used| ==> Expanded(used, local, k)[used[j]] == local[j]
    ensures forall x :: 0 <= x < k && x !in used ==> Expanded(used, local, k)[x] == 0
  {
    forall j | 0 <= j < |used|
      ensures LocalIdx(used, used[j]) == j
    {
    }
  }

  lemma {:induction false} SumUpdate(v: Vec, i: nat, x: int)
    requires i < |v|
    ensures Sum(v[i := x]) == Sum(v) - v[i] + x
  {
    var k := |v| - 1;
    if i == k {
      assert v[i := x][..k] == v[..k];
    } else {
      SumUpdate(v[..k], i, x);
      assert v[i := x][..k] == v[..k][i := x];
    }
  }

  lemma ExpandLast(used: seq<int>, local: Vec, k: nat)
    requires GoodTypes(used, k) && |used| == |local| > 0
    ensures var m := |used| - 1;
            && Expanded(used[..m], local[..m], k)[used[m]] == 0
            && Expanded(used, local, k) == Expanded(used[..m], local[..m], k)[used[m] := local[m]]
  {
    var m := |used| - 1;
    assert used[m] !in used[..m];
  }

  /** Expansion keeps the total. */
  lemma {:induction false} ExpandKeepsTotal(used: seq<int>, local: Vec, k: nat)
    requires GoodTypes(used, k) && |used| == |local|
    ensures Sum(Expanded(used, local, k)) == Sum(local)
  {
    if |used| == 0 {
      assert Expanded(used, local, k) == Zero(k);
      SumZero(k);
    } else {
      var m := |used| - 1;
      var front := Expanded(used[..m], local[..m], k);
      ExpandKeepsTotal(used[..m], local[..m], k);
      ExpandLast(used, local, k);
      SumUpdate(front, used[m], local[m]);
    }
  }

  // ---------------------------------------------------------------- one input port

  type Buffers = map<Voq, Sparse>

  /** Every VOQ has a buffer with counts for step t; a VOQ without types holds nothing. */
  ghost predicate HasStep(voqs: seq<Voq>, buffs: Buffers, k: nat, t: nat) {
    forall e :: e in voqs ==>
      e in buffs && GoodTypes(buffs[e].used, k) && t < |buffs[e].counts| && |buffs[e].used| <= |buffs[e].counts[t]|
  }

  function ExpandedAt(buffs: Buffers, e: Voq, k: nat, t: nat): (v: Vec)
    requires e in buffs && t < |buffs[e].counts| && |buffs[e].used| <= |buffs[e].counts[t]|
    ensures |v| == k
  {
    Expanded(buffs[e].used, buffs[e].counts[t], k)
  }

  /** The counts of the VOQs between a port and the given opposite ports, added up. */
  function PortSum(voqs: seq<Voq>, buffs: Buffers, k: nat, t: nat, side: Side, port: int, peers: seq<int>): (v: Vec)
    requires HasStep(voqs, buffs, k, t) && forall i :: 0 <= i < |peers| ==> Join(side, port, peers[i]) in voqs
    ensures |v| == k
  {
    if |peers| == 0 then Zero(k) else
      var m := |peers| - 1;
      Add(PortSum(voqs, buffs, k, t, side, port, peers[..m]), ExpandedAt(buffs, Join(side, port, peers[m]), k, t))
  }

  /** The loop of get_in_port and of get_out_port for one step. */
  method SumPeers(voqs: seq<Voq>, buffs: Buffers, k: nat, t: nat, side: Side, port: int, peers: seq<int>)
    returns (v: Vec)
    requires HasStep(voqs, buffs, k, t) && peers != []
    requires forall i :: 0 <= i < |peers| ==> Join(side, port, peers[i]) in voqs
    ensures v == PortSum(voqs, buffs, k, t, side, port, peers)
  {
    var e := Join(side, port, peers[0]);
    v := Expand(buffs[e].used, buffs[e].counts[t], k);
    AddZero(v);
    assert peers[..1][..0] == [];
    for i := 1 to |peers|
      invariant v == PortSum(voqs, buffs, k, t, side, port, peers[..i])
    {
      e := Join(side, port, peers[i]);
      var more := Expand(buffs[e].used, buffs[e].counts[t], k);
      v := Plus(v, more);
      assert peers[..i + 1][..i] == peers[..i];
    }
    assert peers[..|peers|] == peers;
  }

  lemma PeersJoin(voqs: seq<Voq>, side: Side, port: int)
    ensures forall i :: 0 <= i < |Peers(voqs, side, port)| ==> Join(side, port, Peers(voqs, side, port)[i]) in voqs
  {
    PeersExact(voqs, side, port);
  }

  /** LeafBase::get_in_port for one step: the sum of the expanded inputs over the port's VOQs. */
  method SumInPort(voqs: seq<Voq>, buffs: Buffers, k: nat, t: nat, src: int) returns (v: Vec)
    requires HasStep(voqs, buffs, k, t) && Peers(voqs, In, src) != []
    ensures forall i :: 0 <= i < |Peers(voqs, In, src)| ==> Join(In, src, Peers(voqs, In, src)[i]) in voqs
    ensures v == PortSum(voqs, buffs, k, t, In, src, Peers(voqs, In, src))
  {
    var dsts := GetBuffsForPort(voqs, In, src);
    PeersJoin(voqs, In, src);
    v := SumPeers(voqs, buffs, k, t, In, src, dsts);
  }

  /** LeafBase::get_out_port for one step; a port without VOQs sends nothing. */
  method SumOutPort(voqs: seq<Voq>, buffs: Buffers, k: nat, t: nat, dst: int) returns (v: Vec)
    requires HasStep(voqs, buffs, k, t)
    ensures forall i :: 0 <= i < |Peers(voqs, Out, dst)| ==> Join(Out, dst, Peers(voqs, Out, dst)[i]) in voqs
    ensures v == PortSum(voqs, buffs, k, t, Out, dst, Peers(voqs, Out, dst))
  {
    var srcs := GetBuffsForPort(voqs, Out, dst);
    PeersJoin(voqs, Out, dst);
    if srcs == [] {
      return Zero(k);
    }
    v := SumPeers(voqs, buffs, k, t, Out, dst, srcs);
  }

  function DemuxValue(voqs: seq<Voq>, buffs: Buffers, k: nat, t: nat, src: int, nextHop: seq<int>, x: nat): int
    requires HasStep(voqs, buffs, k, t) && x < k <= |nextHop|
  {
    if (src, nextHop[x]) in voqs then ExpandedAt(buffs, (src, nextHop[x]), k, t)[x] else 0
  }

  /** DemuxSwitch::get_in_port for one step: each type is read from the one VOQ towards its next hop. */
  method DemuxInPort(voqs: seq<Voq>, buffs: Buffers, k: nat, t: nat, src: int, nextHop: seq<int>) returns (vals: Vec)
    requires HasStep(voqs, buffs, k, t) && k <= |nextHop|
    ensures |vals| == k && forall x :: 0 <= x < k ==> vals[x] == DemuxValue(voqs, buffs, k, t, src, nextHop, x)
  {
    vals := [];
    for x := 0 to k
      invariant |vals| == x && forall y :: 0 <= y < x ==> vals[y] == DemuxValue(voqs, buffs, k, t, src, nextHop, y)
    {
      var val := 0;
      var nxtHopDstPort := nextHop[x];
      if (src, nxtHopDstPort) in voqs {
        var e := (src, nxtHopDstPort);
        var expanded := Expand(buffs[e].used, buffs[e].counts[t], k);
        val := expanded[x];
      }
      vals := vals + [val];
    }
  }

  /** Every VOQ uses only types whose next hop is its output. */
  ghost predicate UsesNextHop(voqs: seq<Voq>, buffs: Buffers, nextHop: seq<int>) {
    forall e :: e in voqs ==> e in buffs && PortLists.GoodList(nextHop, e, buffs[e].used)
  }

  /** Only the VOQ towards the next hop contributes to a type. */
  lemma {:induction false} PortSumAt(voqs: seq<Voq>, buffs: Buffers, k: nat, t: nat, src: int, dsts: seq<int>,
                                     nextHop: seq<int>, x: nat)
    requires HasStep(voqs, buffs, k, t) && UsesNextHop(voqs, buffs, nextHop) && x < k == |nextHop|
    requires Distinct(dsts) && forall i :: 0 <= i < |dsts| ==> Join(In, src, dsts[i]) in voqs
    ensures PortSum(voqs, buffs, k, t, In, src, dsts)[x]
            == if nextHop[x] in dsts && (src, nextHop[x]) in voqs then ExpandedAt(buffs, (src, nextHop[x]), k, t)[x]
                 else 0
  {
    if |dsts| == 0 {
    } else {
      var m := |dsts| - 1;
      var last := Join(In, src, dsts[m]);
      PortSumAt(voqs, buffs, k, t, src, dsts[..m], nextHop, x);
      assert dsts == dsts[..m] + [dsts[m]];
      assert dsts[m] !in dsts[..m];
      assert last in voqs;
      assert dsts[m] != nextHop[x] ==> x !in buffs[last].used;
    }
  }

  /** Demultiplexing reads the same input vector as adding up all VOQs of the port. */
  lemma DemuxEqualsSum(voqs: seq<Voq>, buffs: Buffers, k: nat, t: nat, src: int, nextHop: seq<int>, x: nat)
    requires Distinct(voqs) && HasStep(voqs, buffs, k, t) && UsesNextHop(voqs, buffs, nextHop) && x < k == |nextHop|
    ensures forall i :: 0 <= i < |Peers(voqs, In, src)| ==> Join(In, src, Peers(voqs, In, src)[i]) in voqs
    ensures PortSum(voqs, buffs, k, t, In, src, Peers(voqs, In, src))[x]
            == DemuxValue(voqs, buffs, k, t, src, nextHop, x)
  {
    var dsts := Peers(voqs, In, src);
    PeersExact(voqs, In, src);
    PeersJoin(voqs, In, src);
    PortSumAt(voqs, buffs, k, t, src, dsts, nextHop, x);
    assert Join(In, src, nextHop[x]) == (src, nextHop[x]);
  }
}
