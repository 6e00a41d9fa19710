/** Solutions for the leaf-spine network, where every VOQ has variables for all types of its list. */
module LstSolutions {
  import opened CountVectors
  import opened BufferTrace
  import opened FifoQueue
  import opened VoqSwitch
  import opened Voqs
  import opened VoqSystem
  import opened VoqQueues
  import opened LstTables
  import opened LstLists
  import opened LstNetwork
  import opened NetworkQueues
  import opened NetworkCarry
  import opened NetworkPorts
  import opened NetworkSolutions
  import opened NetworkExact
  import LeafBuffer

  /** The type lists of switch a. */
  function ListsAt(x: Lst, a: nat): map<Voq, seq<int>>
    requires IsBuilt(x) && a < |NetOf(x).nodes|
  {
    if a < x.top.leafs then x.lists[a] else x.w.spineVoqs[a - x.top.leafs]
  }

  /** The types that the VOQs have variables for: all that their lists name, at spines in use or not. */
  ghost function ListedOf(x: Lst): (listed: Carry)
    requires IsBuilt(x)
    ensures |listed| == |NetOf(x).nodes|
    ensures forall a :: 0 <= a < |listed| ==> listed[a] == Carried(ListsAt(x, a), AllTypes(x.top))
  {
    seq(|NetOf(x).nodes|, a requires 0 <= a < |NetOf(x).nodes| => Carried(ListsAt(x, a), AllTypes(x.top)))
  }

  /** A solution of the constraints of all leaves, spines and links with what the hosts send. */
  ghost predicate LstSolution(x: Lst, ext: seq<Arrivals>, cap: nat, rg: Ranges, useWin: bool, steps: nat,
                              xss: seq<seq<Snapshot>>, trss: seq<Traces>, wss: seq<AllWindows>)
    requires IsBuilt(x)
  {
    NetSolution(NetOf(x), ext, ListedOf(x), KindsOf(x), cap, rg, useWin, steps, xss, trss, wss)
  }

  // ---------------------------------------------------------------- spines count only types in use

  /** What passes neither in nor out of a VOQ is not in it. */
  lemma {:induction false} NothingInside(tr: Trace, steps: nat, kinds: nat, cap: int, k: nat, t: nat)
    requires LeafBuffer.BufferRun(tr, steps, kinds, cap) && k < kinds && t < steps
    requires forall u :: 0 <= u < steps ==> tr.i[u][k] == 0 && tr.o[u][k] == 0
    ensures ZeroAt(tr, t, k, kinds)
  {
    assert LeafBuffer.StepOk(tr, kinds, cap, t);
    assert tr.i[t][k] == tr.e[t][k] + tr.d[t][k];
    if t == 0 {
      SumOfCounts(tr.c[0]);
    } else {
      NothingInside(tr, steps, kinds, cap, k, t - 1);
    }
  }

  /** A type that a leaf lists is in use. */
  lemma ListedIsUsed(x: Lst, i: nat, e: Voq, k: nat)
    requires IsBuilt(x) && i < x.top.leafs && e in x.lists[i] && k in x.lists[i][e]
    ensures k in UsedTypes(x.top, x.uses)
  {
    assert ListsOk(x.top, x.uses, i, x.lists[i]);
    var s, l, h := TypeEncodes(x.top, k);
    assert Wanted(x.top, x.uses, i, e, s, l, h);
    WantedIsUsed(x.top, x.uses, i, e, k, s, l, h);
  }

  ghost predicate ListedTypes(x: Lst, trs: Traces, cap: nat, rg: Ranges, steps: nat, a: nat)
    requires IsBuilt(x) && a < |NetOf(x).nodes|
  {
    forall e :: e in VoqsAt(x, a) ==> VoqSolved(trs, ListedOf(x)[a], KindsOf(x), cap, rg, steps, e)
  }

  /** So at a leaf no VOQ counts a type that is not in use. */
  lemma UnusedAtLeaf(x: Lst, trs: Traces, cap: nat, rg: Ranges, steps: nat, i: nat, side: Side, port: int, t: nat,
                     k: nat)
    requires IsBuilt(x) && i < x.top.leafs && t < steps && k < KindsOf(x) && k !in UsedTypes(x.top, x.uses)
    requires HasCounts(x.leafList, trs, t, KindsOf(x))
    requires ListedTypes(x, trs, cap, rg, steps, i)
    ensures NoneAt(x.leafList, trs, side, port, t, KindsOf(x), k)
  {
    forall e | e in x.leafList && Own(side, e) == port
      ensures CountsAt(trs[e], side, t)[k] == 0
    {
      assert VoqSolved(trs, ListedOf(x)[i], KindsOf(x), cap, rg, steps, e);
      if k in ListedOf(x)[i][e] {
        ListedIsUsed(x, i, e, k);
      }
      assert ZeroAt(trs[e], t, k, KindsOf(x));
    }
  }

  /** When both ends of a link count alike and nothing passes at one end, nothing passes at the other. */
  lemma NothingBehind(front: seq<Voq>, ftrs: Traces, other: Side, port: int, voqs: seq<Voq>, trs: Traces, side: Side,
                      own: int, t: nat, kinds: nat, k: nat, e: Voq)
    requires HasCounts(front, ftrs, t, kinds) && HasCounts(voqs, trs, t, kinds) && k < kinds
    requires PortCounts(front, ftrs, other, port, t, kinds, |front|)
             == PortCounts(voqs, trs, side, own, t, kinds, |voqs|)
    requires NoneAt(front, ftrs, other, port, t, kinds, k) && NoneNegative(voqs, trs, side, t, kinds)
    requires e in voqs && Own(side, e) == own
    ensures CountsAt(trs[e], side, t)[k] == 0
  {
    NothingAtPort(front, ftrs, other, port, t, kinds, k, |front|);
    NothingPasses(voqs, trs, side, own, t, kinds, k, |voqs|);
    assert voqs[..|voqs|] == voqs;
  }

  lemma SwitchCounts(x: Lst, ext: seq<Arrivals>, cap: nat, rg: Ranges, useWin: bool, steps: nat,
                     xss: seq<seq<Snapshot>>, trss: seq<Traces>, wss: seq<AllWindows>, a: nat, side: Side, t: nat)
    requires IsBuilt(x) && LstSolution(x, ext, cap, rg, useWin, steps, xss, trss, wss) && a < |trss| && t < steps
    ensures Buffers(VoqsAt(x, a), trss[a], steps, KindsOf(x), cap)
    ensures HasCounts(VoqsAt(x, a), trss[a], t, KindsOf(x))
    ensures NoneNegative(VoqsAt(x, a), trss[a], side, t, KindsOf(x))
    ensures ListedTypes(x, trss[a], cap, rg, steps, a)
  {
    assert NodeSolution(NetOf(x).nodes[a], xss[a], trss[a], wss[a], KindsOf(x), cap, steps, useWin);
  }

  lemma LinkOf(x: Lst, ext: seq<Arrivals>, cap: nat, rg: Ranges, useWin: bool, steps: nat, xss: seq<seq<Snapshot>>,
               trss: seq<Traces>, wss: seq<AllWindows>, l: Link, t: nat)
    requires IsBuilt(x) && LstSolution(x, ext, cap, rg, useWin, steps, xss, trss, wss)
    requires IsLink(x.top, l) && t < steps
    ensures LinkHolds(NetOf(x), trss, l, t, KindsOf(x))
  {
    assert l in x.links;
    var y :| 0 <= y < |x.links| && x.links[y] == l;
    assert LinkHolds(NetOf(x), trss, NetOf(x).links[y], t, KindsOf(x));
  }

  function Other(side: Side): Side {
    if side.In? then Out else In
  }

  lemma HoldsMeans(net: Net, trss: seq<Traces>, l: Link, t: nat, kinds: nat, front: seq<Voq>, voqs: seq<Voq>)
    requires LinkHolds(net, trss, l, t, kinds) && net.nodes[l.fromNode] == front && net.nodes[l.toNode] == voqs
    ensures HasCounts(front, trss[l.fromNode], t, kinds) && HasCounts(voqs, trss[l.toNode], t, kinds)
    ensures PortCounts(front, trss[l.fromNode], Out, l.fromPort, t, kinds, |front|)
            == PortCounts(voqs, trss[l.toNode], In, l.toPort, t, kinds, |voqs|)
  {
  }

  /** The leaf i behind port i of spine j. */
  lemma UpAlike(x: Lst, trss: seq<Traces>, i: nat, j: nat, a: nat, t: nat)
    requires IsBuilt(x) && LinkHolds(NetOf(x), trss, Up(x.top, i, j), t, KindsOf(x))
    requires i < x.top.leafs && j < x.top.spines && a == x.top.leafs + j
    ensures a < |trss| && HasCounts(x.leafList, trss[i], t, KindsOf(x))
    ensures HasCounts(x.spineList, trss[a], t, KindsOf(x))
    ensures PortCounts(x.leafList, trss[i], Out, x.top.hosts + j, t, KindsOf(x), |x.leafList|)
            == PortCounts(x.spineList, trss[a], In, i, t, KindsOf(x), |x.spineList|)
  {
    HoldsMeans(NetOf(x), trss, Up(x.top, i, j), t, KindsOf(x), x.leafList, x.spineList);
  }

  lemma DownAlike(x: Lst, trss: seq<Traces>, i: nat, j: nat, a: nat, t: nat)
    requires IsBuilt(x) && LinkHolds(NetOf(x), trss, Down(x.top, i, j), t, KindsOf(x))
    requires i < x.top.leafs && j < x.top.spines && a == x.top.leafs + j
    ensures a < |trss| && HasCounts(x.leafList, trss[i], t, KindsOf(x))
    ensures HasCounts(x.spineList, trss[a], t, KindsOf(x))
    ensures PortCounts(x.leafList, trss[i], In, x.top.hosts + j, t, KindsOf(x), |x.leafList|)
            == PortCounts(x.spineList, trss[a], Out, i, t, KindsOf(x), |x.spineList|)
  {
    HoldsMeans(NetOf(x), trss, Down(x.top, i, j), t, KindsOf(x), x.spineList, x.leafList);
  }

  /** Nor does one at a spine: behind each of its ports there is a leaf. */
  lemma UnusedAtSpine(x: Lst, front: Traces, trs: Traces, cap: nat, rg: Ranges, steps: nat, i: nat, j: nat, e: Voq,
                      side: Side, t: nat, k: nat)
    requires IsBuilt(x) && i < x.top.leafs && e in x.spineList && i == Own(side, e)
    requires ListedTypes(x, front, cap, rg, steps, i)
    requires t < steps && k < KindsOf(x) && k !in UsedTypes(x.top, x.uses)
    requires HasCounts(x.leafList, front, t, KindsOf(x)) && HasCounts(x.spineList, trs, t, KindsOf(x))
    requires NoneNegative(x.spineList, trs, side, t, KindsOf(x))
    requires PortCounts(x.leafList, front, Other(side), x.top.hosts + j, t, KindsOf(x), |x.leafList|)
             == PortCounts(x.spineList, trs, side, i, t, KindsOf(x), |x.spineList|)
    ensures CountsAt(trs[e], side, t)[k] == 0
  {
    UnusedAtLeaf(x, front, cap, rg, steps, i, Other(side), x.top.hosts + j, t, k);
    NothingBehind(x.leafList, front, Other(side), x.top.hosts + j, x.spineList, trs, side, i, t, KindsOf(x), k, e);
  }

  /** In every step nothing of such a type comes to or leaves a VOQ of a spine. */
  lemma UnusedPasses(x: Lst, ext: seq<Arrivals>, cap: nat, rg: Ranges, useWin: bool, steps: nat,
                     xss: seq<seq<Snapshot>>, trss: seq<Traces>, wss: seq<AllWindows>, j: nat, a: nat, e: Voq, t: nat,
                     k: nat)
    requires IsBuilt(x) && LstSolution(x, ext, cap, rg, useWin, steps, xss, trss, wss)
    requires j < x.top.spines && a == x.top.leafs + j && e in x.spineList
    requires t < steps && k < KindsOf(x) && k !in UsedTypes(x.top, x.uses)
    ensures a < |trss| && e in trss[a] && Shaped(trss[a][e], steps, KindsOf(x))
    ensures trss[a][e].i[t][k] == 0 && trss[a][e].o[t][k] == 0
  {
    SwitchCounts(x, ext, cap, rg, useWin, steps, xss, trss, wss, a, In, t);
    SwitchCounts(x, ext, cap, rg, useWin, steps, xss, trss, wss, a, Out, t);
    SwitchCounts(x, ext, cap, rg, useWin, steps, xss, trss, wss, e.0, Out, t);
    SwitchCounts(x, ext, cap, rg, useWin, steps, xss, trss, wss, e.1, In, t);
    LinkOf(x, ext, cap, rg, useWin, steps, xss, trss, wss, Up(x.top, e.0, j), t);
    LinkOf(x, ext, cap, rg, useWin, steps, xss, trss, wss, Down(x.top, e.1, j), t);
    UpAlike(x, trss, e.0, j, a, t);
    DownAlike(x, trss, e.1, j, a, t);
    UnusedAtSpine(x, trss[e.0], trss[a], cap, rg, steps, e.0, j, e, In, t, k);
    UnusedAtSpine(x, trss[e.1], trss[a], cap, rg, steps, e.1, j, e, Out, t, k);
  }

  lemma UnusedNowhere(x: Lst, ext: seq<Arrivals>, cap: nat, rg: Ranges, useWin: bool, steps: nat,
                      xss: seq<seq<Snapshot>>, trss: seq<Traces>, wss: seq<AllWindows>, j: nat, a: nat, e: Voq,
                      t: nat, k: nat)
    requires IsBuilt(x) && LstSolution(x, ext, cap, rg, useWin, steps, xss, trss, wss)
    requires j < x.top.spines && a == x.top.leafs + j && e in x.spineList
    requires t < steps && k < KindsOf(x) && k !in UsedTypes(x.top, x.uses)
    ensures a < |trss| && e in trss[a] && Shaped(trss[a][e], steps, KindsOf(x)) && ZeroAt(trss[a][e], t, k, KindsOf(x))
  {
    SwitchCounts(x, ext, cap, rg, useWin, steps, xss, trss, wss, a, In, t);
    forall u | 0 <= u < steps
      ensures trss[a][e].i[u][k] == 0 && trss[a][e].o[u][k] == 0
    {
      UnusedPasses(x, ext, cap, rg, useWin, steps, xss, trss, wss, j, a, e, u, k);
    }
    NothingInside(trss[a][e], steps, KindsOf(x), cap, k, t);
  }

  lemma FewerTypes(tr: Trace, types: set<nat>, used: set<nat>, steps: nat, kinds: nat)
    requires CountsOnly(tr, types, steps, kinds)
    requires forall t, k :: 0 <= t < steps && 0 <= k < kinds && k !in used ==> ZeroAt(tr, t, k, kinds)
    ensures CountsOnly(tr, types * used, steps, kinds)
  {
  }

  lemma LeafCarry(x: Lst, a: nat)
    requires IsBuilt(x) && a < x.top.leafs
    ensures CarryOf(x)[a] == ListedOf(x)[a]
  {
    assert CarryOf(x)[a] == CarryAt(x.top, x.w, x.uses, x.lists, a);
  }

  lemma SpineCarry(x: Lst, a: nat, e: Voq)
    requires IsBuilt(x) && x.top.leafs <= a < |NetOf(x).nodes| && e in ListedOf(x)[a]
    ensures e in CarryOf(x)[a] && CarryOf(x)[a][e] == ListedOf(x)[a][e] * UsedTypes(x.top, x.uses)
  {
    assert CarryOf(x)[a] == CarryAt(x.top, x.w, x.uses, x.lists, a);
  }

  lemma SpineCarries(x: Lst, ext: seq<Arrivals>, cap: nat, rg: Ranges, useWin: bool, steps: nat,
                     xss: seq<seq<Snapshot>>, trss: seq<Traces>, wss: seq<AllWindows>, j: nat, a: nat, e: Voq)
    requires IsBuilt(x) && LstSolution(x, ext, cap, rg, useWin, steps, xss, trss, wss)
    requires j < x.top.spines && a == x.top.leafs + j && e in x.spineList
    ensures e in trss[a] && e in CarryOf(x)[a] && CountsOnly(trss[a][e], CarryOf(x)[a][e], steps, KindsOf(x))
  {
    assert VoqSolved(trss[a], ListedOf(x)[a], KindsOf(x), cap, rg, steps, e);
    forall t, k | 0 <= t < steps && 0 <= k < KindsOf(x) && k !in UsedTypes(x.top, x.uses)
      ensures ZeroAt(trss[a][e], t, k, KindsOf(x))
    {
      UnusedNowhere(x, ext, cap, rg, useWin, steps, xss, trss, wss, j, a, e, t, k);
    }
    FewerTypes(trss[a][e], ListedOf(x)[a][e], UsedTypes(x.top, x.uses), steps, KindsOf(x));
    SpineCarry(x, a, e);
  }

  lemma UsedCarried(x: Lst, ext: seq<Arrivals>, cap: nat, rg: Ranges, useWin: bool, steps: nat,
                    xss: seq<seq<Snapshot>>, trss: seq<Traces>, wss: seq<AllWindows>)
    requires IsBuilt(x) && LstSolution(x, ext, cap, rg, useWin, steps, xss, trss, wss)
    ensures CountsCarried(NetOf(x), trss, CarryOf(x), steps, KindsOf(x))
  {
    forall a, e | 0 <= a < |NetOf(x).nodes| && e in NetOf(x).nodes[a]
      ensures e in trss[a] && e in CarryOf(x)[a] && CountsOnly(trss[a][e], CarryOf(x)[a][e], steps, KindsOf(x))
    {
      if a < x.top.leafs {
        assert VoqSolved(trss[a], ListedOf(x)[a], KindsOf(x), cap, rg, steps, e);
        LeafCarry(x, a);
      } else {
        SpineCarries(x, ext, cap, rg, useWin, steps, xss, trss, wss, a - x.top.leafs, a, e);
      }
    }
  }

  lemma MoreTypes(x: Lst, tr: Trace, a: nat, e: Voq, steps: nat)
    requires IsBuilt(x) && a < |NetOf(x).nodes| && e in CarryOf(x)[a]
    requires CountsOnly(tr, CarryOf(x)[a][e], steps, KindsOf(x))
    ensures e in ListedOf(x)[a] && CountsOnly(tr, ListedOf(x)[a][e], steps, KindsOf(x))
  {
    assert CarryOf(x)[a] == CarryAt(x.top, x.w, x.uses, x.lists, a);
    assert forall k :: k in CarryOf(x)[a][e] ==> k in ListedOf(x)[a][e];
  }

  lemma ListedCarried(x: Lst, ext: seq<Arrivals>, cap: nat, rg: Ranges, useWin: bool, steps: nat,
                      xss: seq<seq<Snapshot>>, trss: seq<Traces>, wss: seq<AllWindows>)
    requires IsBuilt(x) && NetSolution(NetOf(x), ext, CarryOf(x), KindsOf(x), cap, rg, useWin, steps, xss, trss, wss)
    ensures CountsCarried(NetOf(x), trss, ListedOf(x), steps, KindsOf(x))
  {
    forall a, e | 0 <= a < |NetOf(x).nodes| && e in NetOf(x).nodes[a]
      ensures e in trss[a] && e in ListedOf(x)[a] && CountsOnly(trss[a][e], ListedOf(x)[a][e], steps, KindsOf(x))
    {
      assert VoqSolved(trss[a], CarryOf(x)[a], KindsOf(x), cap, rg, steps, e);
      MoreTypes(x, trss[a][e], a, e, steps);
    }
  }

  /**
    Spines may have variables for types that are not in use, but in every solution the links force them to 0:
    the solutions are those that count only types in use at spines.
   */
  lemma OnlyUsedTypes(x: Lst, ext: seq<Arrivals>, cap: nat, rg: Ranges, useWin: bool, steps: nat,
                      xss: seq<seq<Snapshot>>, trss: seq<Traces>, wss: seq<AllWindows>)
    requires IsBuilt(x)
    ensures LstSolution(x, ext, cap, rg, useWin, steps, xss, trss, wss)
            <==> NetSolution(NetOf(x), ext, CarryOf(x), KindsOf(x), cap, rg, useWin, steps, xss, trss, wss)
  {
    if LstSolution(x, ext, cap, rg, useWin, steps, xss, trss, wss) {
      UsedCarried(x, ext, cap, rg, useWin, steps, xss, trss, wss);
      OtherCarry(NetOf(x), ext, ListedOf(x), CarryOf(x), KindsOf(x), cap, rg, useWin, steps, xss, trss, wss);
    }
    if NetSolution(NetOf(x), ext, CarryOf(x), KindsOf(x), cap, rg, useWin, steps, xss, trss, wss) {
      ListedCarried(x, ext, cap, rg, useWin, steps, xss, trss, wss);
      OtherCarry(NetOf(x), ext, CarryOf(x), ListedOf(x), KindsOf(x), cap, rg, useWin, steps, xss, trss, wss);
    }
  }

  // ---------------------------------------------------------------- every small offer is admitted

  /** All constraints of the leaf-spine network, with what the hosts send, have a solution. */
  ghost predicate LstSolvable(x: Lst, ext: seq<Arrivals>, cap: nat, rg: Ranges, useWin: bool, steps: nat)
    requires IsBuilt(x)
  {
    Solvable(NetOf(x), ext, ListedOf(x), KindsOf(x), cap, rg, useWin, steps)
  }

  lemma SolvableAlike(x: Lst, ext: seq<Arrivals>, cap: nat, rg: Ranges, useWin: bool, steps: nat)
    requires IsBuilt(x)
    ensures LstSolvable(x, ext, cap, rg, useWin, steps)
            <==> Solvable(NetOf(x), ext, CarryOf(x), KindsOf(x), cap, rg, useWin, steps)
  {
    if LstSolvable(x, ext, cap, rg, useWin, steps) {
      var xss, trss, wss :| NetSolution(NetOf(x), ext, ListedOf(x), KindsOf(x), cap, rg, useWin, steps, xss, trss, wss);
      OnlyUsedTypes(x, ext, cap, rg, useWin, steps, xss, trss, wss);
    }
    if Solvable(NetOf(x), ext, CarryOf(x), KindsOf(x), cap, rg, useWin, steps) {
      var xss, trss, wss :| NetSolution(NetOf(x), ext, CarryOf(x), KindsOf(x), cap, rg, useWin, steps, xss, trss, wss);
      OnlyUsedTypes(x, ext, cap, rg, useWin, steps, xss, trss, wss);
    }
  }

  /**
    The constraints of all leaves, all spines and all links, ranges and windows included, have a solution whatever
    the hosts send in small offers of listed types, for every topology, workload, capacity and number of steps.
   */
  lemma NeverBlocks(x: Lst, ext: seq<Arrivals>, cap: nat, rg: Ranges, useWin: bool, steps: nat)
    requires IsBuilt(x) && Offers(x, ext, steps) && HostsSend(x, ext, cap, rg, steps)
    requires cap >= 1 && steps > 0 && SomeRanges(rg)
    ensures LstSolvable(x, ext, cap, rg, useWin, steps)
  {
    LstClosed(x);
    LinksDiffer(x.top, x.links);
    SendMeans(x, ext, cap, rg, steps);
    var xss, trss, wss := NetworkSolvable(NetOf(x), ext, CarryOf(x), KindsOf(x), cap, rg, useWin, steps);
    SolvableAlike(x, ext, cap, rg, useWin, steps);
  }

  ghost predicate TypesSent(x: Lst, ext: seq<Arrivals>, steps: nat)
    requires x.top.leafs <= |ext|
  {
    forall a, e, t :: 0 <= a < x.top.leafs && e in x.leafList && e.0 < x.top.hosts && 0 <= t < steps ==>
      e in ext[a] && t < |ext[a][e]| && Typed(ext[a][e][t], KindsOf(x))
  }

  lemma AdmitsUsed(x: Lst, ext: seq<Arrivals>, cap: nat, rg: Ranges, useWin: bool, steps: nat)
    requires IsBuilt(x) && Offers(x, ext, steps) && TypesSent(x, ext, steps) && cap >= 1 && SomeRanges(rg)
    ensures HostsSend(x, ext, cap, rg, steps)
            <==> forall from :: 0 <= from < steps ==>
                   SolvableFrom(NetOf(x), ext, CarryOf(x), KindsOf(x), cap, rg, useWin, steps, from)
  {
    LstClosed(x);
    LinksDiffer(x.top, x.links);
    OffersAreHosts(x, ext, steps);
    forall a, e, t | 0 <= a < |ext| && e in NetOf(x).nodes[a] && Outer(NetOf(x), a, e) && 0 <= t < steps
      ensures Typed(ext[a][e][t], KindsOf(x))
    {
      OuterIsHost(x, a, e);
    }
    SendMeans(x, ext, cap, rg, steps);
    AdmittedExactlyWhen(NetOf(x), ext, CarryOf(x), KindsOf(x), cap, rg, useWin, steps);
  }

  /** Started empty at the moment, the leaf-spine network has a solution for what the hosts send from then on. */
  ghost predicate LstSolvableFrom(x: Lst, ext: seq<Arrivals>, cap: nat, rg: Ranges, useWin: bool, steps: nat,
                                  from: nat)
    requires IsBuilt(x) && from <= steps
  {
    LstSolvable(x, After(ext, from), cap, rg, useWin, steps - from)
  }

  lemma SolvableFromAlike(x: Lst, ext: seq<Arrivals>, cap: nat, rg: Ranges, useWin: bool, steps: nat, from: nat)
    requires IsBuilt(x) && from <= steps
    ensures LstSolvableFrom(x, ext, cap, rg, useWin, steps, from)
            <==> SolvableFrom(NetOf(x), ext, CarryOf(x), KindsOf(x), cap, rg, useWin, steps, from)
  {
    SolvableAlike(x, After(ext, from), cap, rg, useWin, steps - from);
  }

  /**
    And they have one from every moment on only then, for a network that is empty at that moment: a larger offer, or
    one of a type that its VOQ does not list, blocks it.
   */
  lemma AdmitsExactlyWhen(x: Lst, ext: seq<Arrivals>, cap: nat, rg: Ranges, useWin: bool, steps: nat)
    requires IsBuilt(x) && Offers(x, ext, steps) && TypesSent(x, ext, steps) && cap >= 1 && SomeRanges(rg)
    ensures HostsSend(x, ext, cap, rg, steps)
            <==> forall from :: 0 <= from < steps ==> LstSolvableFrom(x, ext, cap, rg, useWin, steps, from)
  {
    AdmitsUsed(x, ext, cap, rg, useWin, steps);
    forall from | 0 <= from < steps
      ensures LstSolvableFrom(x, ext, cap, rg, useWin, steps, from)
              <==> SolvableFrom(NetOf(x), ext, CarryOf(x), KindsOf(x), cap, rg, useWin, steps, from)
    {
      SolvableFromAlike(x, ext, cap, rg, useWin, steps, from);
    }
  }
}
