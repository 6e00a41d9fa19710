/** Which arrivals the leaf-spine network admits: those on which it has an execution that fits. */
module LstExecutions {
  import opened Voqs
  import opened VoqQueues
  import opened LstDemux
  import opened LstNetwork
  import opened LstSolutions
  import opened NetworkCarry
  import opened NetworkForward
  import opened BufferTrace
  import E = NetworkExecutions
  import PL = PortLists

  /** The types that a VOQ may carry are bound for its output. */
  lemma CarriedIsRouted(x: Lst, a: nat, e: Voq, k: nat)
    requires IsBuilt(x) && a < |NetOf(x).nodes| && e in VoqsAt(x, a) && e in CarryOf(x)[a] && k in CarryOf(x)[a][e]
    ensures k < |NetOf(x).hop[a]| && NetOf(x).hop[a][k] == e.1
  {
    assert CarryOf(x)[a] == CarryAt(x.top, x.w, x.uses, x.lists, a);
    if a < x.top.leafs {
      LeafListsGood(x.top, x.w, x.uses, a, x.lists[a]);
      assert PL.GoodList(x.w.leafHop[a], e, x.lists[a][e]);
    } else {
      var j := a - x.top.leafs;
      SpineListsGood(x.top, x.w, j);
      assert PL.GoodList(x.w.spineHop[j], e, x.w.spineVoqs[j][e]);
    }
  }

  /** Tables, lists and links of the leaf-spine network fit together. */
  lemma LstWellLinked(x: Lst)
    requires IsBuilt(x)
    ensures WellLinked(NetOf(x), CarryOf(x), KindsOf(x))
  {
    LstClosed(x);
    LinksDiffer(x.top, x.links);
    forall a, e, k | 0 <= a < |NetOf(x).nodes| && e in NetOf(x).nodes[a] && e in CarryOf(x)[a] && k in CarryOf(x)[a][e]
      ensures k < |NetOf(x).hop[a]| && NetOf(x).hop[a][k] == e.1
    {
      CarriedIsRouted(x, a, e, k);
    }
  }

  /**
    For every topology, workload, capacity and ranges, with or without windows: the constraints of all leaves, spines
    and links have a solution with given arrivals if and only if the network has an execution on them in which the
    offers of the hosts fit and, with windows, all outputs do.
   */
  lemma SolvableExactlyWhen(x: Lst, ext: seq<Arrivals>, cap: nat, rg: Ranges, useWin: bool, steps: nat)
    requires IsBuilt(x) && cap >= 1 && SomeRanges(rg)
    ensures LstSolvable(x, ext, cap, rg, useWin, steps)
            <==> exists xss, trss ::
                   E.FittingExecution(NetOf(x), ext, CarryOf(x), KindsOf(x), cap, rg, useWin, steps, xss, trss)
  {
    LstWellLinked(x);
    SolvableAlike(x, ext, cap, rg, useWin, steps);
    E.SolvableExactlyWhen(NetOf(x), ext, CarryOf(x), KindsOf(x), cap, rg, useWin, steps);
  }
}
