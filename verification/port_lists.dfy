/**
  Which packet types each VOQ of a leaf must carry (src/leaf_spine/leaf_utils.cpp).  The number of
  host ports and of hosts, written as 2 and 6 there, are parameters.
 */
module PortLists {
  import opened Voqs

  type Lists = map<Voq, seq<int>>

  /** The list of a VOQ names valid types once each, all of them bound for the VOQ's output port. */
  ghost predicate GoodList(nextHop: seq<int>, e: Voq, types: seq<int>) {
    Distinct(types) && forall k :: k in types ==> 0 <= k < |nextHop| && nextHop[k] == e.1
  }

  ghost predicate GoodLists(nextHop: seq<int>, ports: Lists) {
    forall e :: e in ports ==> GoodList(nextHop, e, ports[e])
  }

  /** Types, destinations and spines, as the table builders number them. */
  datatype Tables = Tables(nextHop: seq<int>, dst: map<int, int>, ecmp: map<int, int>, portToEcmp: seq<int>,
    portToInput: seq<int>)

  ghost predicate TablesFit(tb: Tables, ports: Lists) {
    && (forall k :: 0 <= k < |tb.nextHop| ==> k in tb.dst && k in tb.ecmp)
    && (forall e :: e in ports ==> 0 <= e.0 < |tb.portToEcmp| && 0 <= e.1 < |tb.portToEcmp|)
    && |tb.portToInput| == |tb.portToEcmp|
  }

  /** What fix adds to the VOQ e: types in use that enter by e's spine and leave by its output. */
  predicate FixAdds(tb: Tables, usedDsts: set<int>, usedEcmps: set<int>, zeroInputs: set<int>, hostPorts: int, e: Voq,
                    k: int)
    requires 0 <= k < |tb.nextHop| && k in tb.dst && k in tb.ecmp
    requires 0 <= e.0 < |tb.portToEcmp| == |tb.portToInput|
  {
    && e.0 >= hostPorts
    && tb.dst[k] in usedDsts && tb.ecmp[k] in usedEcmps && tb.nextHop[k] == e.1
    && tb.portToEcmp[e.0] == tb.ecmp[k] && tb.portToInput[e.0] !in zeroInputs
  }

  // ---------------------------------------------------------------- appending what is new

  predicate Increasing(s: seq<int>) {
    forall i, j :: 0 <= i < j < |s| ==> s[i] < s[j]
  }

  predicate IncreasesFrom(s: seq<int>, n: nat) {
    forall i, j :: n <= i < j < |s| ==> s[i] < s[j]
  }

  /** The list after these types have been pushed to it in turn, each unless it is there already. */
  function AppendNew(list: seq<int>, types: seq<int>): (r: seq<int>) {
    if |types| == 0 then list else
      var before, last := AppendNew(list, types[..|types| - 1]), types[|types| - 1];
      if last in before then before else before + [last]
  }

  lemma AppendOne(list: seq<int>, types: seq<int>, k: int)
    ensures var before := AppendNew(list, types);
            AppendNew(list, types + [k]) == if k in before then before else before + [k]
  {
    assert (types + [k])[..|types|] == types;
  }

  lemma {:induction false} AppendTwice(list: seq<int>, types: seq<int>, more: seq<int>)
    ensures AppendNew(list, types + more) == AppendNew(AppendNew(list, types), more)
  {
    if |more| == 0 {
      assert types + more == types;
    } else {
      var front := more[..|more| - 1];
      AppendTwice(list, types, front);
      assert types + more == (types + front) + [more[|more| - 1]] && more == front + [more[|more| - 1]];
      AppendOne(list, types + front, more[|more| - 1]);
      AppendOne(AppendNew(list, types), front, more[|more| - 1]);
    }
  }

  /** The old list stays in front, and exactly the given types are there, no type twice. */
  lemma {:induction false} AppendNewExact(list: seq<int>, types: seq<int>)
    ensures list <= AppendNew(list, types)
    ensures forall k :: k in AppendNew(list, types) <==> k in list || k in types
    ensures Distinct(list) ==> Distinct(AppendNew(list, types))
  {
    if |types| == 0 {
    } else {
      AppendNewExact(list, types[..|types| - 1]);
      assert types == types[..|types| - 1] + [types[|types| - 1]];
    }
  }

  ghost predicate RestIn(s: seq<int>, n: nat, types: seq<int>) {
    forall i :: n <= i < |s| ==> s[i] in types
  }

  lemma OneMoreInOrder(s: seq<int>, n: nat, front: seq<int>, last: int, types: seq<int>)
    requires IncreasesFrom(s, n) && RestIn(s, n, front) && types == front + [last] && Increasing(types)
    ensures IncreasesFrom(s + [last], n) && RestIn(s + [last], n, types) && RestIn(s, n, types)
  {
    forall x | x in front
      ensures x in types && x < last
    {
      var i :| 0 <= i < |front| && front[i] == x;
      assert types[i] == x && types[|front|] == last;
    }
  }

  /** What comes behind the old list keeps the order of the given types. */
  lemma {:induction false} AppendNewInOrder(list: seq<int>, types: seq<int>)
    requires Increasing(types)
    ensures IncreasesFrom(AppendNew(list, types), |list|) && RestIn(AppendNew(list, types), |list|, types)
  {
    if |types| == 0 {
    } else {
      var front, last := types[..|types| - 1], types[|types| - 1];
      AppendNewInOrder(list, front);
      OneMoreInOrder(AppendNew(list, front), |list|, front, last, types);
    }
  }

  lemma GoodAppended(nextHop: seq<int>, e: Voq, list: seq<int>, types: seq<int>)
    requires GoodList(nextHop, e, list) && forall k :: k in types ==> 0 <= k < |nextHop| && nextHop[k] == e.1
    ensures GoodList(nextHop, e, AppendNew(list, types))
  {
    AppendNewExact(list, types);
  }

  // ---------------------------------------------------------------- the types that fix appends

  /** The types below n that fix adds to the VOQ e, in the order of the loop. */
  function FixTypes(tb: Tables, usedDsts: set<int>, usedEcmps: set<int>, zeroInputs: set<int>, hostPorts: int, e: Voq,
                    n: nat): (types: seq<int>)
    requires n <= |tb.nextHop| && forall k :: 0 <= k < |tb.nextHop| ==> k in tb.dst && k in tb.ecmp
    requires 0 <= e.0 < |tb.portToEcmp| == |tb.portToInput|
  {
    if n == 0 then [] else
      var before := FixTypes(tb, usedDsts, usedEcmps, zeroInputs, hostPorts, e, n - 1);
      if FixAdds(tb, usedDsts, usedEcmps, zeroInputs, hostPorts, e, n - 1) then before + [n - 1] else before
  }

  lemma {:induction false} FixTypesExact(tb: Tables, usedDsts: set<int>, usedEcmps: set<int>, zeroInputs: set<int>,
                                         hostPorts: int, e: Voq, n: nat)
    requires n <= |tb.nextHop| && forall k :: 0 <= k < |tb.nextHop| ==> k in tb.dst && k in tb.ecmp
    requires 0 <= e.0 < |tb.portToEcmp| == |tb.portToInput|
    ensures Increasing(FixTypes(tb, usedDsts, usedEcmps, zeroInputs, hostPorts, e, n))
    ensures forall k :: k in FixTypes(tb, usedDsts, usedEcmps, zeroInputs, hostPorts, e, n) <==>
              0 <= k < n && FixAdds(tb, usedDsts, usedEcmps, zeroInputs, hostPorts, e, k)
    ensures forall k :: k in FixTypes(tb, usedDsts, usedEcmps, zeroInputs, hostPorts, e, n) <==>
              && 0 <= k < n && hostPorts <= e.0
              && tb.dst[k] in usedDsts && tb.ecmp[k] in usedEcmps && tb.nextHop[k] == e.1
              && tb.portToEcmp[e.0] == tb.ecmp[k] && tb.portToInput[e.0] !in zeroInputs
  {
    if n == 0 {
    } else {
      FixTypesExact(tb, usedDsts, usedEcmps, zeroInputs, hostPorts, e, n - 1);
      var before := FixTypes(tb, usedDsts, usedEcmps, zeroInputs, hostPorts, e, n - 1);
      forall i | 0 <= i < |before|
        ensures before[i] < n - 1
      {
        assert before[i] in before;
      }
    }
  }

  lemma {:induction false} NoFixTypes(tb: Tables, usedDsts: set<int>, usedEcmps: set<int>, zeroInputs: set<int>,
                                      hostPorts: int, e: Voq, n: nat)
    requires n <= |tb.nextHop| && forall k :: 0 <= k < |tb.nextHop| ==> k in tb.dst && k in tb.ecmp
    requires 0 <= e.0 < |tb.portToEcmp| == |tb.portToInput| && e.0 < hostPorts
    ensures FixTypes(tb, usedDsts, usedEcmps, zeroInputs, hostPorts, e, n) == []
  {
    if n == 0 {
    } else {
      NoFixTypes(tb, usedDsts, usedEcmps, zeroInputs, hostPorts, e, n - 1);
    }
  }

  function FixedList(tb: Tables, usedDsts: set<int>, usedEcmps: set<int>, zeroInputs: set<int>, hostPorts: int,
                     e: Voq, p: seq<int>): (list: seq<int>)
    requires forall k :: 0 <= k < |tb.nextHop| ==> k in tb.dst && k in tb.ecmp
    requires 0 <= e.0 < |tb.portToEcmp| == |tb.portToInput|
  {
    AppendNew(p, FixTypes(tb, usedDsts, usedEcmps, zeroInputs, hostPorts, e, |tb.nextHop|))
  }

  lemma FixedIsGood(tb: Tables, usedDsts: set<int>, usedEcmps: set<int>, zeroInputs: set<int>, hostPorts: int, e: Voq,
                    p: seq<int>)
    requires forall k :: 0 <= k < |tb.nextHop| ==> k in tb.dst && k in tb.ecmp
    requires 0 <= e.0 < |tb.portToEcmp| == |tb.portToInput| && GoodList(tb.nextHop, e, p)
    ensures GoodList(tb.nextHop, e, FixedList(tb, usedDsts, usedEcmps, zeroInputs, hostPorts, e, p))
  {
    FixTypesExact(tb, usedDsts, usedEcmps, zeroInputs, hostPorts, e, |tb.nextHop|);
    GoodAppended(tb.nextHop, e, p, FixTypes(tb, usedDsts, usedEcmps, zeroInputs, hostPorts, e, |tb.nextHop|));
  }

  // ---------------------------------------------------------------- the order of the source's sets

  lemma NonEmpty(s: set<int>)
    ensures s == {} || exists x :: x in s
  {
    if forall x :: x !in s {
      assert s == {};
    }
  }

  predicate IsLeast(s: set<int>, m: int) {
    m in s && forall x :: x in s ==> m <= x
  }

  lemma {:induction false} HasLeast(s: set<int>)
    requires s != {}
    ensures exists m :: IsLeast(s, m)
    decreases |s|
  {
    NonEmpty(s);
    var x :| x in s;
    assert forall y :: y in s ==> y == x || y in s - {x};
    if s == {x} {
      assert IsLeast(s, x);
    } else {
      HasLeast(s - {x});
      var m :| IsLeast(s - {x}, m);
      assert IsLeast(s, if x < m then x else m);
    }
  }

  function Least(s: set<int>): (m: int)
    requires s != {}
    ensures IsLeast(s, m)
  {
    HasLeast(s);
    var m :| m in s && IsLeast(s, m);
    m
  }

  /** The elements of a set in the order in which the source iterates over it. */
  function Ascending(s: set<int>): (r: seq<int>)
    ensures Increasing(r) && forall x :: x in r <==> x in s
    decreases |s|
  {
    if s == {} then [] else
      var m := Least(s);
      [m] + Ascending(s - {m})
  }

  /** The workload's destinations and spines for one input. */
  datatype Use = Use(dsts: set<int>, ecmps: set<int>)

  function TypeNumber(totalHosts: int, ecmp: int, dst: int): int {
    ecmp * totalHosts + dst
  }

  predicate AddsPair(tb: Tables, totalHosts: int, e: Voq, ecmp: int, dst: int, k: int)
    requires 0 <= e.1 < |tb.portToEcmp|
  {
    && k == TypeNumber(totalHosts, ecmp, dst) && 0 <= k < |tb.nextHop| && tb.nextHop[k] == e.1
    && (tb.portToEcmp[e.1] == -1 || ecmp == tb.portToEcmp[e.1])
  }

  /** What update_ports adds to the VOQ e of a host port: types its input may send that leave by e's output. */
  ghost predicate UpdateAdds(tb: Tables, use: Use, totalHosts: int, e: Voq, k: int)
    requires 0 <= e.1 < |tb.portToEcmp|
  {
    exists ecmp, dst :: ecmp in use.ecmps && dst in use.dsts && AddsPair(tb, totalHosts, e, ecmp, dst, k)
  }

  ghost predicate UseFits(tb: Tables, use: Use, totalHosts: int) {
    forall ecmp, dst :: ecmp in use.ecmps && dst in use.dsts ==> 0 <= TypeNumber(totalHosts, ecmp, dst) < |tb.nextHop|
  }

  // ---------------------------------------------------------------- the types that update_ports appends

  ghost predicate DstsFit(tb: Tables, offset: int, dsts: seq<int>) {
    forall i :: 0 <= i < |dsts| ==> 0 <= offset + dsts[i] < |tb.nextHop|
  }

  /** The types of these destinations by the spine with this offset that leave by e's output. */
  function SpineTypes(tb: Tables, e: Voq, offset: int, dsts: seq<int>): (types: seq<int>)
    requires DstsFit(tb, offset, dsts)
  {
    if |dsts| == 0 then [] else
      var before, k := SpineTypes(tb, e, offset, dsts[..|dsts| - 1]), offset + dsts[|dsts| - 1];
      if tb.nextHop[k] == e.1 then before + [k] else before
  }

  ghost predicate LeavesBy(tb: Tables, e: Voq, k: int) {
    0 <= k < |tb.nextHop| && tb.nextHop[k] == e.1
  }

  lemma {:induction false} SpineTypesExact(tb: Tables, e: Voq, offset: int, dsts: seq<int>, k: int)
    requires DstsFit(tb, offset, dsts)
    ensures k in SpineTypes(tb, e, offset, dsts) <==> k - offset in dsts && LeavesBy(tb, e, k)
  {
    if |dsts| == 0 {
    } else {
      var front, last := dsts[..|dsts| - 1], dsts[|dsts| - 1];
      assert dsts == front + [last];
      SpineTypesExact(tb, e, offset, front, k);
    }
  }

  ghost predicate AtMost(s: seq<int>, bound: int) {
    forall i :: 0 <= i < |s| ==> s[i] <= bound
  }

  lemma {:induction false} SpineTypesIncrease(tb: Tables, e: Voq, offset: int, dsts: seq<int>)
    requires DstsFit(tb, offset, dsts) && Increasing(dsts)
    ensures Increasing(SpineTypes(tb, e, offset, dsts))
    ensures AtMost(SpineTypes(tb, e, offset, dsts), if dsts == [] then 0 else offset + dsts[|dsts| - 1])
  {
    if |dsts| == 0 {
    } else {
      SpineTypesIncrease(tb, e, offset, dsts[..|dsts| - 1]);
    }
  }

  lemma AllDstsFit(tb: Tables, use: Use, totalHosts: int, ecmp: int, offset: int)
    requires UseFits(tb, use, totalHosts) && ecmp in use.ecmps && offset == ecmp * totalHosts
    ensures DstsFit(tb, offset, Ascending(use.dsts))
  {
    var dsts := Ascending(use.dsts);
    forall i | 0 <= i < |dsts|
      ensures 0 <= offset + dsts[i] < |tb.nextHop|
    {
      assert dsts[i] in dsts && TypeNumber(totalHosts, ecmp, dsts[i]) == offset + dsts[i];
    }
  }

  /** The types of all these spines. */
  function HostTypes(tb: Tables, use: Use, totalHosts: int, e: Voq, ecmps: seq<int>): (types: seq<int>)
    requires UseFits(tb, use, totalHosts)
  {
    if |ecmps| == 0 then [] else
      var before, ecmp := HostTypes(tb, use, totalHosts, e, ecmps[..|ecmps| - 1]), ecmps[|ecmps| - 1];
      if ecmp in use.ecmps then
        AllDstsFit(tb, use, totalHosts, ecmp, ecmp * totalHosts);
        before + SpineTypes(tb, e, ecmp * totalHosts, Ascending(use.dsts))
      else before
  }

  lemma HostTypesNext(tb: Tables, use: Use, totalHosts: int, e: Voq, ecmps: seq<int>, front: seq<int>, ecmp: int,
                      offset: int, p: seq<int>)
    requires UseFits(tb, use, totalHosts) && ecmps == front + [ecmp] && offset == ecmp * totalHosts
    ensures ecmp !in use.ecmps ==> HostTypes(tb, use, totalHosts, e, ecmps) == HostTypes(tb, use, totalHosts, e, front)
    ensures ecmp in use.ecmps ==>
              && DstsFit(tb, offset, Ascending(use.dsts))
              && AppendNew(p, HostTypes(tb, use, totalHosts, e, ecmps))
                 == AppendNew(AppendNew(p, HostTypes(tb, use, totalHosts, e, front)),
                      SpineTypes(tb, e, offset, Ascending(use.dsts)))
  {
    assert ecmps[..|ecmps| - 1] == front;
    if ecmp in use.ecmps {
      AllDstsFit(tb, use, totalHosts, ecmp, offset);
      AppendTwice(p, HostTypes(tb, use, totalHosts, e, front), SpineTypes(tb, e, offset, Ascending(use.dsts)));
    }
  }

  /** The spines of a VOQ's output: the one behind the port, or all that the input uses. */
  function SpinesFor(tb: Tables, use: Use, e: Voq): (ecmps: seq<int>)
    requires 0 <= e.1 < |tb.portToEcmp|
    ensures Increasing(ecmps)
  {
    if tb.portToEcmp[e.1] != -1 then [tb.portToEcmp[e.1]] else Ascending(use.ecmps)
  }

  /** The type is that of a destination of the input by this spine. */
  ghost predicate OfSpine(use: Use, totalHosts: int, ecmp: int, k: int) {
    ecmp in use.ecmps && exists dst :: dst in use.dsts && k == TypeNumber(totalHosts, ecmp, dst)
  }

  lemma OfSpineAt(use: Use, totalHosts: int, ecmp: int, offset: int, k: int)
    requires offset == ecmp * totalHosts
    ensures OfSpine(use, totalHosts, ecmp, k) <==> ecmp in use.ecmps && k - offset in use.dsts
  {
    if k - offset in use.dsts {
      assert k == TypeNumber(totalHosts, ecmp, k - offset);
    }
  }

  lemma SpineTypesAre(tb: Tables, use: Use, totalHosts: int, e: Voq, ecmp: int, offset: int, k: int)
    requires UseFits(tb, use, totalHosts) && ecmp in use.ecmps && offset == ecmp * totalHosts
    requires DstsFit(tb, offset, Ascending(use.dsts))
    ensures k in SpineTypes(tb, e, offset, Ascending(use.dsts))
            <==> OfSpine(use, totalHosts, ecmp, k) && LeavesBy(tb, e, k)
  {
    SpineTypesExact(tb, e, offset, Ascending(use.dsts), k);
    OfSpineAt(use, totalHosts, ecmp, offset, k);
  }

  lemma {:induction false} HostTypesAre(tb: Tables, use: Use, totalHosts: int, e: Voq, ecmps: seq<int>, k: int)
    requires UseFits(tb, use, totalHosts)
    ensures k in HostTypes(tb, use, totalHosts, e, ecmps)
            <==> LeavesBy(tb, e, k) && exists ecmp :: ecmp in ecmps && OfSpine(use, totalHosts, ecmp, k)
  {
    if |ecmps| == 0 {
    } else {
      var front, ecmp := ecmps[..|ecmps| - 1], ecmps[|ecmps| - 1];
      HostTypesAre(tb, use, totalHosts, e, front, k);
      assert ecmps == front + [ecmp];
      if ecmp in use.ecmps {
        AllDstsFit(tb, use, totalHosts, ecmp, ecmp * totalHosts);
        SpineTypesAre(tb, use, totalHosts, e, ecmp, ecmp * totalHosts, k);
      }
    }
  }

  /**
    The types that update_ports tries for a host's VOQ are exactly those that its input may send by
    the VOQ's output.
   */
  lemma HostTypesExact(tb: Tables, use: Use, totalHosts: int, e: Voq, k: int)
    requires UseFits(tb, use, totalHosts) && 0 <= e.1 < |tb.portToEcmp|
    ensures k in HostTypes(tb, use, totalHosts, e, SpinesFor(tb, use, e)) <==> UpdateAdds(tb, use, totalHosts, e, k)
    ensures k in HostTypes(tb, use, totalHosts, e, SpinesFor(tb, use, e)) <==>
              && 0 <= k < |tb.nextHop| && tb.nextHop[k] == e.1
              && exists ecmp, dst :: ecmp in use.ecmps && dst in use.dsts && k == TypeNumber(totalHosts, ecmp, dst)
                                     && (tb.portToEcmp[e.1] == -1 || tb.portToEcmp[e.1] == ecmp)
  {
    HostTypesAre(tb, use, totalHosts, e, SpinesFor(tb, use, e), k);
    if ecmp :| ecmp in SpinesFor(tb, use, e) && OfSpine(use, totalHosts, ecmp, k) && LeavesBy(tb, e, k) {
      var dst :| dst in use.dsts && k == TypeNumber(totalHosts, ecmp, dst);
      assert AddsPair(tb, totalHosts, e, ecmp, dst, k);
    }
    if ecmp, dst :|
      && ecmp in use.ecmps && dst in use.dsts && k == TypeNumber(totalHosts, ecmp, dst)
      && LeavesBy(tb, e, k) && (tb.portToEcmp[e.1] == -1 || tb.portToEcmp[e.1] == ecmp)
    {
      assert ecmp in SpinesFor(tb, use, e) && OfSpine(use, totalHosts, ecmp, k);
    }
  }

  lemma OffsetBelow(x: int, ecmp: int, d: int, totalHosts: nat)
    requires x < ecmp && d < totalHosts
    ensures x * totalHosts + d < ecmp * totalHosts
  {
    assert (x + 1) * totalHosts <= ecmp * totalHosts;
  }

  lemma HostTypesBelow(tb: Tables, use: Use, totalHosts: nat, e: Voq, ecmps: seq<int>, ecmp: int, k: int)
    requires UseFits(tb, use, totalHosts) && forall d :: d in use.dsts ==> 0 <= d < totalHosts
    requires k in HostTypes(tb, use, totalHosts, e, ecmps) && forall x :: x in ecmps ==> x < ecmp
    ensures k < ecmp * totalHosts
  {
    HostTypesAre(tb, use, totalHosts, e, ecmps, k);
    var x :| x in ecmps && OfSpine(use, totalHosts, x, k);
    var dst :| dst in use.dsts && k == TypeNumber(totalHosts, x, dst);
    OffsetBelow(x, ecmp, dst, totalHosts);
  }

  /** They come in the order of the types. */
  lemma {:induction false} HostTypesIncrease(tb: Tables, use: Use, totalHosts: nat, e: Voq, ecmps: seq<int>)
    requires UseFits(tb, use, totalHosts) && Increasing(ecmps) && forall d :: d in use.dsts ==> 0 <= d < totalHosts
    ensures Increasing(HostTypes(tb, use, totalHosts, e, ecmps))
  {
    if |ecmps| == 0 {
    } else {
      var front, ecmp := ecmps[..|ecmps| - 1], ecmps[|ecmps| - 1];
      HostTypesIncrease(tb, use, totalHosts, e, front);
      if ecmp in use.ecmps {
        var offset := ecmp * totalHosts;
        AllDstsFit(tb, use, totalHosts, ecmp, offset);
        SpineTypesIncrease(tb, e, offset, Ascending(use.dsts));
        var before, more := HostTypes(tb, use, totalHosts, e, front), SpineTypes(tb, e, offset, Ascending(use.dsts));
        forall i, j | 0 <= i < |before| && 0 <= j < |more|
          ensures before[i] < more[j]
        {
          SpineTypesExact(tb, e, offset, Ascending(use.dsts), more[j]);
          assert before[i] in before && more[j] in more && more[j] - offset in use.dsts;
          HostTypesBelow(tb, use, totalHosts, e, front, ecmp, before[i]);
        }
      }
    }
  }

  ghost predicate UsesFit(tb: Tables, valsPerInput: seq<Use>, totalHosts: int) {
    && |valsPerInput| > 0 && (forall p :: 0 <= p < |tb.portToInput| ==> tb.portToInput[p] >= -1)
    && forall i :: 0 <= i < |valsPerInput| ==> UseFits(tb, valsPerInput[i], totalHosts)
  }

  ghost predicate HasPorts(tb: Tables, e: Voq) {
    0 <= e.0 < |tb.portToEcmp| == |tb.portToInput| && 0 <= e.1 < |tb.portToEcmp|
  }

  function UpdatedList(tb: Tables, use: Use, totalHosts: int, e: Voq, p: seq<int>): (list: seq<int>)
    requires UseFits(tb, use, totalHosts) && 0 <= e.1 < |tb.portToEcmp|
  {
    AppendNew(p, HostTypes(tb, use, totalHosts, e, SpinesFor(tb, use, e)))
  }

  /** What update_ports makes of the list p of e; lists of ports without a host stay. */
  function HostList(tb: Tables, valsPerInput: seq<Use>, totalHosts: int, e: Voq, p: seq<int>): (list: seq<int>)
    requires UsesFit(tb, valsPerInput, totalHosts) && HasPorts(tb, e)
  {
    if tb.portToInput[e.0] == -1 then p else
      UpdatedList(tb, valsPerInput[tb.portToInput[e.0] % |valsPerInput|], totalHosts, e, p)
  }

  lemma HostListExact(tb: Tables, valsPerInput: seq<Use>, totalHosts: int, e: Voq, p: seq<int>, k: int)
    requires UsesFit(tb, valsPerInput, totalHosts) && HasPorts(tb, e)
    ensures k in HostList(tb, valsPerInput, totalHosts, e, p) <==>
              || k in p
              || (tb.portToInput[e.0] != -1
                  && UpdateAdds(tb, valsPerInput[tb.portToInput[e.0] % |valsPerInput|], totalHosts, e, k))
  {
    if tb.portToInput[e.0] != -1 {
      var use := valsPerInput[tb.portToInput[e.0] % |valsPerInput|];
      HostTypesExact(tb, use, totalHosts, e, k);
      AppendNewExact(p, HostTypes(tb, use, totalHosts, e, SpinesFor(tb, use, e)));
    }
  }

  lemma HostListIsGood(tb: Tables, valsPerInput: seq<Use>, totalHosts: int, e: Voq, p: seq<int>)
    requires UsesFit(tb, valsPerInput, totalHosts) && HasPorts(tb, e) && GoodList(tb.nextHop, e, p)
    ensures GoodList(tb.nextHop, e, HostList(tb, valsPerInput, totalHosts, e, p))
  {
    if tb.portToInput[e.0] != -1 {
      var use := valsPerInput[tb.portToInput[e.0] % |valsPerInput|];
      var types := HostTypes(tb, use, totalHosts, e, SpinesFor(tb, use, e));
      forall k | k in types
        ensures 0 <= k < |tb.nextHop| && tb.nextHop[k] == e.1
      {
        HostTypesExact(tb, use, totalHosts, e, k);
      }
      GoodAppended(tb.nextHop, e, p, types);
    }
  }

  class PortTable {
    var ports: Lists

    constructor (voqs: set<Voq>)
      ensures ports.Keys == voqs && forall e :: e in ports ==> ports[e] == []
    {
      ports := map e | e in voqs :: [];
    }

    /** The body of the loop in fix, for one VOQ. */
    static method FixList(tb: Tables, usedDsts: set<int>, usedEcmps: set<int>, zeroInputs: set<int>, hostPorts: int,
                          e: Voq, p: seq<int>) returns (list: seq<int>)
      requires forall k :: 0 <= k < |tb.nextHop| ==> k in tb.dst && k in tb.ecmp
      requires 0 <= e.0 < |tb.portToEcmp| == |tb.portToInput|
      ensures list == FixedList(tb, usedDsts, usedEcmps, zeroInputs, hostPorts, e, p)
    {
      list := p;
      if e.0 < hostPorts {
        NoFixTypes(tb, usedDsts, usedEcmps, zeroInputs, hostPorts, e, |tb.nextHop|);
        return;
      }
      for k := 0 to |tb.nextHop|
        invariant list == AppendNew(p, FixTypes(tb, usedDsts, usedEcmps, zeroInputs, hostPorts, e, k))
      {
        AppendOne(p, FixTypes(tb, usedDsts, usedEcmps, zeroInputs, hostPorts, e, k), k);
        var ecmpValue := tb.ecmp[k];
        var dstValue := tb.dst[k];
        if dstValue in usedDsts && ecmpValue in usedEcmps && tb.nextHop[k] == e.1
           && tb.portToEcmp[e.0] == ecmpValue && tb.portToInput[e.0] !in zeroInputs
        {
          if k !in list {
            list := list + [k];
          }
        }
      }
    }

    method Fix(tb: Tables, usedDsts: set<int>, usedEcmps: set<int>, zeroInputs: set<int>, hostPorts: int)
      requires TablesFit(tb, ports) && GoodLists(tb.nextHop, ports)
      modifies this
      ensures ports.Keys == old(ports.Keys) && GoodLists(tb.nextHop, ports)
      ensures forall e :: e in ports ==>
                (ports[e] == FixedList(tb, usedDsts, usedEcmps, zeroInputs, hostPorts, e, old(ports)[e]))
    {
      var todo := ports.Keys;
      while todo != {}
        invariant ports.Keys == old(ports.Keys) && todo <= ports.Keys && GoodLists(tb.nextHop, ports)
        invariant forall e :: e in todo ==> ports[e] == old(ports)[e]
        invariant forall e :: e in ports && e !in todo ==>
                    (ports[e] == FixedList(tb, usedDsts, usedEcmps, zeroInputs, hostPorts, e, old(ports)[e]))
        decreases |todo|
      {
        var e :| e in todo;
        todo := todo - {e};
        FixedIsGood(tb, usedDsts, usedEcmps, zeroInputs, hostPorts, e, ports[e]);
        var list := FixList(tb, usedDsts, usedEcmps, zeroInputs, hostPorts, e, ports[e]);
        ports := ports[e := list];
      }
    }

    /** One spine: every destination in use whose type leaves by e's output. */
    static method UpdateForSpine(tb: Tables, e: Voq, ecmpOffset: int, usedDstVals: seq<int>, p: seq<int>)
      returns (list: seq<int>)
      requires DstsFit(tb, ecmpOffset, usedDstVals)
      ensures list == AppendNew(p, SpineTypes(tb, e, ecmpOffset, usedDstVals))
    {
      list := p;
      for i := 0 to |usedDstVals|
        invariant list == AppendNew(p, SpineTypes(tb, e, ecmpOffset, usedDstVals[..i]))
      {
        var pktType := ecmpOffset + usedDstVals[i];
        assert usedDstVals[..i + 1][..i] == usedDstVals[..i];
        AppendOne(p, SpineTypes(tb, e, ecmpOffset, usedDstVals[..i]), pktType);
        var nxtHopPort := tb.nextHop[pktType];
        if e.1 != nxtHopPort {
          continue;
        }
        if pktType !in list {
          list := list + [pktType];
        }
      }
      assert usedDstVals[..|usedDstVals|] == usedDstVals;
    }

    /** The same if the input uses the spine; front are the spines before it. */
    static method UpdateIfUsed(tb: Tables, use: Use, totalHosts: int, e: Voq, ecmp: int, p: seq<int>,
                               ghost front: seq<int>, ghost start: seq<int>) returns (list: seq<int>)
      requires UseFits(tb, use, totalHosts) && p == AppendNew(start, HostTypes(tb, use, totalHosts, e, front))
      ensures list == AppendNew(start, HostTypes(tb, use, totalHosts, e, front + [ecmp]))
    {
      var ecmpOffset := ecmp * totalHosts;
      HostTypesNext(tb, use, totalHosts, e, front + [ecmp], front, ecmp, ecmpOffset, start);
      if ecmp !in use.ecmps {
        return p;
      }
      list := UpdateForSpine(tb, e, ecmpOffset, Ascending(use.dsts), p);
    }

    /** The loop over the spines. */
    static method UpdateForSpines(tb: Tables, use: Use, totalHosts: int, e: Voq, dstEcmps: seq<int>, p: seq<int>)
      returns (list: seq<int>)
      requires UseFits(tb, use, totalHosts)
      ensures list == AppendNew(p, HostTypes(tb, use, totalHosts, e, dstEcmps))
    {
      list := p;
      for i := 0 to |dstEcmps|
        invariant list == AppendNew(p, HostTypes(tb, use, totalHosts, e, dstEcmps[..i]))
      {
        ghost var front := dstEcmps[..i];
        assert dstEcmps[..i + 1] == front + [dstEcmps[i]];
        list := UpdateIfUsed(tb, use, totalHosts, e, dstEcmps[i], list, front, p);
      }
      assert dstEcmps[..|dstEcmps|] == dstEcmps;
    }

    /** The body of the loop in update_ports, for one VOQ of a host port. */
    static method UpdateList(tb: Tables, use: Use, totalHosts: int, e: Voq, p: seq<int>) returns (list: seq<int>)
      requires 0 <= e.1 < |tb.portToEcmp| && UseFits(tb, use, totalHosts)
      ensures list == UpdatedList(tb, use, totalHosts, e, p)
    {
      var dstEcmp := tb.portToEcmp[e.1];
      var dstEcmps := if dstEcmp != -1 then [dstEcmp] else Ascending(use.ecmps);
      list := UpdateForSpines(tb, use, totalHosts, e, dstEcmps, p);
    }

    method UpdatePorts(tb: Tables, valsPerInput: seq<Use>, totalHosts: int)
      requires TablesFit(tb, ports) && GoodLists(tb.nextHop, ports) && UsesFit(tb, valsPerInput, totalHosts)
      modifies this
      ensures ports.Keys == old(ports.Keys) && GoodLists(tb.nextHop, ports)
      ensures forall e :: e in ports ==> ports[e] == HostList(tb, valsPerInput, totalHosts, e, old(ports)[e])
    {
      var todo := ports.Keys;
      while todo != {}
        invariant ports.Keys == old(ports.Keys) && todo <= ports.Keys && GoodLists(tb.nextHop, ports)
        invariant forall e :: e in todo ==> ports[e] == old(ports)[e]
        invariant forall e :: e in ports && e !in todo ==>
                    ports[e] == HostList(tb, valsPerInput, totalHosts, e, old(ports)[e])
        decreases |todo|
      {
        var e :| e in todo;
        todo := todo - {e};
        HostListIsGood(tb, valsPerInput, totalHosts, e, ports[e]);
        var srcInput := tb.portToInput[e.0];
        if srcInput == -1 {
          continue;
        }
        var list := UpdateList(tb, valsPerInput[srcInput % |valsPerInput|], totalHosts, e, ports[e]);
        ports := ports[e := list];
      }
    }
  }

  /** The port lists of a leaf as check_wl computes them: empty lists, then fix, then update_ports. */
  method LeafLists(voqs: set<Voq>, tb: Tables, usedDsts: set<int>, usedEcmps: set<int>, zeroInputs: set<int>,
                   hostPorts: int, valsPerInput: seq<Use>, totalHosts: int) returns (ports: Lists)
    requires TablesFit(tb, map e | e in voqs :: []) && UsesFit(tb, valsPerInput, totalHosts)
    ensures ports.Keys == voqs && GoodLists(tb.nextHop, ports) && TablesFit(tb, ports)
    ensures forall e :: e in ports ==>
              (ports[e] == HostList(tb, valsPerInput, totalHosts, e,
                                    FixedList(tb, usedDsts, usedEcmps, zeroInputs, hostPorts, e, [])))
    ensures forall e, k :: e in ports && 0 <= k < |tb.nextHop| ==>
              (k in ports[e] <==>
               || FixAdds(tb, usedDsts, usedEcmps, zeroInputs, hostPorts, e, k)
               || (tb.portToInput[e.0] != -1
                   && UpdateAdds(tb, valsPerInput[tb.portToInput[e.0] % |valsPerInput|], totalHosts, e, k)))
  {
    var table := new PortTable(voqs);
    table.Fix(tb, usedDsts, usedEcmps, zeroInputs, hostPorts);
    assert TablesFit(tb, table.ports);
    ghost var fixed := table.ports;
    table.UpdatePorts(tb, valsPerInput, totalHosts);
    ports := table.ports;
    forall e, k | e in ports && 0 <= k < |tb.nextHop|
      ensures k in ports[e] <==>
              || FixAdds(tb, usedDsts, usedEcmps, zeroInputs, hostPorts, e, k)
              || (tb.portToInput[e.0] != -1
                  && UpdateAdds(tb, valsPerInput[tb.portToInput[e.0] % |valsPerInput|], totalHosts, e, k))
    {
      FixTypesExact(tb, usedDsts, usedEcmps, zeroInputs, hostPorts, e, |tb.nextHop|);
      AppendNewExact([], FixTypes(tb, usedDsts, usedEcmps, zeroInputs, hostPorts, e, |tb.nextHop|));
      HostListExact(tb, valsPerInput, totalHosts, e, fixed[e], k);
    }
  }
}
