/**
  What leaves a switch in one step (src/leaf_spine/fperf_leaf_sts.cpp, out): a matched VOQ sends
  one packet, any other VOQ none.
 */
module VoqDepartures {
  import opened CountVectors
  import opened StableMatching
  import opened VoqSwitch
  import opened Voqs
  import opened VoqConstraints

  /** The outputs of all VOQs in one step. */
  type Sent = map<Voq, Vec>

  ghost predicate VoqSends(x: Snapshot, o: Sent, voqs: seq<Voq>, e: Voq)
    requires WellShaped(voqs, x) && e in voqs && e in o
  {
    if Matched(voqs, x, In, e) then Sum(o[e]) == 1 else Sum(o[e]) == 0
  }

  /** fperf_leaf_sts.cpp:86-101.  Buffers without packet types are skipped: their outputs are constant 0. */
  ghost predicate SendsIfMatched(voqs: seq<Voq>, x: Snapshot, o: Sent, empty: set<Voq>)
    requires WellShaped(voqs, x) && forall e :: e in voqs ==> e in o
  {
    forall e :: e in voqs && e !in empty ==> VoqSends(x, o, voqs, e)
  }

  ghost predicate RowClear(row: seq<bool>) {
    forall i :: 0 <= i < |row| ==> !row[i]
  }

  ghost predicate PortSilent(voqs: seq<Voq>, x: Snapshot, o: Sent, empty: set<Voq>, e: Voq)
    requires WellShaped(voqs, x) && e in voqs && forall f :: f in voqs ==> f in o
  {
    RowClear(MatchRow(voqs, x, Out, e)) ==> forall f :: f in voqs && f.1 == e.1 && f !in empty ==> Sum(o[f]) == 0
  }

  /** fperf_leaf_sts.cpp:103-122: an output port without a match receives nothing. */
  ghost predicate IdlePortsSilent(voqs: seq<Voq>, x: Snapshot, o: Sent, empty: set<Voq>)
    requires WellShaped(voqs, x) && forall e :: e in voqs ==> e in o
  {
    forall e :: e in voqs ==> PortSilent(voqs, x, o, empty, e)
  }

  /** A buffer without packet types is never backlogged and its output is the constant 0. */
  ghost predicate EmptyBuffersIdle(voqs: seq<Voq>, x: Snapshot, o: Sent, empty: set<Voq>)
    requires WellShaped(voqs, x) && forall e :: e in voqs ==> e in o
  {
    forall e :: e in voqs && e in empty ==> !x.b[e] && Sum(o[e]) == 0
  }

  /** The constraints on idle output ports follow from the constraints on single VOQs. */
  lemma IdlePortsAreSilent(voqs: seq<Voq>, x: Snapshot, o: Sent, empty: set<Voq>)
    requires WellShaped(voqs, x) && forall e :: e in voqs ==> e in o
    requires SidesAgree(voqs, x) && SendsIfMatched(voqs, x, o, empty)
    ensures IdlePortsSilent(voqs, x, o, empty)
  {
    forall e, f | e in voqs && f in voqs && f.1 == e.1 && f !in empty && RowClear(MatchRow(voqs, x, Out, e))
      ensures Sum(o[f]) == 0
    {
      assert MatchRow(voqs, x, Out, f) == MatchRow(voqs, x, Out, e);
      assert !Matched(voqs, x, Out, f);
      assert VoqSends(x, o, voqs, f);
    }
  }

  /** out(t), first half, as code. */
  method OutAt(sts: FperfLeafSts, x: Snapshot, o: Sent, empty: set<Voq>) returns (ok: bool)
    requires sts.Valid() && WellShaped(sts.voqs, x) && forall e :: e in sts.voqs ==> e in o
    ensures ok <==> SendsIfMatched(sts.voqs, x, o, empty)
  {
    var voqs := sts.voqs;
    ok := true;
    for i := 0 to |voqs|
      invariant ok <==> forall k :: 0 <= k < i && voqs[k] !in empty ==> VoqSends(x, o, voqs, voqs[k])
    {
      var e := voqs[i];
      if e in empty {
        continue;
      }
      var matched := MatchRow(voqs, x, In, e)[sts.srcDstToDstIdx[e]];
      ok := ok && (matched ==> Sum(o[e]) == 1);
      ok := ok && (!matched ==> Sum(o[e]) == 0);
    }
  }

  ghost predicate SilentCell(voqs: seq<Voq>, o: Sent, empty: set<Voq>, f: Voq)
    requires forall e :: e in voqs ==> e in o
  {
    f in voqs && f !in empty ==> Sum(o[f]) == 0
  }

  lemma CellsOfPort(voqs: seq<Voq>, o: Sent, empty: set<Voq>, port: int, peers: seq<int>)
    requires (forall e :: e in voqs ==> e in o) && peers == Peers(voqs, Out, port)
    ensures (forall k :: 0 <= k < |peers| ==> SilentCell(voqs, o, empty, (peers[k], port)))
            <==> forall f :: f in voqs && f.1 == port && f !in empty ==> Sum(o[f]) == 0
  {
    PeersExact(voqs, Out, port);
    if forall k :: 0 <= k < |peers| ==> SilentCell(voqs, o, empty, (peers[k], port)) {
      forall f | f in voqs && f.1 == port && f !in empty
        ensures Sum(o[f]) == 0
      {
        assert Join(Out, port, f.0) == f;
        var k :| 0 <= k < |peers| && peers[k] == f.0;
        assert SilentCell(voqs, o, empty, (peers[k], port));
      }
    }
  }

  /** One output port in the second half of out(t). */
  method PortIsSilent(voqs: seq<Voq>, x: Snapshot, o: Sent, empty: set<Voq>, port: int, ghost e: Voq)
    returns (ok: bool)
    requires WellShaped(voqs, x) && e in voqs && e.1 == port && forall f :: f in voqs ==> f in o
    ensures ok <==> PortSilent(voqs, x, o, empty, e)
  {
    var peers := GetBuffsForPort(voqs, Out, port);
    PeersExact(voqs, Out, port);
    var row := x.Match(Out)[port];
    assert row == MatchRow(voqs, x, Out, e);
    var allZero, allSilent := true, true;
    for i := 0 to |peers|
      invariant allZero <==> RowClear(row[..i])
      invariant allSilent <==> forall k :: 0 <= k < i ==> SilentCell(voqs, o, empty, (peers[k], port))
    {
      assert row[..i + 1] == row[..i] + [row[i]];
      allZero := allZero && !row[i];
      var f := (peers[i], port);
      assert Join(Out, port, peers[i]) == f;
      assert SilentCell(voqs, o, empty, f) <==> f in empty || Sum(o[f]) == 0;
      if f in empty {
        continue;
      }
      allSilent := allSilent && Sum(o[f]) == 0;
    }
    assert row[..|peers|] == row;
    CellsOfPort(voqs, o, empty, port, peers);
    ok := allZero ==> allSilent;
  }

  lemma SilentPorts(voqs: seq<Voq>, x: Snapshot, o: Sent, empty: set<Voq>, ports: seq<int>, reps: seq<Voq>)
    requires WellShaped(voqs, x) && (forall e :: e in voqs ==> e in o) && Represent(voqs, Out, ports, reps)
    ensures (forall q :: 0 <= q < |ports| ==> PortSilent(voqs, x, o, empty, reps[q]))
            <==> IdlePortsSilent(voqs, x, o, empty)
  {
    if forall q :: 0 <= q < |ports| ==> PortSilent(voqs, x, o, empty, reps[q]) {
      forall e | e in voqs
        ensures PortSilent(voqs, x, o, empty, e)
      {
        var q := RepOf(voqs, Out, ports, reps, e);
        assert PortSilent(voqs, x, o, empty, reps[q]);
      }
    }
  }

  /** out(t), second half, as code. */
  method IdleAt(voqs: seq<Voq>, x: Snapshot, o: Sent, empty: set<Voq>) returns (ok: bool)
    requires WellShaped(voqs, x) && forall e :: e in voqs ==> e in o
    ensures ok <==> IdlePortsSilent(voqs, x, o, empty)
  {
    var ports, reps := GetPorts(voqs, Out);
    ok := true;
    for q := 0 to |ports|
      invariant ok <==> forall k :: 0 <= k < q ==> PortSilent(voqs, x, o, empty, reps[k])
    {
      assert reps[q] in voqs;
      var silent := PortIsSilent(voqs, x, o, empty, ports[q], reps[q]);
      ok := ok && silent;
    }
    SilentPorts(voqs, x, o, empty, ports, reps);
  }

  ghost predicate NoMatchAt(voqs: seq<Voq>, x: Snapshot, port: int)
    requires WellShaped(voqs, x)
  {
    forall g :: g in voqs && g.1 == port ==> !Matched(voqs, x, Out, g)
  }

  lemma ClearMeansNoMatch(voqs: seq<Voq>, x: Snapshot, e: Voq)
    requires Distinct(voqs) && WellShaped(voqs, x) && e in voqs
    ensures RowClear(MatchRow(voqs, x, Out, e)) <==> NoMatchAt(voqs, x, e.1)
  {
    var row := MatchRow(voqs, x, Out, e);
    if NoMatchAt(voqs, x, e.1) {
      forall i | 0 <= i < |row|
        ensures !row[i]
      {
        IndexOfVoqAt(voqs, Out, e, i);
        assert !Matched(voqs, x, Out, VoqAt(voqs, Out, e, i));
      }
    }
  }

  /** What IdleAt checks, said about VOQs instead of cells. */
  lemma IdleMeans(voqs: seq<Voq>, x: Snapshot, o: Sent, empty: set<Voq>)
    requires Distinct(voqs) && WellShaped(voqs, x) && forall e :: e in voqs ==> e in o
    ensures IdlePortsSilent(voqs, x, o, empty)
            <==> forall f :: f in voqs && f !in empty && NoMatchAt(voqs, x, f.1) ==> Sum(o[f]) == 0
  {
    forall f | f in voqs
      ensures RowClear(MatchRow(voqs, x, Out, f)) <==> NoMatchAt(voqs, x, f.1)
    {
      ClearMeansNoMatch(voqs, x, f);
    }
    if IdlePortsSilent(voqs, x, o, empty) {
      forall f | f in voqs && f !in empty && NoMatchAt(voqs, x, f.1)
        ensures Sum(o[f]) == 0
      {
        assert PortSilent(voqs, x, o, empty, f);
      }
    }
  }

  // ---------------------------------------------------------------- totals

  /** Packets that leave through one port. */
  function PortTotal(voqs: seq<Voq>, o: Sent, side: Side, port: int): int
    requires forall e :: e in voqs ==> e in o
  {
    if |voqs| == 0 then
      0
    else
      var front, last := voqs[..|voqs| - 1], voqs[|voqs| - 1];
      PortTotal(front, o, side, port) + (if Own(side, last) == port then Sum(o[last]) else 0)
  }

  function Total(voqs: seq<Voq>, o: Sent): int
    requires forall e :: e in voqs ==> e in o
  {
    if |voqs| == 0 then 0 else Total(voqs[..|voqs| - 1], o) + Sum(o[voqs[|voqs| - 1]])
  }

  /** One packet for every VOQ of m, none for the others. */
  ghost predicate SendsExactly(voqs: seq<Voq>, o: Sent, m: set<Voq>)
    requires forall e :: e in voqs ==> e in o
  {
    forall e :: e in voqs ==> Sum(o[e]) == (if e in m then 1 else 0)
  }

  /** How many VOQs of the list lie in s. */
  ghost function CountIn(voqs: seq<Voq>, s: set<Voq>): nat {
    if |voqs| == 0 then 0 else CountIn(voqs[..|voqs| - 1], s) + (if voqs[|voqs| - 1] in s then 1 else 0)
  }

  lemma {:induction false} CountAgrees(voqs: seq<Voq>, s: set<Voq>, s': set<Voq>)
    requires forall i :: 0 <= i < |voqs| ==> (voqs[i] in s <==> voqs[i] in s')
    ensures CountIn(voqs, s) == CountIn(voqs, s')
  {
    if |voqs| == 0 {
    } else {
      CountAgrees(voqs[..|voqs| - 1], s, s');
    }
  }

  lemma WithoutLast(voqs: seq<Voq>, s: set<Voq>)
    requires |voqs| > 0 && Distinct(voqs) && forall e :: e in s ==> e in voqs
    ensures Distinct(voqs[..|voqs| - 1]) && voqs[|voqs| - 1] !in voqs[..|voqs| - 1]
    ensures forall e :: e in s && e != voqs[|voqs| - 1] ==> e in voqs[..|voqs| - 1]
    ensures |s| == |s - {voqs[|voqs| - 1]}| + if voqs[|voqs| - 1] in s then 1 else 0
  {
    var last := voqs[|voqs| - 1];
    assert voqs == voqs[..|voqs| - 1] + [last];
    assert last !in s ==> s - {last} == s;
  }

  lemma {:induction false} CountDistinct(voqs: seq<Voq>, s: set<Voq>)
    requires Distinct(voqs) && forall e :: e in s ==> e in voqs
    ensures CountIn(voqs, s) == |s|
  {
    if |voqs| == 0 {
      assert s == {};
    } else {
      var front, last := voqs[..|voqs| - 1], voqs[|voqs| - 1];
      WithoutLast(voqs, s);
      CountDistinct(front, s - {last});
      CountAgrees(front, s, s - {last});
    }
  }

  ghost function AtPort(m: set<Voq>, side: Side, port: int): set<Voq> {
    set e | e in m && Own(side, e) == port
  }

  lemma {:induction false} PortTotalCounts(voqs: seq<Voq>, o: Sent, m: set<Voq>, side: Side, port: int)
    requires (forall e :: e in voqs ==> e in o) && SendsExactly(voqs, o, m)
    ensures PortTotal(voqs, o, side, port) == CountIn(voqs, AtPort(m, side, port))
    ensures Total(voqs, o) == CountIn(voqs, m)
  {
    if |voqs| == 0 {
    } else {
      PortTotalCounts(voqs[..|voqs| - 1], o, m, side, port);
    }
  }

  ghost function BusyPorts(m: set<Voq>, side: Side): set<int> {
    if side.In? then Inputs(m) else Outputs(m)
  }

  lemma SingleAtPort(m: set<Voq>, side: Side, port: int)
    requires ConflictFree(m)
    ensures |AtPort(m, side, port)| == if port in BusyPorts(m, side) then 1 else 0
  {
    var s := AtPort(m, side, port);
    if port in BusyPorts(m, side) {
      var e :| e in m && Own(side, e) == port;
      assert s == {e};
    } else {
      assert s == {};
    }
  }

  /** A port sends one packet if the matching uses it and none otherwise; the total is the size of the matching. */
  lemma DeparturesOfMatching(voqs: seq<Voq>, x: Snapshot, o: Sent, empty: set<Voq>, side: Side, port: int)
    requires Distinct(voqs) && WellShaped(voqs, x) && StepConstraints(voqs, x) && forall e :: e in voqs ==> e in o
    requires SendsIfMatched(voqs, x, o, empty) && EmptyBuffersIdle(voqs, x, o, empty)
    ensures PortTotal(voqs, o, side, port) == if port in BusyPorts(Served(voqs, x), side) then 1 else 0
    ensures Total(voqs, o) == |Served(voqs, x)|
  {
    var m := Served(voqs, x);
    ConstraintsMeanStable(voqs, x);
    StableIsConflictFree(Problem(voqs, x), m);
    PortTotalCounts(voqs, o, m, side, port);
    CountDistinct(voqs, m);
    CountDistinct(voqs, AtPort(m, side, port));
    SingleAtPort(m, side, port);
  }

  /**
    Two assignments with the same heads and backlog may match different VOQs, but they send the
    same number of packets through every port and in total.
   */
  lemma DeparturesDetermined(voqs: seq<Voq>, x: Snapshot, ox: Sent, y: Snapshot, oy: Sent, empty: set<Voq>,
                             side: Side, port: int)
    requires Distinct(voqs) && WellShaped(voqs, x) && WellShaped(voqs, y)
    requires StepConstraints(voqs, x) && StepConstraints(voqs, y) && SameHeadsAndBacklog(voqs, x, y)
    requires forall e :: e in voqs ==> e in ox && e in oy
    requires SendsIfMatched(voqs, x, ox, empty) && EmptyBuffersIdle(voqs, x, ox, empty)
    requires SendsIfMatched(voqs, y, oy, empty) && EmptyBuffersIdle(voqs, y, oy, empty)
    ensures PortTotal(voqs, ox, side, port) == PortTotal(voqs, oy, side, port)
    ensures Total(voqs, ox) == Total(voqs, oy)
  {
    DeparturesOfMatching(voqs, x, ox, empty, side, port);
    DeparturesOfMatching(voqs, y, oy, empty, side, port);
    BusyPortsDetermined(voqs, x, y);
  }
}
