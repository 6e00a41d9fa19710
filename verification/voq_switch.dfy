/** The crossbar of a switch at one time step (src/leaf_spine/fperf_leaf_sts.cpp). */
module VoqSwitch {
  import opened Cyclic
  import opened StableMatching
  import opened Voqs

  /** Input ports and output ports are treated alike throughout. */
  datatype Side = In | Out

  function Own(side: Side, e: Voq): int {
    if side.In? then e.0 else e.1
  }

  function Peer(side: Side, e: Voq): int {
    if side.In? then e.1 else e.0
  }

  function Join(side: Side, port: int, peer: int): Voq {
    if side.In? then (port, peer) else (peer, port)
  }

  function IndexOf<T(==)>(s: seq<T>, x: T): (i: nat)
    requires x in s
    ensures i < |s| && s[i] == x
  {
    if s[0] == x then 0 else 1 + IndexOf(s[1..], x)
  }

  // ---------------------------------------------------------------- the VOQs of one port

  /** The opposite ports of the VOQs at one port, in the order of the VOQ list. */
  function Peers(voqs: seq<Voq>, side: Side, port: int): seq<int> {
    if |voqs| == 0 then
      []
    else
      var last := voqs[|voqs| - 1];
      Peers(voqs[..|voqs| - 1], side, port) + (if Own(side, last) == port then [Peer(side, last)] else [])
  }

  lemma {:induction false} PeersExact(voqs: seq<Voq>, side: Side, port: int)
    ensures forall q :: q in Peers(voqs, side, port) <==> Join(side, port, q) in voqs
    ensures Distinct(voqs) ==> Distinct(Peers(voqs, side, port))
  {
    if |voqs| == 0 {
    } else {
      var front, last := voqs[..|voqs| - 1], voqs[|voqs| - 1];
      PeersExact(front, side, port);
      assert voqs == front + [last];
      if Distinct(voqs) && Own(side, last) == port {
        assert Distinct(front);
        assert last !in front;
        assert Join(side, port, Peer(side, last)) == last;
        assert Peer(side, last) !in Peers(front, side, port);
      }
    }
  }

  function Width(voqs: seq<Voq>, side: Side, e: Voq): nat {
    |Peers(voqs, side, Own(side, e))|
  }

  /** The cell of VOQ e in the rows of its own port. */
  function Index(voqs: seq<Voq>, side: Side, e: Voq): (i: nat)
    requires e in voqs
    ensures i < Width(voqs, side, e)
    ensures Peers(voqs, side, Own(side, e))[i] == Peer(side, e)
  {
    PeersExact(voqs, side, Own(side, e));
    IndexOf(Peers(voqs, side, Own(side, e)), Peer(side, e))
  }

  function VoqAt(voqs: seq<Voq>, side: Side, e: Voq, i: nat): (f: Voq)
    requires i < Width(voqs, side, e)
    ensures f in voqs && Own(side, f) == Own(side, e)
  {
    PeersExact(voqs, side, Own(side, e));
    Join(side, Own(side, e), Peers(voqs, side, Own(side, e))[i])
  }

  /** Cells and VOQs of one port correspond one to one. */
  lemma IndexOfVoqAt(voqs: seq<Voq>, side: Side, e: Voq, i: nat)
    requires Distinct(voqs) && i < Width(voqs, side, e)
    ensures Index(voqs, side, VoqAt(voqs, side, e, i)) == i
  {
    PeersExact(voqs, side, Own(side, e));
  }

  // ---------------------------------------------------------------- the order of the cells

  /** How many of the first n VOQs are at the port. */
  function CountAt(voqs: seq<Voq>, side: Side, port: int, n: nat): (c: nat)
    requires n <= |voqs|
    ensures c <= n
  {
    if n == 0 then 0 else CountAt(voqs, side, port, n - 1) + (if Own(side, voqs[n - 1]) == port then 1 else 0)
  }

  lemma {:induction false} CountGrows(voqs: seq<Voq>, side: Side, port: int, i: nat, j: nat)
    requires i <= j <= |voqs|
    ensures CountAt(voqs, side, port, i) <= CountAt(voqs, side, port, j)
  {
    if i < j {
      CountGrows(voqs, side, port, i, j - 1);
    }
  }

  /** The peer of the i-th VOQ stands behind as many others as VOQs of the port precede it. */
  lemma {:induction false} PlaceInPrefix(voqs: seq<Voq>, side: Side, port: int, n: nat)
    requires n <= |voqs|
    ensures |Peers(voqs[..n], side, port)| == CountAt(voqs, side, port, n)
    ensures forall i :: 0 <= i < n && Own(side, voqs[i]) == port ==>
              && CountAt(voqs, side, port, i) < |Peers(voqs[..n], side, port)|
              && Peers(voqs[..n], side, port)[CountAt(voqs, side, port, i)] == Peer(side, voqs[i])
  {
    if n == 0 {
    } else {
      PlaceInPrefix(voqs, side, port, n - 1);
      assert voqs[..n][..n - 1] == voqs[..n - 1];
    }
  }

  /** The cell of a VOQ is the number of VOQs at its port that precede it in the list. */
  lemma CellsInListOrder(voqs: seq<Voq>, side: Side, i: nat)
    requires Distinct(voqs) && i < |voqs|
    ensures Index(voqs, side, voqs[i]) == CountAt(voqs, side, Own(side, voqs[i]), i)
    ensures Width(voqs, side, voqs[i]) == CountAt(voqs, side, Own(side, voqs[i]), |voqs|)
  {
    var port := Own(side, voqs[i]);
    assert voqs[..|voqs|] == voqs;
    PlaceInPrefix(voqs, side, port, |voqs|);
    PeersExact(voqs, side, port);
  }

  lemma EarlierCell(voqs: seq<Voq>, side: Side, i: nat, j: nat)
    requires Distinct(voqs) && i < j < |voqs| && Own(side, voqs[i]) == Own(side, voqs[j])
    ensures Index(voqs, side, voqs[i]) < Index(voqs, side, voqs[j])
  {
    CellsInListOrder(voqs, side, i);
    CellsInListOrder(voqs, side, j);
    CountGrows(voqs, side, Own(side, voqs[i]), i + 1, j);
  }

  /** The order of a map from pairs of ports: by input port, then by output port. */
  ghost predicate MapOrder(voqs: seq<Voq>) {
    forall i, j :: 0 <= i < j < |voqs| ==>
      voqs[i].0 < voqs[j].0 || (voqs[i].0 == voqs[j].0 && voqs[i].1 < voqs[j].1)
  }

  /** In map order the cells of a port stand in the order of the port numbers on the other side. */
  lemma CellsByPortNumber(voqs: seq<Voq>, side: Side, e: Voq, f: Voq)
    requires MapOrder(voqs) && e in voqs && f in voqs && Own(side, e) == Own(side, f)
    ensures Distinct(voqs)
    ensures Index(voqs, side, e) < Index(voqs, side, f) <==> Peer(side, e) < Peer(side, f)
  {
    var i :| 0 <= i < |voqs| && voqs[i] == e;
    var j :| 0 <= j < |voqs| && voqs[j] == f;
    if i < j {
      EarlierCell(voqs, side, i, j);
    } else if j < i {
      EarlierCell(voqs, side, j, i);
    }
  }

  // ---------------------------------------------------------------- variables of one time step

  /** Each port keeps one row of booleans per variable family, with one cell for each VOQ at the port. */
  datatype Snapshot = Snapshot(
    inToOut: map<int, seq<bool>>,
    outFromIn: map<int, seq<bool>>,
    inPrioHead: map<int, seq<bool>>,
    outPrioHead: map<int, seq<bool>>,
    b: map<Voq, bool>)
  {
    function Match(side: Side): map<int, seq<bool>> {
      if side.In? then inToOut else outFromIn
    }

    function Head(side: Side): map<int, seq<bool>> {
      if side.In? then inPrioHead else outPrioHead
    }
  }

  /** One row per port and family, one cell per VOQ of the port. */
  ghost predicate WellShaped(voqs: seq<Voq>, x: Snapshot) {
    && (forall e :: e in voqs ==> e in x.b)
    && forall side, e :: e in voqs ==>
         && Own(side, e) in x.Match(side) && |x.Match(side)[Own(side, e)]| == Width(voqs, side, e)
         && Own(side, e) in x.Head(side) && |x.Head(side)[Own(side, e)]| == Width(voqs, side, e)
  }

  function MatchRow(voqs: seq<Voq>, x: Snapshot, side: Side, e: Voq): (row: seq<bool>)
    requires WellShaped(voqs, x) && e in voqs
    ensures |row| == Width(voqs, side, e)
  {
    x.Match(side)[Own(side, e)]
  }

  function HeadRow(voqs: seq<Voq>, x: Snapshot, side: Side, e: Voq): (row: seq<bool>)
    requires WellShaped(voqs, x) && e in voqs
    ensures |row| == Width(voqs, side, e)
  {
    x.Head(side)[Own(side, e)]
  }

  function Matched(voqs: seq<Voq>, x: Snapshot, side: Side, e: Voq): bool
    requires WellShaped(voqs, x) && e in voqs
  {
    MatchRow(voqs, x, side, e)[Index(voqs, side, e)]
  }

  // ---------------------------------------------------------------- constraint families
  // Which VOQs are matched, given the rotating priority heads of all ports and the backlog.

  ghost predicate AtMostOne(row: seq<bool>) {
    forall i, j :: 0 <= i < |row| && 0 <= j < |row| && i != j && row[i] ==> !row[j]
  }

  ghost predicate OneHot(row: seq<bool>) {
    && (exists i :: 0 <= i < |row| && row[i])
    && AtMostOne(row)
  }

  /** No cell that any head puts in front of idx is matched. */
  ghost predicate NoBetter(row: seq<bool>, head: seq<bool>, idx: nat)
    requires |row| == |head| && idx < |row|
  {
    forall p, i :: 0 <= p < |head| && 0 <= i < |row| && head[p] && Rank(p, i, |row|) < Rank(p, idx, |row|) ==> !row[i]
  }

  ghost predicate Agree(voqs: seq<Voq>, x: Snapshot)
    requires WellShaped(voqs, x)
  {
    forall e :: e in voqs ==>
      if Matched(voqs, x, In, e) then Matched(voqs, x, Out, e) && x.b[e] else !Matched(voqs, x, Out, e)
  }

  ghost predicate MatchCond(voqs: seq<Voq>, x: Snapshot, e: Voq)
    requires WellShaped(voqs, x) && e in voqs
  {
    && NoBetter(MatchRow(voqs, x, Out, e), HeadRow(voqs, x, Out, e), Index(voqs, Out, e))
    && NoBetter(MatchRow(voqs, x, In, e), HeadRow(voqs, x, In, e), Index(voqs, In, e))
    && x.b[e]
  }

  ghost predicate PriorityAt(voqs: seq<Voq>, x: Snapshot, e: Voq)
    requires WellShaped(voqs, x) && e in voqs
  {
    Matched(voqs, x, In, e) <==> MatchCond(voqs, x, e)
  }

  ghost predicate MatchesByPriority(voqs: seq<Voq>, x: Snapshot)
    requires WellShaped(voqs, x)
  {
    forall e :: e in voqs ==> PriorityAt(voqs, x, e)
  }

  ghost predicate NoDoubleMatch(voqs: seq<Voq>, x: Snapshot)
    requires WellShaped(voqs, x)
  {
    forall side, e :: e in voqs ==> AtMostOne(MatchRow(voqs, x, side, e))
  }

  ghost predicate HeadsOneHot(voqs: seq<Voq>, x: Snapshot)
    requires WellShaped(voqs, x)
  {
    forall side, e :: e in voqs ==> OneHot(HeadRow(voqs, x, side, e))
  }

  /** Everything the transition constraints say about one time step. */
  ghost predicate StepConstraints(voqs: seq<Voq>, x: Snapshot)
    requires WellShaped(voqs, x)
  {
    Agree(voqs, x) && MatchesByPriority(voqs, x) && NoDoubleMatch(voqs, x) && HeadsOneHot(voqs, x)
  }

  /** A matched cell becomes the head; a port without a match keeps its head. */
  ghost predicate HeadMoves(matched: seq<bool>, head: seq<bool>, next: seq<bool>)
    requires |matched| == |head| == |next|
  {
    && (forall i :: 0 <= i < |matched| && matched[i] ==> next[i])
    && ((forall i :: 0 <= i < |matched| ==> !matched[i]) ==> next == head)
  }

  ghost predicate PortHeadMoves(voqs: seq<Voq>, x: Snapshot, y: Snapshot, side: Side, e: Voq)
    requires WellShaped(voqs, x) && WellShaped(voqs, y) && e in voqs
  {
    HeadMoves(MatchRow(voqs, x, side, e), HeadRow(voqs, x, side, e), HeadRow(voqs, y, side, e))
  }

  ghost predicate HeadsMove(voqs: seq<Voq>, x: Snapshot, y: Snapshot)
    requires WellShaped(voqs, x) && WellShaped(voqs, y)
  {
    forall side, e :: e in voqs ==> PortHeadMoves(voqs, x, y, side, e)
  }

  ghost predicate HeadsAtFirstCell(voqs: seq<Voq>, x: Snapshot)
    requires WellShaped(voqs, x)
  {
    forall side, e, i :: e in voqs && 0 <= i < Width(voqs, side, e) ==> (HeadRow(voqs, x, side, e)[i] <==> i == 0)
  }

  // ---------------------------------------------------------------- the matching problem behind them

  ghost function HeadCell(row: seq<bool>): (i: nat)
    requires OneHot(row)
    ensures i < |row| && row[i]
    ensures forall j :: 0 <= j < |row| && row[j] ==> j == i
  {
    var i :| 0 <= i < |row| && row[i];
    i
  }

  ghost function RankAt(voqs: seq<Voq>, x: Snapshot, side: Side, e: Voq): (r: nat)
    requires WellShaped(voqs, x) && HeadsOneHot(voqs, x) && e in voqs
    ensures r < Width(voqs, side, e)
  {
    Rank(HeadCell(HeadRow(voqs, x, side, e)), Index(voqs, side, e), Width(voqs, side, e))
  }

  ghost function RankMap(voqs: seq<Voq>, x: Snapshot, side: Side): map<Voq, nat>
    requires WellShaped(voqs, x) && HeadsOneHot(voqs, x)
  {
    map e | e in voqs :: RankAt(voqs, x, side, e)
  }

  /** The backlogged VOQs, ranked by the heads. */
  ghost function Problem(voqs: seq<Voq>, x: Snapshot): Instance
    requires WellShaped(voqs, x) && HeadsOneHot(voqs, x)
  {
    Instance((set e | e in voqs && x.b[e]),
             RankMap(voqs, x, In),
             RankMap(voqs, x, Out))
  }

  ghost function Served(voqs: seq<Voq>, x: Snapshot): set<Voq>
    requires WellShaped(voqs, x)
  {
    set e | e in voqs && Matched(voqs, x, In, e)
  }

  lemma RanksDiffer(voqs: seq<Voq>, x: Snapshot, side: Side, e: Voq, f: Voq)
    requires WellShaped(voqs, x) && HeadsOneHot(voqs, x) && e in voqs && f in voqs
    requires e != f && Own(side, e) == Own(side, f)
    ensures RankAt(voqs, x, side, e) != RankAt(voqs, x, side, f)
  {
    RankInjective(HeadCell(HeadRow(voqs, x, side, e)), Index(voqs, side, e), Index(voqs, side, f),
                  Width(voqs, side, e));
  }

  lemma ProblemRanked(voqs: seq<Voq>, x: Snapshot)
    requires WellShaped(voqs, x) && HeadsOneHot(voqs, x)
    ensures Ranked(Problem(voqs, x))
  {
    forall e, f | e in voqs && f in voqs && e != f && e.0 == f.0
      ensures RankAt(voqs, x, In, e) != RankAt(voqs, x, In, f)
    {
      RanksDiffer(voqs, x, In, e, f);
    }
    forall e, f | e in voqs && f in voqs && e != f && e.1 == f.1
      ensures RankAt(voqs, x, Out, e) != RankAt(voqs, x, Out, f)
    {
      RanksDiffer(voqs, x, Out, e, f);
    }
  }

  ghost predicate Beats(voqs: seq<Voq>, x: Snapshot, side: Side, f: Voq, e: Voq)
    requires WellShaped(voqs, x) && HeadsOneHot(voqs, x) && e in voqs && f in voqs
  {
    Own(side, f) == Own(side, e) && RankAt(voqs, x, side, f) < RankAt(voqs, x, side, e)
  }

  ghost predicate Unbeaten(voqs: seq<Voq>, x: Snapshot, side: Side, e: Voq)
    requires WellShaped(voqs, x) && HeadsOneHot(voqs, x) && e in voqs
  {
    forall f :: f in voqs && Beats(voqs, x, side, f, e) ==> !Matched(voqs, x, side, f)
  }

  /** The cell condition of one port, said about VOQs instead of cells. */
  lemma NoBetterMeansUnbeaten(voqs: seq<Voq>, x: Snapshot, side: Side, e: Voq)
    requires Distinct(voqs) && WellShaped(voqs, x) && HeadsOneHot(voqs, x) && e in voqs
    ensures NoBetter(MatchRow(voqs, x, side, e), HeadRow(voqs, x, side, e), Index(voqs, side, e))
            <==> Unbeaten(voqs, x, side, e)
  {
    var row, head, idx := MatchRow(voqs, x, side, e), HeadRow(voqs, x, side, e), Index(voqs, side, e);
    var h, n := HeadCell(head), Width(voqs, side, e);
    if NoBetter(row, head, idx) {
      forall f | f in voqs && Beats(voqs, x, side, f, e)
        ensures !Matched(voqs, x, side, f)
      {
        assert Rank(h, Index(voqs, side, f), n) < Rank(h, idx, n);
      }
    }
    if Unbeaten(voqs, x, side, e) {
      forall p, i | 0 <= p < n && 0 <= i < n && head[p] && Rank(p, i, n) < Rank(p, idx, n)
        ensures !row[i]
      {
        var f := VoqAt(voqs, side, e, i);
        IndexOfVoqAt(voqs, side, e, i);
        assert Beats(voqs, x, side, f, e);
      }
    }
  }

  /** The same set of VOQs is read off either family of match variables. */
  ghost predicate SidesAgree(voqs: seq<Voq>, x: Snapshot)
    requires WellShaped(voqs, x)
  {
    forall e :: e in voqs ==> Matched(voqs, x, In, e) == Matched(voqs, x, Out, e)
  }

  lemma BeatsAgree(voqs: seq<Voq>, x: Snapshot, f: Voq, e: Voq)
    requires WellShaped(voqs, x) && HeadsOneHot(voqs, x) && Ranked(Problem(voqs, x))
    requires e in Problem(voqs, x).backlog && f in Problem(voqs, x).backlog
    ensures BeatsIn(Problem(voqs, x), f, e) <==> Beats(voqs, x, In, f, e)
    ensures BeatsOut(Problem(voqs, x), f, e) <==> Beats(voqs, x, Out, f, e)
  {
  }

  lemma OutrankedIsBeaten(voqs: seq<Voq>, x: Snapshot, e: Voq) returns (side: Side)
    requires WellShaped(voqs, x) && HeadsOneHot(voqs, x) && Ranked(Problem(voqs, x))
    requires SidesAgree(voqs, x) && Served(voqs, x) <= Problem(voqs, x).backlog
    requires e in Problem(voqs, x).backlog && Outranked(Problem(voqs, x), Served(voqs, x), e)
    ensures !Unbeaten(voqs, x, side, e)
  {
    var g, m := Problem(voqs, x), Served(voqs, x);
    var f :| f in m && (BeatsIn(g, f, e) || BeatsOut(g, f, e));
    BeatsAgree(voqs, x, f, e);
    side := if BeatsIn(g, f, e) then In else Out;
    assert Matched(voqs, x, side, f);
  }

  lemma BeatenIsOutranked(voqs: seq<Voq>, x: Snapshot, side: Side, e: Voq)
    requires WellShaped(voqs, x) && HeadsOneHot(voqs, x) && Ranked(Problem(voqs, x))
    requires SidesAgree(voqs, x) && Served(voqs, x) <= Problem(voqs, x).backlog
    requires e in Problem(voqs, x).backlog && !Unbeaten(voqs, x, side, e)
    ensures Outranked(Problem(voqs, x), Served(voqs, x), e)
  {
    var f :| f in voqs && Beats(voqs, x, side, f, e) && Matched(voqs, x, side, f);
    assert Matched(voqs, x, In, f);
    assert f in Served(voqs, x);
    BeatsAgree(voqs, x, f, e);
  }

  lemma UnbeatenMeansNotOutranked(voqs: seq<Voq>, x: Snapshot, e: Voq)
    requires WellShaped(voqs, x) && HeadsOneHot(voqs, x) && Ranked(Problem(voqs, x))
    requires SidesAgree(voqs, x) && Served(voqs, x) <= Problem(voqs, x).backlog
    requires e in Problem(voqs, x).backlog
    ensures Unbeaten(voqs, x, In, e) && Unbeaten(voqs, x, Out, e)
            <==> !Outranked(Problem(voqs, x), Served(voqs, x), e)
  {
    if Outranked(Problem(voqs, x), Served(voqs, x), e) {
      var side := OutrankedIsBeaten(voqs, x, e);
      assert side == In || side == Out;
    } else if !Unbeaten(voqs, x, In, e) {
      BeatenIsOutranked(voqs, x, In, e);
    } else if !Unbeaten(voqs, x, Out, e) {
      BeatenIsOutranked(voqs, x, Out, e);
    }
  }

  lemma MatchCondMeansNotOutranked(voqs: seq<Voq>, x: Snapshot, e: Voq)
    requires Distinct(voqs) && WellShaped(voqs, x) && HeadsOneHot(voqs, x) && e in voqs
    requires SidesAgree(voqs, x) && Ranked(Problem(voqs, x)) && Served(voqs, x) <= Problem(voqs, x).backlog
    ensures x.b[e] ==> (MatchCond(voqs, x, e) <==> !Outranked(Problem(voqs, x), Served(voqs, x), e))
  {
    if x.b[e] {
      NoBetterMeansUnbeaten(voqs, x, In, e);
      NoBetterMeansUnbeaten(voqs, x, Out, e);
      UnbeatenMeansNotOutranked(voqs, x, e);
    }
  }

  lemma RowAtMostOne(voqs: seq<Voq>, x: Snapshot, side: Side, e: Voq)
    requires Distinct(voqs) && WellShaped(voqs, x) && e in voqs
    requires SidesAgree(voqs, x) && ConflictFree(Served(voqs, x))
    ensures AtMostOne(MatchRow(voqs, x, side, e))
  {
    var row := MatchRow(voqs, x, side, e);
    forall i, j | 0 <= i < |row| && 0 <= j < |row| && i != j
      ensures !row[i] || !row[j]
    {
      var f, g := VoqAt(voqs, side, e, i), VoqAt(voqs, side, e, j);
      IndexOfVoqAt(voqs, side, e, i);
      IndexOfVoqAt(voqs, side, e, j);
      assert f in Served(voqs, x) <==> row[i];
      assert g in Served(voqs, x) <==> row[j];
    }
  }

  lemma RowsAtMostOne(voqs: seq<Voq>, x: Snapshot)
    requires Distinct(voqs) && WellShaped(voqs, x) && SidesAgree(voqs, x) && ConflictFree(Served(voqs, x))
    ensures NoDoubleMatch(voqs, x)
  {
    forall side, e | e in voqs
      ensures AtMostOne(MatchRow(voqs, x, side, e))
    {
      RowAtMostOne(voqs, x, side, e);
    }
  }

  lemma PriorityMeansStable(voqs: seq<Voq>, x: Snapshot)
    requires Distinct(voqs) && WellShaped(voqs, x) && HeadsOneHot(voqs, x) && Ranked(Problem(voqs, x))
    requires Agree(voqs, x) && MatchesByPriority(voqs, x)
    ensures SidesAgree(voqs, x) && Stable(Problem(voqs, x), Served(voqs, x)) && NoDoubleMatch(voqs, x)
  {
    var g, m := Problem(voqs, x), Served(voqs, x);
    forall e | e in g.backlog
      ensures e in m <==> !Outranked(g, m, e)
    {
      assert PriorityAt(voqs, x, e);
      MatchCondMeansNotOutranked(voqs, x, e);
    }
    StableIsConflictFree(g, m);
    RowsAtMostOne(voqs, x);
  }

  lemma StableMatchAt(voqs: seq<Voq>, x: Snapshot, e: Voq)
    requires Distinct(voqs) && WellShaped(voqs, x) && HeadsOneHot(voqs, x) && Ranked(Problem(voqs, x)) && e in voqs
    requires SidesAgree(voqs, x) && Stable(Problem(voqs, x), Served(voqs, x))
    ensures PriorityAt(voqs, x, e) && (Matched(voqs, x, In, e) ==> x.b[e])
  {
    var g, m := Problem(voqs, x), Served(voqs, x);
    MatchCondMeansNotOutranked(voqs, x, e);
    assert e in m ==> e in g.backlog;
  }

  lemma StableMeansPriority(voqs: seq<Voq>, x: Snapshot)
    requires Distinct(voqs) && WellShaped(voqs, x) && HeadsOneHot(voqs, x) && Ranked(Problem(voqs, x))
    requires SidesAgree(voqs, x) && Stable(Problem(voqs, x), Served(voqs, x))
    ensures StepConstraints(voqs, x)
  {
    forall e | e in voqs
      ensures PriorityAt(voqs, x, e) && (Matched(voqs, x, In, e) ==> x.b[e])
    {
      StableMatchAt(voqs, x, e);
    }
    StableIsConflictFree(Problem(voqs, x), Served(voqs, x));
    RowsAtMostOne(voqs, x);
  }

  /**
    The constraints of one step hold exactly when the two families of match variables describe one
    stable matching of the backlogged VOQs.  In particular the explicit "at most one match per port"
    constraints add nothing to the priority constraints.
   */
  lemma ConstraintsMeanStable(voqs: seq<Voq>, x: Snapshot)
    requires Distinct(voqs) && WellShaped(voqs, x) && HeadsOneHot(voqs, x)
    ensures Ranked(Problem(voqs, x))
    ensures StepConstraints(voqs, x) <==> SidesAgree(voqs, x) && Stable(Problem(voqs, x), Served(voqs, x))
    ensures Agree(voqs, x) && MatchesByPriority(voqs, x) ==> NoDoubleMatch(voqs, x)
  {
    ProblemRanked(voqs, x);
    if Agree(voqs, x) && MatchesByPriority(voqs, x) {
      PriorityMeansStable(voqs, x);
    }
    if SidesAgree(voqs, x) && Stable(Problem(voqs, x), Served(voqs, x)) {
      StableMeansPriority(voqs, x);
    }
  }

  // ---------------------------------------------------------------- consequences for one step

  ghost predicate SameHeadsAndBacklog(voqs: seq<Voq>, x: Snapshot, y: Snapshot)
    requires WellShaped(voqs, x) && WellShaped(voqs, y)
  {
    && (forall e :: e in voqs ==> x.b[e] == y.b[e])
    && forall side, e :: e in voqs ==> HeadRow(voqs, x, side, e) == HeadRow(voqs, y, side, e)
  }

  lemma SameRanks(voqs: seq<Voq>, x: Snapshot, y: Snapshot, side: Side)
    requires WellShaped(voqs, x) && WellShaped(voqs, y) && HeadsOneHot(voqs, x) && HeadsOneHot(voqs, y)
    requires forall e :: e in voqs ==> HeadRow(voqs, x, side, e) == HeadRow(voqs, y, side, e)
    ensures RankMap(voqs, x, side) == RankMap(voqs, y, side)
  {
  }

  lemma SameProblem(voqs: seq<Voq>, x: Snapshot, y: Snapshot)
    requires WellShaped(voqs, x) && WellShaped(voqs, y) && HeadsOneHot(voqs, x) && HeadsOneHot(voqs, y)
    requires SameHeadsAndBacklog(voqs, x, y)
    ensures Problem(voqs, x) == Problem(voqs, y)
  {
    SameRanks(voqs, x, y, In);
    SameRanks(voqs, x, y, Out);
    assert Problem(voqs, x).backlog == Problem(voqs, y).backlog;
  }

  /** The heads and the backlog fix which ports are busy, though not which VOQs are served. */
  lemma BusyPortsDetermined(voqs: seq<Voq>, x: Snapshot, y: Snapshot)
    requires Distinct(voqs) && WellShaped(voqs, x) && WellShaped(voqs, y)
    requires StepConstraints(voqs, x) && StepConstraints(voqs, y) && SameHeadsAndBacklog(voqs, x, y)
    ensures Inputs(Served(voqs, x)) == Inputs(Served(voqs, y))
    ensures Outputs(Served(voqs, x)) == Outputs(Served(voqs, y))
    ensures |Served(voqs, x)| == |Served(voqs, y)|
  {
    ConstraintsMeanStable(voqs, x);
    ConstraintsMeanStable(voqs, y);
    SameProblem(voqs, x, y);
    SamePortsMatched(Problem(voqs, x), Served(voqs, x), Served(voqs, y));
  }

  /** No backlogged VOQ has two idle ports, and no schedule serves more than twice as many VOQs. */
  lemma StepServesHalf(voqs: seq<Voq>, x: Snapshot, n: set<Voq>)
    requires Distinct(voqs) && WellShaped(voqs, x) && StepConstraints(voqs, x)
    requires ConflictFree(n) && forall e :: e in n ==> e in voqs && x.b[e]
    ensures forall e :: e in voqs && x.b[e] ==> e.0 in Inputs(Served(voqs, x)) || e.1 in Outputs(Served(voqs, x))
    ensures |n| <= 2 * |Served(voqs, x)|
  {
    ConstraintsMeanStable(voqs, x);
    StableIsMaximal(Problem(voqs, x), Served(voqs, x));
    StableServesHalf(Problem(voqs, x), Served(voqs, x), n);
  }
}
