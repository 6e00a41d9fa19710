/** Runs of a switch: how heads move, that runs exist, when a VOQ is served. */
module VoqRuns {
  import opened Cyclic
  import opened StableMatching
  import opened VoqSwitch
  import opened Voqs

  type Backlog = map<Voq, bool>
  type Heads = map<int, seq<bool>>

  ghost predicate Run(voqs: seq<Voq>, xs: seq<Snapshot>) {
    && |xs| > 0
    && (forall t :: 0 <= t < |xs| ==> WellShaped(voqs, xs[t]) && StepConstraints(voqs, xs[t]))
    && HeadsAtFirstCell(voqs, xs[0])
    && forall t :: 0 < t < |xs| ==> HeadsMove(voqs, xs[t - 1], xs[t])
  }

  // ---------------------------------------------------------------- building the next step

  function Ports(voqs: seq<Voq>, side: Side): set<int> {
    set e | e in voqs :: Own(side, e)
  }

  /** The rows that say "exactly the VOQs of m are matched". */
  ghost function RowsOf(voqs: seq<Voq>, side: Side, m: set<Voq>): Heads {
    map p | p in Ports(voqs, side) ::
      seq(|Peers(voqs, side, p)|, i requires 0
        <= i < |Peers(voqs, side, p)| => Join(side, p, Peers(voqs, side, p)[i]) in m)
  }

  ghost predicate GoodHeads(voqs: seq<Voq>, side: Side, heads: Heads) {
    forall e :: e in voqs ==>
      && Own(side, e) in heads
      && |heads[Own(side, e)]| == Width(voqs, side, e)
      && OneHot(heads[Own(side, e)])
  }

  lemma RowsOfShape(voqs: seq<Voq>, side: Side, m: set<Voq>, e: Voq)
    requires e in voqs
    ensures Own(side, e) in RowsOf(voqs, side, m)
    ensures |RowsOf(voqs, side, m)[Own(side, e)]| == Width(voqs, side, e)
    ensures RowsOf(voqs, side, m)[Own(side, e)][Index(voqs, side, e)] <==> e in m
  {
    assert Join(side, Own(side, e), Peer(side, e)) == e;
  }

  ghost function Fresh(voqs: seq<Voq>, inHeads: Heads, outHeads: Heads, b: Backlog, m: set<Voq>): Snapshot {
    Snapshot(RowsOf(voqs, In, m), RowsOf(voqs, Out, m), inHeads, outHeads, b)
  }

  lemma FreshAt(voqs: seq<Voq>, inHeads: Heads, outHeads: Heads, b: Backlog, m: set<Voq>, side: Side, e: Voq)
    requires GoodHeads(voqs, In, inHeads) && GoodHeads(voqs, Out, outHeads)
    requires e in voqs
    ensures var x := Fresh(voqs, inHeads, outHeads, b, m);
            && Own(side, e) in x.Match(side) && |x.Match(side)[Own(side, e)]| == Width(voqs, side, e)
            && Own(side, e) in x.Head(side) && |x.Head(side)[Own(side, e)]| == Width(voqs, side, e)
            && OneHot(x.Head(side)[Own(side, e)])
            && (x.Match(side)[Own(side, e)][Index(voqs, side, e)] <==> e in m)
  {
    RowsOfShape(voqs, side, m, e);
  }

  lemma FreshShaped(voqs: seq<Voq>, inHeads: Heads, outHeads: Heads, b: Backlog, m: set<Voq>)
    requires GoodHeads(voqs, In, inHeads) && GoodHeads(voqs, Out, outHeads)
    requires forall e :: e in voqs ==> e in b
    ensures WellShaped(voqs, Fresh(voqs, inHeads, outHeads, b, m))
  {
    var x := Fresh(voqs, inHeads, outHeads, b, m);
    forall side, e | e in voqs
      ensures Own(side, e) in x.Match(side) && |x.Match(side)[Own(side, e)]| == Width(voqs, side, e)
      ensures Own(side, e) in x.Head(side) && |x.Head(side)[Own(side, e)]| == Width(voqs, side, e)
    {
      FreshAt(voqs, inHeads, outHeads, b, m, side, e);
    }
  }

  ghost predicate MatchedExactly(voqs: seq<Voq>, x: Snapshot, m: set<Voq>)
    requires WellShaped(voqs, x)
  {
    forall side, e :: e in voqs ==> (Matched(voqs, x, side, e) <==> e in m)
  }

  lemma FreshCells(voqs: seq<Voq>, inHeads: Heads, outHeads: Heads, b: Backlog, m: set<Voq>)
    requires GoodHeads(voqs, In, inHeads) && GoodHeads(voqs, Out, outHeads)
    requires WellShaped(voqs, Fresh(voqs, inHeads, outHeads, b, m))
    ensures HeadsOneHot(voqs, Fresh(voqs, inHeads, outHeads, b, m))
    ensures MatchedExactly(voqs, Fresh(voqs, inHeads, outHeads, b, m), m)
  {
    forall side, e | e in voqs
      ensures OneHot(HeadRow(voqs, Fresh(voqs, inHeads, outHeads, b, m), side, e))
      ensures Matched(voqs, Fresh(voqs, inHeads, outHeads, b, m), side, e) <==> e in m
    {
      FreshAt(voqs, inHeads, outHeads, b, m, side, e);
    }
  }

  lemma ServedIs(voqs: seq<Voq>, x: Snapshot, m: set<Voq>)
    requires WellShaped(voqs, x) && MatchedExactly(voqs, x, m)
    requires forall e :: e in m ==> e in voqs
    ensures SidesAgree(voqs, x) && Served(voqs, x) == m
  {
  }

  lemma BuildSnapshot(voqs: seq<Voq>, inHeads: Heads, outHeads: Heads, b: Backlog, m: set<Voq>) returns (x: Snapshot)
    requires GoodHeads(voqs, In, inHeads) && GoodHeads(voqs, Out, outHeads)
    requires forall e :: e in voqs ==> e in b
    requires forall e :: e in m ==> e in voqs
    ensures WellShaped(voqs, x) && HeadsOneHot(voqs, x) && SidesAgree(voqs, x)
    ensures x.inPrioHead == inHeads && x.outPrioHead == outHeads && x.b == b
    ensures Served(voqs, x) == m
  {
    x := Fresh(voqs, inHeads, outHeads, b, m);
    FreshShaped(voqs, inHeads, outHeads, b, m);
    FreshCells(voqs, inHeads, outHeads, b, m);
    ServedIs(voqs, x, m);
  }

  lemma SnapshotProblem(voqs: seq<Voq>, x: Snapshot, y: Snapshot)
    requires WellShaped(voqs, x) && WellShaped(voqs, y) && HeadsOneHot(voqs, x) && HeadsOneHot(voqs, y)
    requires x.inPrioHead == y.inPrioHead && x.outPrioHead == y.outPrioHead && x.b == y.b
    ensures Problem(voqs, x) == Problem(voqs, y)
  {
    SameProblem(voqs, x, y);
  }

  /** Whatever the one-hot heads and the backlog, some matching meets the constraints. */
  lemma StepExists(voqs: seq<Voq>, inHeads: Heads, outHeads: Heads, b: Backlog) returns (x: Snapshot)
    requires Distinct(voqs)
    requires GoodHeads(voqs, In, inHeads) && GoodHeads(voqs, Out, outHeads)
    requires forall e :: e in voqs ==> e in b
    ensures WellShaped(voqs, x) && StepConstraints(voqs, x)
    ensures x.inPrioHead == inHeads && x.outPrioHead == outHeads && x.b == b
  {
    var idle := BuildSnapshot(voqs, inHeads, outHeads, b, {});
    ConstraintsMeanStable(voqs, idle);
    var m := StableExists(Problem(voqs, idle));
    x := BuildSnapshot(voqs, inHeads, outHeads, b, m);
    SnapshotProblem(voqs, idle, x);
    ConstraintsMeanStable(voqs, x);
  }

  // ---------------------------------------------------------------- heads

  function NextHead(matched: seq<bool>, head: seq<bool>): (next: seq<bool>)
    requires |matched| == |head|
  {
    if exists i :: 0 <= i < |matched| && matched[i] then matched else head
  }

  /** One-hot heads stay one-hot, and the update leaves no choice. */
  lemma NextHeadDetermined(matched: seq<bool>, head: seq<bool>, next: seq<bool>)
    requires |matched| == |head| == |next| && AtMostOne(matched) && OneHot(head)
    ensures OneHot(NextHead(matched, head))
    ensures OneHot(next) && HeadMoves(matched, head, next) <==> next == NextHead(matched, head)
  {
    var kept := NextHead(matched, head);
    if OneHot(next) && HeadMoves(matched, head, next) {
      forall i | 0 <= i < |next|
        ensures next[i] == kept[i]
      {
      }
    }
  }

  ghost predicate IsNextHeads(voqs: seq<Voq>, x: Snapshot, side: Side, heads: Heads)
    requires WellShaped(voqs, x)
  {
    forall e :: e in voqs ==>
      && Own(side, e) in heads
      && heads[Own(side, e)] == NextHead(MatchRow(voqs, x, side, e), HeadRow(voqs, x, side, e))
  }

  lemma NextHeadsExist(voqs: seq<Voq>, x: Snapshot, side: Side) returns (heads: Heads)
    requires WellShaped(voqs, x)
    ensures IsNextHeads(voqs, x, side, heads)
  {
    heads := map p | p in Ports(voqs, side) ::
      (var e :| e in voqs && Own(side, e) == p;
       NextHead(MatchRow(voqs, x, side, e), HeadRow(voqs, x, side, e)));
  }

  lemma NextHeadsGood(voqs: seq<Voq>, x: Snapshot, side: Side, heads: Heads)
    requires WellShaped(voqs, x) && NoDoubleMatch(voqs, x) && HeadsOneHot(voqs, x)
    requires IsNextHeads(voqs, x, side, heads)
    ensures GoodHeads(voqs, side, heads)
  {
    forall e | e in voqs
      ensures OneHot(NextHead(MatchRow(voqs, x, side, e), HeadRow(voqs, x, side, e)))
    {
      var row, head := MatchRow(voqs, x, side, e), HeadRow(voqs, x, side, e);
      NextHeadDetermined(row, head, NextHead(row, head));
    }
  }

  // ---------------------------------------------------------------- no run gets stuck

  function FirstCell(n: nat): seq<bool> {
    seq(n, i => i == 0)
  }

  function InitialHeads(voqs: seq<Voq>, side: Side): Heads {
    map p | p in Ports(voqs, side) :: FirstCell(|Peers(voqs, side, p)|)
  }

  lemma InitialHeadsGood(voqs: seq<Voq>, side: Side)
    ensures GoodHeads(voqs, side, InitialHeads(voqs, side))
  {
    forall e | e in voqs
      ensures OneHot(InitialHeads(voqs, side)[Own(side, e)])
    {
      var row := InitialHeads(voqs, side)[Own(side, e)];
      var i := Index(voqs, side, e);
      assert row[0];
    }
  }

  lemma InitialHeadsFirst(voqs: seq<Voq>, x: Snapshot)
    requires WellShaped(voqs, x)
    requires x.inPrioHead == InitialHeads(voqs, In) && x.outPrioHead == InitialHeads(voqs, Out)
    ensures HeadsAtFirstCell(voqs, x)
  {
    forall side, e | e in voqs
      ensures HeadRow(voqs, x, side, e) == FirstCell(Width(voqs, side, e))
    {
    }
  }

  lemma RunStarts(voqs: seq<Voq>, b: Backlog) returns (x: Snapshot)
    requires Distinct(voqs) && forall e :: e in voqs ==> e in b
    ensures Run(voqs, [x]) && x.b == b
  {
    InitialHeadsGood(voqs, In);
    InitialHeadsGood(voqs, Out);
    x := StepExists(voqs, InitialHeads(voqs, In), InitialHeads(voqs, Out), b);
    InitialHeadsFirst(voqs, x);
  }

  lemma AppendStep(voqs: seq<Voq>, xs: seq<Snapshot>, y: Snapshot)
    requires Run(voqs, xs) && WellShaped(voqs, y) && StepConstraints(voqs, y)
    requires HeadsMove(voqs, xs[|xs| - 1], y)
    ensures Run(voqs, xs + [y])
  {
    var ys := xs + [y];
    forall t | 0 <= t < |ys|
      ensures WellShaped(voqs, ys[t]) && StepConstraints(voqs, ys[t])
      ensures t > 0 ==> HeadsMove(voqs, ys[t - 1], ys[t])
    {
      if t < |xs| {
        assert ys[t] == xs[t] && (t > 0 ==> ys[t - 1] == xs[t - 1]);
      }
    }
  }

  lemma ContinuedHeadsMove(voqs: seq<Voq>, x: Snapshot, y: Snapshot)
    requires WellShaped(voqs, x) && NoDoubleMatch(voqs, x) && HeadsOneHot(voqs, x) && WellShaped(voqs, y)
    requires forall side :: IsNextHeads(voqs, x, side, y.Head(side))
    ensures HeadsMove(voqs, x, y)
  {
    forall side, e | e in voqs
      ensures PortHeadMoves(voqs, x, y, side, e)
    {
      assert IsNextHeads(voqs, x, side, y.Head(side));
      var row, head := MatchRow(voqs, x, side, e), HeadRow(voqs, x, side, e);
      NextHeadDetermined(row, head, NextHead(row, head));
    }
  }

  /** Every run can take one more step under any backlog. */
  lemma RunContinues(voqs: seq<Voq>, xs: seq<Snapshot>, b: Backlog) returns (y: Snapshot)
    requires Distinct(voqs) && Run(voqs, xs) && forall e :: e in voqs ==> e in b
    ensures Run(voqs, xs + [y]) && y.b == b
  {
    var x := xs[|xs| - 1];
    var inHeads := NextHeadsExist(voqs, x, In);
    var outHeads := NextHeadsExist(voqs, x, Out);
    NextHeadsGood(voqs, x, In, inHeads);
    NextHeadsGood(voqs, x, Out, outHeads);
    y := StepExists(voqs, inHeads, outHeads, b);
    ContinuedHeadsMove(voqs, x, y);
    AppendStep(voqs, xs, y);
  }

  /** For any sequence of backlog vectors there is a run that meets exactly these backlogs. */
  lemma {:induction false} RunExists(voqs: seq<Voq>, bs: seq<Backlog>) returns (xs: seq<Snapshot>)
    requires Distinct(voqs) && |bs| > 0
    requires forall t, e :: 0 <= t < |bs| && e in voqs ==> e in bs[t]
    ensures Run(voqs, xs) && |xs| == |bs|
    ensures forall t :: 0 <= t < |bs| ==> xs[t].b == bs[t]
  {
    var last := |bs| - 1;
    if last == 0 {
      var x := RunStarts(voqs, bs[0]);
      xs := [x];
    } else {
      var front := RunExists(voqs, bs[..last]);
      var y := RunContinues(voqs, front, bs[last]);
      xs := front + [y];
    }
  }

  /** Along a run the heads after a step are a function of the heads and the matches before it. */
  lemma HeadsDetermined(voqs: seq<Voq>, xs: seq<Snapshot>, t: nat, side: Side, e: Voq)
    requires Run(voqs, xs) && t + 1 < |xs| && e in voqs
    ensures HeadRow(voqs, xs[t + 1], side, e)
            == NextHead(MatchRow(voqs, xs[t], side, e), HeadRow(voqs, xs[t], side, e))
  {
    var x, y := xs[t], xs[t + 1];
    assert HeadsMove(voqs, xs[t + 1 - 1], xs[t + 1]);
    assert PortHeadMoves(voqs, x, y, side, e);
    NextHeadDetermined(MatchRow(voqs, x, side, e), HeadRow(voqs, x, side, e), HeadRow(voqs, y, side, e));
  }

  ghost predicate NoneMatched(voqs: seq<Voq>, x: Snapshot, side: Side, e: Voq)
    requires WellShaped(voqs, x)
  {
    forall f :: f in voqs && Own(side, f) == Own(side, e) ==> !Matched(voqs, x, side, f)
  }

  /** A port at which nothing is matched keeps its head. */
  lemma HeadKept(voqs: seq<Voq>, xs: seq<Snapshot>, t: nat, side: Side, e: Voq)
    requires Distinct(voqs) && Run(voqs, xs) && t + 1 < |xs| && e in voqs
    requires NoneMatched(voqs, xs[t], side, e)
    ensures HeadRow(voqs, xs[t + 1], side, e) == HeadRow(voqs, xs[t], side, e)
  {
    var row := MatchRow(voqs, xs[t], side, e);
    forall i | 0 <= i < |row|
      ensures !row[i]
    {
      IndexOfVoqAt(voqs, side, e, i);
      assert !Matched(voqs, xs[t], side, VoqAt(voqs, side, e, i));
    }
    HeadsDetermined(voqs, xs, t, side, e);
  }

  ghost predicate OnlyCell(row: seq<bool>, c: nat) {
    forall i :: 0 <= i < |row| ==> (row[i] <==> i == c)
  }

  /** After a match at a port the cell of the matched VOQ is its only head. */
  lemma HeadFollows(voqs: seq<Voq>, xs: seq<Snapshot>, t: nat, side: Side, f: Voq, e: Voq)
    requires Run(voqs, xs) && t + 1 < |xs| && e in voqs && f in voqs && Own(side, f) == Own(side, e)
    requires Matched(voqs, xs[t], side, f)
    ensures OnlyCell(HeadRow(voqs, xs[t + 1], side, e), Index(voqs, side, f))
  {
    assert AtMostOne(MatchRow(voqs, xs[t], side, e));
    HeadsDetermined(voqs, xs, t, side, e);
  }

  /** Nothing is matched at the port of e in steps a to c - 1. */
  ghost predicate IdlePort(voqs: seq<Voq>, xs: seq<Snapshot>, side: Side, e: Voq, a: nat, c: nat)
    requires Run(voqs, xs) && c <= |xs|
  {
    forall t :: a <= t < c ==> NoneMatched(voqs, xs[t], side, e)
  }

  lemma {:induction false} NeverChanges<T>(vs: seq<T>, a: nat, t: nat)
    requires a <= t < |vs| && forall i, j :: a <= i < t && j == i + 1 ==> vs[j] == vs[i]
    ensures vs[t] == vs[a]
  {
    if a < t {
      NeverChanges(vs, a, t - 1);
    }
  }

  ghost function HeadsOver(voqs: seq<Voq>, xs: seq<Snapshot>, side: Side, e: Voq): (rows: seq<seq<bool>>)
    requires Run(voqs, xs) && e in voqs
    ensures |rows| == |xs| && forall i :: 0 <= i < |xs| ==> rows[i] == HeadRow(voqs, xs[i], side, e)
  {
    seq(|xs|, i requires 0 <= i < |xs| => HeadRow(voqs, xs[i], side, e))
  }

  /** While a port is idle its head does not change. */
  lemma HeadKeptWhileIdle(voqs: seq<Voq>, xs: seq<Snapshot>, a: nat, t: nat, side: Side, e: Voq)
    requires Distinct(voqs) && Run(voqs, xs) && a <= t < |xs| && e in voqs && IdlePort(voqs, xs, side, e, a, t)
    ensures HeadRow(voqs, xs[t], side, e) == HeadRow(voqs, xs[a], side, e)
  {
    var rows := HeadsOver(voqs, xs, side, e);
    forall i, j | a <= i < t && j == i + 1
      ensures rows[j] == rows[i]
    {
      HeadKept(voqs, xs, i, side, e);
    }
    NeverChanges(rows, a, t);
  }

  /** The head of a port is its first cell until something is matched there. */
  lemma HeadBeforeMatches(voqs: seq<Voq>, xs: seq<Snapshot>, t: nat, side: Side, e: Voq)
    requires Distinct(voqs) && Run(voqs, xs) && t < |xs| && e in voqs && IdlePort(voqs, xs, side, e, 0, t)
    ensures OnlyCell(HeadRow(voqs, xs[t], side, e), 0)
  {
    HeadKeptWhileIdle(voqs, xs, 0, t, side, e);
  }

  lemma OnlyCellKept(voqs: seq<Voq>, xs: seq<Snapshot>, a: nat, t: nat, side: Side, e: Voq, c: nat)
    requires Distinct(voqs) && Run(voqs, xs) && a <= t < |xs| && e in voqs && IdlePort(voqs, xs, side, e, a, t)
    requires OnlyCell(HeadRow(voqs, xs[a], side, e), c)
    ensures OnlyCell(HeadRow(voqs, xs[t], side, e), c)
  {
    HeadKeptWhileIdle(voqs, xs, a, t, side, e);
  }

  /** From then on it is the VOQ that was matched there last. */
  lemma HeadIsLastMatched(voqs: seq<Voq>, xs: seq<Snapshot>, u: nat, t: nat, side: Side, f: Voq, e: Voq)
    requires Distinct(voqs) && Run(voqs, xs) && u < t < |xs| && e in voqs && f in voqs && Own(side, f) == Own(side, e)
    requires Matched(voqs, xs[u], side, f) && IdlePort(voqs, xs, side, e, u + 1, t)
    ensures OnlyCell(HeadRow(voqs, xs[t], side, e), Index(voqs, side, f))
  {
    var c := Index(voqs, side, f);
    HeadFollows(voqs, xs, u, side, f, e);
    assert OnlyCell(HeadRow(voqs, xs[u + 1], side, e), c);
    OnlyCellKept(voqs, xs, u + 1, t, side, e, c);
  }

  // ---------------------------------------------------------------- progress

  function Other(side: Side): Side {
    if side.In? then Out else In
  }

  /** During [a, b) VOQ e is backlogged and is the only backlogged VOQ at its port on the given side. */
  ghost predicate AloneAt(voqs: seq<Voq>, xs: seq<Snapshot>, side: Side, e: Voq, a: nat, b: nat)
    requires Run(voqs, xs) && e in voqs && a <= b <= |xs|
  {
    forall t :: a <= t < b ==>
      && xs[t].b[e]
      && forall f :: f in voqs && f != e && Own(side, f) == Own(side, e) ==> !xs[t].b[f]
  }

  /** A VOQ without rivals on one side loses only to a better VOQ at the other side. */
  lemma LosesToBetter(voqs: seq<Voq>, x: Snapshot, side: Side, e: Voq) returns (f: Voq)
    requires Distinct(voqs) && WellShaped(voqs, x) && StepConstraints(voqs, x) && e in voqs && x.b[e]
    requires forall f :: f in voqs && f != e && Own(side, f) == Own(side, e) ==> !x.b[f]
    requires !Matched(voqs, x, In, e)
    ensures f in voqs && Beats(voqs, x, Other(side), f, e) && Matched(voqs, x, Other(side), f)
  {
    NoBetterMeansUnbeaten(voqs, x, In, e);
    NoBetterMeansUnbeaten(voqs, x, Out, e);
    assert !MatchCond(voqs, x, e);
    assert forall g :: g in voqs && Matched(voqs, x, side, g) ==> x.b[g];
    assert Unbeaten(voqs, x, side, e);
    f :| f in voqs && Beats(voqs, x, Other(side), f, e) && Matched(voqs, x, Other(side), f);
  }

  lemma NewHeadRank(matched: seq<bool>, head: seq<bool>, i: nat, j: nat)
    requires |matched| == |head| && AtMostOne(matched) && OneHot(head)
    requires i < |head| && j < |head| && matched[i]
    requires Rank(HeadCell(head), i, |head|) < Rank(HeadCell(head), j, |head|)
    ensures OneHot(NextHead(matched, head))
    ensures Rank(HeadCell(NextHead(matched, head)), j, |head|)
            == Rank(HeadCell(head), j, |head|) - Rank(HeadCell(head), i, |head|) - 1
  {
    NextHeadDetermined(matched, head, matched);
    assert HeadCell(NextHead(matched, head)) == i;
  }

  /** After losing to f at a port, e stands strictly closer behind the new head of that port. */
  lemma LossBringsCloser(voqs: seq<Voq>, xs: seq<Snapshot>, t: nat, side: Side, f: Voq, e: Voq)
    requires Run(voqs, xs) && t + 1 < |xs| && e in voqs && f in voqs
    requires Beats(voqs, xs[t], side, f, e) && Matched(voqs, xs[t], side, f)
    ensures RankAt(voqs, xs[t + 1], side, e) == RankAt(voqs, xs[t], side, e) - RankAt(voqs, xs[t], side, f) - 1
  {
    HeadsDetermined(voqs, xs, t, side, e);
    NewHeadRank(MatchRow(voqs, xs[t], side, e), HeadRow(voqs, xs[t], side, e),
                Index(voqs, side, f), Index(voqs, side, e));
  }

  lemma {:induction false} ServedWithinRank(voqs: seq<Voq>, xs: seq<Snapshot>, side: Side, e: Voq, a: nat, b: nat)
    returns (t: nat)
    requires Distinct(voqs) && Run(voqs, xs) && e in voqs && a < b <= |xs| && AloneAt(voqs, xs, side, e, a, b)
    requires RankAt(voqs, xs[a], Other(side), e) < b - a
    ensures a <= t < b && Matched(voqs, xs[t], In, e)
    decreases b - a
  {
    if Matched(voqs, xs[a], In, e) {
      t := a;
    } else {
      var f := LosesToBetter(voqs, xs[a], side, e);
      LossBringsCloser(voqs, xs, a, Other(side), f, e);
      t := ServedWithinRank(voqs, xs, side, e, a + 1, b);
    }
  }

  /**
    A VOQ that stays backlogged and has no backlogged rival at one of its ports is served within as
    many steps as its other port has VOQs.
   */
  lemma VoqProgress(voqs: seq<Voq>, xs: seq<Snapshot>, side: Side, e: Voq, a: nat)
    requires Distinct(voqs) && Run(voqs, xs) && e in voqs
    requires a + Width(voqs, Other(side), e) <= |xs|
    requires AloneAt(voqs, xs, side, e, a, a + Width(voqs, Other(side), e))
    ensures exists t :: a <= t < a + Width(voqs, Other(side), e) && Matched(voqs, xs[t], In, e)
  {
    var i := Index(voqs, Other(side), e);
    var t := ServedWithinRank(voqs, xs, side, e, a, a + Width(voqs, Other(side), e));
  }
}
