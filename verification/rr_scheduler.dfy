/** The round-robin contention point of src/rr_checker.cpp: runs, work conservation and fairness. */
module RRScheduler {
  import opened CountVectors
  import opened BufferTrace
  import opened Cyclic
  import opened FifoQueue
  import opened RoundRobin
  import opened Scheduler
  import StsBuffer

  // ---------------------------------------------------------------- the relation

  ghost predicate OutAt(bufs: seq<Trace>, turn: int, t: nat)
    requires HasStep(bufs, t)
  {
    forall i :: 0 <= i < |bufs| ==> Sum(bufs[i].o[t]) == (if bufs[i].b[t] && turn == i then 1 else 0)
  }

  /** out */
  method Out(bufs: seq<Trace>, turn: int, t: nat) returns (res: bool)
    requires HasStep(bufs, t)
    ensures res <==> OutAt(bufs, turn, t)
  {
    res := true;
    for i := 0 to |bufs|
      invariant res <==> forall l :: 0 <= l < i ==> Sum(bufs[l].o[t]) == (if bufs[l].b[t] && turn == l then 1 else 0)
    {
      res := res && if bufs[i].b[t] && turn == i then Sum(bufs[i].o[t]) == 1 else Sum(bufs[i].o[t]) == 0;
    }
  }

  /** One transition: nothing is said about the next turn when the current one is out of range. */
  ghost predicate TurnMoves(b: seq<bool>, turn: int, next: int) {
    0 <= turn < |b| ==> next == NextTurn(turn, b)
  }

  ghost predicate StepOk(bufs: seq<Trace>, s: seq<int>, t: nat) {
    && t < |s| && HasStep(bufs, t)
    && OutAt(bufs, s[t], t)
    && (if t == 0 then FirstBacklogged(Flags(bufs, 0), s[0]) else TurnMoves(Flags(bufs, t), s[t - 1], s[t]))
  }

  ghost predicate Run(bufs: seq<Trace>, s: seq<int>, steps: nat, k: nat, cap: int) {
    && |bufs| > 0 && BuffersRun(bufs, steps, k, cap)
    && forall t :: 0 <= t < steps ==> StepOk(bufs, s, t)
  }

  /** init and out for step 0, trs and out for a later step. */
  method StepHolds(bufs: seq<Trace>, s: seq<int>, t: nat) returns (ok: bool)
    requires |bufs| > 0 && t < |s| && HasStep(bufs, t)
    ensures ok <==> StepOk(bufs, s, t)
  {
    var moves;
    if t == 0 {
      moves := InitTurn(Flags(bufs, 0), s[0]);
    } else {
      moves := BackwardTrs(s[t - 1], s[t], Flags(bufs, t));
    }
    var out := Out(bufs, s[t], t);
    ok := moves && out;
  }

  /** All steps, as STSChecker unrolls them. */
  method Unroll(bufs: seq<Trace>, s: seq<int>, steps: nat) returns (ok: bool)
    requires |bufs| > 0 && steps <= |s| && forall t :: 0 <= t < steps ==> HasStep(bufs, t)
    ensures ok <==> forall t :: 0 <= t < steps ==> StepOk(bufs, s, t)
  {
    ok := true;
    for t := 0 to steps
      invariant ok <==> forall u :: 0 <= u < t ==> StepOk(bufs, s, u)
    {
      var step := StepHolds(bufs, s, t);
      ok := ok && step;
    }
  }

  // ---------------------------------------------------------------- the turn

  lemma RunShape(bufs: seq<Trace>, s: seq<int>, steps: nat, k: nat, cap: int)
    requires Run(bufs, s, steps, k, cap)
    ensures steps <= |s| && forall t :: 0 <= t < steps ==> HasStep(bufs, t)
  {
    RunHasSteps(bufs, steps, k, cap);
    assert steps > 0 ==> StepOk(bufs, s, steps - 1);
  }

  /** The turn is always a buffer, and a backlogged one whenever there is one. */
  lemma {:induction false} TurnInRange(bufs: seq<Trace>, s: seq<int>, steps: nat, k: nat, cap: int, t: nat)
    requires Run(bufs, s, steps, k, cap) && t < steps
    ensures StepOk(bufs, s, t)
    ensures 0 <= s[t] < |bufs|
    ensures Some(Flags(bufs, t)) ==> Flags(bufs, t)[s[t]]
  {
    assert StepOk(bufs, s, t);
    if t == 0 {
    } else {
      TurnInRange(bufs, s, steps, k, cap, t - 1);
      NextTurnIsBest(s[t - 1], Flags(bufs, t));
    }
  }

  /** The first step serves the first backlogged buffer; without one the turn starts at buffer 0. */
  lemma FirstServed(bufs: seq<Trace>, s: seq<int>, steps: nat, k: nat, cap: int)
    requires Run(bufs, s, steps, k, cap) && steps > 0
    ensures |s| > 0 && HasStep(bufs, 0)
    ensures forall i :: 0 <= i < |bufs| ==>
              (Sum(bufs[i].o[0]) == 1 <==> bufs[i].b[0] && forall l :: 0 <= l < i ==> !bufs[l].b[0])
    ensures (forall i :: 0 <= i < |bufs| ==> !bufs[i].b[0]) ==> s[0] == 0
  {
    assert StepOk(bufs, s, 0);
    forall i | 0 <= i < |bufs|
      ensures Flags(bufs, 0)[i] == bufs[i].b[0]
      ensures Sum(bufs[i].o[0]) == (if Flags(bufs, 0)[i] && s[0] == i then 1 else 0)
    {
    }
  }

  /** Buffer i is backlogged, and so is no buffer that the turn reaches before i. */
  ghost predicate NextInTurn(bufs: seq<Trace>, turn: nat, i: nat, t: nat)
    requires HasStep(bufs, t) && turn < |bufs| && i < |bufs|
  {
    bufs[i].b[t] && forall l :: 0 <= l < |bufs| && bufs[l].b[t] ==> Rank(turn, i, |bufs|) <= Rank(turn, l, |bufs|)
  }

  /** Every later step serves the backlogged buffer that comes next behind the turn, which stays if there is none. */
  lemma NextServed(bufs: seq<Trace>, s: seq<int>, steps: nat, k: nat, cap: int, t: nat)
    requires Run(bufs, s, steps, k, cap) && 0 < t < steps
    ensures t < |s| && HasStep(bufs, t) && 0 <= s[t - 1] < |bufs|
    ensures forall i :: 0 <= i < |bufs| ==> (Sum(bufs[i].o[t]) == 1 <==> NextInTurn(bufs, s[t - 1], i, t))
    ensures (forall i :: 0 <= i < |bufs| ==> !bufs[i].b[t]) ==> s[t] == s[t - 1]
  {
    assert StepOk(bufs, s, t);
    TurnInRange(bufs, s, steps, k, cap, t - 1);
    var turn, flags := s[t - 1], Flags(bufs, t);
    NextTurnIsBest(turn, flags);
    forall i | 0 <= i < |bufs|
      ensures Sum(bufs[i].o[t]) == 1 <==> NextInTurn(bufs, turn, i, t)
    {
      assert Sum(bufs[i].o[t]) == (if flags[i] && s[t] == i then 1 else 0);
      if NextInTurn(bufs, turn, i, t) {
        assert flags[i];
        RankInjective(turn, i, s[t], |bufs|);
      }
    }
  }

  lemma ServesTurn(bufs: seq<Trace>, s: seq<int>, steps: nat, k: nat, cap: int, t: nat)
    requires Run(bufs, s, steps, k, cap) && t < steps
    ensures HasStep(bufs, t) && ServesOne(bufs, t)
  {
    TurnInRange(bufs, s, steps, k, cap, t);
    var n := |bufs|;
    if Some(Flags(bufs, t)) {
      assert Outs(bufs, t) == Unit(s[t], n);
      SumUnit(s[t], n);
    } else {
      forall i | 0 <= i < n
        ensures Outs(bufs, t)[i] == 0
      {
        assert !Flags(bufs, t)[i];
      }
      assert Outs(bufs, t) == Zero(n);
      SumZero(n);
    }
  }

  /** Round robin is work conserving. */
  lemma RoundRobinConserves(bufs: seq<Trace>, s: seq<int>, steps: nat, k: nat, cap: int)
    requires Run(bufs, s, steps, k, cap)
    ensures Conserving(bufs, steps, k, cap)
  {
    forall t | 0 <= t < steps
      ensures HasStep(bufs, t) && ServesOne(bufs, t)
    {
      ServesTurn(bufs, s, steps, k, cap, t);
    }
  }

  // ---------------------------------------------------------------- fairness

  /** Packets of buffer i that leave in steps a to c - 1. */
  function Services(bufs: seq<Trace>, i: nat, a: nat, c: nat): int
    requires i < |bufs| && a <= c && forall t :: a <= t < c ==> HasStep(bufs, t)
  {
    if a == c then 0 else
      assert HasStep(bufs, c - 1);
      Services(bufs, i, a, c - 1) + Sum(bufs[i].o[c - 1])
  }

  /** Steps a to c - 1 in which buffer j is not backlogged. */
  function IdleSteps(bufs: seq<Trace>, j: nat, a: nat, c: nat): nat
    requires j < |bufs| && a <= c && forall t :: a <= t < c ==> HasStep(bufs, t)
  {
    if a == c then 0 else
      assert HasStep(bufs, c - 1);
      IdleSteps(bufs, j, a, c - 1) + (if bufs[j].b[c - 1] then 0 else 1)
  }

  /** Steps until the turn reaches j when every buffer is backlogged. */
  function Gap(turn: nat, j: nat, n: nat): nat
    requires turn < n && j < n
  {
    if turn == j then 0 else Rank(turn, j, n) + 1
  }

  /** While j is backlogged the turn moves straight towards it. */
  lemma TurnApproaches(turn: nat, j: nat, b: seq<bool>)
    requires turn < |b| && j < |b| && b[j] && turn != j
    ensures Gap(NextTurn(turn, b), j, |b|) < Gap(turn, j, |b|)
  {
    var n, next := |b|, NextTurn(turn, b);
    NextTurnIsBest(turn, b);
    if next != j {
      RankInjective(turn, next, j, n);
    }
  }

  /** The turn of step c, or of no step when c is the end of the run. */
  ghost predicate AheadOf(s: seq<int>, steps: nat, n: nat, i: nat, j: nat, c: nat)
    requires i < n && j < n && steps <= |s|
  {
    c < steps ==> 0 <= s[c] < n && Gap(s[c], j, n) < Gap(i, j, n)
  }

  /**
    Over steps a to c - 1, buffer i leads buffer j by at most one packet plus the idle steps of j; and
    when that bound is reached, the turn has passed i and is on its way to j.
   */
  lemma {:induction false} LagInvariant(bufs: seq<Trace>, s: seq<int>, steps: nat, k: nat, cap: int, i: nat, j: nat,
                                        a: nat, c: nat)
    requires Run(bufs, s, steps, k, cap) && i < |bufs| && j < |bufs| && i != j && a <= c <= steps
    ensures steps <= |s| && forall t :: 0 <= t < steps ==> HasStep(bufs, t)
    ensures var lag := Services(bufs, i, a, c) - Services(bufs, j, a, c) - IdleSteps(bufs, j, a, c);
            && lag <= 1
            && (lag == 1 && c < steps && bufs[j].b[c] ==> AheadOf(s, steps, |bufs|, i, j, c))
  {
    RunShape(bufs, s, steps, k, cap);
    if a < c {
      LagInvariant(bufs, s, steps, k, cap, i, j, a, c - 1);
      TurnInRange(bufs, s, steps, k, cap, c - 1);
      if c < steps {
        TurnInRange(bufs, s, steps, k, cap, c);
        if bufs[j].b[c] && s[c - 1] != j {
          assert Flags(bufs, c)[j];
          TurnApproaches(s[c - 1], j, Flags(bufs, c));
        }
      }
    }
  }

  ghost predicate AlwaysBacklogged(bufs: seq<Trace>, j: nat, a: nat, c: nat)
    requires j < |bufs|
  {
    forall t :: a <= t < c ==> HasStep(bufs, t) && bufs[j].b[t]
  }

  lemma {:induction false} NeverIdle(bufs: seq<Trace>, j: nat, a: nat, c: nat)
    requires j < |bufs| && a <= c && (forall t :: a <= t < c ==> HasStep(bufs, t)) && AlwaysBacklogged(bufs, j, a, c)
    ensures IdleSteps(bufs, j, a, c) == 0
  {
    if a < c {
      NeverIdle(bufs, j, a, c - 1);
    }
  }

  /** Any other buffer gets at most one more service than j, apart from the steps in which j is idle. */
  lemma LagBound(bufs: seq<Trace>, s: seq<int>, steps: nat, k: nat, cap: int, i: nat, j: nat, a: nat, c: nat)
    requires Run(bufs, s, steps, k, cap) && i < |bufs| && j < |bufs| && i != j && a <= c <= steps
    ensures steps <= |s| && forall t :: 0 <= t < steps ==> HasStep(bufs, t)
    ensures Services(bufs, i, a, c) <= Services(bufs, j, a, c) + 1 + IdleSteps(bufs, j, a, c)
    ensures AlwaysBacklogged(bufs, j, a, c) ==> Services(bufs, i, a, c) <= Services(bufs, j, a, c) + 1
  {
    LagInvariant(bufs, s, steps, k, cap, i, j, a, c);
    if AlwaysBacklogged(bufs, j, a, c) {
      NeverIdle(bufs, j, a, c);
    }
  }

  /** While j is backlogged the turn comes to j within as many steps as it is away from j. */
  lemma {:induction false} TurnArrives(bufs: seq<Trace>, s: seq<int>, steps: nat, k: nat, cap: int, j: nat, a: nat,
                                       c: nat) returns (t: nat)
    requires Run(bufs, s, steps, k, cap) && j < |bufs| && a < c <= steps <= |s| && AlwaysBacklogged(bufs, j, a, c)
    requires 0 <= s[a] < |bufs| && Gap(s[a], j, |bufs|) < c - a
    ensures a <= t < c && HasStep(bufs, t) && Sum(bufs[j].o[t]) == 1
    decreases c - a
  {
    TurnInRange(bufs, s, steps, k, cap, a);
    if s[a] == j {
      t := a;
    } else {
      TurnInRange(bufs, s, steps, k, cap, a + 1);
      assert Flags(bufs, a + 1)[j];
      TurnApproaches(s[a], j, Flags(bufs, a + 1));
      t := TurnArrives(bufs, s, steps, k, cap, j, a + 1, c);
    }
  }

  lemma {:induction false} ServicesSplit(bufs: seq<Trace>, steps: nat, k: nat, cap: int, j: nat, a: nat, m: nat,
                                         c: nat)
    requires BuffersRun(bufs, steps, k, cap) && j < |bufs| && a <= m <= c <= steps
    ensures forall t :: 0 <= t < steps ==> HasStep(bufs, t)
    ensures Services(bufs, j, a, c) == Services(bufs, j, a, m) + Services(bufs, j, m, c)
    ensures Services(bufs, j, m, c) >= 0
  {
    RunHasSteps(bufs, steps, k, cap);
    if m < c {
      ServicesSplit(bufs, steps, k, cap, j, a, m, c - 1);
      StsBuffer.RunStep(bufs[j], steps, k, cap, c - 1);
    }
  }

  /** A buffer that is backlogged for a round of |bufs| steps is served in it. */
  lemma ServedEveryRound(bufs: seq<Trace>, s: seq<int>, steps: nat, k: nat, cap: int, j: nat, a: nat)
    requires Run(bufs, s, steps, k, cap) && j < |bufs| && a + |bufs| <= steps
    requires AlwaysBacklogged(bufs, j, a, a + |bufs|)
    ensures Services(bufs, j, a, a + |bufs|) >= 1
  {
    var c := a + |bufs|;
    RunShape(bufs, s, steps, k, cap);
    TurnInRange(bufs, s, steps, k, cap, a);
    var t := TurnArrives(bufs, s, steps, k, cap, j, a, c);
    ServicesSplit(bufs, steps, k, cap, j, a, t, c);
    ServicesSplit(bufs, steps, k, cap, j, t, t + 1, c);
    ServicesSplit(bufs, steps, k, cap, j, a, a, t);
    assert Services(bufs, j, t, t) == 0;
    assert Services(bufs, j, t, t + 1) == 1;
  }

  /** The fair share: in r rounds during which j is backlogged, j is served at least r times. */
  lemma {:induction false} FairShare(bufs: seq<Trace>, s: seq<int>, steps: nat, k: nat, cap: int, j: nat, a: nat,
                                     r: nat)
    requires Run(bufs, s, steps, k, cap) && j < |bufs| && a + r * |bufs| <= steps
    requires AlwaysBacklogged(bufs, j, a, a + r * |bufs|)
    ensures Services(bufs, j, a, a + r * |bufs|) >= r
  {
    if r == 0 {
    } else {
      var m := a + (r - 1) * |bufs|;
      assert m + |bufs| == a + r * |bufs| && a <= m;
      FairShare(bufs, s, steps, k, cap, j, a, r - 1);
      ServedEveryRound(bufs, s, steps, k, cap, j, m);
      ServicesSplit(bufs, steps, k, cap, j, a, m, a + r * |bufs|);
    }
  }

  const PERIOD := 5

  /** sum(O[i], limit) */
  method SumTo(bufs: seq<Trace>, i: nat, limit: nat) returns (total: int)
    requires i < |bufs| && forall t :: 0 <= t <= limit ==> HasStep(bufs, t)
    ensures total == Services(bufs, i, 0, limit + 1)
  {
    assert HasStep(bufs, 0);
    total := Sum(bufs[i].o[0]);
    for t := 1 to limit + 1
      invariant total == Services(bufs, i, 0, t)
    {
      assert HasStep(bufs, t);
      total := total + Sum(bufs[i].o[t]);
    }
  }

  /** query: at the end of each of the last 5 steps, at least 3 more packets have left buffer 2 than buffer 1. */
  method QueryHolds(bufs: seq<Trace>, steps: nat) returns (res: bool)
    requires |bufs| > 2 && steps >= PERIOD && forall t :: 0 <= t < steps ==> HasStep(bufs, t)
    ensures res <==> forall c :: steps - 5 < c <= steps ==> Services(bufs, 2, 0, c) - Services(bufs, 1, 0, c) >= 3
  {
    res := true;
    for t := steps - PERIOD to steps
      invariant res <==>
                forall c :: steps - PERIOD < c <= t ==> Services(bufs, 2, 0, c) - Services(bufs, 1, 0, c) >= 3
    {
      var two := SumTo(bufs, 2, t);
      var one := SumTo(bufs, 1, t);
      res := res && two - one >= 3;
    }
  }

  /** A lead of 3 packets needs two idle steps of buffer 1; while it is backlogged there is not even a lead of 2. */
  lemma QueryNeedsIdleBuffer(bufs: seq<Trace>, s: seq<int>, steps: nat, k: nat, cap: int, c: nat)
    requires Run(bufs, s, steps, k, cap) && |bufs| > 2 && c <= steps
    ensures forall t :: 0 <= t < steps ==> HasStep(bufs, t)
    ensures Services(bufs, 2, 0, c) - Services(bufs, 1, 0, c) >= 3 ==> IdleSteps(bufs, 1, 0, c) >= 2
    ensures AlwaysBacklogged(bufs, 1, 0, c) ==> Services(bufs, 2, 0, c) - Services(bufs, 1, 0, c) < 2
  {
    LagBound(bufs, s, steps, k, cap, 2, 1, 0, c);
  }
}
