/** No input blocks a contention point: every run of round robin or strict priority has a next step. */
module SchedulerRuns {
  import opened CountVectors
  import opened BufferTrace
  import opened StsBuffer
  import opened StsSteps
  import opened SplitRanges
  import opened RoundRobin
  import opened Scheduler
  import RRScheduler
  import PrioScheduler

  // ---------------------------------------------------------------- one buffer

  /** Something will be there to send. */
  predicate Waiting(tr: Trace, steps: nat, k: nat, input: Vec)
    requires Shaped(tr, steps, k)
  {
    Sum(Last(tr, steps, k)) + Sum(input) > 0
  }

  /** The variables of a next step with this input that sends a packet if and only if it is told to. */
  ghost predicate NextColumn(tr: Trace, steps: nat, k: nat, cap: int, input: Vec, send: bool, v: Column) {
    && v.i == input && BufferRun(tr, steps, k, cap) && BufferRun(Extend(tr, v), steps + 1, k, cap)
    && Sum(v.o) == (if send then 1 else 0)
    && v.b == Waiting(tr, steps, k, input)
  }

  lemma LastBacklog(tr: Trace, steps: nat, k: nat, cap: int)
    requires BufferRun(tr, steps, k, cap) && cap >= 1
    ensures NonNegative(Last(tr, steps, k)) && 0 <= Sum(Last(tr, steps, k)) <= cap
  {
    SumZero(k);
    if steps > 0 {
      RunStep(tr, steps, k, cap, steps - 1);
    }
  }

  /** Tail drop: as much of the input as there is room for. */
  lemma Admit(last: Vec, input: Vec, cap: int, k: nat) returns (e: Vec, d: Vec)
    requires |last| == |input| == k && NonNegative(input) && 0 <= Sum(last) <= cap
    ensures |e| == |d| == k && input == Add(e, d) && NonNegative(e) && NonNegative(d)
    ensures Sum(e) == Min(Sum(input), cap - Sum(last)) && Sum(d) == Sum(input) - Sum(e)
  {
    SumOfCounts(input);
    e := TakeCounts(input, Min(Sum(input), cap - Sum(last)));
    d := Sub(input, e);
    SumSub(input, e);
  }

  lemma ChooseColumn(tr: Trace, steps: nat, k: nat, cap: int, input: Vec, send: bool) returns (v: Column)
    requires BufferRun(tr, steps, k, cap) && cap >= 1 && |input| == k && NonNegative(input)
    requires send ==> Waiting(tr, steps, k, input)
    ensures NextColumn(tr, steps, k, cap, input, send, v)
  {
    var last := Last(tr, steps, k);
    LastBacklog(tr, steps, k, cap);
    SumOfCounts(input);
    var e, d := Admit(last, input, cap, k);
    var o := ChooseAny(last, e, if send then 1 else 0, k);
    ColumnOk(last, e, o, cap, k);
    v := Column(input, e, d, o, Sub(Add(last, e), o), Sum(Add(last, e)) > 0);
    NewStepOk(tr, steps, k, cap, v);
    ExtendedBuffer(tr, steps, k, cap, v);
  }

  // ---------------------------------------------------------------- all buffers

  ghost predicate Inputs(ins: seq<Vec>, n: nat, k: nat) {
    |ins| == n && forall i :: 0 <= i < n ==> |ins[i]| == k && NonNegative(ins[i])
  }

  /** What the flags of the next step will be. */
  function NextFlags(bufs: seq<Trace>, steps: nat, k: nat, ins: seq<Vec>): (b: seq<bool>)
    requires |ins| == |bufs| && forall i :: 0 <= i < |bufs| ==> Shaped(bufs[i], steps, k)
    ensures |b| == |bufs|
  {
    seq(|bufs|, i requires 0 <= i < |bufs| => Waiting(bufs[i], steps, k, ins[i]))
  }

  ghost predicate NextColumns(bufs: seq<Trace>, steps: nat, k: nat, cap: int, ins: seq<Vec>, send: seq<bool>,
                              vs: seq<Column>) {
    && |vs| == |send| == |ins| == |bufs|
    && forall i :: 0 <= i < |bufs| ==> NextColumn(bufs[i], steps, k, cap, ins[i], send[i], vs[i])
  }

  lemma ChooseColumns(bufs: seq<Trace>, steps: nat, k: nat, cap: int, ins: seq<Vec>, send: seq<bool>)
    returns (vs: seq<Column>)
    requires BuffersRun(bufs, steps, k, cap) && cap >= 1 && Inputs(ins, |bufs|, k) && |send| == |bufs|
    requires forall i :: 0 <= i < |bufs| && send[i] ==> NextFlags(bufs, steps, k, ins)[i]
    ensures NextColumns(bufs, steps, k, cap, ins, send, vs)
  {
    vs := [];
    for i := 0 to |bufs|
      invariant |vs| == i
      invariant forall l :: 0 <= l < i ==> NextColumn(bufs[l], steps, k, cap, ins[l], send[l], vs[l])
    {
      var v := ChooseColumn(bufs[i], steps, k, cap, ins[i], send[i]);
      vs := vs + [v];
    }
  }

  function ExtendAll(bufs: seq<Trace>, vs: seq<Column>): (r: seq<Trace>)
    requires |vs| == |bufs|
    ensures |r| == |bufs|
  {
    seq(|bufs|, i requires 0 <= i < |bufs| => Extend(bufs[i], vs[i]))
  }

  /** The new step of all buffers. */
  lemma NewStepOf(bufs: seq<Trace>, steps: nat, k: nat, cap: int, ins: seq<Vec>, send: seq<bool>, vs: seq<Column>)
    requires NextColumns(bufs, steps, k, cap, ins, send, vs)
    ensures BuffersRun(bufs, steps, k, cap) && BuffersRun(ExtendAll(bufs, vs), steps + 1, k, cap)
    ensures HasStep(ExtendAll(bufs, vs), steps)
    ensures Flags(ExtendAll(bufs, vs), steps) == NextFlags(bufs, steps, k, ins)
    ensures forall i :: 0 <= i < |bufs| ==> Sum(ExtendAll(bufs, vs)[i].o[steps]) == if send[i] then 1 else 0
  {
    var more := ExtendAll(bufs, vs);
    forall i | 0 <= i < |bufs|
      ensures BufferRun(bufs[i], steps, k, cap) && BufferRun(more[i], steps + 1, k, cap)
      ensures more[i].o[steps] == vs[i].o && more[i].b[steps] == vs[i].b
      ensures Sum(vs[i].o) == (if send[i] then 1 else 0)
      ensures vs[i].b == Waiting(bufs[i], steps, k, ins[i])
    {
      assert NextColumn(bufs[i], steps, k, cap, ins[i], send[i], vs[i]);
      LastKept(bufs[i], vs[i], steps, k);
    }
  }

  /** The steps before stay as they are. */
  lemma OldStepOf(bufs: seq<Trace>, vs: seq<Column>, t: nat)
    requires |vs| == |bufs| && HasStep(bufs, t)
    ensures HasStep(ExtendAll(bufs, vs), t) && Flags(ExtendAll(bufs, vs), t) == Flags(bufs, t)
    ensures forall i :: 0 <= i < |bufs| ==> ExtendAll(bufs, vs)[i].o[t] == bufs[i].o[t]
    ensures forall i :: 0 <= i < |bufs| ==> ExtendAll(bufs, vs)[i].b[t] == bufs[i].b[t]
  {
  }

  ghost predicate TakesIn(bufs: seq<Trace>, more: seq<Trace>, ins: seq<Vec>) {
    |more| == |ins| == |bufs| && forall i :: 0 <= i < |bufs| ==> more[i].i == bufs[i].i + [ins[i]]
  }

  lemma ColumnsTakeIn(bufs: seq<Trace>, steps: nat, k: nat, cap: int, ins: seq<Vec>, send: seq<bool>,
                      vs: seq<Column>)
    requires NextColumns(bufs, steps, k, cap, ins, send, vs)
    ensures TakesIn(bufs, ExtendAll(bufs, vs), ins)
  {
    forall i | 0 <= i < |bufs|
      ensures ExtendAll(bufs, vs)[i].i == bufs[i].i + [ins[i]]
    {
      assert NextColumn(bufs[i], steps, k, cap, ins[i], send[i], vs[i]);
    }
  }

  // ---------------------------------------------------------------- round robin

  /** The first turn, or the next one. */
  lemma ChooseTurn(bufs: seq<Trace>, s: seq<int>, steps: nat, k: nat, cap: int, flags: seq<bool>) returns (turn: int)
    requires RRScheduler.Run(bufs, s, steps, k, cap) && |s| == steps && |flags| == |bufs|
    ensures if steps == 0 then FirstBacklogged(flags, turn) else RRScheduler.TurnMoves(flags, s[steps - 1], turn)
  {
    if steps == 0 {
      FirstOfSome(flags);
      turn := 0;
      if k0 :| 0 <= k0 < |flags| && flags[k0] && forall l :: 0 <= l < k0 ==> !flags[l] {
        turn := k0;
      }
    } else {
      RRScheduler.TurnInRange(bufs, s, steps, k, cap, steps - 1);
      turn := NextTurn(s[steps - 1], flags);
    }
  }

  lemma OldTurnStep(bufs: seq<Trace>, s: seq<int>, vs: seq<Column>, turn: int, t: nat)
    requires |vs| == |bufs| && RRScheduler.StepOk(bufs, s, t)
    ensures RRScheduler.StepOk(ExtendAll(bufs, vs), s + [turn], t)
  {
    OldStepOf(bufs, vs, t);
  }

  /** Every run of round robin has a next step, whatever arrives. */
  lemma RoundRobinContinues(bufs: seq<Trace>, s: seq<int>, steps: nat, k: nat, cap: int, ins: seq<Vec>)
    returns (more: seq<Trace>, turn: int)
    requires RRScheduler.Run(bufs, s, steps, k, cap) && |s| == steps && cap >= 1 && Inputs(ins, |bufs|, k)
    ensures RRScheduler.Run(more, s + [turn], steps + 1, k, cap) && TakesIn(bufs, more, ins)
  {
    var flags := NextFlags(bufs, steps, k, ins);
    turn := ChooseTurn(bufs, s, steps, k, cap, flags);
    var send := seq(|bufs|, i requires 0 <= i < |bufs| => flags[i] && turn == i);
    var vs := ChooseColumns(bufs, steps, k, cap, ins, send);
    more := ExtendAll(bufs, vs);
    NewStepOf(bufs, steps, k, cap, ins, send, vs);
    ColumnsTakeIn(bufs, steps, k, cap, ins, send, vs);
    assert RRScheduler.OutAt(more, turn, steps);
    forall t | 0 <= t < steps + 1
      ensures RRScheduler.StepOk(more, s + [turn], t)
    {
      if t < steps {
        assert RRScheduler.StepOk(bufs, s, t);
        OldTurnStep(bufs, s, vs, turn, t);
      }
    }
  }

  // ---------------------------------------------------------------- strict priority

  lemma OldPriorityStep(bufs: seq<Trace>, vs: seq<Column>, t: nat)
    requires |vs| == |bufs| && PrioScheduler.StepOk(bufs, t)
    ensures PrioScheduler.StepOk(ExtendAll(bufs, vs), t)
  {
    OldStepOf(bufs, vs, t);
    forall i | 0 <= i < |bufs|
      ensures PrioScheduler.SendsAt(ExtendAll(bufs, vs), i, t)
    {
      assert PrioScheduler.SendsAt(bufs, i, t);
    }
  }

  /** The buffers that strict priority serves, given the flags. */
  function FirstOf(flags: seq<bool>): (send: seq<bool>)
    ensures |send| == |flags|
  {
    seq(|flags|, i requires 0 <= i < |flags| => flags[i] && forall l :: 0 <= l < i ==> !flags[l])
  }

  lemma NewPriorityStep(more: seq<Trace>, steps: nat, flags: seq<bool>)
    requires HasStep(more, steps) && Flags(more, steps) == flags
    requires forall i :: 0 <= i < |more| ==> Sum(more[i].o[steps]) == if FirstOf(flags)[i] then 1 else 0
    ensures PrioScheduler.StepOk(more, steps)
  {
    forall i | 0 <= i < |more|
      ensures PrioScheduler.SendsAt(more, i, steps)
    {
      assert FirstOf(flags)[i] <==> PrioScheduler.NoneBefore(flags, i) && flags[i];
    }
  }

  lemma AllPrioritySteps(bufs: seq<Trace>, vs: seq<Column>, steps: nat)
    requires |vs| == |bufs| && forall t :: 0 <= t < steps ==> PrioScheduler.StepOk(bufs, t)
    requires PrioScheduler.StepOk(ExtendAll(bufs, vs), steps)
    ensures forall t :: 0 <= t < steps + 1 ==> PrioScheduler.StepOk(ExtendAll(bufs, vs), t)
  {
    forall t | 0 <= t < steps
      ensures PrioScheduler.StepOk(ExtendAll(bufs, vs), t)
    {
      OldPriorityStep(bufs, vs, t);
    }
  }

  /** So has every run of strict priority. */
  lemma PriorityContinues(bufs: seq<Trace>, steps: nat, k: nat, cap: int, ins: seq<Vec>) returns (more: seq<Trace>)
    requires PrioScheduler.Run(bufs, steps, k, cap) && cap >= 1 && Inputs(ins, |bufs|, k)
    ensures PrioScheduler.Run(more, steps + 1, k, cap) && TakesIn(bufs, more, ins)
  {
    var flags := NextFlags(bufs, steps, k, ins);
    var vs := ChooseColumns(bufs, steps, k, cap, ins, FirstOf(flags));
    more := ExtendAll(bufs, vs);
    NewStepOf(bufs, steps, k, cap, ins, FirstOf(flags), vs);
    ColumnsTakeIn(bufs, steps, k, cap, ins, FirstOf(flags), vs);
    NewPriorityStep(more, steps, flags);
    AllPrioritySteps(bufs, vs, steps);
  }

  // ---------------------------------------------------------------- whole runs

  /** What arrives at every buffer in every step. */
  ghost predicate Arrivals(ins: seq<seq<Vec>>, steps: nat, k: nat) {
    forall i :: 0 <= i < |ins| ==> AllOf(ins[i], steps, k) && AllCounts(ins[i])
  }

  function Firsts(ins: seq<seq<Vec>>, steps: nat): (r: seq<seq<Vec>>)
    requires forall i :: 0 <= i < |ins| ==> steps <= |ins[i]|
    ensures |r| == |ins|
  {
    seq(|ins|, i requires 0 <= i < |ins| => ins[i][..steps])
  }

  function ArrivalsAt(ins: seq<seq<Vec>>, t: nat): (r: seq<Vec>)
    requires forall i :: 0 <= i < |ins| ==> t < |ins[i]|
    ensures |r| == |ins|
  {
    seq(|ins|, i requires 0 <= i < |ins| => ins[i][t])
  }

  function NoSteps(n: nat): seq<Trace> {
    seq(n, _ => Empty())
  }

  ghost predicate Receive(bufs: seq<Trace>, ins: seq<seq<Vec>>) {
    |bufs| == |ins| && forall i :: 0 <= i < |ins| ==> bufs[i].i == ins[i]
  }

  lemma FirstArrivals(ins: seq<seq<Vec>>, steps: nat, k: nat)
    requires Arrivals(ins, steps, k) && steps > 0
    ensures Arrivals(Firsts(ins, steps - 1), steps - 1, k) && Inputs(ArrivalsAt(ins, steps - 1), |ins|, k)
  {
  }

  lemma ReceivedAll(bufs: seq<Trace>, more: seq<Trace>, ins: seq<seq<Vec>>, steps: nat, k: nat)
    requires Arrivals(ins, steps, k) && steps > 0
    requires Receive(bufs, Firsts(ins, steps - 1)) && TakesIn(bufs, more, ArrivalsAt(ins, steps - 1))
    ensures Receive(more, ins)
  {
    var last := steps - 1;
    forall i | 0 <= i < |ins|
      ensures more[i].i == ins[i]
    {
      assert bufs[i].i == Firsts(ins, last)[i];
      assert ins[i] == ins[i][..last] + [ins[i][last]];
    }
  }

  /** Whatever arrives at whatever number of buffers, round robin has a run on it. */
  lemma {:induction false} RoundRobinRunExists(ins: seq<seq<Vec>>, steps: nat, k: nat, cap: int)
    returns (bufs: seq<Trace>, s: seq<int>)
    requires |ins| > 0 && Arrivals(ins, steps, k) && cap >= 1
    ensures RRScheduler.Run(bufs, s, steps, k, cap) && |s| == steps && Receive(bufs, ins)
    decreases steps
  {
    if steps == 0 {
      bufs, s := NoSteps(|ins|), [];
      EmptyRun(k, cap);
    } else {
      FirstArrivals(ins, steps, k);
      var front, turns := RoundRobinRunExists(Firsts(ins, steps - 1), steps - 1, k, cap);
      var turn;
      bufs, turn := RoundRobinContinues(front, turns, steps - 1, k, cap, ArrivalsAt(ins, steps - 1));
      s := turns + [turn];
      ReceivedAll(front, bufs, ins, steps, k);
    }
  }

  /** So has strict priority. */
  lemma {:induction false} PriorityRunExists(ins: seq<seq<Vec>>, steps: nat, k: nat, cap: int)
    returns (bufs: seq<Trace>)
    requires Arrivals(ins, steps, k) && cap >= 1
    ensures PrioScheduler.Run(bufs, steps, k, cap) && Receive(bufs, ins)
    decreases steps
  {
    if steps == 0 {
      bufs := NoSteps(|ins|);
      EmptyRun(k, cap);
    } else {
      FirstArrivals(ins, steps, k);
      var front := PriorityRunExists(Firsts(ins, steps - 1), steps - 1, k, cap);
      bufs := PriorityContinues(front, steps - 1, k, cap, ArrivalsAt(ins, steps - 1));
      ReceivedAll(front, bufs, ins, steps, k);
    }
  }
}
