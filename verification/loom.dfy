/**
  The composed switch of loom.cpp: four round-robin stages, merger (src/merger.cpp), classifier
  (src/classifier.cpp) and a priority scheduler with two buffers.
 */
module Loom {
  import opened CountVectors
  import opened BufferTrace
  import opened StsBuffer
  import opened RoundRobin
  import opened Scheduler
  import RRScheduler
  import PrioScheduler

  const PKT_TYPES := 3

  /** A packet stream: counts per type, one vector per step. */
  type Stream = seq<Vec>

  ghost predicate IsStream(x: Stream, steps: nat) {
    AllOf(x, steps, PKT_TYPES)
  }

  /** operator+ on streams */
  function Merge(a: Stream, b: Stream): (r: Stream)
    requires |a| == |b| && forall t :: 0 <= t < |a| ==> |a[t]| == |b[t]|
    ensures |r| == |a|
  {
    seq(|a|, t requires 0 <= t < |a| => Add(a[t], b[t]))
  }

  method MergeStreams(a: Stream, b: Stream) returns (r: Stream)
    requires |a| == |b| && forall t :: 0 <= t < |a| ==> |a[t]| == |b[t]|
    ensures r == Merge(a, b)
  {
    r := [];
    for t := 0 to |a|
      invariant |r| == t && forall u :: 0 <= u < t ==> r[u] == Add(a[u], b[u])
    {
      var sum := Plus(a[t], b[t]);
      r := r + [sum];
    }
  }

  // ---------------------------------------------------------------- classifier

  /** Types 0 and 1 go to output 1, type 2 goes to output 0. */
  function Classified(v: Vec, port: nat): (r: Vec)
    requires |v| == PKT_TYPES
    ensures |r| == PKT_TYPES
  {
    if port == 0 then [0, 0, v[2]] else [v[0], v[1], 0]
  }

  ghost predicate ClassifiedStream(x: Stream, y: Stream, port: nat) {
    |x| == |y| && forall t :: 0 <= t < |x| ==> |x[t]| == PKT_TYPES && y[t] == Classified(x[t], port)
  }

  class Classifier {
    const timesteps: nat
    var I: Stream
    var O: seq<Stream>

    ghost predicate Valid()
      reads this
    {
      && |O| == 2 && IsStream(I, timesteps) && IsStream(O[0], timesteps) && IsStream(O[1], timesteps)
    }

    constructor (input: Stream, free: seq<Stream>)
      requires IsStream(input, |input|) && |free| == 2
      requires IsStream(free[0], |input|) && IsStream(free[1], |input|)
      ensures Valid() && timesteps == |input| && I == input && O == free
    {
      timesteps, I, O := |input|, input, free;
    }

    /** set_out: overwrite every component of both outputs. */
    method SetOut()
      requires Valid()
      modifies this`O
      ensures Valid()
      ensures ClassifiedStream(I, O[0], 0) && ClassifiedStream(I, O[1], 1)
      ensures forall t :: 0 <= t < timesteps ==>
                && |I[t]| == |O[0][t]| == |O[1][t]| == 3
                && O[1][t][0] == I[t][0] && O[1][t][1] == I[t][1] && O[1][t][2] == 0
                && O[0][t][0] == 0 && O[0][t][1] == 0 && O[0][t][2] == I[t][2]
    {
      for j := 0 to timesteps
        invariant Valid()
        invariant forall t :: 0 <= t < j ==> O[0][t] == Classified(I[t], 0) && O[1][t] == Classified(I[t], 1)
      {
        var one := O[1][j][0 := I[j][0]];
        one := one[1 := I[j][1]];
        one := one[2 := 0];
        var zero := O[0][j][0 := 0];
        zero := zero[1 := 0];
        zero := zero[2 := I[j][2]];
        O := [O[0][j := zero], O[1][j := one]];
      }
    }
  }

  // ---------------------------------------------------------------- merger

  /** Merger::out: a backlogged buffer sends one packet; nothing is said about the others. */
  ghost predicate MergerOutAt(bufs: seq<Trace>, t: nat)
    requires HasStep(bufs, t)
  {
    forall i :: 0 <= i < |bufs| ==> bufs[i].b[t] ==> Sum(bufs[i].o[t]) == 1
  }

  method MergerOut(bufs: seq<Trace>, t: nat) returns (ok: bool)
    requires HasStep(bufs, t)
    ensures ok <==> MergerOutAt(bufs, t)
    ensures ok <==> forall i :: 0 <= i < |bufs| && bufs[i].b[t] ==> Sum(bufs[i].o[t]) == 1
  {
    ok := true;
    for i := 0 to |bufs|
      invariant ok <==> forall l :: 0 <= l < i ==> bufs[l].b[t] ==> Sum(bufs[l].o[t]) == 1
    {
      ok := ok && (bufs[i].b[t] ==> Sum(bufs[i].o[t]) == 1);
    }
  }

  ghost predicate MergerStepOk(bufs: seq<Trace>, t: nat) {
    HasStep(bufs, t) && MergerOutAt(bufs, t)
  }

  ghost predicate MergerRun(bufs: seq<Trace>, steps: nat, cap: int) {
    && BuffersRun(bufs, steps, PKT_TYPES, cap)
    && forall t :: 0 <= t < steps ==> MergerStepOk(bufs, t)
  }

  lemma AllEnqueued(i: Vec, e: Vec, d: Vec)
    requires |i| == |e| == |d| && i == Add(e, d) && NonNegative(d) && Sum(e) == Sum(i)
    ensures d == Zero(|i|) && e == i
  {
    SumAdd(e, d);
    SumOfCounts(d);
    AddZero(e);
  }

  lemma AllSent(e: Vec, o: Vec)
    requires |e| == |o| && NonNegative(o) && LeV(o, e) && Sum(e) <= 1
    requires Sum(e) > 0 ==> Sum(o) == 1
    ensures o == e
  {
    SumMonotone(o, e);
    SumOfCounts(o);
  }

  /** At most one packet per step comes in, so it leaves in the same step. */
  lemma PassThrough(before: Vec, i: Vec, e: Vec, d: Vec, o: Vec, c: Vec)
    requires |before| == |i| == |e| == |d| == |o| == |c|
    requires before == Zero(|i|) && Sum(i) <= 1 && i == Add(e, d) && Sum(e) == Sum(i)
    requires NonNegative(d) && NonNegative(o) && NonNegative(c)
    requires c == Sub(Add(before, e), o) && (Sum(Add(before, e)) > 0 ==> Sum(o) == 1)
    ensures d == Zero(|i|) && e == i && o == i && c == Zero(|i|)
  {
    AllEnqueued(i, e, d);
    AddZero(e);
    assert Add(before, e) == e;
    forall t | 0 <= t < |e|
      ensures o[t] <= e[t]
    {
      assert c[t] == e[t] - o[t];
    }
    AllSent(e, o);
  }

  /** The merger is transparent: no drops, no backlog, and it sends what it gets, in the same step. */
  lemma {:induction false} MergerTransparent(bufs: seq<Trace>, steps: nat, cap: int, i: nat, t: nat)
    requires MergerRun(bufs, steps, cap) && cap >= 1 && i < |bufs| && t < steps
    requires forall u :: 0 <= u < steps ==> Sum(bufs[i].i[u]) <= 1
    ensures t < |bufs[i].i| && t < |bufs[i].o| && t < |bufs[i].d| && t < |bufs[i].c|
    ensures bufs[i].o[t] == bufs[i].i[t] && bufs[i].d[t] == Zero(PKT_TYPES) && bufs[i].c[t] == Zero(PKT_TYPES)
  {
    var tr := bufs[i];
    if t > 0 {
      MergerTransparent(bufs, steps, cap, i, t - 1);
    }
    RunStep(tr, steps, PKT_TYPES, cap, t);
    RunTailDrop(tr, steps, PKT_TYPES, cap, t);
    assert StepOk(tr, PKT_TYPES, cap, t) && MergerStepOk(bufs, t);
    SumZero(PKT_TYPES);
    PassThrough(Before(tr, PKT_TYPES, t), tr.i[t], tr.e[t], tr.d[t], tr.o[t], tr.c[t]);
  }

  // ---------------------------------------------------------------- wiring

  /** All variables of the composed switch; stage i of four takes the external streams 3i, 3i+1, 3i+2. */
  datatype Switch = Switch(ext: seq<Stream>, rr: seq<seq<Trace>>, turn: seq<seq<int>>, mg: seq<Trace>, prio: seq<Trace>)

  ghost predicate SwitchShaped(l: Switch, steps: nat) {
    && |l.rr| == |l.turn| == |l.mg| && |l.ext| == 3 * |l.rr| && |l.prio| == 2
    && (forall x :: 0 <= x < |l.ext| ==> IsStream(l.ext[x], steps))
    && (forall i :: 0 <= i < |l.rr| ==>
         |l.rr[i]| == 2 && Shaped(l.rr[i][0], steps, PKT_TYPES) && Shaped(l.rr[i][1], steps, PKT_TYPES))
    && (forall i :: 0 <= i < |l.mg| ==> Shaped(l.mg[i], steps, PKT_TYPES))
    && Shaped(l.prio[0], steps, PKT_TYPES) && Shaped(l.prio[1], steps, PKT_TYPES)
  }

  /** loom.cpp:50-53 and 58-59 for stage i. */
  ghost predicate StageWired(l: Switch, steps: nat, i: nat)
    requires SwitchShaped(l, steps) && i < |l.rr|
  {
    && l.rr[i][0].i == l.ext[3 * i]
    && l.rr[i][1].i == Merge(l.ext[3 * i + 1], l.ext[3 * i + 2])
    && l.mg[i].i == Merge(l.rr[i][0].o, l.rr[i][1].o)
  }

  /** The streams 0 to n - 1 added up. */
  function SumStreams(ss: seq<Stream>, steps: nat, n: nat): (r: Stream)
    requires n <= |ss| && forall i :: 0 <= i < |ss| ==> IsStream(ss[i], steps)
    ensures IsStream(r, steps)
  {
    if n == 0 then seq(steps, _ => Zero(PKT_TYPES)) else Merge(SumStreams(ss, steps, n - 1), ss[n - 1])
  }

  function MergerOuts(l: Switch): (r: seq<Stream>)
    ensures |r| == |l.mg|
  {
    seq(|l.mg|, i requires 0 <= i < |l.mg| => l.mg[i].o)
  }

  ghost function MergedOut(l: Switch, steps: nat, n: nat): (r: Stream)
    requires SwitchShaped(l, steps) && n <= |l.mg|
    ensures IsStream(r, steps)
  {
    SumStreams(MergerOuts(l), steps, n)
  }

  /** loom.cpp:62-70. */
  ghost predicate TailWired(l: Switch, steps: nat)
    requires SwitchShaped(l, steps)
  {
    && ClassifiedStream(MergedOut(l, steps, |l.mg|), l.prio[0].i, 0)
    && ClassifiedStream(MergedOut(l, steps, |l.mg|), l.prio[1].i, 1)
  }

  ghost predicate Wired(l: Switch, steps: nat) {
    SwitchShaped(l, steps) && TailWired(l, steps) && forall i :: 0 <= i < |l.rr| ==> StageWired(l, steps, i)
  }

  /** The constraints of the components by themselves. */
  ghost predicate Components(l: Switch, steps: nat, cap: int) {
    && |l.turn| == |l.rr|
    && (forall i :: 0 <= i < |l.rr| ==> RRScheduler.Run(l.rr[i], l.turn[i], steps, PKT_TYPES, cap))
    && MergerRun(l.mg, steps, cap)
    && PrioScheduler.Run(l.prio, steps, PKT_TYPES, cap)
  }

  ghost predicate SwitchRun(l: Switch, steps: nat, cap: int) {
    Wired(l, steps) && Components(l, steps, cap)
  }

  lemma FirstSummand(ss: seq<Stream>, steps: nat)
    requires |ss| > 0 && forall i :: 0 <= i < |ss| ==> IsStream(ss[i], steps)
    ensures SumStreams(ss, steps, 1) == ss[0]
  {
    forall t | 0 <= t < steps
      ensures Add(Zero(PKT_TYPES), ss[0][t]) == ss[0][t]
    {
      AddZero(ss[0][t]);
    }
  }

  /** The classifier's input: all streams added up from left to right. */
  method AddAll(ss: seq<Stream>, steps: nat) returns (r: Stream)
    requires |ss| > 0 && forall i :: 0 <= i < |ss| ==> IsStream(ss[i], steps)
    ensures r == SumStreams(ss, steps, |ss|) && IsStream(r, steps)
  {
    r := ss[0];
    FirstSummand(ss, steps);
    for i := 1 to |ss|
      invariant r == SumStreams(ss, steps, i)
    {
      r := MergeStreams(r, ss[i]);
    }
  }

  lemma SumPair(v: Vec)
    requires |v| == 2
    ensures Sum(v) == v[0] + v[1]
  {
    assert Sum(v[..1]) == Sum(v[..1][..0]) + v[0];
  }

  /** A stage sends at most one packet per step. */
  lemma StageSendsOne(l: Switch, steps: nat, cap: int, i: nat, t: nat)
    requires SwitchRun(l, steps, cap) && i < |l.rr| && t < steps
    ensures Sum(l.mg[i].i[t]) <= 1
  {
    assert StageWired(l, steps, i);
    RRScheduler.ServesTurn(l.rr[i], l.turn[i], steps, PKT_TYPES, cap, t);
    var a, b := l.rr[i][0].o[t], l.rr[i][1].o[t];
    SumAdd(a, b);
    var outs := Outs(l.rr[i], t);
    SumPair(outs);
    assert l.mg[i].i[t] == Add(a, b);
  }

  /** On every run of the composed switch the merger passes everything on at once. */
  lemma LoomMergerTransparent(l: Switch, steps: nat, cap: int, i: nat, t: nat)
    requires SwitchRun(l, steps, cap) && cap >= 1 && i < |l.mg| && t < steps
    ensures l.mg[i].o[t] == l.mg[i].i[t] && l.mg[i].d[t] == Zero(PKT_TYPES) && l.mg[i].c[t] == Zero(PKT_TYPES)
  {
    forall u | 0 <= u < steps
      ensures Sum(l.mg[i].i[u]) <= 1
    {
      StageSendsOne(l, steps, cap, i, u);
    }
    MergerTransparent(l.mg, steps, cap, i, t);
  }

  // ---------------------------------------------------------------- end-to-end conservation

  /** Packets of type x in the first n steps of a stream. */
  function Cum(v: Stream, n: nat, x: nat): int
    requires n <= |v| && forall t :: 0 <= t < n ==> x < |v[t]|
  {
    if n == 0 then 0 else Cum(v, n - 1, x) + v[n - 1][x]
  }

  lemma {:induction false} CumMerge(a: Stream, b: Stream, n: nat, x: nat)
    requires |a| == |b| && n <= |a| && forall t :: 0 <= t < |a| ==> x < |a[t]| == |b[t]|
    ensures Cum(Merge(a, b), n, x) == Cum(a, n, x) + Cum(b, n, x)
  {
    if n == 0 {
    } else {
      CumMerge(a, b, n - 1, x);
    }
  }

  lemma {:induction false} CumEqual(a: Stream, b: Stream, n: nat, x: nat)
    requires n <= |a| && n <= |b| && forall t :: 0 <= t < n ==> x < |a[t]| && x < |b[t]| && a[t][x] == b[t][x]
    ensures Cum(a, n, x) == Cum(b, n, x)
  {
    if n == 0 {
    } else {
      CumEqual(a, b, n - 1, x);
    }
  }

  /** One buffer: what came in has left, was dropped or is backlogged. */
  lemma {:induction false} BufferConserves(tr: Trace, steps: nat, cap: int, n: nat, x: nat)
    requires BufferRun(tr, steps, PKT_TYPES, cap) && 0 < n <= steps && x < PKT_TYPES
    ensures Cum(tr.i, n, x) == Cum(tr.o, n, x) + Cum(tr.d, n, x) + tr.c[n - 1][x]
  {
    RunStep(tr, steps, PKT_TYPES, cap, n - 1);
    assert StepOk(tr, PKT_TYPES, cap, n - 1);
    if n > 1 {
      BufferConserves(tr, steps, cap, n - 1, x);
    }
  }

  function Held(tr: Trace, n: nat, x: nat): int
    requires 0 < n <= |tr.c| && n <= |tr.d| && x < |tr.c[n - 1]| && forall t :: 0 <= t < n ==> x < |tr.d[t]|
  {
    tr.c[n - 1][x] + Cum(tr.d, n, x)
  }

  ghost function StageIn(l: Switch, steps: nat, n: nat, x: nat, i: nat): int
    requires SwitchShaped(l, steps) && n <= steps && x < PKT_TYPES && i < |l.rr|
  {
    Cum(l.ext[3 * i], n, x) + Cum(l.ext[3 * i + 1], n, x) + Cum(l.ext[3 * i + 2], n, x)
  }

  /** External input of the first m stages. */
  ghost function ExtIn(l: Switch, steps: nat, n: nat, x: nat, m: nat): int
    requires SwitchShaped(l, steps) && n <= steps && x < PKT_TYPES && m <= |l.rr|
  {
    if m == 0 then 0 else
      ExtIn(l, steps, n, x, m - 1) + StageIn(l, steps, n, x, m - 1)
  }

  /** Backlog and cumulative drops in the buffers of the first m stages. */
  ghost function StagesHeld(l: Switch, steps: nat, n: nat, x: nat, m: nat): int
    requires SwitchShaped(l, steps) && 0 < n <= steps && x < PKT_TYPES && m <= |l.rr|
  {
    if m == 0 then 0 else
      StagesHeld(l, steps, n, x, m - 1) + Held(l.rr[m - 1][0], n, x) + Held(l.rr[m - 1][1], n, x)
  }

  /** Buffer 0 of a stage takes its first external stream, buffer 1 takes the other two. */
  lemma StageBuffersConserve(l: Switch, steps: nat, cap: int, n: nat, x: nat, i: nat)
    requires SwitchRun(l, steps, cap) && 0 < n <= steps && x < PKT_TYPES && i < |l.rr|
    ensures Cum(l.ext[3 * i], n, x) == Cum(l.rr[i][0].o, n, x) + Held(l.rr[i][0], n, x)
    ensures Cum(l.ext[3 * i + 1], n, x) + Cum(l.ext[3 * i + 2], n, x)
            == Cum(l.rr[i][1].o, n, x) + Held(l.rr[i][1], n, x)
  {
    assert StageWired(l, steps, i);
    BufferConserves(l.rr[i][0], steps, cap, n, x);
    BufferConserves(l.rr[i][1], steps, cap, n, x);
    CumMerge(l.ext[3 * i + 1], l.ext[3 * i + 2], n, x);
  }

  lemma StageConserves(l: Switch, steps: nat, cap: int, n: nat, x: nat, i: nat)
    requires SwitchRun(l, steps, cap) && cap >= 1 && 0 < n <= steps && x < PKT_TYPES && i < |l.rr|
    ensures StageIn(l, steps, n, x, i)
            == Held(l.rr[i][0], n, x) + Held(l.rr[i][1], n, x) + Cum(l.mg[i].o, n, x)
  {
    assert StageWired(l, steps, i);
    StageBuffersConserve(l, steps, cap, n, x, i);
    CumMerge(l.rr[i][0].o, l.rr[i][1].o, n, x);
    forall t | 0 <= t < n
      ensures l.mg[i].o[t] == l.mg[i].i[t]
    {
      LoomMergerTransparent(l, steps, cap, i, t);
    }
    CumEqual(l.mg[i].o, l.mg[i].i, n, x);
  }

  /** One stage more adds what it conserves. */
  lemma NextStage(l: Switch, steps: nat, n: nat, x: nat, m: nat)
    requires SwitchShaped(l, steps) && 0 < n <= steps && x < PKT_TYPES && 0 < m <= |l.rr|
    requires ExtIn(l, steps, n, x, m - 1) == StagesHeld(l, steps, n, x, m - 1) + Cum(MergedOut(l, steps, m - 1), n, x)
    requires StageIn(l, steps, n, x, m - 1)
             == Held(l.rr[m - 1][0], n, x) + Held(l.rr[m - 1][1], n, x) + Cum(l.mg[m - 1].o, n, x)
    ensures ExtIn(l, steps, n, x, m) == StagesHeld(l, steps, n, x, m) + Cum(MergedOut(l, steps, m), n, x)
  {
    CumMerge(MergedOut(l, steps, m - 1), l.mg[m - 1].o, n, x);
  }

  lemma {:induction false} CumZero(v: Stream, n: nat, x: nat)
    requires n <= |v| && forall t :: 0 <= t < n ==> x < |v[t]| && v[t][x] == 0
    ensures Cum(v, n, x) == 0
  {
    if n == 0 {
    } else {
      CumZero(v, n - 1, x);
    }
  }

  lemma {:induction false} StagesConserve(l: Switch, steps: nat, cap: int, n: nat, x: nat, m: nat)
    requires SwitchRun(l, steps, cap) && cap >= 1 && 0 < n <= steps && x < PKT_TYPES && m <= |l.rr|
    ensures ExtIn(l, steps, n, x, m) == StagesHeld(l, steps, n, x, m) + Cum(MergedOut(l, steps, m), n, x)
  {
    if m == 0 {
      CumZero(MergedOut(l, steps, 0), n, x);
    } else {
      StagesConserve(l, steps, cap, n, x, m - 1);
      StageConserves(l, steps, cap, n, x, m - 1);
      NextStage(l, steps, n, x, m);
    }
  }

  /** The classifier loses nothing. */
  lemma {:induction false} ClassifierConserves(v: Stream, zero: Stream, one: Stream, n: nat, x: nat)
    requires ClassifiedStream(v, zero, 0) && ClassifiedStream(v, one, 1) && n <= |v| && x < PKT_TYPES
    ensures Cum(v, n, x) == Cum(zero, n, x) + Cum(one, n, x)
  {
    if n == 0 {
    } else {
      ClassifierConserves(v, zero, one, n - 1, x);
    }
  }

  /**
    End to end, per packet type: everything that entered the switch in the first n steps has left the
    priority scheduler, or is backlogged in or was dropped by a round-robin or a priority buffer.
   */
  lemma LoomConserves(l: Switch, steps: nat, cap: int, n: nat, x: nat)
    requires SwitchRun(l, steps, cap) && cap >= 1 && 0 < n <= steps && x < PKT_TYPES
    ensures ExtIn(l, steps, n, x, |l.rr|)
            == Cum(l.prio[0].o, n, x) + Cum(l.prio[1].o, n, x)
               + StagesHeld(l, steps, n, x, |l.rr|) + Held(l.prio[0], n, x) + Held(l.prio[1], n, x)
  {
    StagesConserve(l, steps, cap, n, x, |l.rr|);
    ClassifierConserves(MergedOut(l, steps, |l.mg|), l.prio[0].i, l.prio[1].i, n, x);
    BufferConserves(l.prio[0], steps, cap, n, x);
    BufferConserves(l.prio[1], steps, cap, n, x);
  }

  // ---------------------------------------------------------------- types and priorities

  ghost predicate NeverOffered(tr: Trace, steps: nat, x: nat)
    requires Shaped(tr, steps, PKT_TYPES) && x < PKT_TYPES
  {
    forall t :: 0 <= t < steps ==> tr.i[t][x] == 0
  }

  /** A buffer that is never offered a type never counts it. */
  lemma {:induction false} NeverCounted(tr: Trace, steps: nat, cap: int, x: nat, t: nat)
    requires BufferRun(tr, steps, PKT_TYPES, cap) && x < PKT_TYPES && t < steps && NeverOffered(tr, steps, x)
    ensures tr.i[t][x] == tr.e[t][x] == tr.d[t][x] == tr.o[t][x] == tr.c[t][x] == 0
  {
    assert StepOk(tr, PKT_TYPES, cap, t);
    assert tr.i[t][x] == tr.e[t][x] + tr.d[t][x];
    if t > 0 {
      NeverCounted(tr, steps, cap, x, t - 1);
    }
    assert tr.c[t][x] == Before(tr, PKT_TYPES, t)[x] + tr.e[t][x] - tr.o[t][x];
  }

  /** Priority buffer 0 is offered type 2 only, buffer 1 types 0 and 1 only: what leaves all mergers, by type. */
  lemma PriorityOffers(l: Switch, steps: nat, cap: int, t: nat)
    requires SwitchRun(l, steps, cap) && t < steps
    ensures l.prio[0].i[t][0] == l.prio[0].i[t][1] == l.prio[1].i[t][2] == 0
    ensures l.prio[1].i[t][0] == MergedOut(l, steps, |l.mg|)[t][0]
    ensures l.prio[1].i[t][1] == MergedOut(l, steps, |l.mg|)[t][1]
    ensures l.prio[0].i[t][2] == MergedOut(l, steps, |l.mg|)[t][2]
  {
  }

  /** So high priority is for type 2 alone: no variable of buffer 0 counts another type, none of buffer 1 counts it. */
  lemma PriorityTypes(l: Switch, steps: nat, cap: int, x: nat, t: nat)
    requires SwitchRun(l, steps, cap) && x < 3 && t < steps
    ensures var tr := l.prio[if x == 2 then 1 else 0];
            tr.i[t][x] == tr.e[t][x] == tr.d[t][x] == tr.o[t][x] == tr.c[t][x] == 0
  {
    var tr := l.prio[if x == 2 then 1 else 0];
    forall u | 0 <= u < steps
      ensures tr.i[u][x] == 0
    {
      PriorityOffers(l, steps, cap, u);
    }
    NeverCounted(tr, steps, cap, x, t);
  }

  lemma NothingHeld(l: Switch, steps: nat, cap: int, n: nat, x: nat)
    requires SwitchRun(l, steps, cap) && 0 < n <= steps && x < 3
    ensures var tr := l.prio[if x == 2 then 1 else 0];
            Cum(tr.o, n, x) == 0 && Held(tr, n, x) == 0
  {
    var tr := l.prio[if x == 2 then 1 else 0];
    forall t | 0 <= t < steps
      ensures tr.o[t][x] == tr.d[t][x] == tr.c[t][x] == 0
    {
      PriorityTypes(l, steps, cap, x, t);
    }
    CumZero(tr.o, n, x);
    CumZero(tr.d, n, x);
  }

  /** End to end by priority: type 2 leaves by priority buffer 0, types 0 and 1 by priority buffer 1. */
  lemma PrioritiesConserve(l: Switch, steps: nat, cap: int, n: nat, x: nat)
    requires SwitchRun(l, steps, cap) && cap >= 1 && 0 < n <= steps && x < 3
    ensures x == 2 ==> ExtIn(l, steps, n, x, |l.rr|)
                       == Cum(l.prio[0].o, n, x) + StagesHeld(l, steps, n, x, |l.rr|) + Held(l.prio[0], n, x)
    ensures x < 2 ==> ExtIn(l, steps, n, x, |l.rr|)
                      == Cum(l.prio[1].o, n, x) + StagesHeld(l, steps, n, x, |l.rr|) + Held(l.prio[1], n, x)
  {
    LoomConserves(l, steps, cap, n, x);
    NothingHeld(l, steps, cap, n, x);
  }
}
