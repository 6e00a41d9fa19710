/** The composed switch has a run whatever enters it. */
module LoomRuns {
  import opened CountVectors
  import opened BufferTrace
  import opened StsBuffer
  import opened StsSteps
  import opened Scheduler
  import opened SchedulerRuns
  import opened Loom
  import RRScheduler
  import PrioScheduler

  // ---------------------------------------------------------------- the merger

  lemma OldMergerStep(bufs: seq<Trace>, vs: seq<Column>, t: nat)
    requires |vs| == |bufs| && MergerStepOk(bufs, t)
    ensures MergerStepOk(ExtendAll(bufs, vs), t)
  {
    OldStepOf(bufs, vs, t);
  }

  lemma MergerContinues(bufs: seq<Trace>, steps: nat, cap: int, ins: seq<Vec>) returns (more: seq<Trace>)
    requires MergerRun(bufs, steps, cap) && cap >= 1 && Inputs(ins, |bufs|, PKT_TYPES)
    ensures MergerRun(more, steps + 1, cap) && TakesIn(bufs, more, ins)
  {
    var send := NextFlags(bufs, steps, PKT_TYPES, ins);
    var vs := ChooseColumns(bufs, steps, PKT_TYPES, cap, ins, send);
    more := ExtendAll(bufs, vs);
    NewStepOf(bufs, steps, PKT_TYPES, cap, ins, send, vs);
    ColumnsTakeIn(bufs, steps, PKT_TYPES, cap, ins, send, vs);
    forall i | 0 <= i < |more|
      ensures more[i].b[steps] ==> Sum(more[i].o[steps]) == 1
    {
      assert Flags(more, steps)[i] == send[i];
    }
    forall t | 0 <= t < steps + 1
      ensures MergerStepOk(more, t)
    {
      if t < steps {
        assert MergerStepOk(bufs, t);
        OldMergerStep(bufs, vs, t);
      }
    }
  }

  lemma {:induction false} MergerRunExists(ins: seq<Stream>, steps: nat, cap: int) returns (bufs: seq<Trace>)
    requires Arrivals(ins, steps, PKT_TYPES) && cap >= 1
    ensures MergerRun(bufs, steps, cap) && Receive(bufs, ins)
    decreases steps
  {
    if steps == 0 {
      bufs := NoSteps(|ins|);
      EmptyRun(PKT_TYPES, cap);
    } else {
      FirstArrivals(ins, steps, PKT_TYPES);
      var front := MergerRunExists(Firsts(ins, steps - 1), steps - 1, cap);
      bufs := MergerContinues(front, steps - 1, cap, ArrivalsAt(ins, steps - 1));
      ReceivedAll(front, bufs, ins, steps, PKT_TYPES);
    }
  }

  // ---------------------------------------------------------------- streams of counts

  /** A stream that can enter a buffer. */
  ghost predicate CountStream(x: Stream, steps: nat) {
    IsStream(x, steps) && AllCounts(x)
  }

  ghost predicate CountStreams(ext: seq<Stream>, steps: nat) {
    forall x :: 0 <= x < |ext| ==> CountStream(ext[x], steps)
  }

  lemma MergedCounts(a: Stream, b: Stream, steps: nat)
    requires CountStream(a, steps) && CountStream(b, steps)
    ensures CountStream(Merge(a, b), steps)
  {
  }

  lemma {:induction false} SummedCounts(ss: seq<Stream>, steps: nat, n: nat)
    requires n <= |ss| && (forall i :: 0 <= i < |ss| ==> IsStream(ss[i], steps)) && CountStreams(ss, steps)
    ensures CountStream(SumStreams(ss, steps, n), steps)
  {
    if n == 0 {
    } else {
      SummedCounts(ss, steps, n - 1);
      MergedCounts(SumStreams(ss, steps, n - 1), ss[n - 1], steps);
    }
  }

  function ClassifyAll(x: Stream, port: nat): (y: Stream)
    requires forall t :: 0 <= t < |x| ==> |x[t]| == PKT_TYPES
    ensures ClassifiedStream(x, y, port)
  {
    seq(|x|, t requires 0 <= t < |x| => Classified(x[t], port))
  }

  lemma ClassifiedCounts(x: Stream, steps: nat, port: nat)
    requires CountStream(x, steps)
    ensures CountStream(ClassifyAll(x, port), steps)
  {
  }

  // ---------------------------------------------------------------- the stages

  /** A round-robin stage on its three external streams. */
  ghost predicate StageRun(ext: seq<Stream>, i: nat, bufs: seq<Trace>, turn: seq<int>, steps: nat, cap: int)
    requires 3 * i + 2 < |ext| && CountStreams(ext, steps)
  {
    && |bufs| == 2 && RRScheduler.Run(bufs, turn, steps, PKT_TYPES, cap)
    && bufs[0].i == ext[3 * i]
    && bufs[1].i == Merge(ext[3 * i + 1], ext[3 * i + 2])
  }

  lemma StageRunExists(ext: seq<Stream>, i: nat, steps: nat, cap: int) returns (bufs: seq<Trace>, turn: seq<int>)
    requires 3 * i + 2 < |ext| && CountStreams(ext, steps) && cap >= 1
    ensures StageRun(ext, i, bufs, turn, steps, cap)
  {
    MergedCounts(ext[3 * i + 1], ext[3 * i + 2], steps);
    var ins := [ext[3 * i], Merge(ext[3 * i + 1], ext[3 * i + 2])];
    bufs, turn := RoundRobinRunExists(ins, steps, PKT_TYPES, cap);
    assert bufs[0].i == ins[0] && bufs[1].i == ins[1];
  }

  ghost predicate StageRuns(ext: seq<Stream>, rr: seq<seq<Trace>>, turn: seq<seq<int>>, steps: nat, cap: int) {
    && |rr| == |turn| && |ext| == 3 * |rr| && CountStreams(ext, steps)
    && forall i :: 0 <= i < |rr| ==> StageRun(ext, i, rr[i], turn[i], steps, cap)
  }

  lemma StagesRunExist(ext: seq<Stream>, n: nat, steps: nat, cap: int)
    returns (rr: seq<seq<Trace>>, turn: seq<seq<int>>)
    requires |ext| == 3 * n && CountStreams(ext, steps) && cap >= 1
    ensures |rr| == n && StageRuns(ext, rr, turn, steps, cap)
  {
    rr, turn := [], [];
    for m := 0 to n
      invariant |rr| == |turn| == m
      invariant forall i :: 0 <= i < m ==> StageRun(ext, i, rr[i], turn[i], steps, cap)
    {
      var bufs, s := StageRunExists(ext, m, steps, cap);
      rr, turn := rr + [bufs], turn + [s];
    }
  }

  ghost predicate SendsStreams(bufs: seq<Trace>, steps: nat) {
    |bufs| == 2 && IsStream(bufs[0].o, steps) && IsStream(bufs[1].o, steps)
  }

  /** What the stages send to the merger. */
  ghost function StageOuts(rr: seq<seq<Trace>>, steps: nat): (r: seq<Stream>)
    requires forall i :: 0 <= i < |rr| ==> SendsStreams(rr[i], steps)
    ensures |r| == |rr|
  {
    seq(|rr|, i requires 0 <= i < |rr| && SendsStreams(rr[i], steps) => Merge(rr[i][0].o, rr[i][1].o))
  }

  lemma StageOutsCount(ext: seq<Stream>, rr: seq<seq<Trace>>, turn: seq<seq<int>>, steps: nat, cap: int)
    requires StageRuns(ext, rr, turn, steps, cap)
    ensures forall i :: 0 <= i < |rr| ==> SendsStreams(rr[i], steps)
    ensures Arrivals(StageOuts(rr, steps), steps, PKT_TYPES)
  {
    forall i | 0 <= i < |rr|
      ensures SendsStreams(rr[i], steps)
      ensures CountStream(Merge(rr[i][0].o, rr[i][1].o), steps)
    {
      assert StageRun(ext, i, rr[i], turn[i], steps, cap);
      assert BufferRun(rr[i][0], steps, PKT_TYPES, cap) && BufferRun(rr[i][1], steps, PKT_TYPES, cap);
      MergedCounts(rr[i][0].o, rr[i][1].o, steps);
    }
  }

  // ---------------------------------------------------------------- the switch

  lemma StagesAreWired(l: Switch, steps: nat, cap: int)
    requires StageRuns(l.ext, l.rr, l.turn, steps, cap) && SwitchShaped(l, steps)
    requires forall i :: 0 <= i < |l.mg| ==> l.mg[i].i == Merge(l.rr[i][0].o, l.rr[i][1].o)
    ensures forall i :: 0 <= i < |l.rr| ==> StageWired(l, steps, i)
    ensures forall i :: 0 <= i < |l.rr| ==> RRScheduler.Run(l.rr[i], l.turn[i], steps, PKT_TYPES, cap)
  {
    forall i | 0 <= i < |l.rr|
      ensures StageWired(l, steps, i) && RRScheduler.Run(l.rr[i], l.turn[i], steps, PKT_TYPES, cap)
    {
      assert StageRun(l.ext, i, l.rr[i], l.turn[i], steps, cap);
    }
  }

  lemma PartsShaped(l: Switch, steps: nat, cap: int)
    requires StageRuns(l.ext, l.rr, l.turn, steps, cap) && |l.mg| == |l.rr| && |l.prio| == 2
    requires MergerRun(l.mg, steps, cap) && PrioScheduler.Run(l.prio, steps, PKT_TYPES, cap)
    ensures SwitchShaped(l, steps)
  {
    forall i | 0 <= i < |l.rr|
      ensures |l.rr[i]| == 2
      ensures Shaped(l.rr[i][0], steps, PKT_TYPES) && Shaped(l.rr[i][1], steps, PKT_TYPES)
    {
      assert StageRun(l.ext, i, l.rr[i], l.turn[i], steps, cap);
      assert BufferRun(l.rr[i][0], steps, PKT_TYPES, cap) && BufferRun(l.rr[i][1], steps, PKT_TYPES, cap);
    }
    forall i | 0 <= i < |l.mg|
      ensures Shaped(l.mg[i], steps, PKT_TYPES)
    {
      assert BufferRun(l.mg[i], steps, PKT_TYPES, cap);
    }
    assert BufferRun(l.prio[0], steps, PKT_TYPES, cap) && BufferRun(l.prio[1], steps, PKT_TYPES, cap);
  }

  lemma MergerOutsCount(mg: seq<Trace>, outs: seq<Stream>, steps: nat, cap: int)
    requires MergerRun(mg, steps, cap) && |outs| == |mg| && forall i :: 0 <= i < |mg| ==> outs[i] == mg[i].o
    ensures CountStreams(outs, steps)
  {
    forall i | 0 <= i < |mg|
      ensures CountStream(outs[i], steps)
    {
      assert BufferRun(mg[i], steps, PKT_TYPES, cap);
    }
  }

  lemma PriorityPartExists(sum: Stream, steps: nat, cap: int) returns (prio: seq<Trace>)
    requires CountStream(sum, steps) && cap >= 1
    ensures PrioScheduler.Run(prio, steps, PKT_TYPES, cap) && |prio| == 2
    ensures ClassifiedStream(sum, prio[0].i, 0) && ClassifiedStream(sum, prio[1].i, 1)
  {
    ClassifiedCounts(sum, steps, 0);
    ClassifiedCounts(sum, steps, 1);
    var ins := [ClassifyAll(sum, 0), ClassifyAll(sum, 1)];
    prio := PriorityRunExists(ins, steps, PKT_TYPES, cap);
    assert prio[0].i == ins[0] && prio[1].i == ins[1];
  }

  /** For any number of stages, steps and any capacity, the composed switch has a run on any external streams. */
  lemma SwitchRunExists(ext: seq<Stream>, n: nat, steps: nat, cap: int) returns (l: Switch)
    requires |ext| == 3 * n && CountStreams(ext, steps) && cap >= 1
    ensures SwitchRun(l, steps, cap) && l.ext == ext && |l.rr| == n
  {
    var rr, turn := StagesRunExist(ext, n, steps, cap);
    StageOutsCount(ext, rr, turn, steps, cap);
    var mg := MergerRunExists(StageOuts(rr, steps), steps, cap);
    var outs := seq(n, i requires 0 <= i < n => mg[i].o);
    MergerOutsCount(mg, outs, steps, cap);
    SummedCounts(outs, steps, n);
    var prio := PriorityPartExists(SumStreams(outs, steps, n), steps, cap);
    l := Switch(ext, rr, turn, mg, prio);
    PartsShaped(l, steps, cap);
    assert outs == MergerOuts(l);
    forall i | 0 <= i < |mg|
      ensures mg[i].i == Merge(rr[i][0].o, rr[i][1].o)
    {
      assert mg[i].i == StageOuts(rr, steps)[i];
    }
    StagesAreWired(l, steps, cap);
  }
}
