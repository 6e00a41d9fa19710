/** The object that loom.cpp builds from its components, and what every solution for it conserves. */
module LoomWiring {
  import opened CountVectors
  import opened BufferTrace
  import opened Loom

  ghost predicate AreStreams(ss: seq<Stream>, steps: nat) {
    forall i :: 0 <= i < |ss| ==> IsStream(ss[i], steps)
  }

  ghost predicate TracePair(bufs: seq<Trace>, steps: nat) {
    |bufs| == 2 && Shaped(bufs[0], steps, PKT_TYPES) && Shaped(bufs[1], steps, PKT_TYPES)
  }

  ghost predicate TracePairs(stages: seq<seq<Trace>>, steps: nat) {
    forall i :: 0 <= i < |stages| ==> TracePair(stages[i], steps)
  }

  ghost predicate AllShaped(bufs: seq<Trace>, steps: nat) {
    forall i :: 0 <= i < |bufs| ==> Shaped(bufs[i], steps, PKT_TYPES)
  }

  /** Assigning the input stream of a buffer keeps all its other variables. */
  function Feed(tr: Trace, input: Stream): Trace {
    tr.(i := input)
  }

  /** What stage i reads: its first external stream, and the sum of its other two. */
  function FedStage(I: seq<Stream>, stages: seq<seq<Trace>>, steps: nat, i: nat): seq<Trace>
    requires |I| == 3 * |stages| && i < |stages| && AreStreams(I, steps) && TracePairs(stages, steps)
  {
    assert IsStream(I[3 * i + 1], steps) && IsStream(I[3 * i + 2], steps);
    [Feed(stages[i][0], I[3 * i]), Feed(stages[i][1], Merge(I[3 * i + 1], I[3 * i + 2]))]
  }

  /** What merger buffer i reads: both outputs of stage i. */
  function FedMerger(mg: seq<Trace>, stages: seq<seq<Trace>>, steps: nat, i: nat): Trace
    requires |mg| == |stages| && i < |mg| && TracePairs(stages, steps)
  {
    assert TracePair(stages[i], steps);
    Feed(mg[i], Merge(stages[i][0].o, stages[i][1].o))
  }

  ghost predicate StagesFed(I: seq<Stream>, stages: seq<seq<Trace>>, steps: nat) {
    && |I| == 3 * |stages| && AreStreams(I, steps) && TracePairs(stages, steps)
    && forall i :: 0 <= i < |stages| ==> stages[i] == FedStage(I, stages, steps, i)
  }

  function Outs(bufs: seq<Trace>): (r: seq<Stream>)
    ensures |r| == |bufs|
  {
    seq(|bufs|, i requires 0 <= i < |bufs| => bufs[i].o)
  }

  ghost predicate MergerFed(mg: seq<Trace>, stages: seq<seq<Trace>>, steps: nat) {
    && |mg| == |stages| && TracePairs(stages, steps) && AllShaped(mg, steps) && AreStreams(Outs(mg), steps)
    && forall i :: 0 <= i < |mg| ==> mg[i] == FedMerger(mg, stages, steps, i)
  }

  method FeedStages(I: seq<Stream>, stages: seq<seq<Trace>>, steps: nat) returns (fed: seq<seq<Trace>>)
    requires |I| == 3 * |stages| && AreStreams(I, steps) && TracePairs(stages, steps)
    ensures |fed| == |stages| && StagesFed(I, fed, steps)
    ensures forall i :: 0 <= i < |stages| ==> fed[i] == FedStage(I, stages, steps, i)
  {
    fed := [];
    for i := 0 to |stages|
      invariant |fed| == i && TracePairs(fed, steps)
      invariant forall x :: 0 <= x < i ==> fed[x] == FedStage(I, stages, steps, x)
    {
      assert IsStream(I[3 * i], steps) && IsStream(I[3 * i + 1], steps) && IsStream(I[3 * i + 2], steps);
      assert TracePair(stages[i], steps);
      var second := MergeStreams(I[3 * i + 1], I[3 * i + 2]);
      fed := fed + [[Feed(stages[i][0], I[3 * i]), Feed(stages[i][1], second)]];
    }
    assert forall i :: 0 <= i < |fed| ==> fed[i] == FedStage(I, fed, steps, i);
  }

  method FeedMerger(mg: seq<Trace>, stages: seq<seq<Trace>>, steps: nat) returns (fed: seq<Trace>)
    requires |mg| == |stages| && TracePairs(stages, steps) && AllShaped(mg, steps)
    ensures |fed| == |mg| && MergerFed(fed, stages, steps)
    ensures forall i :: 0 <= i < |mg| ==> fed[i] == Feed(mg[i], fed[i].i)
  {
    fed := [];
    for i := 0 to |mg|
      invariant |fed| == i && AllShaped(fed, steps)
      invariant forall x :: 0 <= x < i ==> fed[x] == FedMerger(mg, stages, steps, x)
    {
      assert TracePair(stages[i], steps) && Shaped(mg[i], steps, PKT_TYPES);
      var both := MergeStreams(stages[i][0].o, stages[i][1].o);
      fed := fed + [Feed(mg[i], both)];
    }
  }

  method Classify(outs: seq<Stream>, free: seq<Stream>, steps: nat) returns (cls: Classifier)
    requires |outs| > 0 && |free| == 2 && AreStreams(outs, steps) && AreStreams(free, steps)
    ensures fresh(cls) && cls.Valid() && cls.timesteps == steps && cls.I == SumStreams(outs, steps, |outs|)
    ensures ClassifiedStream(cls.I, cls.O[0], 0) && ClassifiedStream(cls.I, cls.O[1], 1)
  {
    var input := AddAll(outs, steps);
    cls := new Classifier(input, free);
    cls.SetOut();
  }

  class Composed {
    const steps: nat
    var I: seq<Stream>
    var stages: seq<seq<Trace>>
    var merger: seq<Trace>
    var classifier: Classifier
    var prio: seq<Trace>
    var O: Stream

    ghost predicate Valid()
      reads this, classifier
    {
      && StagesFed(I, stages, steps) && MergerFed(merger, stages, steps) && TracePair(prio, steps)
      && classifier.Valid() && classifier.I == SumStreams(Outs(merger), steps, |merger|)
      && ClassifiedStream(classifier.I, classifier.O[0], 0) && ClassifiedStream(classifier.I, classifier.O[1], 1)
      && prio[0].i == classifier.O[0] && prio[1].i == classifier.O[1]
      && O == Merge(prio[0].o, prio[1].o)
    }

    /** From the external streams and the components with their free variables. */
    constructor (I: seq<Stream>, stages: seq<seq<Trace>>, merger: seq<Trace>, free: seq<Stream>, prio: seq<Trace>,
                 steps: nat)
      requires |stages| == |merger| > 0 && |I| == 3 * |stages| && |free| == 2
      requires AreStreams(I, steps) && TracePairs(stages, steps) && AllShaped(merger, steps)
      requires AreStreams(free, steps) && TracePair(prio, steps)
      ensures Valid() && this.steps == steps && this.I == I && |this.stages| == |stages|
      ensures forall i :: 0 <= i < |stages| ==> this.stages[i] == FedStage(I, stages, steps, i)
      ensures forall i :: 0 <= i < |stages| ==> this.merger[i] == Feed(merger[i], this.merger[i].i)
      ensures forall p :: 0 <= p < 2 ==> this.prio[p] == Feed(prio[p], this.prio[p].i)
    {
      var fedStages := FeedStages(I, stages, steps);
      var fedMerger := FeedMerger(merger, fedStages, steps);
      var cls := Classify(Outs(fedMerger), free, steps);
      var out := MergeStreams(prio[0].o, prio[1].o);
      this.steps, this.I, this.stages, this.merger, this.classifier := steps, I, fedStages, fedMerger, cls;
      this.prio, this.O := [Feed(prio[0], cls.O[0]), Feed(prio[1], cls.O[1])], out;
    }

    /** The variables of the object as one switch. */
    ghost function AsSwitch(turn: seq<seq<int>>): Switch
      reads this
    {
      Switch(I, stages, turn, merger, prio)
    }
  }

  /** Every object of the class is wired as the theorems on the composed switch require. */
  lemma ObjectIsWired(c: Composed, turn: seq<seq<int>>)
    requires c.Valid() && |turn| == |c.stages|
    ensures Wired(c.AsSwitch(turn), c.steps)
  {
    var l := c.AsSwitch(turn);
    assert Outs(c.merger) == MergerOuts(l);
    forall i | 0 <= i < |l.rr|
      ensures StageWired(l, c.steps, i)
    {
      assert c.stages[i] == FedStage(c.I, c.stages, c.steps, i)
             && c.merger[i] == FedMerger(c.merger, c.stages, c.steps, i);
    }
  }

  /**
    End to end for the object: whenever its components meet their constraints, the external input of
    every packet type is the object's output plus backlogs and drops.
   */
  lemma ObjectConserves(c: Composed, turn: seq<seq<int>>, cap: int, n: nat, x: nat)
    requires c.Valid() && Components(c.AsSwitch(turn), c.steps, cap) && cap >= 1 && 0 < n <= c.steps && x < PKT_TYPES
    ensures SwitchRun(c.AsSwitch(turn), c.steps, cap)
    ensures ExtIn(c.AsSwitch(turn), c.steps, n, x, |c.stages|)
            == Cum(c.O, n, x) + StagesHeld(c.AsSwitch(turn), c.steps, n, x, |c.stages|)
               + Held(c.prio[0], n, x) + Held(c.prio[1], n, x)
  {
    ObjectIsWired(c, turn);
    LoomConserves(c.AsSwitch(turn), c.steps, cap, n, x);
    CumMerge(c.prio[0].o, c.prio[1].o, n, x);
  }
}
