/** The switch as a whole: the outputs of its buffers follow the matching, and backlog decides it. */
module VoqSystem {
  import opened CountVectors
  import opened BufferTrace
  import opened StableMatching
  import opened VoqSwitch
  import opened Voqs
  import opened VoqRuns
  import LeafBuffer
  import VoqDepartures

  type Traces = map<Voq, Trace>

  /** In step t the backlogged flag is the buffer's, and a matched VOQ sends one packet, any other none. */
  ghost predicate Coupled(voqs: seq<Voq>, x: Snapshot, tr: Trace, e: Voq, t: nat) {
    && WellShaped(voqs, x) && e in voqs && t < |tr.b| && t < |tr.o|
    && x.b[e] == tr.b[t]
    && Sum(tr.o[t]) == (if Matched(voqs, x, In, e) then 1 else 0)
  }

  ghost predicate Buffers(voqs: seq<Voq>, trs: Traces, steps: nat, k: nat, cap: int) {
    forall e :: e in voqs ==> e in trs && LeafBuffer.BufferRun(trs[e], steps, k, cap)
  }

  /** Everything the constraints of a switch say about a run, except for the window variables. */
  ghost predicate SystemRun(voqs: seq<Voq>, xs: seq<Snapshot>, trs: Traces, k: nat, cap: int) {
    && Run(voqs, xs)
    && Buffers(voqs, trs, |xs|, k, cap)
    && forall t, e :: 0 <= t < |xs| && e in voqs ==> Coupled(voqs, xs[t], trs[e], e, t)
  }

  // ---------------------------------------------------------------- packets in the switch

  /** The packets queued in all VOQs before step t. */
  function Queued(voqs: seq<Voq>, trs: Traces, t: nat): int
    requires forall e :: e in voqs ==> e in trs && t < |trs[e].c|
  {
    if |voqs| == 0 then 0 else
      Queued(voqs[..|voqs| - 1], trs, t) + Sum(trs[voqs[|voqs| - 1]].c[t])
  }

  /** The packets enqueued in step t. */
  function Enqueued(voqs: seq<Voq>, trs: Traces, t: nat): int
    requires forall e :: e in voqs ==> e in trs && t < |trs[e].e|
  {
    if |voqs| == 0 then 0 else
      Enqueued(voqs[..|voqs| - 1], trs, t) + Sum(trs[voqs[|voqs| - 1]].e[t])
  }

  lemma NextBacklog(tr: Trace, k: nat, cap: int, t: nat, u: nat)
    requires u == t + 1 && LeafBuffer.StepOk(tr, k, cap, u) && LeafBuffer.StepOk(tr, k, cap, t)
    ensures Sum(tr.c[u]) == Sum(tr.c[t]) + Sum(tr.e[t]) - Sum(tr.o[t])
  {
    SumAdd(tr.c[t], tr.e[t]);
    SumSub(Add(tr.c[t], tr.e[t]), tr.o[t]);
  }

  lemma OneBuffer(tr: Trace, steps: nat, k: nat, cap: int, t: nat)
    requires LeafBuffer.BufferRun(tr, steps, k, cap) && t < steps
    ensures t < |tr.b| && t < |tr.c| && t < |tr.e| && t < |tr.o|
    ensures Sum(tr.c[t]) >= 0 && (tr.b[t] <==> Sum(tr.c[t]) > 0)
    ensures t == 0 ==> Sum(tr.c[t]) == 0
    ensures t + 1 < steps ==> Sum(tr.c[t + 1]) == Sum(tr.c[t]) + Sum(tr.e[t]) - Sum(tr.o[t])
  {
    LeafBuffer.RunStep(tr, steps, k, cap, t);
    assert LeafBuffer.StepOk(tr, k, cap, t);
    if t + 1 < steps {
      NextBacklog(tr, k, cap, t, t + 1);
    }
  }

  /** The part of a step that concerns the VOQs of the list: m is what the step serves. */
  ghost predicate Serves(voqs: seq<Voq>, trs: Traces, m: set<Voq>, t: nat) {
    forall e :: e in voqs ==>
      && e in trs && t < |trs[e].c| && t < |trs[e].e| && t + 1 < |trs[e].c|
      && Sum(trs[e].c[t + 1]) == Sum(trs[e].c[t]) + Sum(trs[e].e[t]) - (if e in m then 1 else 0)
  }

  lemma {:induction false} QueuedCounts(voqs: seq<Voq>, trs: Traces, m: set<Voq>, t: nat)
    requires Serves(voqs, trs, m, t)
    ensures Queued(voqs, trs, t + 1)
            == Queued(voqs, trs, t) + Enqueued(voqs, trs, t) - VoqDepartures.CountIn(voqs, m)
  {
    if |voqs| == 0 {
    } else {
      QueuedCounts(voqs[..|voqs| - 1], trs, m, t);
      assert voqs[|voqs| - 1] in voqs;
    }
  }

  lemma StepServes(voqs: seq<Voq>, xs: seq<Snapshot>, trs: Traces, k: nat, cap: int, t: nat)
    requires SystemRun(voqs, xs, trs, k, cap) && t + 1 < |xs|
    ensures Serves(voqs, trs, Served(voqs, xs[t]), t)
  {
    forall e | e in voqs
      ensures && e in trs && t < |trs[e].c| && t < |trs[e].e| && t + 1 < |trs[e].c|
              && Sum(trs[e].c[t + 1]) == Sum(trs[e].c[t]) + Sum(trs[e].e[t])
                                         - (if e in Served(voqs, xs[t]) then 1 else 0)
    {
      OneBuffer(trs[e], |xs|, k, cap, t);
      OneBuffer(trs[e], |xs|, k, cap, t + 1);
      assert Coupled(voqs, xs[t], trs[e], e, t);
    }
  }

  /** Packets are conserved: what is queued changes by the enqueues and by one packet per matched VOQ. */
  lemma SwitchConserves(voqs: seq<Voq>, xs: seq<Snapshot>, trs: Traces, k: nat, cap: int, t: nat)
    requires Distinct(voqs) && SystemRun(voqs, xs, trs, k, cap) && t + 1 < |xs|
    ensures forall e :: e in voqs ==> t + 1 < |trs[e].c| && t < |trs[e].e|
    ensures Queued(voqs, trs, t + 1)
            == Queued(voqs, trs, t) + Enqueued(voqs, trs, t) - |Served(voqs, xs[t])|
  {
    StepServes(voqs, xs, trs, k, cap, t);
    QueuedCounts(voqs, trs, Served(voqs, xs[t]), t);
    VoqDepartures.CountDistinct(voqs, Served(voqs, xs[t]));
  }

  lemma {:induction false} SomeQueue(voqs: seq<Voq>, trs: Traces, t: nat) returns (e: Voq)
    requires forall e :: e in voqs ==> e in trs && t < |trs[e].c|
    requires Queued(voqs, trs, t) > 0
    ensures e in voqs && Sum(trs[e].c[t]) > 0
  {
    var last := voqs[|voqs| - 1];
    if Sum(trs[last].c[t]) > 0 {
      e := last;
    } else {
      e := SomeQueue(voqs[..|voqs| - 1], trs, t);
    }
  }

  lemma {:induction false} QueuedNonNegative(voqs: seq<Voq>, trs: Traces, t: nat)
    requires forall e :: e in voqs ==> e in trs && t < |trs[e].c| && Sum(trs[e].c[t]) >= 0
    ensures Queued(voqs, trs, t) >= 0
  {
    if |voqs| == 0 {
    } else {
      QueuedNonNegative(voqs[..|voqs| - 1], trs, t);
    }
  }

  ghost predicate FlagsTrue(voqs: seq<Voq>, x: Snapshot, trs: Traces, t: nat) {
    forall e :: e in voqs ==>
      e in x.b && e in trs && t < |trs[e].c| && Sum(trs[e].c[t]) >= 0 && (x.b[e] <==> Sum(trs[e].c[t]) > 0)
  }

  lemma FlagsMeanQueued(voqs: seq<Voq>, xs: seq<Snapshot>, trs: Traces, k: nat, cap: int, t: nat)
    requires SystemRun(voqs, xs, trs, k, cap) && t < |xs|
    ensures FlagsTrue(voqs, xs[t], trs, t)
  {
    forall e | e in voqs
      ensures e in xs[t].b && e in trs && t < |trs[e].c| && Sum(trs[e].c[t]) >= 0
      ensures xs[t].b[e] <==> Sum(trs[e].c[t]) > 0
    {
      OneBuffer(trs[e], |xs|, k, cap, t);
      assert Coupled(voqs, xs[t], trs[e], e, t);
    }
  }

  lemma {:induction false} QueuedAtLeast(voqs: seq<Voq>, trs: Traces, t: nat, e: Voq)
    requires forall f :: f in voqs ==> f in trs && t < |trs[f].c| && Sum(trs[f].c[t]) >= 0
    requires e in voqs
    ensures Queued(voqs, trs, t) >= Sum(trs[e].c[t])
  {
    var front, last := voqs[..|voqs| - 1], voqs[|voqs| - 1];
    assert voqs == front + [last];
    QueuedNonNegative(front, trs, t);
    if e in front {
      QueuedAtLeast(front, trs, t, e);
    }
  }

  lemma ServesIffQueued(voqs: seq<Voq>, x: Snapshot, trs: Traces, t: nat)
    requires Distinct(voqs) && WellShaped(voqs, x) && StepConstraints(voqs, x) && FlagsTrue(voqs, x, trs, t)
    ensures Queued(voqs, trs, t) > 0 <==> |Served(voqs, x)| > 0
  {
    if Queued(voqs, trs, t) > 0 {
      var e := SomeQueue(voqs, trs, t);
      StepServesHalf(voqs, x, {e});
    }
    if Served(voqs, x) != {} {
      var e :| e in Served(voqs, x);
      QueuedAtLeast(voqs, trs, t, e);
    }
  }

  /** The switch is work conserving: it serves some VOQ whenever a packet is queued anywhere. */
  lemma ServesWhenQueued(voqs: seq<Voq>, xs: seq<Snapshot>, trs: Traces, k: nat, cap: int, t: nat)
    requires Distinct(voqs) && SystemRun(voqs, xs, trs, k, cap) && t < |xs|
    ensures forall e :: e in voqs ==> t < |trs[e].c|
    ensures 0 <= Queued(voqs, trs, t)
    ensures Queued(voqs, trs, t) > 0 <==> |Served(voqs, xs[t])| > 0
  {
    FlagsMeanQueued(voqs, xs, trs, k, cap, t);
    QueuedNonNegative(voqs, trs, t);
    ServesIffQueued(voqs, xs[t], trs, t);
  }

  /** Steps a to b - 1 enqueue nothing anywhere. */
  ghost predicate Quiet(voqs: seq<Voq>, trs: Traces, a: nat, b: nat) {
    forall t, e :: a <= t < b && e in voqs ==> e in trs && t < |trs[e].e| && Sum(trs[e].e[t]) == 0
  }

  lemma {:induction false} NothingEnqueued(voqs: seq<Voq>, trs: Traces, t: nat)
    requires forall e :: e in voqs ==> e in trs && t < |trs[e].e| && Sum(trs[e].e[t]) == 0
    ensures Enqueued(voqs, trs, t) == 0
  {
    if |voqs| == 0 {
    } else {
      NothingEnqueued(voqs[..|voqs| - 1], trs, t);
    }
  }

  /**
    Liveness without assumptions on contention: once arrivals stop, every step with packets queued
    sends at least one of them, so the switch is empty after as many steps as it held packets.
   */
  lemma {:induction false} SwitchDrains(voqs: seq<Voq>, xs: seq<Snapshot>, trs: Traces, k: nat, cap: int, a: nat,
                                        b: nat)
    requires Distinct(voqs) && SystemRun(voqs, xs, trs, k, cap) && a <= b < |xs| && Quiet(voqs, trs, a, b)
    ensures forall e :: e in voqs ==> a < |trs[e].c| && b < |trs[e].c|
    ensures 0 <= Queued(voqs, trs, b)
    ensures Queued(voqs, trs, b) <= if Queued(voqs, trs, a) <= b - a then 0 else Queued(voqs, trs, a) - (b - a)
    decreases b - a
  {
    ServesWhenQueued(voqs, xs, trs, k, cap, a);
    if a < b {
      assert forall e :: e in voqs ==> a < |trs[e].e| && Sum(trs[e].e[a]) == 0;
      SwitchConserves(voqs, xs, trs, k, cap, a);
      NothingEnqueued(voqs, trs, a);
      SwitchDrains(voqs, xs, trs, k, cap, a + 1, b);
    }
  }
}
