/**
  The rate limiter of examples/rate_limiter.cpp: one buffer and a bit that toggles while the buffer is
  backlogged; a packet leaves whenever the bit is 1.
 */
module RateLimiter {
  import opened CountVectors
  import opened BufferTrace
  import opened StsBuffer

  predicate Init(b0: bool, s0: int) {
    if b0 then s0 == 1 else s0 == 0
  }

  predicate Trs(s: int, bp: bool, sp: int) {
    if bp then sp == 1 - s else sp == s
  }

  predicate Out(s: int, o: Vec) {
    if s == 1 then Sum(o) == 1 else Sum(o) == 0
  }

  ghost predicate ControlAt(tr: Trace, s: seq<int>, t: nat) {
    && t < |s| && t < |tr.b| && t < |tr.o|
    && Out(s[t], tr.o[t])
    && (if t == 0 then Init(tr.b[0], s[0]) else Trs(s[t - 1], tr.b[t], s[t]))
  }

  ghost predicate Run(tr: Trace, s: seq<int>, steps: nat, k: nat, cap: int) {
    && BufferRun(tr, steps, k, cap) && |s| == steps
    && forall t :: 0 <= t < steps ==> ControlAt(tr, s, t)
  }

  lemma {:induction false} StateIsBit(tr: Trace, s: seq<int>, steps: nat, k: nat, cap: int, t: nat)
    requires Run(tr, s, steps, k, cap) && t < steps
    ensures s[t] == 0 || s[t] == 1
    ensures t < |tr.o| && Sum(tr.o[t]) == s[t]
  {
    assert ControlAt(tr, s, t);
    if t == 0 {
    } else {
      StateIsBit(tr, s, steps, k, cap, t - 1);
    }
  }

  /** The first step sends a packet exactly when something is enqueued. */
  lemma FirstOutput(tr: Trace, s: seq<int>, steps: nat, k: nat, cap: int)
    requires Run(tr, s, steps, k, cap) && steps > 0
    ensures |tr.e| == |tr.o| == steps
    ensures Sum(tr.o[0]) == if Sum(tr.e[0]) > 0 then 1 else 0
  {
    assert ControlAt(tr, s, 0);
    RunStep(tr, steps, k, cap, 0);
    SumZero(k);
  }

  /** After an output the buffer is backlogged: a run in which it is not has a negative backlog. */
  lemma OutputLeavesBacklog(tr: Trace, s: seq<int>, steps: nat, k: nat, cap: int, t: nat)
    requires Run(tr, s, steps, k, cap) && t + 1 < steps && s[t] == 1
    ensures tr.b[t + 1] && s[t + 1] == 0
  {
    assert ControlAt(tr, s, t + 1);
    StateIsBit(tr, s, steps, k, cap, t + 1);
    RunStep(tr, steps, k, cap, t + 1);
  }

  /** No two consecutive steps both send a packet. */
  lemma NeverTwiceInARow(tr: Trace, s: seq<int>, steps: nat, k: nat, cap: int, t: nat)
    requires Run(tr, s, steps, k, cap) && t + 1 < steps && t + 1 < |tr.o|
    ensures Sum(tr.o[t]) + Sum(tr.o[t + 1]) <= 1
  {
    StateIsBit(tr, s, steps, k, cap, t);
    StateIsBit(tr, s, steps, k, cap, t + 1);
    if s[t] == 1 {
      OutputLeavesBacklog(tr, s, steps, k, cap, t);
    }
  }

  /** Packets sent in steps a to c - 1. */
  function Sent(tr: Trace, a: nat, c: nat): int
    requires a <= c <= |tr.o|
  {
    if a == c then 0 else Sent(tr, a, c - 1) + Sum(tr.o[c - 1])
  }

  /** Any w consecutive steps of any run send at most ceil(w / 2) packets. */
  lemma {:induction false} RateBound(tr: Trace, s: seq<int>, steps: nat, k: nat, cap: int, a: nat, w: nat)
    requires Run(tr, s, steps, k, cap) && a + w <= steps == |tr.o|
    ensures Sent(tr, a, a + w) <= (w + 1) / 2
  {
    if w == 1 {
      StateIsBit(tr, s, steps, k, cap, a);
      assert Sent(tr, a, a) == 0;
    } else if w > 1 {
      RateBound(tr, s, steps, k, cap, a, w - 2);
      NeverTwiceInARow(tr, s, steps, k, cap, a + w - 2);
      assert Sent(tr, a, a + w - 1) == Sent(tr, a, a + w - 2) + Sum(tr.o[a + w - 2]);
    }
  }

  ghost predicate BackloggedDuring(tr: Trace, a: nat, c: nat) {
    c <= |tr.b| && forall t :: a <= t < c ==> tr.b[t]
  }

  lemma {:induction false} Alternates(tr: Trace, s: seq<int>, steps: nat, k: nat, cap: int, a: nat, w: nat)
    requires Run(tr, s, steps, k, cap) && a + w <= steps == |tr.o| && BackloggedDuring(tr, a, a + w)
    ensures 2 * Sent(tr, a, a + w) == w + (if w % 2 == 0 then 0 else 2 * s[a] - 1)
    ensures w > 0 ==> s[a + w - 1] == if w % 2 == 1 then s[a] else 1 - s[a]
  {
    if w == 0 {
    } else {
      Alternates(tr, s, steps, k, cap, a, w - 1);
      StateIsBit(tr, s, steps, k, cap, a + w - 1);
      StateIsBit(tr, s, steps, k, cap, a);
      assert ControlAt(tr, s, a + w - 1);
    }
  }

  /** A buffer that stays backlogged is served at the full rate: every second packet slot is used. */
  lemma FullRateWhenBacklogged(tr: Trace, s: seq<int>, steps: nat, k: nat, cap: int, a: nat, w: nat)
    requires Run(tr, s, steps, k, cap) && a + w <= steps == |tr.o| && BackloggedDuring(tr, a, a + w)
    ensures w / 2 <= Sent(tr, a, a + w) <= (w + 1) / 2
  {
    Alternates(tr, s, steps, k, cap, a, w);
    if w > 0 {
      StateIsBit(tr, s, steps, k, cap, a);
    }
  }

  /** query: at most 5 packets leave during the whole run. */
  method QueryHolds(tr: Trace) returns (res: bool)
    requires |tr.o| > 0
    ensures res <==> Sent(tr, 0, |tr.o|) <= 5
  {
    var total := Sum(tr.o[0]);
    for t := 1 to |tr.o|
      invariant total == Sent(tr, 0, t)
    {
      total := total + Sum(tr.o[t]);
    }
    res := total <= 5;
  }

  /** It holds on every run of at most 10 steps: in 2 * n steps at most n packets leave. */
  lemma QueryAlwaysHolds(tr: Trace, s: seq<int>, steps: nat, k: nat, cap: int, n: nat)
    requires Run(tr, s, steps, k, cap) && steps <= 2 * n
    ensures |tr.o| == steps && Sent(tr, 0, |tr.o|) <= n
  {
    RateBound(tr, s, steps, k, cap, 0, steps);
  }
}
