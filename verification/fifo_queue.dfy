/**
  The buffer that the counts stand for: a FIFO queue of typed packets with finite capacity and tail
  drop (Readme.md, "a fifo queue of packets with finite capacity").  In every step the arrivals are
  admitted while there is room, and then the oldest packet may leave.
 */
module FifoQueue {
  import opened CountVectors
  import opened BufferTrace

  datatype Step = Step(arrivals: seq<nat>, deq: bool)

  function Admitted(q: seq<nat>, arrivals: seq<nat>, cap: nat): seq<nat> {
    if |q| + |arrivals| <= cap then arrivals else if |q| <= cap then arrivals[..cap - |q|] else []
  }

  function Dropped(q: seq<nat>, arrivals: seq<nat>, cap: nat): seq<nat> {
    arrivals[|Admitted(q, arrivals, cap)|..]
  }

  /** Tail drop: the arrivals are taken in order until the queue is full, and what is left of them is dropped. */
  lemma TailDrop(q: seq<nat>, arrivals: seq<nat>, cap: nat)
    requires |q| <= cap
    ensures Admitted(q, arrivals, cap) + Dropped(q, arrivals, cap) == arrivals
    ensures |q| + |Admitted(q, arrivals, cap)| == Min(|q| + |arrivals|, cap)
  {
  }

  /** The queue before step j. */
  function Queue(steps: seq<Step>, cap: nat, j: nat): seq<nat>
    requires j <= |steps|
    decreases j, 0
  {
    if j == 0 then [] else
      var full := Filled(steps, cap, j - 1);
      if steps[j - 1].deq && full != [] then full[1..] else full
  }

  /** The queue in step j after the admissions. */
  function Filled(steps: seq<Step>, cap: nat, j: nat): seq<nat>
    requires j < |steps|
    decreases j, 1
  {
    Queue(steps, cap, j) + Admitted(Queue(steps, cap, j), steps[j].arrivals, cap)
  }

  /** The packet that leaves in step j, if any. */
  function Departed(steps: seq<Step>, cap: nat, j: nat): seq<nat>
    requires j < |steps|
  {
    var full := Filled(steps, cap, j);
    if steps[j].deq && full != [] then full[..1] else []
  }

  ghost predicate Typed(s: seq<nat>, k: nat) {
    forall x :: 0 <= x < |s| ==> s[x] < k
  }

  ghost predicate TypedRun(steps: seq<Step>, k: nat) {
    forall j :: 0 <= j < |steps| ==> Typed(steps[j].arrivals, k)
  }

  lemma {:induction false} QueueFits(steps: seq<Step>, cap: nat, k: nat, j: nat)
    requires j <= |steps| && TypedRun(steps, k)
    ensures |Queue(steps, cap, j)| <= cap && Typed(Queue(steps, cap, j), k)
    ensures j < |steps| ==> |Filled(steps, cap, j)| <= cap && Typed(Filled(steps, cap, j), k)
  {
    if j == 0 {
    } else {
      QueueFits(steps, cap, k, j - 1);
    }
  }

  // ---------------------------------------------------------------- counting packets by type

  function CountOf(s: seq<nat>, k: nat): (v: Vec)
    ensures |v| == k && NonNegative(v)
  {
    seq(k, t => multiset(s)[t])
  }

  lemma CountOfConcat(a: seq<nat>, b: seq<nat>, k: nat)
    ensures CountOf(a + b, k) == Add(CountOf(a, k), CountOf(b, k))
  {
  }

  /** Splitting a packet sequence splits its counts. */
  lemma CountOfSplit(s: seq<nat>, n: nat, k: nat)
    requires n <= |s|
    ensures CountOf(s, k) == Add(CountOf(s[..n], k), CountOf(s[n..], k))
  {
    assert s == s[..n] + s[n..];
    CountOfConcat(s[..n], s[n..], k);
  }

  lemma CountOfNone(k: nat)
    ensures CountOf([], k) == Zero(k)
  {
  }

  function Unit(t: nat, k: nat): Vec {
    seq(k, x => if x == t then 1 else 0)
  }

  lemma {:induction false} SumUnit(t: nat, k: nat)
    ensures Sum(Unit(t, k)) == if t < k then 1 else 0
  {
    if k == 0 {
    } else {
      SumUnit(t, k - 1);
      assert Unit(t, k)[..k - 1] == Unit(t, k - 1);
    }
  }

  /** When all packets have one of the k types, the counts add up to the number of packets. */
  lemma {:induction false} SumCountOf(s: seq<nat>, k: nat)
    requires Typed(s, k)
    ensures Sum(CountOf(s, k)) == |s|
  {
    if |s| == 0 {
      CountOfNone(k);
      SumZero(k);
    } else {
      var n := |s| - 1;
      SumCountOf(s[..n], k);
      CountOfSplit(s, n, k);
      assert s[n..] == [s[n]];
      assert CountOf([s[n]], k) == Unit(s[n], k);
      SumUnit(s[n], k);
      SumAdd(CountOf(s[..n], k), CountOf(s[n..], k));
    }
  }

  /** Packets of the only type are counted by their number. */
  lemma OneCount(s: seq<nat>)
    requires Typed(s, 1)
    ensures CountOf(s, 1) == [|s|]
  {
    SumCountOf(s, 1);
    OneSum(CountOf(s, 1));
  }
}
