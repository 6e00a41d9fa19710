/** Which runs of counts, for any number of packet types, are runs of a FIFO queue. */
module FifoHistories {
  import opened CountVectors
  import opened BufferTrace
  import opened FifoQueue
  import opened FifoSimulation
  import LeafBuffer
  import StsBuffer

  ghost predicate Comparable(a: Vec, b: Vec) {
    |a| == |b| && (LeV(a, b) || LeV(b, a))
  }

  /** Cumulative enqueues and outputs never cross: one order of admission fits all outputs. */
  ghost predicate InOrder(tr: Trace, m: nat, k: nat)
    requires AllOf(tr.e, m, k) && AllOf(tr.o, m, k)
  {
    forall j, t :: 0 <= j <= m && 0 <= t <= m ==> Comparable(Cumulative(tr.e, j, k), Cumulative(tr.o, t, k))
  }

  // ---------------------------------------------------------------- a history for a chain of vectors

  ghost predicate Chain(vs: seq<Vec>, k: nat) {
    && (forall i :: 0 <= i < |vs| ==> |vs[i]| == k && NonNegative(vs[i]))
    && forall i, j :: 0 <= i < |vs| && 0 <= j < |vs| ==> Comparable(vs[i], vs[j])
  }

  ghost predicate PassesOne(v: Vec, k: nat, h: seq<nat>) {
    && (0 <= Sum(v) <= |h| ==> CountOf(h[..Sum(v)], k) == v)
    && (Sum(v) >= |h| ==> |v| == k && LeV(CountOf(h, k), v))
  }

  /** The history h passes every vector of the chain that it has reached, and is below all others. */
  ghost predicate Passes(vs: seq<Vec>, k: nat, h: seq<nat>) {
    forall i :: 0 <= i < |vs| ==> PassesOne(vs[i], k, h)
  }

  /** A least vector among those with more than p packets. */
  lemma {:induction false} LeastAbove(vs: seq<Vec>, p: int, n: nat) returns (found: bool, i: nat)
    requires n <= |vs|
    ensures found ==> i < n && Sum(vs[i]) > p
    ensures forall j :: 0 <= j < n && Sum(vs[j]) > p ==> found && Sum(vs[i]) <= Sum(vs[j])
  {
    if n == 0 {
      found, i := false, 0;
    } else {
      found, i := LeastAbove(vs, p, n - 1);
      if Sum(vs[n - 1]) > p && (!found || Sum(vs[n - 1]) < Sum(vs[i])) {
        found, i := true, n - 1;
      }
    }
  }

  /** Comparable vectors are ordered like their sums. */
  lemma OrderedBySum(a: Vec, b: Vec)
    requires Comparable(a, b) && Sum(a) <= Sum(b)
    ensures LeV(a, b)
  {
    if LeV(b, a) {
      SumMonotone(b, a);
    }
  }

  lemma SomeBelow(a: Vec, b: Vec) returns (t: nat)
    requires |a| == |b| && LeV(a, b) && Sum(a) < Sum(b)
    ensures t < |a| && a[t] < b[t]
  {
    if forall x :: 0 <= x < |a| ==> a[x] >= b[x] {
      SumMonotone(b, a);
    }
    t :| 0 <= t < |a| && a[t] < b[t];
  }

  lemma CountOneMore(h: seq<nat>, t: nat, k: nat)
    ensures CountOf(h + [t], k) == Add(CountOf(h, k), Unit(t, k))
  {
    CountOfConcat(h, [t], k);
    assert CountOf([t], k) == Unit(t, k);
  }

  lemma {:induction false} PassesNext(v: Vec, w: Vec, k: nat, h: seq<nat>, t: nat)
    requires |v| == |w| == k && NonNegative(v) && Typed(h, k) && t < k && PassesOne(v, k, h)
    requires LeV(CountOf(h, k), w) && CountOf(h, k)[t] < w[t] && (Sum(v) > |h| ==> LeV(w, v))
    ensures PassesOne(v, k, h + [t])
  {
    var h' := h + [t];
    CountOneMore(h, t, k);
    if Sum(v) <= |h| {
      SumOfCounts(v);
      assert h'[..Sum(v)] == h[..Sum(v)];
    } else {
      assert LeV(CountOf(h', k), v);
      if Sum(v) == |h'| {
        assert h'[..Sum(v)] == h';
        SumCountOf(h', k);
        SumMonotone(CountOf(h', k), v);
      }
    }
  }

  lemma PassesNothing(v: Vec, k: nat)
    requires |v| == k && NonNegative(v)
    ensures PassesOne(v, k, [])
  {
    SumOfCounts(v);
    CountOfNone(k);
  }

  /** A chain of count vectors is passed by one sequence of packets. */
  lemma {:induction false} HistoryOfChain(vs: seq<Vec>, k: nat, p: nat, top: nat) returns (h: seq<nat>)
    requires Chain(vs, k) && top < |vs| && p <= Sum(vs[top])
    ensures |h| == p && Typed(h, k) && Passes(vs, k, h)
  {
    if p == 0 {
      h := [];
      forall i | 0 <= i < |vs|
        ensures PassesOne(vs[i], k, h)
      {
        PassesNothing(vs[i], k);
      }
    } else {
      var before := HistoryOfChain(vs, k, p - 1, top);
      var _, i := LeastAbove(vs, p - 1, |vs|);
      var w := vs[i];
      assert PassesOne(w, k, before);
      SumCountOf(before, k);
      var t := SomeBelow(CountOf(before, k), w);
      h := before + [t];
      forall j | 0 <= j < |vs|
        ensures PassesOne(vs[j], k, h)
      {
        assert PassesOne(vs[j], k, before);
        if Sum(vs[j]) > |before| {
          OrderedBySum(w, vs[j]);
        }
        PassesNext(vs[j], w, k, before, t);
      }
    }
  }

  lemma PacketsExist(v: Vec, k: nat)
    requires |v| == k && NonNegative(v)
    ensures exists s :: Typed(s, k) && CountOf(s, k) == v
  {
    SumOfCounts(v);
    var h := HistoryOfChain([v], k, Sum(v), 0);
    assert PassesOne([v][0], k, h) && h[..Sum(v)] == h;
  }

  /** Any counts are the counts of some packets. */
  ghost function Packets(v: Vec, k: nat): (s: seq<nat>)
    requires |v| == k && NonNegative(v)
    ensures Typed(s, k) && CountOf(s, k) == v
  {
    PacketsExist(v, k);
    var s :| Typed(s, k) && CountOf(s, k) == v;
    s
  }

  // ---------------------------------------------------------------- cumulative counts

  lemma {:induction false} CumulativeGrows(vs: seq<Vec>, k: nat, i: nat, j: nat)
    requires i <= j <= |vs| && forall x :: 0 <= x < |vs| ==> |vs[x]| == k && NonNegative(vs[x])
    ensures NonNegative(Cumulative(vs, i, k)) && LeV(Cumulative(vs, i, k), Cumulative(vs, j, k))
  {
    if i < j {
      CumulativeGrows(vs, k, i, j - 1);
    } else if i > 0 {
      CumulativeGrows(vs, k, i - 1, i - 1);
    }
  }

  function Cums(vs: seq<Vec>, m: nat, k: nat): (r: seq<Vec>)
    requires AllOf(vs, m, k)
    ensures |r| == m + 1 && forall j :: 0 <= j <= m ==> r[j] == Cumulative(vs, j, k)
  {
    seq(m + 1, j requires 0 <= j <= m => Cumulative(vs, j, k))
  }

  lemma CumsAreChain(tr: Trace, m: nat, k: nat)
    requires AllOf(tr.e, m, k) && AllOf(tr.o, m, k) && AllCounts(tr.e) && AllCounts(tr.o) && InOrder(tr, m, k)
    ensures Chain(Cums(tr.e, m, k) + Cums(tr.o, m, k), k)
  {
    var vs := Cums(tr.e, m, k) + Cums(tr.o, m, k);
    forall i, j | 0 <= i < |vs| && 0 <= j < |vs|
      ensures |vs[i]| == k && NonNegative(vs[i]) && Comparable(vs[i], vs[j])
    {
      var x, y := if i <= m then i else i - m - 1, if j <= m then j else j - m - 1;
      CumulativeGrows(tr.e, k, x, m);
      CumulativeGrows(tr.o, k, x, m);
      if i <= m && j <= m {
        CumulativeGrows(tr.e, k, if x <= y then x else y, if x <= y then y else x);
      } else if i > m && j > m {
        CumulativeGrows(tr.o, k, if x <= y then x else y, if x <= y then y else x);
      } else {
        assert Comparable(Cumulative(tr.e, if i <= m then x else y, k), Cumulative(tr.o, if i <= m then y else x, k));
      }
    }
  }

  // ---------------------------------------------------------------- the queue behind a run of counts

  /** Packets admitted before step j. */
  function AdmittedBefore(tr: Trace, m: nat, k: nat, j: nat): int
    requires AllOf(tr.e, m, k) && j <= m
  {
    Sum(Cumulative(tr.e, j, k))
  }

  /** Packets sent before step j. */
  function SentBefore(tr: Trace, m: nat, k: nat, j: nat): int
    requires AllOf(tr.o, m, k) && j <= m
  {
    Sum(Cumulative(tr.o, j, k))
  }

  /** The numbers of one step: tail drop, and at most one packet sent that is really there. */
  ghost predicate FlowAt(tr: Trace, m: nat, k: nat, cap: int, j: nat)
    requires Shaped(tr, m, k) && j < m
  {
    var queued := AdmittedBefore(tr, m, k, j) - SentBefore(tr, m, k, j);
    && 0 <= queued <= cap
    && tr.i[j] == Add(tr.e[j], tr.d[j]) && Sum(tr.e[j]) == Min(Sum(tr.i[j]), cap - queued)
    && Sum(tr.o[j]) <= 1 && Sum(tr.o[j]) <= queued + Sum(tr.e[j])
  }

  ghost predicate Flow(tr: Trace, m: nat, k: nat, cap: int) {
    Shaped(tr, m, k) && Counts(tr) && forall j :: 0 <= j < m ==> FlowAt(tr, m, k, cap, j)
  }

  lemma CountsStep(tr: Trace, m: nat, k: nat, j: nat)
    requires Shaped(tr, m, k) && Counts(tr) && j < m
    ensures AdmittedBefore(tr, m, k, j + 1) == AdmittedBefore(tr, m, k, j) + Sum(tr.e[j])
    ensures SentBefore(tr, m, k, j + 1) == SentBefore(tr, m, k, j) + Sum(tr.o[j])
    ensures Sum(tr.e[j]) >= 0 && Sum(tr.o[j]) >= 0 && Sum(tr.d[j]) >= 0
  {
    SumAdd(Cumulative(tr.e, j, k), tr.e[j]);
    SumAdd(Cumulative(tr.o, j, k), tr.o[j]);
    SumOfCounts(tr.e[j]);
    SumOfCounts(tr.o[j]);
    SumOfCounts(tr.d[j]);
  }

  lemma CountsGrow(tr: Trace, m: nat, k: nat, i: nat, j: nat)
    requires Shaped(tr, m, k) && Counts(tr) && i <= j <= m
    ensures 0 <= AdmittedBefore(tr, m, k, i) <= AdmittedBefore(tr, m, k, j)
    ensures 0 <= SentBefore(tr, m, k, i) <= SentBefore(tr, m, k, j)
  {
    CumulativeGrows(tr.e, k, i, j);
    CumulativeGrows(tr.o, k, i, j);
    SumOfCounts(Cumulative(tr.e, i, k));
    SumOfCounts(Cumulative(tr.o, i, k));
    SumMonotone(Cumulative(tr.e, i, k), Cumulative(tr.e, j, k));
    SumMonotone(Cumulative(tr.o, i, k), Cumulative(tr.o, j, k));
  }

  /** h passes all cumulative enqueues and outputs. */
  ghost predicate HistoryOf(tr: Trace, m: nat, k: nat, h: seq<nat>)
    requires Shaped(tr, m, k)
  {
    && Typed(h, k) && |h| == AdmittedBefore(tr, m, k, m)
    && forall j :: 0 <= j <= m ==> PassesOne(Cumulative(tr.e, j, k), k, h) && PassesOne(Cumulative(tr.o, j, k), k, h)
  }

  lemma PassesBoth(vs: seq<Vec>, ws: seq<Vec>, k: nat, h: seq<nat>, j: nat)
    requires Passes(vs + ws, k, h) && j < |vs| == |ws|
    ensures PassesOne(vs[j], k, h) && PassesOne(ws[j], k, h)
  {
    assert PassesOne((vs + ws)[j], k, h) && PassesOne((vs + ws)[|vs| + j], k, h);
  }

  lemma HistoryExists(tr: Trace, m: nat, k: nat) returns (h: seq<nat>)
    requires Shaped(tr, m, k) && Counts(tr) && InOrder(tr, m, k)
    ensures HistoryOf(tr, m, k, h)
  {
    var es, os := Cums(tr.e, m, k), Cums(tr.o, m, k);
    CumsAreChain(tr, m, k);
    CountsGrow(tr, m, k, m, m);
    h := HistoryOfChain(es + os, k, AdmittedBefore(tr, m, k, m), m);
    forall j | 0 <= j <= m
      ensures PassesOne(es[j], k, h) && PassesOne(os[j], k, h)
    {
      PassesBoth(es, os, k, h, j);
    }
  }

  /** Positions in the history before and after step j. */
  lemma Positions(tr: Trace, m: nat, k: nat, cap: int, j: nat, u: nat)
    requires Flow(tr, m, k, cap) && u == j + 1 <= m
    ensures var n, n' := AdmittedBefore(tr, m, k, j), AdmittedBefore(tr, m, k, u);
            var d, d' := SentBefore(tr, m, k, j), SentBefore(tr, m, k, u);
            && 0 <= d <= n <= n' <= AdmittedBefore(tr, m, k, m) && d <= d' <= n'
            && n' == n + Sum(tr.e[j]) && d' == d + Sum(tr.o[j])
            && n - d <= cap && Sum(tr.i[j]) == Sum(tr.e[j]) + Sum(tr.d[j])
            && n' - n == Min(n' - n + Sum(tr.d[j]), cap - (n - d))
            && d' - d <= 1 && Sum(tr.d[j]) >= 0
  {
    assert FlowAt(tr, m, k, cap, j);
    CountsStep(tr, m, k, j);
    CountsGrow(tr, m, k, j, j);
    CountsGrow(tr, m, k, u, m);
    SumAdd(tr.e[j], tr.d[j]);
  }

  /** Step j of the queue: the admitted piece of the history, then what is dropped. */
  ghost function StepFor(tr: Trace, h: seq<nat>, m: nat, k: nat, j: nat): (s: Step)
    requires Shaped(tr, m, k) && Counts(tr) && j < m
    requires 0 <= AdmittedBefore(tr, m, k, j) <= AdmittedBefore(tr, m, k, j + 1) <= |h|
  {
    Step(h[AdmittedBefore(tr, m, k, j)..AdmittedBefore(tr, m, k, j + 1)] + Packets(tr.d[j], k), Sum(tr.o[j]) == 1)
  }

  ghost predicate StepsFor(tr: Trace, h: seq<nat>, steps: seq<Step>, m: nat, k: nat, cap: int)
    requires Flow(tr, m, k, cap) && HistoryOf(tr, m, k, h)
  {
    && |steps| == m
    && forall j :: 0 <= j < m ==> (Positions(tr, m, k, cap, j, j + 1); steps[j] == StepFor(tr, h, m, k, j))
  }

  lemma {:induction false} StepsExist(tr: Trace, h: seq<nat>, m: nat, k: nat, cap: int, n: nat)
    returns (steps: seq<Step>)
    requires Flow(tr, m, k, cap) && HistoryOf(tr, m, k, h) && n <= m
    ensures |steps| == n
    ensures forall j :: 0 <= j < n ==> (Positions(tr, m, k, cap, j, j + 1); steps[j] == StepFor(tr, h, m, k, j))
  {
    if n == 0 {
      steps := [];
    } else {
      var before := StepsExist(tr, h, m, k, cap, n - 1);
      Positions(tr, m, k, cap, n - 1, n);
      steps := before + [StepFor(tr, h, m, k, n - 1)];
    }
  }

  /** Tail drop admits exactly the first part. */
  lemma AdmitsFirst(q: seq<nat>, a: seq<nat>, b: seq<nat>, cap: nat)
    requires |q| <= cap && |a| == Min(|a| + |b|, cap - |q|)
    ensures Admitted(q, a + b, cap) == a && Dropped(q, a + b, cap) == b
  {
  }

  lemma QueueAdvance(steps: seq<Step>, h: seq<nat>, extra: seq<nat>, cap: nat, j: nat, u: nat, d: nat, n: nat,
                     d': nat, n': nat)
    requires u == j + 1 && j < |steps| && d <= n <= n' <= |h| && d <= d' <= n' && d' - d <= 1 && n - d <= cap
    requires Queue(steps, cap, j) == h[d..n]
    requires steps[j] == Step(h[n..n'] + extra, d' == d + 1)
    requires n' - n == Min(n' - n + |extra|, cap - (n - d))
    ensures Admissions(steps, cap, j) == h[n..n'] && Dropped(Queue(steps, cap, j), steps[j].arrivals, cap) == extra
    ensures Filled(steps, cap, j) == h[d..n'] && Departed(steps, cap, j) == h[d..d']
    ensures Queue(steps, cap, u) == h[d'..n']
  {
    AdmitsFirst(h[d..n], h[n..n'], extra, cap);
    assert h[d..n] + h[n..n'] == h[d..n'];
  }

  ghost predicate QueueAt(tr: Trace, h: seq<nat>, steps: seq<Step>, m: nat, k: nat, cap: nat, j: nat)
    requires Shaped(tr, m, k) && j <= m
  {
    && j <= |steps| && 0 <= SentBefore(tr, m, k, j) <= AdmittedBefore(tr, m, k, j) <= |h|
    && Queue(steps, cap, j) == h[SentBefore(tr, m, k, j)..AdmittedBefore(tr, m, k, j)]
  }

  /** The parts of the history that step j admits, drops and sends. */
  ghost predicate PiecesAt(tr: Trace, h: seq<nat>, steps: seq<Step>, m: nat, k: nat, cap: nat, j: nat)
    requires Shaped(tr, m, k) && Counts(tr) && j < m
  {
    var n, n' := AdmittedBefore(tr, m, k, j), AdmittedBefore(tr, m, k, j + 1);
    var d, d' := SentBefore(tr, m, k, j), SentBefore(tr, m, k, j + 1);
    && j < |steps| && 0 <= d <= n <= n' <= |h| && d <= d' <= n'
    && steps[j].arrivals == h[n..n'] + Packets(tr.d[j], k) && steps[j].deq == (d' == d + 1)
    && Admissions(steps, cap, j) == h[n..n']
    && Dropped(Queue(steps, cap, j), steps[j].arrivals, cap) == Packets(tr.d[j], k)
    && Filled(steps, cap, j) == h[d..n'] && Departed(steps, cap, j) == h[d..d']
  }

  /** What step j does, by the positions before and after it. */
  lemma {:induction false} StepAdvances(tr: Trace, h: seq<nat>, steps: seq<Step>, m: nat, k: nat, cap: nat, j: nat,
                                        u: nat, d: nat, n: nat, d': nat, n': nat)
    requires Flow(tr, m, k, cap) && HistoryOf(tr, m, k, h) && StepsFor(tr, h, steps, m, k, cap) && u == j + 1 <= m
    requires d == SentBefore(tr, m, k, j) && n == AdmittedBefore(tr, m, k, j)
    requires d' == SentBefore(tr, m, k, u) && n' == AdmittedBefore(tr, m, k, u)
    requires j < |steps| && d <= n <= |h| && Queue(steps, cap, j) == h[d..n]
    ensures d <= n <= n' <= |h| && d <= d' <= n'
    ensures steps[j] == Step(h[n..n'] + Packets(tr.d[j], k), d' == d + 1)
    ensures Admissions(steps, cap, j) == h[n..n']
    ensures Dropped(Queue(steps, cap, j), steps[j].arrivals, cap) == Packets(tr.d[j], k)
    ensures Filled(steps, cap, j) == h[d..n'] && Departed(steps, cap, j) == h[d..d']
    ensures Queue(steps, cap, u) == h[d'..n']
  {
    Positions(tr, m, k, cap, j, u);
    SumCountOf(Packets(tr.d[j], k), k);
    QueueAdvance(steps, h, Packets(tr.d[j], k), cap, j, u, d, n, d', n');
  }

  lemma StepPieces(tr: Trace, h: seq<nat>, steps: seq<Step>, m: nat, k: nat, cap: nat, j: nat, u: nat)
    requires Flow(tr, m, k, cap) && HistoryOf(tr, m, k, h) && StepsFor(tr, h, steps, m, k, cap) && u == j + 1 <= m
    requires QueueAt(tr, h, steps, m, k, cap, j)
    ensures PiecesAt(tr, h, steps, m, k, cap, j) && QueueAt(tr, h, steps, m, k, cap, u)
  {
    Positions(tr, m, k, cap, j, u);
    StepAdvances(tr, h, steps, m, k, cap, j, u, SentBefore(tr, m, k, j), AdmittedBefore(tr, m, k, j),
                 SentBefore(tr, m, k, u), AdmittedBefore(tr, m, k, u));
  }

  lemma {:induction false} QueueFollows(tr: Trace, h: seq<nat>, steps: seq<Step>, m: nat, k: nat, cap: nat, j: nat)
    requires Flow(tr, m, k, cap) && HistoryOf(tr, m, k, h) && StepsFor(tr, h, steps, m, k, cap) && j <= m
    ensures QueueAt(tr, h, steps, m, k, cap, j)
    ensures j < m ==> PiecesAt(tr, h, steps, m, k, cap, j)
  {
    if j == 0 {
      SumZero(k);
      CountsGrow(tr, m, k, j, m);
    } else {
      QueueFollows(tr, h, steps, m, k, cap, j - 1);
      StepPieces(tr, h, steps, m, k, cap, j - 1, j);
    }
    if j < m {
      StepPieces(tr, h, steps, m, k, cap, j, j + 1);
    }
  }

  // ---------------------------------------------------------------- its counts are the run

  /** The counts of a piece between two vectors that the history passes. */
  lemma PieceCounts(a: Vec, b: Vec, x: Vec, k: nat, h: seq<nat>)
    requires |a| == |x| == k && b == Add(a, x) && PassesOne(a, k, h) && PassesOne(b, k, h)
    requires 0 <= Sum(a) <= Sum(b) <= |h|
    ensures CountOf(h[Sum(a)..Sum(b)], k) == x
  {
    var n, n' := Sum(a), Sum(b);
    CountOfSplit(h[..n'], n, k);
    assert h[..n'][..n] == h[..n] && h[..n'][n..] == h[n..n'];
    assert forall t :: 0 <= t < k ==> b[t] == a[t] + CountOf(h[n..n'], k)[t];
  }

  lemma CommonFromPieces(tr: Trace, h: seq<nat>, steps: seq<Step>, m: nat, k: nat, cap: nat, j: nat)
    requires Flow(tr, m, k, cap) && HistoryOf(tr, m, k, h) && j < m && PiecesAt(tr, h, steps, m, k, cap, j)
    ensures CommonAt(steps, tr, k, cap, j)
  {
    Positions(tr, m, k, cap, j, j + 1);
    assert FlowAt(tr, m, k, cap, j);
    PieceCounts(Cumulative(tr.e, j, k), Cumulative(tr.e, j + 1, k), tr.e[j], k, h);
    PieceCounts(Cumulative(tr.o, j, k), Cumulative(tr.o, j + 1, k), tr.o[j], k, h);
    CountOfConcat(h[AdmittedBefore(tr, m, k, j)..AdmittedBefore(tr, m, k, j + 1)], Packets(tr.d[j], k), k);
  }

  /** What is queued before step j. */
  lemma QueuedCounts(tr: Trace, h: seq<nat>, steps: seq<Step>, m: nat, k: nat, cap: nat, j: nat, c: Vec)
    requires Shaped(tr, m, k) && HistoryOf(tr, m, k, h) && j <= m && QueueAt(tr, h, steps, m, k, cap, j)
    requires |c| == k && Cumulative(tr.e, j, k) == Add(Cumulative(tr.o, j, k), c)
    ensures CountOf(Queue(steps, cap, j), k) == c
  {
    PieceCounts(Cumulative(tr.o, j, k), Cumulative(tr.e, j, k), c, k, h);
  }

  lemma StepsTyped(tr: Trace, h: seq<nat>, steps: seq<Step>, m: nat, k: nat, cap: nat)
    requires Flow(tr, m, k, cap) && HistoryOf(tr, m, k, h) && StepsFor(tr, h, steps, m, k, cap)
    ensures TypedRun(steps, k)
  {
    forall j | 0 <= j < m
      ensures Typed(steps[j].arrivals, k)
    {
      Positions(tr, m, k, cap, j, j + 1);
    }
  }

  // ---------------------------------------------------------------- necessity

  lemma PrefixCounts(h: seq<nat>, a: nat, b: nat, k: nat)
    requires a <= b <= |h|
    ensures LeV(CountOf(h[..a], k), CountOf(h[..b], k))
  {
    CountOfSplit(h[..b], a, k);
    assert h[..b][..a] == h[..a];
  }

  lemma {:induction false} EnqueuedHistory(steps: seq<Step>, tr: Trace, k: nat, cap: nat, j: nat)
    requires AllOf(tr.e, |steps|, k) && j <= |steps| && forall t :: 0 <= t < |steps| ==> CommonAt(steps, tr, k, cap, t)
    ensures Cumulative(tr.e, j, k) == CountOf(History(steps, cap, j), k)
  {
    if j == 0 {
      CountOfNone(k);
    } else {
      EnqueuedHistory(steps, tr, k, cap, j - 1);
      assert CommonAt(steps, tr, k, cap, j - 1);
      CountOfConcat(History(steps, cap, j - 1), Admissions(steps, cap, j - 1), k);
    }
  }

  /** What leaves in step j is a piece of the whole history. */
  lemma DepartedPiece(steps: seq<Step>, cap: nat, j: nat)
    requires j < |steps|
    ensures var h, d, d' := History(steps, cap, |steps|), DepartedCount(steps, cap, j),
            DepartedCount(steps, cap, j + 1);
            d <= d' <= |h| && Departed(steps, cap, j) == h[d..d']
  {
    var h := History(steps, cap, |steps|);
    QueueOfHistory(steps, cap, j);
    QueueAdvances(steps, cap, j, History(steps, cap, j), DepartedCount(steps, cap, j));
    HistoryPrefix(steps, cap, j + 1, |steps|);
    var now := History(steps, cap, j + 1);
    assert now == h[..|now|];
  }

  lemma {:induction false} SentHistory(steps: seq<Step>, tr: Trace, k: nat, cap: nat, j: nat)
    requires AllOf(tr.o, |steps|, k) && j <= |steps| && forall t :: 0 <= t < |steps| ==> CommonAt(steps, tr, k, cap, t)
    ensures DepartedCount(steps, cap, j) <= |History(steps, cap, |steps|)|
    ensures Cumulative(tr.o, j, k) == CountOf(History(steps, cap, |steps|)[..DepartedCount(steps, cap, j)], k)
  {
    var h := History(steps, cap, |steps|);
    QueueOfHistory(steps, cap, j);
    HistoryPrefix(steps, cap, j, |steps|);
    if j == 0 {
      CountOfNone(k);
    } else {
      SentHistory(steps, tr, k, cap, j - 1);
      DepartedPiece(steps, cap, j - 1);
      assert CommonAt(steps, tr, k, cap, j - 1);
      var d, d' := DepartedCount(steps, cap, j - 1), DepartedCount(steps, cap, j);
      CountOfSplit(h[..d'], d, k);
      assert h[..d'][..d] == h[..d] && h[..d'][d..] == h[d..d'];
    }
  }

  /** The counts of a queue run are in order. */
  lemma QueueRunInOrder(steps: seq<Step>, tr: Trace, k: nat, cap: nat)
    requires AllOf(tr.e, |steps|, k) && AllOf(tr.o, |steps|, k)
    requires forall t :: 0 <= t < |steps| ==> CommonAt(steps, tr, k, cap, t)
    ensures InOrder(tr, |steps|, k)
  {
    var h := History(steps, cap, |steps|);
    forall j, t | 0 <= j <= |steps| && 0 <= t <= |steps|
      ensures Comparable(Cumulative(tr.e, j, k), Cumulative(tr.o, t, k))
    {
      EnqueuedHistory(steps, tr, k, cap, j);
      SentHistory(steps, tr, k, cap, t);
      HistoryPrefix(steps, cap, j, |steps|);
      var n, d := |History(steps, cap, j)|, DepartedCount(steps, cap, t);
      if n <= d {
        PrefixCounts(h, n, d, k);
      } else {
        PrefixCounts(h, d, n, k);
      }
    }
  }

  // ---------------------------------------------------------------- a VOQ

  /** A VOQ sends at most one packet, and only when it is backlogged (out and trs of the crossbar). */
  ghost predicate SendsWhenBacklogged(tr: Trace, m: nat) {
    m <= |tr.o| && m <= |tr.b| && forall j :: 0 <= j < m ==> Sum(tr.o[j]) <= 1 && (Sum(tr.o[j]) == 1 ==> tr.b[j])
  }

  lemma {:induction false} LeafCumulative(tr: Trace, m: nat, k: nat, cap: nat, j: nat)
    requires LeafBuffer.BufferRun(tr, m, k, cap) && j < m
    ensures Cumulative(tr.e, j, k) == Add(Cumulative(tr.o, j, k), tr.c[j])
  {
    assert LeafBuffer.StepOk(tr, k, cap, j);
    if j == 0 {
      SumOfCounts(tr.c[0]);
      AddZero(Zero(k));
    } else {
      LeafCumulative(tr, m, k, cap, j - 1);
      StsBuffer.BalanceStep(Cumulative(tr.e, j - 1, k), Cumulative(tr.o, j - 1, k), tr.c[j - 1], tr.c[j], tr.e[j - 1],
        tr.o[j - 1], k);
    }
  }

  lemma LeafFlow(tr: Trace, m: nat, k: nat, cap: nat)
    requires LeafBuffer.BufferRun(tr, m, k, cap) && SendsWhenBacklogged(tr, m)
    ensures Flow(tr, m, k, cap)
  {
    forall j | 0 <= j < m
      ensures FlowAt(tr, m, k, cap, j)
    {
      LeafCumulative(tr, m, k, cap, j);
      SumAdd(Cumulative(tr.o, j, k), tr.c[j]);
      assert LeafBuffer.StepOk(tr, k, cap, j);
      LeafBuffer.RunStep(tr, m, k, cap, j);
      LeafBuffer.RunTailDrop(tr, m, k, cap, j);
    }
  }

  ghost predicate LeafQueueRun(steps: seq<Step>, tr: Trace, m: nat, k: nat, cap: nat) {
    |steps| == m && LeafFifoRun(steps, k, cap) && LeafImage(steps, tr, k, cap)
  }

  lemma LeafFromPieces(tr: Trace, h: seq<nat>, steps: seq<Step>, m: nat, k: nat, cap: nat, j: nat)
    requires LeafBuffer.BufferRun(tr, m, k, cap) && SendsWhenBacklogged(tr, m) && j < m && |steps| == m
    requires Flow(tr, m, k, cap) && HistoryOf(tr, m, k, h)
    requires QueueAt(tr, h, steps, m, k, cap, j) && PiecesAt(tr, h, steps, m, k, cap, j)
    ensures LeafStep(steps, cap, j) && LeafImageAt(steps, tr, k, cap, j)
  {
    CommonFromPieces(tr, h, steps, m, k, cap, j);
    LeafCumulative(tr, m, k, cap, j);
    SumAdd(Cumulative(tr.o, j, k), tr.c[j]);
    QueuedCounts(tr, h, steps, m, k, cap, j, tr.c[j]);
    LeafBuffer.RunStep(tr, m, k, cap, j);
    LeafBuffer.RunTailDrop(tr, m, k, cap, j);
    CountsStep(tr, m, k, j);
    SumCountOf(Packets(tr.d[j], k), k);
    assert LeafBuffer.StepOk(tr, k, cap, j);
    SumAdd(tr.e[j], tr.d[j]);
  }

  lemma LeafQueueExists(tr: Trace, m: nat, k: nat, cap: nat) returns (steps: seq<Step>)
    requires LeafBuffer.BufferRun(tr, m, k, cap) && SendsWhenBacklogged(tr, m) && InOrder(tr, m, k)
    ensures LeafQueueRun(steps, tr, m, k, cap)
  {
    LeafFlow(tr, m, k, cap);
    var h := HistoryExists(tr, m, k);
    steps := StepsExist(tr, h, m, k, cap, m);
    StepsTyped(tr, h, steps, m, k, cap);
    forall j | 0 <= j < m
      ensures LeafStep(steps, cap, j) && LeafImageAt(steps, tr, k, cap, j)
    {
      QueueFollows(tr, h, steps, m, k, cap, j);
      LeafFromPieces(tr, h, steps, m, k, cap, j);
    }
  }

  /**
    Counts and queues of a VOQ, for any number of packet types: a run of counts that sends single packets
    of a backlogged buffer is the image of a FIFO run if and only if its cumulative enqueues and its
    cumulative outputs are comparable at all pairs of steps.
   */
  lemma LeafRunIsQueueRun(tr: Trace, m: nat, k: nat, cap: nat)
    requires LeafBuffer.BufferRun(tr, m, k, cap) && SendsWhenBacklogged(tr, m)
    ensures (exists steps :: LeafQueueRun(steps, tr, m, k, cap)) <==> InOrder(tr, m, k)
  {
    if steps :| LeafQueueRun(steps, tr, m, k, cap) {
      LeafCommon(steps, tr, k, cap);
      QueueRunInOrder(steps, tr, k, cap);
    }
    if InOrder(tr, m, k) {
      var steps := LeafQueueExists(tr, m, k, cap);
    }
  }

  // ---------------------------------------------------------------- a contention point

  ghost predicate SendsOne(tr: Trace, m: nat) {
    m <= |tr.o| && forall j :: 0 <= j < m ==> Sum(tr.o[j]) <= 1
  }

  ghost predicate StsQueueRun(steps: seq<Step>, tr: Trace, m: nat, k: nat, cap: nat) {
    |steps| == m && StsFifoRun(steps, k, cap) && StsImage(steps, tr, k, cap)
  }

  /** The balance before step j, also for the first step. */
  lemma StsCumulative(tr: Trace, m: nat, k: nat, cap: nat, j: nat)
    requires StsBuffer.BufferRun(tr, m, k, cap) && j < m
    ensures |tr.c| > j && (j > 0 ==> |tr.c[j - 1]| == k)
    ensures Cumulative(tr.e, j, k) == Add(Cumulative(tr.o, j, k), StsBuffer.Before(tr, k, j))
    ensures Cumulative(tr.e, j + 1, k) == Add(Cumulative(tr.o, j + 1, k), tr.c[j])
  {
    StsBuffer.Conservation(tr, m, k, cap, j + 1);
    if j == 0 {
      AddZero(Zero(k));
    } else {
      StsBuffer.Conservation(tr, m, k, cap, j);
    }
  }

  lemma StsFlow(tr: Trace, m: nat, k: nat, cap: nat)
    requires StsBuffer.BufferRun(tr, m, k, cap) && SendsOne(tr, m) && cap >= 1
    ensures Flow(tr, m, k, cap)
  {
    forall j | 0 <= j < m
      ensures FlowAt(tr, m, k, cap, j)
    {
      StsCumulative(tr, m, k, cap, j);
      SumAdd(Cumulative(tr.o, j, k), StsBuffer.Before(tr, k, j));
      assert StsBuffer.StepOk(tr, k, cap, j);
      StsBuffer.RunStep(tr, m, k, cap, j);
      StsBuffer.RunTailDrop(tr, m, k, cap, j);
    }
  }

  lemma StsFromPieces(tr: Trace, h: seq<nat>, steps: seq<Step>, m: nat, k: nat, cap: nat, j: nat)
    requires StsBuffer.BufferRun(tr, m, k, cap) && SendsOne(tr, m) && cap >= 1 && j < m && |steps| == m
    requires Flow(tr, m, k, cap) && HistoryOf(tr, m, k, h)
    requires QueueAt(tr, h, steps, m, k, cap, j + 1) && PiecesAt(tr, h, steps, m, k, cap, j)
    ensures StsStep(steps, cap, j) && StsImageAt(steps, tr, k, cap, j)
  {
    CommonFromPieces(tr, h, steps, m, k, cap, j);
    StsCumulative(tr, m, k, cap, j);
    QueuedCounts(tr, h, steps, m, k, cap, j + 1, tr.c[j]);
    SumAdd(Cumulative(tr.o, j, k), StsBuffer.Before(tr, k, j));
    StsBuffer.RunStep(tr, m, k, cap, j);
    CountsStep(tr, m, k, j);
  }

  lemma StsQueueExists(tr: Trace, m: nat, k: nat, cap: nat) returns (steps: seq<Step>)
    requires StsBuffer.BufferRun(tr, m, k, cap) && SendsOne(tr, m) && cap >= 1 && InOrder(tr, m, k)
    ensures StsQueueRun(steps, tr, m, k, cap)
  {
    StsFlow(tr, m, k, cap);
    var h := HistoryExists(tr, m, k);
    steps := StepsExist(tr, h, m, k, cap, m);
    StepsTyped(tr, h, steps, m, k, cap);
    forall j | 0 <= j < m
      ensures StsStep(steps, cap, j) && StsImageAt(steps, tr, k, cap, j)
    {
      QueueFollows(tr, h, steps, m, k, cap, j);
      QueueFollows(tr, h, steps, m, k, cap, j + 1);
      StsFromPieces(tr, h, steps, m, k, cap, j);
    }
  }

  /** The same for a contention point. */
  lemma StsRunIsQueueRun(tr: Trace, m: nat, k: nat, cap: nat)
    requires StsBuffer.BufferRun(tr, m, k, cap) && SendsOne(tr, m) && cap >= 1
    ensures (exists steps :: StsQueueRun(steps, tr, m, k, cap)) <==> InOrder(tr, m, k)
  {
    if steps :| StsQueueRun(steps, tr, m, k, cap) {
      StsCommon(steps, tr, k, cap);
      QueueRunInOrder(steps, tr, k, cap);
    }
    if InOrder(tr, m, k) {
      var steps := StsQueueExists(tr, m, k, cap);
    }
  }

  // ---------------------------------------------------------------- one packet type

  /** With one packet type everything is in order. */
  lemma OneTypeInOrder(tr: Trace, m: nat)
    requires AllOf(tr.e, m, 1) && AllOf(tr.o, m, 1)
    ensures InOrder(tr, m, 1)
  {
  }

  /** With one packet type every run of a VOQ's counts is a FIFO run, and window variables always exist. */
  lemma OneTypeLeafRunIsQueueRun(tr: Trace, m: nat, cap: nat) returns (steps: seq<Step>, w: LeafBuffer.Windows)
    requires LeafBuffer.BufferRun(tr, m, 1, cap) && SendsWhenBacklogged(tr, m) && cap >= 1
    ensures LeafQueueRun(steps, tr, m, 1, cap) && LeafBuffer.WindowRun(tr, w, m, 1, cap)
  {
    OneTypeInOrder(tr, m);
    steps := LeafQueueExists(tr, m, 1, cap);
    w := QueueRunIsLeafRun(steps, tr, 1, cap);
  }

  /** With one packet type every run of a contention point's counts with single departures is a FIFO run. */
  lemma OneTypeStsRunIsQueueRun(tr: Trace, m: nat, cap: nat) returns (steps: seq<Step>)
    requires StsBuffer.BufferRun(tr, m, 1, cap) && SendsOne(tr, m) && cap >= 1
    ensures StsQueueRun(steps, tr, m, 1, cap)
  {
    OneTypeInOrder(tr, m);
    steps := StsQueueExists(tr, m, 1, cap);
  }
}
