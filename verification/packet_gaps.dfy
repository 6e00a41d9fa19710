/**
  Cumulative enqueues and inter-packet gaps of one input (src/gen/constr_extractor.cpp and
  src/leaf_spine/leaf_constr_extractor.cpp).
 */
module PacketGaps {
  /** Packets of the first n steps; it[t] is the number of packets that arrive in step t. */
  function Total(it: seq<int>, n: nat): int
    requires n <= |it|
  {
    if n == 0 then 0 else Total(it, n - 1) + it[n - 1]
  }

  /** get_cenqs_for_buff: entry j is the number of packets up to and including step j. */
  method Cenqs(it: seq<int>) returns (cenqs: seq<int>)
    requires |it| > 0
    ensures |cenqs| == |it| && forall j :: 0 <= j < |it| ==> cenqs[j] == Total(it, j + 1)
  {
    var cenq := it[0];
    cenqs := [cenq];
    assert Total(it, 1) == it[0];
    for j := 1 to |it|
      invariant |cenqs| == j && cenq == Total(it, j)
      invariant forall x :: 0 <= x < j ==> cenqs[x] == Total(it, x + 1)
    {
      cenq := cenq + it[j];
      cenqs := cenqs + [cenq];
    }
  }

  // ---------------------------------------------------------------- the gap of one arrival

  ghost predicate PreviousArrival(it: seq<int>, t: nat, p: int)
    requires t < |it|
  {
    0 <= p < t && it[p] > 0 && forall x :: p < x < t ==> it[x] <= 0
  }

  ghost predicate NextArrival(it: seq<int>, t: nat, q: int)
    requires t < |it|
  {
    t < q < |it| && it[q] > 0 && forall x :: t < x < q ==> it[x] <= 0
  }

  ghost predicate NoneBefore(it: seq<int>, t: nat)
    requires t < |it|
  {
    forall x :: 0 <= x < t ==> it[x] <= 0
  }

  ghost predicate NoneAfter(it: seq<int>, t: nat)
    requires t < |it|
  {
    forall x :: t < x < |it| ==> it[x] <= 0
  }

  /** The gap to the previous arrival; without one, to the next; without either, the horizon. */
  ghost predicate IsGap(it: seq<int>, t: nat, gap: int)
    requires t < |it|
  {
    && (forall p :: PreviousArrival(it, t, p) ==> gap == t - p)
    && (NoneBefore(it, t) ==> forall q :: NextArrival(it, t, q) ==> gap == q - t)
    && (NoneBefore(it, t) && NoneAfter(it, t) ==> gap == |it|)
  }

  /** The first loop of the value chain for step t1: the nearest later arrival is assigned last. */
  method NextGap(it: seq<int>, t1: nat) returns (val: int)
    requires t1 < |it|
    ensures NoneAfter(it, t1) ==> val == |it|
    ensures forall q :: NextArrival(it, t1, q) ==> val == q - t1
  {
    val := |it|;
    ghost var next := |it|;
    var t2 := |it| - 1;
    while t2 > t1
      invariant t1 <= t2 < next <= |it|
      invariant forall x :: t2 < x < next ==> it[x] <= 0
      invariant if next == |it| then val == |it| else it[next] > 0 && val == next - t1
    {
      if it[t2] > 0 {
        val := t2 - t1;
        next := t2;
      }
      t2 := t2 - 1;
    }
  }

  /** The second loop: earlier arrivals overwrite the value, the latest of them last. */
  method PreviousGap(it: seq<int>, t1: nat, start: int) returns (val: int)
    requires t1 < |it|
    ensures NoneBefore(it, t1) ==> val == start
    ensures forall p :: PreviousArrival(it, t1, p) ==> val == t1 - p
  {
    val := start;
    ghost var last := -1;
    for t2 := 0 to t1
      invariant -1 <= last < t2
      invariant forall x :: last < x < t2 ==> it[x] <= 0
      invariant if last == -1 then val == start else it[last] > 0 && val == t1 - last
    {
      if it[t2] > 0 {
        val := t1 - t2;
        last := t2;
      }
    }
  }

  /** The value chain of get_aipgs_for_buf for step t1: later assignments overwrite earlier ones. */
  method GapChain(it: seq<int>, t1: nat) returns (val: int)
    requires t1 < |it|
    ensures IsGap(it, t1, val)
    ensures forall p :: PreviousArrival(it, t1, p) ==> val == t1 - p
    ensures NoneBefore(it, t1) ==> forall q :: NextArrival(it, t1, q) ==> val == q - t1
    ensures NoneBefore(it, t1) && NoneAfter(it, t1) ==> val == |it|
  {
    val := NextGap(it, t1);
    val := PreviousGap(it, t1, val);
  }

  /** Entry t of the metric, given the entry before it. */
  ghost predicate AipgAt(it: seq<int>, a: seq<int>, t: nat)
    requires t < |it| && t < |a|
  {
    if t == 0 then a[0] == 0
    else if it[t] > 1 then a[t] == 0
    else if it[t] <= 0 then a[t] == a[t - 1]
    else IsGap(it, t, a[t])
  }

  ghost predicate IsAipg(it: seq<int>, a: seq<int>) {
    |a| == |it| && forall t :: 0 <= t < |a| ==> AipgAt(it, a, t)
  }

  lemma {:induction false} LastArrivalIn(it: seq<int>, lo: nat, t: nat) returns (found: bool, p: int)
    requires lo <= t < |it|
    ensures found ==> lo <= p < t && PreviousArrival(it, t, p)
    ensures !found ==> forall x :: lo <= x < t ==> it[x] <= 0
  {
    if lo == t {
      found, p := false, 0;
    } else if it[t - 1] > 0 {
      found, p := true, t - 1;
    } else {
      found, p := LastArrivalIn(it, lo, t - 1);
    }
  }

  lemma {:induction false} FirstArrivalIn(it: seq<int>, t: nat, hi: nat) returns (found: bool, q: int)
    requires t < hi <= |it|
    ensures found ==> t < q < hi && NextArrival(it, t, q)
    ensures !found ==> forall x :: t < x < hi ==> it[x] <= 0
  {
    if hi == t + 1 {
      found, q := false, 0;
    } else {
      found, q := FirstArrivalIn(it, t, hi - 1);
      if !found && it[hi - 1] > 0 {
        found, q := true, hi - 1;
      }
    }
  }

  /** Nothing arrives strictly between the two steps. */
  ghost predicate Quiet(it: seq<int>, lo: int, hi: int)
    requires 0 <= lo <= hi <= |it|
  {
    forall x :: lo < x < hi ==> it[x] <= 0
  }

  lemma GapBack(it: seq<int>, t: nat, gap: int)
    requires t < |it| && IsGap(it, t, gap) && exists p :: 0 <= p < t && it[p] > 0
    ensures 0 < gap <= t && it[t - gap] > 0 && Quiet(it, t - gap, t)
  {
    var found, p := LastArrivalIn(it, 0, t);
  }

  lemma GapAhead(it: seq<int>, t: nat, gap: int)
    requires t < |it| && IsGap(it, t, gap) && NoneBefore(it, t) && exists q :: t < q < |it| && it[q] > 0
    ensures 0 < gap < |it| - t && it[t + gap] > 0 && Quiet(it, t, t + gap)
  {
    var found, q := FirstArrivalIn(it, t, |it|);
  }

  /** get_aipgs_for_buf */
  method Aipgs(it: seq<int>) returns (aipgs: seq<int>)
    requires |it| > 0
    ensures IsAipg(it, aipgs)
  {
    aipgs := [0];
    assert AipgAt(it, aipgs, 0);
    for t1 := 1 to |it|
      invariant |aipgs| == t1
      invariant forall t :: 0 <= t < t1 ==> AipgAt(it, aipgs, t)
    {
      var val := GapChain(it, t1);
      var entry := if it[t1] > 1 then 0 else if it[t1] <= 0 then aipgs[t1 - 1] else val;
      var longer := aipgs + [entry];
      forall t | 0 <= t <= t1
        ensures AipgAt(it, longer, t)
      {
        if t < t1 {
          assert AipgAt(it, aipgs, t);
        }
      }
      aipgs := longer;
    }
  }

  /** Entry t of the metric, case by case. */
  lemma AipgCases(it: seq<int>, a: seq<int>, t: nat)
    requires IsAipg(it, a) && 0 < t < |it|
    ensures a[0] == 0
    ensures it[t] > 1 ==> a[t] == 0
    ensures it[t] <= 0 ==> a[t] == a[t - 1]
    ensures it[t] == 1 && (exists p :: 0 <= p < t && it[p] > 0) ==>
              0 < a[t] <= t && it[t - a[t]] > 0 && Quiet(it, t - a[t], t)
    ensures it[t] == 1 && (forall x :: 0 <= x < t ==> it[x] <= 0) && (exists q :: t < q < |it| && it[q] > 0) ==>
              0 < a[t] < |it| - t && it[t + a[t]] > 0 && Quiet(it, t, t + a[t])
    ensures it[t] == 1 && (forall x :: 0 <= x < |it| && x != t ==> it[x] <= 0) ==> a[t] == |it|
  {
    assert AipgAt(it, a, 0) && AipgAt(it, a, t);
    if it[t] == 1 && exists p :: 0 <= p < t && it[p] > 0 {
      GapBack(it, t, a[t]);
    } else if it[t] == 1 && exists q :: t < q < |it| && it[q] > 0 {
      GapAhead(it, t, a[t]);
    }
  }

  // ---------------------------------------------------------------- closed form

  /** The latest arrival at or before t, not counting step 0. */
  ghost predicate LatestArrival(it: seq<int>, t: nat, u: int)
    requires t < |it|
  {
    0 < u <= t && it[u] > 0 && forall x :: u < x <= t ==> it[x] <= 0
  }

  /**
    The metric at step t is set by the latest arrival after step 0: 0 for a burst, else its gap; before
    any such arrival it is 0.
   */
  lemma {:induction false} AipgClosedForm(it: seq<int>, a: seq<int>, t: nat)
    requires IsAipg(it, a) && t < |it|
    ensures forall u :: LatestArrival(it, t, u) ==> (if it[u] > 1 then a[t] == 0 else IsGap(it, u, a[t]))
    ensures (forall x :: 0 < x <= t ==> it[x] <= 0) ==> a[t] == 0
  {
    assert AipgAt(it, a, t);
    if t == 0 {
    } else {
      AipgClosedForm(it, a, t - 1);
      forall u | LatestArrival(it, t, u)
        ensures if it[u] > 1 then a[t] == 0 else IsGap(it, u, a[t])
      {
        if u < t {
          assert LatestArrival(it, t - 1, u);
        }
      }
    }
  }

  // ---------------------------------------------------------------- rate bound

  function Between(it: seq<int>, lo: nat, hi: nat): int
    requires lo <= hi <= |it|
  {
    Total(it, hi) - Total(it, lo)
  }

  lemma {:induction false} QuietBetween(it: seq<int>, lo: nat, hi: nat)
    requires lo <= hi <= |it| && forall x :: lo <= x < hi ==> it[x] <= 0
    ensures Between(it, lo, hi) <= 0
  {
    if lo < hi {
      QuietBetween(it, lo, hi - 1);
    }
  }

  ghost predicate GapsAtLeast(a: seq<int>, lo: nat, hi: nat, g: int) {
    hi < |a| && forall t :: lo <= t <= hi ==> a[t] >= g
  }

  lemma MulLe(g: int, a: int, b: int)
    requires g >= 0 && a <= b
    ensures g * a <= g * b
  {
  }

  /** One more packet costs at least g steps. */
  lemma ScaleUp(g: int, n: int, m: int, x: int, y: int)
    requires g >= 1 && n <= m + 1 && g * m <= x && x + g <= y
    ensures g * n <= y
  {
    MulLe(g, n, m + 1);
    assert g * (m + 1) == g * m + g;
  }

  /** Packets from lo up to an arrival at t: they are at least g steps apart. */
  lemma {:induction false} RateAtArrival(it: seq<int>, a: seq<int>, lo: nat, t: nat, g: int)
    requires IsAipg(it, a) && 1 <= lo <= t < |it| && g >= 1 && GapsAtLeast(a, lo, t, g) && it[t] > 0
    ensures g * (Between(it, lo, t + 1) - 1) <= t - lo
    decreases t
  {
    assert AipgAt(it, a, t);
    assert it[t] == 1;
    var found, p := LastArrivalIn(it, lo, t);
    if found {
      RateAtArrival(it, a, lo, p, g);
      QuietBetween(it, p + 1, t);
      assert a[t] == t - p;
      ScaleUp(g, Between(it, lo, t + 1) - 1, Between(it, lo, p + 1) - 1, p - lo, t - lo);
    } else {
      QuietBetween(it, lo, t);
      ScaleUp(g, Between(it, lo, t + 1) - 1, -1, -g, t - lo);
    }
  }

  lemma CeilBound(n: int, span: nat, g: int)
    requires g >= 1 && g * (n - 1) <= span
    ensures n <= (span + g) / g
  {
    var q := (span + g) / g;
    assert span + g == g * q + (span + g) % g;
    if n > q {
      MulLe(g, q, n - 1);
    }
  }

  /**
    If the metric is at least g >= 1 in all steps lo to hi, lo > 0, then at most ceil((hi - lo + 1) / g)
    packets arrive in these steps.
   */
  lemma GapsBoundRate(it: seq<int>, a: seq<int>, lo: nat, hi: nat, g: int)
    requires IsAipg(it, a) && 1 <= lo <= hi < |it| && g >= 1 && GapsAtLeast(a, lo, hi, g)
    ensures Between(it, lo, hi + 1) <= (hi - lo + g) / g
  {
    if it[hi] > 0 {
      RateAtArrival(it, a, lo, hi, g);
    } else {
      var found, p := LastArrivalIn(it, lo, hi);
      if found {
        RateAtArrival(it, a, lo, p, g);
        QuietBetween(it, p + 1, hi + 1);
        MulLe(g, Between(it, lo, hi + 1) - 1, Between(it, lo, p + 1) - 1);
      } else {
        QuietBetween(it, lo, hi + 1);
        MulLe(g, Between(it, lo, hi + 1) - 1, 0);
      }
    }
    CeilBound(Between(it, lo, hi + 1), hi - lo, g);
  }
}
