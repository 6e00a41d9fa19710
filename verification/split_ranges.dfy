/** When the input of a step can be split into enqueues and drops within the ranges of E and D. */
module SplitRanges {
  import opened CountVectors

  /** What does not fit the range of E must be dropped; what does not fit the range of D must be enqueued. */
  function Excess(input: Vec, me: int): (v: Vec)
    ensures |v| == |input|
  {
    seq(|input|, t requires 0 <= t < |input| => if input[t] > me then input[t] - me else 0)
  }

  function Capped(input: Vec, me: int): (v: Vec)
    ensures |v| == |input|
  {
    seq(|input|, t requires 0 <= t < |input| => if input[t] > me then me else input[t])
  }

  /** The input can be split into m packets enqueued and the rest dropped, all within me per type. */
  predicate Splits(input: Vec, me: int, m: int) {
    Within(input, 2 * me) && Sum(Excess(input, me)) <= m <= Sum(Capped(input, me))
  }

  /** Counts within the range itself can be split at any number of packets. */
  lemma SmallSplits(input: Vec, me: int, m: int)
    requires Within(input, me) && me >= 0 && 0 <= m <= Sum(input)
    ensures Splits(input, me, m)
  {
    SumZero(|input|);
    assert Excess(input, me) == Zero(|input|) && Capped(input, me) == input;
  }

  lemma SplitsWhen(input: Vec, e: Vec, d: Vec, me: int)
    requires |input| == |e| == |d| && input == Add(e, d) && Within(e, me) && Within(d, me)
    ensures Splits(input, me, Sum(e))
  {
    assert forall t :: 0 <= t < |input| ==> input[t] == e[t] + d[t];
    SumMonotone(Excess(input, me), e);
    SumMonotone(e, Capped(input, me));
  }

  /** A part of the counts v with n packets in total. */
  lemma {:induction false} TakeCounts(v: Vec, n: nat) returns (u: Vec)
    requires NonNegative(v) && n <= Sum(v)
    ensures |u| == |v| && NonNegative(u) && LeV(u, v) && Sum(u) == n
  {
    if |v| == 0 {
      u := [];
    } else {
      var k := |v| - 1;
      SumOfCounts(v[..k]);
      var m := if n <= v[k] then n else v[k];
      var w := TakeCounts(v[..k], n - m);
      u := w + [m];
      assert u[..k] == w;
    }
  }

  /** Counts between two vectors, with n packets in total. */
  lemma TakeBetween(low: Vec, high: Vec, n: int) returns (v: Vec)
    requires |low| == |high| && LeV(low, high) && Sum(low) <= n <= Sum(high)
    ensures |v| == |low| && LeV(low, v) && LeV(v, high) && Sum(v) == n
  {
    SumSub(high, low);
    var more := TakeCounts(Sub(high, low), n - Sum(low));
    v := Add(low, more);
    SumAdd(low, more);
    forall t | 0 <= t < |low|
      ensures low[t] <= v[t] <= high[t]
    {
      assert more[t] <= Sub(high, low)[t];
    }
  }

  lemma ChooseSplit(input: Vec, me: int, m: int) returns (e: Vec, d: Vec)
    requires NonNegative(input) && me >= 0 && Splits(input, me, m)
    ensures |e| == |d| == |input| && input == Add(e, d) && Within(e, me) && Within(d, me) && Sum(e) == m
  {
    e := TakeBetween(Excess(input, me), Capped(input, me), m);
    d := Sub(input, e);
  }
}
