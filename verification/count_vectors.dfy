/**
  Packet counts per type, and the meaning of the vector operators of src/lib.cpp.
  A vector compared with an integer compares its SUM; a vector compared with a vector is
  compared component by component.
 */
module CountVectors {
  type Vec = seq<int>

  function Sum(v: Vec): int {
    if |v| == 0 then 0 else Sum(v[..|v| - 1]) + v[|v| - 1]
  }

  function Add(l: Vec, r: Vec): Vec
    requires |l| == |r|
  {
    seq(|l|, i requires 0 <= i < |l| => l[i] + r[i])
  }

  function Sub(l: Vec, r: Vec): Vec
    requires |l| == |r|
  {
    seq(|l|, i requires 0 <= i < |l| => l[i] - r[i])
  }

  function Zero(k: nat): Vec {
    seq(k, _ => 0)
  }

  predicate LeV(l: Vec, r: Vec)
    requires |l| == |r|
  {
    forall i :: 0 <= i < |l| ==> l[i] <= r[i]
  }

  predicate NonNegative(v: Vec) {
    forall i :: 0 <= i < |v| ==> v[i] >= 0
  }

  /** The range that the solver is given for every component. */
  predicate Within(v: Vec, upper: int) {
    forall i :: 0 <= i < |v| ==> 0 <= v[i] <= upper
  }

  // ---------------------------------------------------------------- the operators as written

  /** sum(v, limit): the components 0 to limit inclusive. */
  method SumTo(v: Vec, limit: nat) returns (s: int)
    requires limit < |v|
    ensures s == Sum(v[..limit + 1])
  {
    s := v[0];
    assert v[..1][..0] == [];
    for i := 1 to limit + 1
      invariant s == Sum(v[..i])
    {
      s := s + v[i];
      assert v[..i + 1][..i] == v[..i];
    }
  }

  /** operator+ on vectors. */
  method Plus(l: Vec, r: Vec) returns (result: Vec)
    requires |l| == |r|
    ensures result == Add(l, r)
  {
    result := [];
    for i := 0 to |l|
      invariant |result| == i
      invariant forall k :: 0 <= k < i ==> result[k] == l[k] + r[k]
    {
      result := result + [l[i] + r[i]];
    }
  }

  /** operator- on vectors. */
  method Minus(l: Vec, r: Vec) returns (result: Vec)
    requires |l| == |r|
    ensures result == Sub(l, r)
  {
    result := [];
    for i := 0 to |l|
      invariant |result| == i
      invariant forall k :: 0 <= k < i ==> result[k] == l[k] - r[k]
    {
      result := result + [l[i] - r[i]];
    }
  }

  /** operator== on two vectors; the first component is read unconditionally. */
  method SameVector(l: Vec, r: Vec) returns (result: bool)
    requires |l| == |r| > 0
    ensures result <==> l == r
  {
    result := l[0] == r[0];
    for i := 1 to |l|
      invariant result <==> l[..i] == r[..i]
    {
      assert l[..i + 1] == l[..i] + [l[i]] && r[..i + 1] == r[..i] + [r[i]];
      result := result && l[i] == r[i];
    }
    assert l[..|l|] == l && r[..|l|] == r;
  }

  /** operator<= on two vectors. */
  method AtMost(l: Vec, r: Vec) returns (result: bool)
    requires |l| == |r| > 0
    ensures result <==> LeV(l, r)
  {
    result := l[0] <= r[0];
    for i := 1 to |l|
      invariant result <==> forall k :: 0 <= k < i ==> l[k] <= r[k]
    {
      result := result && l[i] <= r[i];
    }
  }

  // ---------------------------------------------------------------- algebra

  lemma AddAssociative(a: Vec, b: Vec, c: Vec)
    requires |a| == |b| == |c|
    ensures Add(Add(a, b), c) == Add(a, Add(b, c))
  {
  }

  lemma AddZero(a: Vec)
    ensures Add(a, Zero(|a|)) == a && Add(Zero(|a|), a) == a && Sub(a, a) == Zero(|a|)
  {
  }

  // ---------------------------------------------------------------- sums and components

  lemma {:induction false} SumAdd(l: Vec, r: Vec)
    requires |l| == |r|
    ensures Sum(Add(l, r)) == Sum(l) + Sum(r)
  {
    if |l| == 0 {
    } else {
      var k := |l| - 1;
      SumAdd(l[..k], r[..k]);
      assert Add(l, r)[..k] == Add(l[..k], r[..k]);
    }
  }

  lemma {:induction false} SumSub(l: Vec, r: Vec)
    requires |l| == |r|
    ensures Sum(Sub(l, r)) == Sum(l) - Sum(r)
  {
    if |l| == 0 {
    } else {
      var k := |l| - 1;
      SumSub(l[..k], r[..k]);
      assert Sub(l, r)[..k] == Sub(l[..k], r[..k]);
    }
  }

  /** Componentwise order bounds the sums, and with equal sums it is equality. */
  lemma {:induction false} SumMonotone(l: Vec, r: Vec)
    requires |l| == |r| && LeV(l, r)
    ensures Sum(l) <= Sum(r)
    ensures Sum(l) == Sum(r) ==> l == r
  {
    if |l| == 0 {
    } else {
      var k := |l| - 1;
      SumMonotone(l[..k], r[..k]);
      if Sum(l) == Sum(r) {
        assert l == l[..k] + [l[k]] && r == r[..k] + [r[k]];
      }
    }
  }

  lemma {:induction false} SumZero(k: nat)
    ensures Sum(Zero(k)) == 0
  {
    if k == 0 {
    } else {
      SumZero(k - 1);
      assert Zero(k)[..k - 1] == Zero(k - 1);
    }
  }

  lemma {:induction false} ComponentAtMostSum(v: Vec, i: nat)
    requires NonNegative(v) && i < |v|
    ensures v[i] <= Sum(v)
  {
    var k := |v| - 1;
    SumZero(k);
    SumMonotone(Zero(k), v[..k]);
    if i < k {
      ComponentAtMostSum(v[..k], i);
    }
  }

  /** For counts, "the sum is 0" and "every component is 0" are the same constraint. */
  lemma SumOfCounts(v: Vec)
    requires NonNegative(v)
    ensures Sum(v) >= 0
    ensures Sum(v) == 0 <==> v == Zero(|v|)
    ensures forall i :: 0 <= i < |v| ==> v[i] <= Sum(v)
  {
    SumZero(|v|);
    SumMonotone(Zero(|v|), v);
    forall i | 0 <= i < |v|
      ensures v[i] <= Sum(v)
    {
      ComponentAtMostSum(v, i);
    }
  }

  lemma OneSum(v: Vec)
    requires |v| == 1
    ensures Sum(v) == v[0]
  {
    assert v[..0] == [];
  }

  // ---------------------------------------------------------------- maxima and pairs

  function MaxV(l: Vec, r: Vec): (v: Vec)
    requires |l| == |r|
    ensures |v| == |l|
  {
    seq(|l|, i requires 0 <= i < |l| => if l[i] < r[i] then r[i] else l[i])
  }

  lemma SameIfSameSum(a: Vec, b: Vec)
    requires |a| == |b| && LeV(a, b) && Sum(a) >= Sum(b)
    ensures a == b
  {
    SumMonotone(a, b);
  }

  lemma {:induction false} AtMostMax(a: Vec, b: Vec, c: Vec)
    requires |a| == |b| == |c| && LeV(a, c) && LeV(b, c)
    ensures Sum(MaxV(a, b)) <= Sum(c)
  {
    SumMonotone(MaxV(a, b), c);
  }

  lemma MaxAbove(a: Vec, b: Vec)
    requires |a| == |b|
    ensures LeV(a, MaxV(a, b)) && LeV(b, MaxV(a, b))
  {
  }

  function Pair(a: int, b: int): Vec {
    [a, b]
  }

  lemma PairSum(a: int, b: int)
    ensures Sum(Pair(a, b)) == a + b
  {
    var v := Pair(a, b);
    var front := v[..|v| - 1];
    assert front == [a] && front[..|front| - 1] == [];
    assert Sum(front) == a;
  }
}
