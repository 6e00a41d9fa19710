/** The round-robin turn, in its three encodings (src/rr_checker.cpp and src/leaf_spine/leaf_base.cpp). */
module RoundRobin {
  import opened Cyclic

  /** The first backlogged cell among the k-th, (k+1)-th, ... successors of cur, or cur itself. */
  function NextFrom(cur: nat, b: seq<bool>, k: nat): (r: nat)
    requires cur < |b| && 1 <= k
    ensures r < |b|
    decreases |b| - k
  {
    if k >= |b| then cur else if b[(cur + k) % |b|] then (cur + k) % |b| else NextFrom(cur, b, k + 1)
  }

  function NextTurn(cur: nat, b: seq<bool>): (r: nat)
    requires cur < |b|
    ensures r < |b|
  {
    NextFrom(cur, b, 1)
  }

  ghost predicate Some(b: seq<bool>) {
    exists i :: 0 <= i < |b| && b[i]
  }

  lemma {:induction false} NextFromIsBest(cur: nat, b: seq<bool>, k: nat)
    requires cur < |b| && 1 <= k
    requires forall i :: 0 <= i < |b| && b[i] ==> Rank(cur, i, |b|) >= k - 1
    ensures Some(b) ==> b[NextFrom(cur, b, k)]
    ensures forall i :: 0 <= i < |b| && b[i] ==> Rank(cur, NextFrom(cur, b, k), |b|) <= Rank(cur, i, |b|)
    ensures !Some(b) ==> NextFrom(cur, b, k) == cur
    decreases |b| - k
  {
    var n := |b|;
    if k < n {
      CellOfRank(cur, k - 1, n);
      assert cur + 1 + (k - 1) == cur + k;
      if !b[(cur + k) % n] {
        forall i | 0 <= i < n && b[i]
          ensures Rank(cur, i, n) >= k
        {
          RankInjective(cur, i, (cur + k) % n, n);
        }
        NextFromIsBest(cur, b, k + 1);
      }
    } else {
      forall i | 0 <= i < n && b[i]
        ensures i == cur
      {
        RankInjective(cur, i, cur, n);
      }
    }
  }

  /** The next turn is the backlogged cell of least rank, or stays where it is when nothing is backlogged. */
  lemma NextTurnIsBest(cur: nat, b: seq<bool>)
    requires cur < |b|
    ensures Some(b) ==> b[NextTurn(cur, b)]
    ensures forall i :: 0 <= i < |b| && b[i] ==> Rank(cur, NextTurn(cur, b), |b|) <= Rank(cur, i, |b|)
    ensures !Some(b) ==> NextTurn(cur, b) == cur
  {
    NextFromIsBest(cur, b, 1);
  }

  // ---------------------------------------------------------------- three encodings

  /** The ite chain for turn i: later iterations overwrite, so the nearest successor wins. */
  method BackwardChain(i: nat, b: seq<bool>) returns (x: nat)
    requires i < |b|
    ensures x == NextTurn(i, b)
  {
    var n := |b|;
    x := i;
    for j := 1 to n
      invariant x == NextFrom(i, b, n - j + 1)
    {
      var l := (i - j + n) % n;
      assert i - j + n == i + (n - j);
      if b[l] {
        x := l;
      }
    }
  }

  /** RRChecker::trs on values: turn s, next turn sp, backlog bp of the next step. */
  method BackwardTrs(s: int, sp: int, bp: seq<bool>) returns (ok: bool)
    ensures ok <==> (0 <= s < |bp| ==> sp == NextTurn(s, bp))
  {
    ok := true;
    for i := 0 to |bp|
      invariant ok <==> (0 <= s < i ==> sp == NextTurn(s, bp))
    {
      var x := BackwardChain(i, bp);
      ok := ok && (s == i ==> sp == x);
    }
  }

  method ForwardScan(i: nat, sp: int, bp: seq<bool>) returns (y: bool)
    requires i < |bp|
    ensures y <==> sp == NextTurn(i, bp)
  {
    var n := |bp|;
    var x := true;
    y := true;
    for j := 1 to n
      invariant x ==> y && NextTurn(i, bp) == NextFrom(i, bp, j)
      invariant !x ==> (y <==> sp == NextTurn(i, bp))
    {
      var l := (i + j) % n;
      y := y && (x && bp[l] ==> sp == l);
      x := x && !bp[l];
    }
    y := y && (x ==> sp == i);
  }

  /** turn_transition on values. */
  method ForwardTrs(s: int, sp: int, bp: seq<bool>) returns (ok: bool)
    ensures ok <==> (0 <= s < |bp| ==> sp == NextTurn(s, bp))
  {
    ok := true;
    for i := 0 to |bp|
      invariant ok <==> (0 <= s < i ==> sp == NextTurn(s, bp))
    {
      var y := ForwardScan(i, sp, bp);
      ok := ok && (s == i ==> y);
    }
  }

  /** rr_for_dst / rr_for_src on values: the turn is a port number, ports[i] being the port of cell i. */
  method PortTurn(ports: seq<int>, b: seq<bool>, prevTurn: int) returns (nxtTurn: int)
    requires |ports| == |b|
    requires forall i, j :: 0 <= i < j < |ports| ==> ports[i] != ports[j]
    ensures forall i :: 0 <= i < |ports| && ports[i] == prevTurn ==> nxtTurn == ports[NextTurn(i, b)]
    ensures prevTurn !in ports ==> nxtTurn == prevTurn
  {
    var count := |ports|;
    nxtTurn := prevTurn;
    for i := 0 to count
      invariant forall k :: 0 <= k < i && ports[k] == prevTurn ==> nxtTurn == ports[NextTurn(k, b)]
      invariant prevTurn !in ports[..i] ==> nxtTurn == prevTurn
    {
      var x := ports[i];
      for j := 1 to count
        invariant x == ports[NextFrom(i, b, count - j + 1)]
      {
        var l := (i - j + count) % count;
        assert i - j + count == i + (count - j);
        if b[l] {
          x := ports[l];
        }
      }
      assert ports[..i + 1] == ports[..i] + [ports[i]];
      if prevTurn == ports[i] {
        nxtTurn := x;
      }
    }
    assert ports[..count] == ports;
  }

  /** The three encodings choose the same buffer; on port numbers, the port of that buffer. */
  method EncodingsAgree(s: nat, sp: int, b: seq<bool>, ports: seq<int>)
    returns (backward: bool, forward: bool, byPort: bool)
    requires s < |b| == |ports| && 0 <= sp < |b|
    requires forall i, j :: 0 <= i < j < |ports| ==> ports[i] != ports[j]
    ensures backward == forward == byPort
    ensures backward <==> && (Some(b) ==> b[sp])
                          && (forall i :: 0 <= i < |b| && b[i] ==> Rank(s, sp, |b|) <= Rank(s, i, |b|))
                          && (!Some(b) ==> sp == s)
  {
    backward := BackwardTrs(s, sp, b);
    forward := ForwardTrs(s, sp, b);
    var port := PortTurn(ports, b, ports[s]);
    byPort := port == ports[sp];
    NextTurnIsBest(s, b);
    if Some(b) {
      RankInjective(s, sp, NextTurn(s, b), |b|);
    }
  }

  ghost predicate FirstBacklogged(b: seq<bool>, s: int) {
    if Some(b) then 0 <= s < |b| && b[s] && forall l :: 0 <= l < s ==> !b[l] else s == 0
  }

  lemma FirstOfSome(b: seq<bool>)
    ensures Some(b) ==> exists k :: 0 <= k < |b| && b[k] && forall l :: 0 <= l < k ==> !b[l]
  {
    if Some(b) {
      var k :| 0 <= k < |b| && b[k];
      while exists l :: 0 <= l < k && b[l]
        invariant 0 <= k < |b| && b[k]
        decreases k
      {
        var l :| 0 <= l < k && b[l];
        k := l;
      }
    }
  }

  /** RRChecker::init: the first backlogged buffer, or buffer 0. */
  method InitTurn(b0: seq<bool>, s0: int) returns (ok: bool)
    requires |b0| > 0
    ensures ok <==> FirstBacklogged(b0, s0)
  {
    ok := true;
    var notPrevs := true;
    for i := 0 to |b0|
      invariant notPrevs <==> forall k :: 0 <= k < i ==> !b0[k]
      invariant ok <==> forall k :: 0 <= k < i && b0[k] && (forall l :: 0 <= l < k ==> !b0[l]) ==> s0 == k
    {
      ok := ok && (notPrevs && b0[i] ==> s0 == i);
      notPrevs := notPrevs && !b0[i];
    }
    ok := ok && (notPrevs ==> s0 == 0);
    FirstOfSome(b0);
  }
}
