/** What the ports of linked switches count. */
module NetworkPorts {
  import opened CountVectors
  import opened BufferTrace
  import opened FifoQueue
  import opened FifoSimulation
  import opened StableMatching
  import opened VoqSwitch
  import opened Voqs
  import opened VoqRuns
  import opened VoqSystem
  import opened VoqQueues
  import opened NetworkQueues

  function CountsAt(tr: Trace, side: Side, t: nat): Vec
    requires t < |tr.i| && t < |tr.o|
  {
    if side.In? then tr.i[t] else tr.o[t]
  }

  ghost predicate HasCounts(voqs: seq<Voq>, trs: Traces, t: nat, kinds: nat) {
    forall e :: e in voqs ==> e in trs && t < |trs[e].i| && t < |trs[e].o| && |trs[e].i[t]| == |trs[e].o[t]| == kinds
  }

  /** get_in_port and get_out_port for step t: the counts of the first n VOQs at the port, added up. */
  ghost function PortCounts(voqs: seq<Voq>, trs: Traces, side: Side, port: int, t: nat, kinds: nat, n: nat): (v: Vec)
    requires HasCounts(voqs, trs, t, kinds) && n <= |voqs|
    ensures |v| == kinds
  {
    if n == 0 then Zero(kinds) else
      var before := PortCounts(voqs, trs, side, port, t, kinds, n - 1);
      if Own(side, voqs[n - 1]) == port then Add(before, CountsAt(trs[voqs[n - 1]], side, t)) else before
  }

  ghost predicate NoneAt(voqs: seq<Voq>, trs: Traces, side: Side, port: int, t: nat, kinds: nat, k: nat)
    requires HasCounts(voqs, trs, t, kinds) && k < kinds
  {
    forall e :: e in voqs && Own(side, e) == port ==> CountsAt(trs[e], side, t)[k] == 0
  }

  ghost predicate NoneNegative(voqs: seq<Voq>, trs: Traces, side: Side, t: nat, kinds: nat)
    requires HasCounts(voqs, trs, t, kinds)
  {
    forall e :: e in voqs ==> NonNegative(CountsAt(trs[e], side, t))
  }

  lemma {:induction false} NothingAtPort(voqs: seq<Voq>, trs: Traces, side: Side, port: int, t: nat, kinds: nat,
                                         k: nat, n: nat)
    requires HasCounts(voqs, trs, t, kinds) && k < kinds && NoneAt(voqs, trs, side, port, t, kinds, k) && n <= |voqs|
    ensures PortCounts(voqs, trs, side, port, t, kinds, n)[k] == 0
  {
    if n == 0 {
    } else {
      NothingAtPort(voqs, trs, side, port, t, kinds, k, n - 1);
      assert voqs[n - 1] in voqs;
    }
  }

  /** A port that counts nothing of a type has only VOQs that count nothing of it. */
  lemma {:induction false} NothingPasses(voqs: seq<Voq>, trs: Traces, side: Side, port: int, t: nat, kinds: nat,
                                         k: nat, n: nat)
    requires HasCounts(voqs, trs, t, kinds) && k < kinds && NoneNegative(voqs, trs, side, t, kinds) && n <= |voqs|
    ensures PortCounts(voqs, trs, side, port, t, kinds, n)[k] >= 0
    ensures PortCounts(voqs, trs, side, port, t, kinds, n)[k] == 0 ==>
              forall e :: e in voqs[..n] && Own(side, e) == port ==> CountsAt(trs[e], side, t)[k] == 0
  {
    if n == 0 {
    } else {
      NothingPasses(voqs, trs, side, port, t, kinds, k, n - 1);
      assert voqs[n - 1] in voqs && NonNegative(CountsAt(trs[voqs[n - 1]], side, t));
      assert voqs[..n] == voqs[..n - 1] + [voqs[n - 1]];
    }
  }

  /** link_ports: both ports count alike, for every step and type. */
  method LinkPorts(output: seq<Vec>, input: seq<Vec>, steps: nat, kinds: nat) returns (ok: bool)
    requires AllOf(output, steps, kinds) && AllOf(input, steps, kinds)
    ensures ok <==> output == input
  {
    ok := true;
    for t := 0 to steps
      invariant ok <==> output[..t] == input[..t]
    {
      var same := true;
      for j := 0 to kinds
        invariant same <==> output[t][..j] == input[t][..j]
      {
        same := same && output[t][j] == input[t][j];
        assert output[t][..j + 1] == output[t][..j] + [output[t][j]]
               && input[t][..j + 1] == input[t][..j] + [input[t][j]];
      }
      assert output[t][..kinds] == output[t] && input[t][..kinds] == input[t];
      ok := ok && same;
      assert output[..t + 1] == output[..t] + [output[t]] && input[..t + 1] == input[..t] + [input[t]];
    }
    assert output[..steps] == output && input[..steps] == input;
  }

  /** link_ports for step t: what the two ports of a link count is the same for every type. */
  ghost predicate LinkHolds(net: Net, trss: seq<Traces>, l: Link, t: nat, kinds: nat) {
    && l.fromNode < |net.nodes| && l.toNode < |net.nodes| && |trss| == |net.nodes|
    && HasCounts(net.nodes[l.fromNode], trss[l.fromNode], t, kinds)
    && HasCounts(net.nodes[l.toNode], trss[l.toNode], t, kinds)
    && PortCounts(net.nodes[l.fromNode], trss[l.fromNode], Out, l.fromPort, t, kinds, |net.nodes[l.fromNode]|)
       == PortCounts(net.nodes[l.toNode], trss[l.toNode], In, l.toPort, t, kinds, |net.nodes[l.toNode]|)
  }

  /** What a VOQ sends is what departs from its queue. */
  lemma SendsDeparted(voqs: seq<Voq>, y: Snapshot, qs: Queues, h: seq<Step>, cap: nat, e: Voq, t: nat)
    requires HasQueues(voqs, y, qs) && e in voqs && FollowsQueue(voqs, y, h, cap, e, t)
    requires qs[e] == Queue(h, cap, t) && (h[t].deq ==> qs[e] != [])
    ensures Sends(voqs, y, qs)[e] == Departed(h, cap, t)
  {
  }

  /** What a port's output counts is what leaves by it. */
  lemma {:induction false} OutCounts(voqs: seq<Voq>, sent: Queues, trs: Traces, q: int, t: nat, kinds: nat, n: nat)
    requires HasCounts(voqs, trs, t, kinds) && n <= |voqs|
    requires forall e :: e in voqs ==> e in sent && trs[e].o[t] == CountOf(sent[e], kinds)
    ensures PortCounts(voqs, trs, Out, q, t, kinds, n) == CountOf(LeavingBy(voqs, sent, q, n), kinds)
  {
    if n == 0 {
      CountOfNone(kinds);
    } else {
      OutCounts(voqs, sent, trs, q, t, kinds, n - 1);
      CountOfConcat(LeavingBy(voqs, sent, q, n - 1), sent[voqs[n - 1]], kinds);
      assert LeavingBy(voqs, sent, q, n - 1) + [] == LeavingBy(voqs, sent, q, n - 1);
    }
  }

  lemma CountMore(s: seq<nat>, x: nat, kinds: nat, k: nat)
    requires k < kinds
    ensures CountOf(s + [x], kinds)[k] == CountOf(s, kinds)[k] + if x == k then 1 else 0
  {
    CountOfConcat(s, [x], kinds);
  }

  lemma {:induction false} TowardsCount(s: seq<nat>, hop: seq<int>, r: int, kinds: nat, k: nat)
    requires k < kinds
    ensures CountOf(Towards(s, hop, r), kinds)[k] == if k < |hop| && hop[k] == r then CountOf(s, kinds)[k] else 0
  {
    if |s| == 0 {
    } else {
      var front, x := s[..|s| - 1], s[|s| - 1];
      TowardsCount(front, hop, r, kinds, k);
      assert s == front + [x];
      CountMore(front, x, kinds, k);
      CountMore(Towards(front, hop, r), x, kinds, k);
    }
  }

  ghost predicate InputsTowards(voqs: seq<Voq>, trs: Traces, d: seq<nat>, hop: seq<int>, p: int, t: nat, kinds: nat)
    requires HasCounts(voqs, trs, t, kinds)
  {
    forall e :: e in voqs && e.0 == p ==> trs[e].i[t] == CountOf(Towards(d, hop, e.1), kinds)
  }

  lemma PrefixMember(voqs: seq<Voq>, m: nat, n: nat, f: Voq)
    requires n == m + 1 <= |voqs| && Distinct(voqs)
    ensures f in voqs[..n] <==> f in voqs[..m] || f == voqs[m]
    ensures f in voqs[..m] ==> f != voqs[m]
  {
    assert voqs[..n] == voqs[..m] + [voqs[m]];
  }

  /** One VOQ more. */
  lemma InCountsNext(voqs: seq<Voq>, trs: Traces, d: seq<nat>, hop: seq<int>, p: int, t: nat, kinds: nat, m: nat,
                     n: nat, k: nat)
    requires HasCounts(voqs, trs, t, kinds) && Distinct(voqs) && n == m + 1 <= |voqs| && k < kinds
    requires InputsTowards(voqs, trs, d, hop, p, t, kinds)
    requires PortCounts(voqs, trs, In, p, t, kinds, m)[k]
             == if k < |hop| && (p, hop[k]) in voqs[..m] then CountOf(d, kinds)[k] else 0
    ensures PortCounts(voqs, trs, In, p, t, kinds, n)[k]
            == if k < |hop| && (p, hop[k]) in voqs[..n] then CountOf(d, kinds)[k] else 0
  {
    TowardsCount(d, hop, voqs[m].1, kinds, k);
    if k < |hop| {
      PrefixMember(voqs, m, n, (p, hop[k]));
    }
  }

  /** A packet of type k that comes in by port p is counted by the VOQ towards its next hop, if there is one. */
  lemma {:induction false} InCountsAt(voqs: seq<Voq>, trs: Traces, d: seq<nat>, hop: seq<int>, p: int, t: nat,
                                      kinds: nat, n: nat, k: nat)
    requires HasCounts(voqs, trs, t, kinds) && Distinct(voqs) && n <= |voqs| && k < kinds
    requires InputsTowards(voqs, trs, d, hop, p, t, kinds)
    ensures PortCounts(voqs, trs, In, p, t, kinds, n)[k]
            == if k < |hop| && (p, hop[k]) in voqs[..n] then CountOf(d, kinds)[k] else 0
  {
    if n == 0 {
    } else {
      InCountsAt(voqs, trs, d, hop, p, t, kinds, n - 1, k);
      InCountsNext(voqs, trs, d, hop, p, t, kinds, n - 1, n, k);
    }
  }

  /** When every packet that comes in finds a VOQ, the port's input counts all of them. */
  lemma InCounts(voqs: seq<Voq>, trs: Traces, d: seq<nat>, hop: seq<int>, p: int, t: nat, kinds: nat)
    requires HasCounts(voqs, trs, t, kinds) && Distinct(voqs)
    requires InputsTowards(voqs, trs, d, hop, p, t, kinds)
    requires forall k :: k in d ==> k < |hop| && (p, hop[k]) in voqs
    ensures PortCounts(voqs, trs, In, p, t, kinds, |voqs|) == CountOf(d, kinds)
  {
    assert voqs[..|voqs|] == voqs;
    forall k | 0 <= k < kinds
      ensures PortCounts(voqs, trs, In, p, t, kinds, |voqs|)[k] == CountOf(d, kinds)[k]
    {
      InCountsAt(voqs, trs, d, hop, p, t, kinds, |voqs|, k);
      assert CountOf(d, kinds)[k] > 0 ==> k in multiset(d) && k in d;
    }
  }
}
