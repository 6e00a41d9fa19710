/** Which packet types, and how many packets, arrive at the VOQs of a network. */
module NetworkCarry {
  import opened CountVectors
  import opened BufferTrace
  import opened FifoQueue
  import opened FifoSimulation
  import opened StableMatching
  import opened VoqSwitch
  import opened Voqs
  import opened VoqRuns
  import opened VoqSystem
  import opened VoqQueues
  import opened VoqRanges
  import opened NetworkQueues

  /** The packet types that may come to every VOQ. */
  type Carry = seq<map<Voq, set<nat>>>

  /** The other end of the link has a VOQ towards the packet's next hop, and the type may come there. */
  ghost predicate Accepts(net: Net, carry: Carry, l: Link, k: nat) {
    && l.toNode < |net.hop| && l.toNode < |net.nodes| && l.toNode < |carry| && k < |net.hop[l.toNode]|
    && var f := (l.toPort, net.hop[l.toNode][k]);
       f in net.nodes[l.toNode] && f in carry[l.toNode] && k in carry[l.toNode][f]
  }

  ghost predicate LinkAccepts(net: Net, carry: Carry, l: Link)
    requires l.fromNode < |net.nodes| && l.fromNode < |carry|
  {
    forall e, k ::
      e in net.nodes[l.fromNode] && e.1 == l.fromPort && e in carry[l.fromNode] && k in carry[l.fromNode][e] ==>
        Accepts(net, carry, l, k)
  }

  /** Types are below kinds, and whatever may leave over a link is accepted behind it. */
  ghost predicate Closed(net: Net, carry: Carry, kinds: nat) {
    && NetFits(net) && |carry| == |net.nodes|
    && (forall a, e :: 0 <= a < |carry| && e in net.nodes[a] ==> e in carry[a])
    && (forall a, e, k :: 0 <= a < |carry| && e in net.nodes[a] && k in carry[a][e] ==> k < kinds)
    && forall i :: 0 <= i < |net.links| ==> LinkAccepts(net, carry, net.links[i])
  }

  ghost predicate Outer(net: Net, a: nat, e: Voq) {
    LinkTo(net.links, a, e.0) < 0
  }

  ghost predicate AllIn(s: seq<nat>, types: set<nat>) {
    forall x :: x in s ==> x in types
  }

  /** What hosts offer a VOQ in step t is of types that it may carry. */
  ghost predicate OfferCarried(ext: Arrivals, types: map<Voq, set<nat>>, e: Voq, t: int) {
    e in ext && 0 <= t < |ext[e]| && e in types && AllIn(ext[e][t], types[e])
  }

  /** And it is small: it fits the capacity and the ranges whatever the VOQ holds. */
  ghost predicate OfferSmall(ext: Arrivals, e: Voq, kinds: nat, cap: nat, rg: Ranges, t: int) {
    e in ext && 0 <= t < |ext[e]| && SmallOffer(ext[e][t], kinds, cap, rg)
  }

  ghost predicate HostsCarried(net: Net, ext: seq<Arrivals>, carry: Carry, steps: nat) {
    && Hosts(net, ext, steps) && |carry| == |net.nodes|
    && forall a, e, t :: 0 <= a < |net.nodes| && e in net.nodes[a] && Outer(net, a, e) && 0 <= t < steps ==>
         OfferCarried(ext[a], carry[a], e, t)
  }

  ghost predicate HostsSmall(net: Net, ext: seq<Arrivals>, kinds: nat, cap: nat, rg: Ranges, steps: nat) {
    && Hosts(net, ext, steps)
    && forall a, e, t :: 0 <= a < |net.nodes| && e in net.nodes[a] && Outer(net, a, e) && 0 <= t < steps ==>
         OfferSmall(ext[a], e, kinds, cap, rg, t)
  }

  // ---------------------------------------------------------------- only carried types are queued

  lemma {:induction false} QueueCarried(h: seq<Step>, cap: nat, t: nat, types: set<nat>)
    requires t <= |h| && forall u :: 0 <= u < t ==> AllIn(h[u].arrivals, types)
    ensures AllIn(Queue(h, cap, t), types)
  {
    if t == 0 {
    } else {
      QueueCarried(h, cap, t - 1, types);
      assert AllIn(h[t - 1].arrivals, types);
      assert AllIn(Filled(h, cap, t - 1), types);
    }
  }

  lemma {:induction false} LeavesFrom(voqs: seq<Voq>, sent: Queues, q: int, n: nat, k: nat) returns (e: Voq)
    requires (forall e :: e in voqs ==> e in sent) && n <= |voqs| && k in LeavingBy(voqs, sent, q, n)
    ensures e in voqs && e.1 == q && k in sent[e]
  {
    if k in LeavingBy(voqs, sent, q, n - 1) {
      e := LeavesFrom(voqs, sent, q, n - 1, k);
    } else {
      e := voqs[n - 1];
    }
  }

  ghost predicate CarriedAt(net: Net, arrs: seq<Arrivals>, carry: Carry, t: int) {
    && |arrs| == |carry| == |net.nodes|
    && forall a, e :: 0 <= a < |net.nodes| && e in net.nodes[a] ==>
         e in arrs[a] && e in carry[a] && 0 <= t < |arrs[a][e]| && AllIn(arrs[a][e][t], carry[a][e])
  }

  ghost predicate CarriedUntil(net: Net, arrs: seq<Arrivals>, carry: Carry, n: nat) {
    forall t :: 0 <= t < n ==> CarriedAt(net, arrs, carry, t)
  }

  lemma HistoryCarried(net: Net, arrs: seq<Arrivals>, carry: Carry, h: seq<Step>, steps: nat, n: nat, a: nat, e: Voq)
    requires CarriedUntil(net, arrs, carry, n) && |arrs| == |carry| == |net.nodes| && a < |net.nodes|
    requires e in net.nodes[a]
    requires e in arrs[a] && e in carry[a] && OfferedTo(h, arrs[a][e], steps) && n <= steps
    ensures forall u :: 0 <= u < n ==> AllIn(h[u].arrivals, carry[a][e])
  {
    forall u | 0 <= u < n
      ensures AllIn(h[u].arrivals, carry[a][e])
    {
      assert CarriedAt(net, arrs, carry, u);
    }
  }

  lemma QueuesCarried(net: Net, s: State, carry: Carry, cap: nat, steps: nat, t: nat, a: nat, e: Voq)
    requires NodeRuns(net, s, cap, steps) && CarriedUntil(net, s.arrs, carry, t) && t <= steps
    requires a < |net.nodes| && e in net.nodes[a] && |carry| == |net.nodes| && e in carry[a]
    ensures AllIn(AllQueues(net, s, cap, steps, t)[a][e], carry[a][e])
  {
    assert NodeRun(net.nodes[a], s.xss[a], s.hss[a], s.arrs[a], cap, steps);
    assert OfferedTo(s.hss[a][e], s.arrs[a][e], steps);
    HistoryCarried(net, s.arrs, carry, s.hss[a][e], steps, t, a, e);
    QueueCarried(s.hss[a][e], cap, t, carry[a][e]);
  }

  lemma SentCarried(voqs: seq<Voq>, y: Snapshot, qs: Queues, types: map<Voq, set<nat>>, q: int, k: nat)
    returns (e: Voq)
    requires HasQueues(voqs, y, qs) && forall f :: f in voqs ==> f in types && AllIn(qs[f], types[f])
    requires k in LeavingBy(voqs, Sends(voqs, y, qs), q, |voqs|)
    ensures e in voqs && e.1 == q && k in types[e]
  {
    e := LeavesFrom(voqs, Sends(voqs, y, qs), q, |voqs|, k);
    assert k in First(qs[e]);
  }

  /** What leaves over a link is accepted behind it. */
  lemma LinkCarried(net: Net, s: State, carry: Carry, kinds: nat, cap: nat, steps: nat, t: nat, l: Link, y: Snapshot,
                    k: nat)
    requires Closed(net, carry, kinds) && NodeRuns(net, s, cap, steps) && CarriedUntil(net, s.arrs, carry, t)
    requires t <= steps
    requires l in net.links && l.fromNode < |net.nodes|
    requires HasQueues(net.nodes[l.fromNode], y, QueuesAt(net.nodes[l.fromNode], s.hss[l.fromNode], cap, t))
    requires k in LeavingBy(net.nodes[l.fromNode],
                            Sends(net.nodes[l.fromNode], y, QueuesAt(net.nodes[l.fromNode], s.hss[l.fromNode], cap, t)),
                            l.fromPort, |net.nodes[l.fromNode]|)
    ensures Accepts(net, carry, l, k)
  {
    var a := l.fromNode;
    var qs := QueuesAt(net.nodes[a], s.hss[a], cap, t);
    forall f | f in net.nodes[a]
      ensures f in carry[a] && AllIn(qs[f], carry[a][f])
    {
      QueuesCarried(net, s, carry, cap, steps, t, a, f);
    }
    var e := SentCarried(net.nodes[a], y, qs, carry[a], l.fromPort, k);
    assert LinkAccepts(net, carry, l);
  }

  lemma IncomingCarried(net: Net, s: State, ext: seq<Arrivals>, carry: Carry, kinds: nat, cap: nat, steps: nat,
                        t: nat, b: nat, e: Voq)
    requires NetRun(net, s, ext, cap, steps) && Closed(net, carry, kinds) && HostsCarried(net, ext, carry, steps)
    requires t < steps && CarriedUntil(net, s.arrs, carry, t) && b < |net.nodes| && e in net.nodes[b]
    ensures e in s.arrs[b] && t < |s.arrs[b][e]| && AllIn(s.arrs[b][e][t], carry[b][e])
  {
    assert LinkedAt(net, s, ext, cap, steps, t);
    var i := LinkTo(net.links, b, e.0);
    if i < 0 {
      assert OfferCarried(ext[b], carry[b], e, t);
    } else {
      var l := net.links[i];
      forall k | k in s.arrs[b][e][t]
        ensures k in carry[b][e]
      {
        LinkCarried(net, s, carry, kinds, cap, steps, t, l, s.xss[l.fromNode][t], k);
      }
    }
  }

  lemma NextCarried(net: Net, s: State, ext: seq<Arrivals>, carry: Carry, kinds: nat, cap: nat, steps: nat, t: nat)
    requires NetRun(net, s, ext, cap, steps) && Closed(net, carry, kinds) && HostsCarried(net, ext, carry, steps)
    requires t < steps && CarriedUntil(net, s.arrs, carry, t)
    ensures CarriedAt(net, s.arrs, carry, t)
  {
    forall b, e | 0 <= b < |net.nodes| && e in net.nodes[b]
      ensures e in s.arrs[b] && t < |s.arrs[b][e]| && AllIn(s.arrs[b][e][t], carry[b][e])
    {
      IncomingCarried(net, s, ext, carry, kinds, cap, steps, t, b, e);
    }
  }

  lemma {:induction false} ArrivalsCarried(net: Net, s: State, ext: seq<Arrivals>, carry: Carry, kinds: nat, cap: nat,
                                           steps: nat, t: nat)
    requires NetRun(net, s, ext, cap, steps) && Closed(net, carry, kinds) && HostsCarried(net, ext, carry, steps)
    requires t < steps
    ensures CarriedAt(net, s.arrs, carry, t)
  {
    forall u | 0 <= u < t
      ensures CarriedAt(net, s.arrs, carry, u)
    {
      ArrivalsCarried(net, s, ext, carry, kinds, cap, steps, u);
    }
    NextCarried(net, s, ext, carry, kinds, cap, steps, t);
  }

  /** Only types that a VOQ may carry ever arrive there. */
  lemma AllCarried(net: Net, s: State, ext: seq<Arrivals>, carry: Carry, kinds: nat, cap: nat, steps: nat)
    requires NetRun(net, s, ext, cap, steps) && Closed(net, carry, kinds) && HostsCarried(net, ext, carry, steps)
    ensures CarriedUntil(net, s.arrs, carry, steps)
  {
    forall u | 0 <= u < steps
      ensures CarriedAt(net, s.arrs, carry, u)
    {
      ArrivalsCarried(net, s, ext, carry, kinds, cap, steps, u);
    }
  }

  // ---------------------------------------------------------------- one packet per link and step

  /** Only VOQs of m send, and each at most one packet. */
  ghost predicate SendOne(voqs: seq<Voq>, sent: Queues, m: set<Voq>) {
    forall e :: e in voqs ==> e in sent && |sent[e]| <= 1 && (e !in m ==> sent[e] == [])
  }

  /** One of the first n VOQs lies in m and has output port q. */
  ghost predicate SomeAt(voqs: seq<Voq>, m: set<Voq>, q: int, n: nat)
    requires n <= |voqs|
  {
    exists j :: 0 <= j < n && voqs[j].1 == q && voqs[j] in m
  }

  lemma {:induction false} LeavesOnce(voqs: seq<Voq>, sent: Queues, m: set<Voq>, q: int, n: nat)
    requires SendOne(voqs, sent, m) && n <= |voqs| && Distinct(voqs) && ConflictFree(m)
    ensures |LeavingBy(voqs, sent, q, n)| <= 1
    ensures LeavingBy(voqs, sent, q, n) != [] ==> SomeAt(voqs, m, q, n)
  {
    if n == 0 {
    } else {
      LeavesOnce(voqs, sent, m, q, n - 1);
      var last := voqs[n - 1];
      if last.1 == q && last in m {
        assert !SomeAt(voqs, m, q, n - 1);
      }
    }
  }

  lemma StepIsConflictFree(voqs: seq<Voq>, y: Snapshot)
    requires Distinct(voqs) && WellShaped(voqs, y) && StepConstraints(voqs, y)
    ensures ConflictFree(Served(voqs, y))
  {
    ConstraintsMeanStable(voqs, y);
    StableIsConflictFree(Problem(voqs, y), Served(voqs, y));
  }

  /** At most one packet leaves a switch by an output port in a step. */
  lemma PortSendsOnce(voqs: seq<Voq>, y: Snapshot, qs: Queues, q: int)
    requires HasQueues(voqs, y, qs) && Distinct(voqs) && StepConstraints(voqs, y)
    ensures |LeavingBy(voqs, Sends(voqs, y, qs), q, |voqs|)| <= 1
  {
    StepIsConflictFree(voqs, y);
    LeavesOnce(voqs, Sends(voqs, y, qs), Served(voqs, y), q, |voqs|);
  }

  /** One packet fits all ranges in use. */
  ghost predicate SomeRanges(rg: Ranges) {
    rg.maxIn >= 1 && rg.maxEnq >= 1 && rg.maxDeq >= 1
  }

  lemma OnePacketSmall(offer: seq<nat>, kinds: nat, cap: nat, rg: Ranges)
    requires |offer| <= 1 <= cap && SomeRanges(rg)
    ensures SmallOffer(offer, kinds, cap, rg)
  {
    CountOfOne(offer, kinds);
  }

  /** A linked VOQ is offered at most one packet, any other what its host offers: all of it is small. */
  lemma SmallArrive(net: Net, s: State, ext: seq<Arrivals>, kinds: nat, cap: nat, rg: Ranges, steps: nat, t: nat,
                    b: nat, e: Voq)
    requires NetRun(net, s, ext, cap, steps) && HostsSmall(net, ext, kinds, cap, rg, steps) && cap >= 1
    requires SomeRanges(rg)
    requires t < steps && b < |net.nodes| && e in net.nodes[b]
    ensures e in s.arrs[b] && t < |s.arrs[b][e]| && SmallOffer(s.arrs[b][e][t], kinds, cap, rg)
  {
    var ys, qss := Snapshots(net, s, cap, steps, t), AllQueues(net, s, cap, steps, t);
    assert LinkedAt(net, s, ext, cap, steps, t);
    var i := LinkTo(net.links, b, e.0);
    if i < 0 {
      assert OfferSmall(ext[b], e, kinds, cap, rg, t);
    } else {
      var l := net.links[i];
      var a := l.fromNode;
      assert NodeRun(net.nodes[a], s.xss[a], s.hss[a], s.arrs[a], cap, steps);
      PortSendsOnce(net.nodes[a], ys[a], qss[a], l.fromPort);
      OnePacketSmall(s.arrs[b][e][t], kinds, cap, rg);
    }
  }
}
