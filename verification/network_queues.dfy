/** A network of switches of FIFO queues, linked port to port: it runs whatever the hosts send. */
module NetworkQueues {
  import opened CountVectors
  import opened BufferTrace
  import opened FifoQueue
  import opened VoqSwitch
  import opened Voqs
  import opened VoqRuns
  import opened VoqQueues

  /** What leaves by output port fromPort of switch fromNode enters input port toPort of switch toNode. */
  datatype Link = Link(fromNode: nat, fromPort: int, toNode: nat, toPort: int)

  /** The VOQs of every switch, its next-hop table by packet type, and the links. */
  datatype Net = Net(nodes: seq<seq<Voq>>, hop: seq<seq<int>>, links: seq<Link>)

  ghost predicate LinksFit(net: Net) {
    forall i :: 0 <= i < |net.links| ==> net.links[i].fromNode < |net.nodes| && net.links[i].toNode < |net.nodes|
  }

  ghost predicate NetFits(net: Net) {
    |net.hop| == |net.nodes| && LinksFit(net) && forall a :: 0 <= a < |net.nodes| ==> Distinct(net.nodes[a])
  }

  /** The link that ends at input port p of switch b, or -1. */
  function LinkTo(links: seq<Link>, b: nat, p: int): (r: int)
    ensures -1 <= r < |links|
    ensures r >= 0 ==> links[r].toNode == b && links[r].toPort == p
    ensures r < 0 ==> forall i :: 0 <= i < |links| ==> links[i].toNode != b || links[i].toPort != p
  {
    if |links| == 0 then -1
    else if links[|links| - 1].toNode == b && links[|links| - 1].toPort == p then |links| - 1
    else LinkTo(links[..|links| - 1], b, p)
  }

  // ---------------------------------------------------------------- one step of the network

  type Queues = map<Voq, seq<nat>>

  ghost function QueuesAt(voqs: seq<Voq>, hs: Histories, cap: nat, t: nat): Queues
    requires forall e :: e in voqs ==> e in hs && t <= |hs[e]|
  {
    map e | e in voqs :: Queue(hs[e], cap, t)
  }

  function First(q: seq<nat>): seq<nat> {
    if q == [] then [] else q[..1]
  }

  ghost predicate HasQueues(voqs: seq<Voq>, y: Snapshot, qs: Queues) {
    WellShaped(voqs, y) && forall e :: e in voqs ==> e in qs
  }

  /** What every VOQ sends: its first packet, when it is matched. */
  ghost function Sends(voqs: seq<Voq>, y: Snapshot, qs: Queues): (sent: Queues)
    requires HasQueues(voqs, y, qs)
    ensures forall e :: e in voqs ==> e in sent
  {
    map e | e in voqs :: if Matched(voqs, y, In, e) then First(qs[e]) else []
  }

  /** What the first n VOQs of a switch send by output port q. */
  function LeavingBy(voqs: seq<Voq>, sent: Queues, q: int, n: nat): seq<nat>
    requires n <= |voqs| && forall e :: e in voqs ==> e in sent
  {
    if n == 0 then [] else
      LeavingBy(voqs, sent, q, n - 1) + (if voqs[n - 1].1 == q then sent[voqs[n - 1]] else [])
  }

  /** The packets that the table sends to output port r. */
  function Towards(s: seq<nat>, hop: seq<int>, r: int): (u: seq<nat>)
    ensures forall k :: k in u ==> k in s && k < |hop| && hop[k] == r
    ensures |u| <= |s|
  {
    if |s| == 0 then [] else
      var k := s[|s| - 1];
      Towards(s[..|s| - 1], hop, r) + (if k < |hop| && hop[k] == r then [k] else [])
  }

  ghost predicate Column(net: Net, ys: seq<Snapshot>, qss: seq<Queues>) {
    |ys| == |qss| == |net.nodes| && forall a :: 0 <= a < |net.nodes| ==> HasQueues(net.nodes[a], ys[a], qss[a])
  }

  /** What the hosts offer every VOQ in every step; it counts only at ports without a link. */
  ghost predicate Hosts(net: Net, ext: seq<Arrivals>, steps: nat) {
    |ext| == |net.nodes| && forall a, e :: 0 <= a < |net.nodes| && e in net.nodes[a] ==>
        e in ext[a] && steps <= |ext[a][e]|
  }

  /**
    What arrives at VOQ e of switch b: what the link brings and the table sends to e's output, or
    what the host offers.
   */
  ghost function Incoming(net: Net, ys: seq<Snapshot>, qss: seq<Queues>, offered: seq<nat>, b: nat, e: Voq): seq<nat>
    requires NetFits(net) && Column(net, ys, qss) && b < |net.nodes|
  {
    var i := LinkTo(net.links, b, e.0);
    if i < 0 then offered else
      var l := net.links[i];
      var sent := Sends(net.nodes[l.fromNode], ys[l.fromNode], qss[l.fromNode]);
      Towards(LeavingBy(net.nodes[l.fromNode], sent, l.fromPort, |net.nodes[l.fromNode]|), net.hop[b], e.1)
  }

  // ---------------------------------------------------------------- runs

  /** Snapshots, queue histories and arrivals of every switch. */
  datatype State = State(xss: seq<seq<Snapshot>>, hss: seq<Histories>, arrs: seq<Arrivals>)

  /** The queues have the given arrivals and follow the snapshots. */
  ghost predicate QueuesFollow(voqs: seq<Voq>, xs: seq<Snapshot>, hs: Histories, arr: Arrivals, cap: nat,
                               steps: nat) {
    && |xs| == steps && Offered(voqs, hs, arr, steps) && AllFollow(voqs, xs, hs, cap)
    && forall e :: e in voqs ==> |arr[e]| == steps
  }

  ghost predicate NodeRun(voqs: seq<Voq>, xs: seq<Snapshot>, hs: Histories, arr: Arrivals, cap: nat, steps: nat) {
    QueuesFollow(voqs, xs, hs, arr, cap, steps) && (steps > 0 ==> Run(voqs, xs))
  }

  ghost predicate NodeRuns(net: Net, s: State, cap: nat, steps: nat) {
    && |s.xss| == |s.hss| == |s.arrs| == |net.nodes|
    && forall a :: 0 <= a < |net.nodes| ==> NodeRun(net.nodes[a], s.xss[a], s.hss[a], s.arrs[a], cap, steps)
  }

  ghost function Snapshots(net: Net, s: State, cap: nat, steps: nat, t: nat): (ys: seq<Snapshot>)
    requires NodeRuns(net, s, cap, steps) && t < steps
    ensures |ys| == |net.nodes|
  {
    seq(|net.nodes|, a requires 0 <= a < |net.nodes| => s.xss[a][t])
  }

  ghost function AllQueues(net: Net, s: State, cap: nat, steps: nat, t: nat): (qss: seq<Queues>)
    requires NodeRuns(net, s, cap, steps) && t <= steps
    ensures |qss| == |net.nodes|
  {
    seq(|net.nodes|, a requires 0 <= a < |net.nodes| => QueuesAt(net.nodes[a], s.hss[a], cap, t))
  }

  /** In step t every VOQ is offered what comes in there. */
  ghost predicate ArrivesAt(net: Net, ys: seq<Snapshot>, qss: seq<Queues>, arrs: seq<Arrivals>, ext: seq<Arrivals>,
                            t: nat)
    requires NetFits(net) && Hosts(net, ext, t + 1)
  {
    && Column(net, ys, qss) && |arrs| == |net.nodes|
    && forall b, e :: 0 <= b < |net.nodes| && e in net.nodes[b] ==>
         e in arrs[b] && t < |arrs[b][e]| && arrs[b][e][t] == Incoming(net, ys, qss, ext[b][e][t], b, e)
  }

  ghost predicate LinkedAt(net: Net, s: State, ext: seq<Arrivals>, cap: nat, steps: nat, t: nat)
    requires NetFits(net) && NodeRuns(net, s, cap, steps) && Hosts(net, ext, steps) && t < steps
  {
    ArrivesAt(net, Snapshots(net, s, cap, steps, t), AllQueues(net, s, cap, steps, t), s.arrs, ext, t)
  }

  /**
    A run of all switches in which every linked port is offered what the other end of its link sends
    in the same step.
   */
  ghost predicate NetRun(net: Net, s: State, ext: seq<Arrivals>, cap: nat, steps: nat) {
    && NetFits(net) && NodeRuns(net, s, cap, steps) && Hosts(net, ext, steps)
    && forall t :: 0 <= t < steps ==> LinkedAt(net, s, ext, cap, steps, t)
  }

  // ---------------------------------------------------------------- closing the loop

  /** A further step of one switch with what is queued. */
  ghost predicate NextStep(voqs: seq<Voq>, xs: seq<Snapshot>, hs: Histories, cap: nat, steps: nat, y: Snapshot) {
    && (forall e :: e in voqs ==> e in hs && steps <= |hs[e]|)
    && Run(voqs, xs + [y]) && WellShaped(voqs, y) && y.b == Flags(voqs, hs, cap, steps)
  }

  lemma NextSnapshot(voqs: seq<Voq>, xs: seq<Snapshot>, hs: Histories, arr: Arrivals, cap: nat, steps: nat)
    returns (y: Snapshot)
    requires Distinct(voqs) && NodeRun(voqs, xs, hs, arr, cap, steps)
    ensures NextStep(voqs, xs, hs, cap, steps, y)
  {
    var flags := Flags(voqs, hs, cap, steps);
    if steps == 0 {
      y := RunStarts(voqs, flags);
      assert xs + [y] == [y];
    } else {
      y := RunContinues(voqs, xs, flags);
    }
    LastShaped(voqs, xs, y);
  }

  /** The matchings of all switches in the next step depend only on what is queued. */
  lemma {:induction false} NextSnapshots(net: Net, s: State, cap: nat, steps: nat, n: nat) returns (ys: seq<Snapshot>)
    requires NetFits(net) && NodeRuns(net, s, cap, steps) && n <= |net.nodes|
    ensures |ys| == n && forall a :: 0 <= a < n ==> NextStep(net.nodes[a], s.xss[a], s.hss[a], cap, steps, ys[a])
  {
    if n == 0 {
      ys := [];
    } else {
      var before := NextSnapshots(net, s, cap, steps, n - 1);
      var a := n - 1;
      var y := NextSnapshot(net.nodes[a], s.xss[a], s.hss[a], s.arrs[a], cap, steps);
      ys := before + [y];
    }
  }

  ghost function Longer(voqs: seq<Voq>, arr: Arrivals, more: Queues): Arrivals
    requires forall e :: e in voqs ==> e in arr && e in more
  {
    map e | e in voqs :: arr[e] + [more[e]]
  }

  ghost function LongerHistories(voqs: seq<Voq>, hs: Histories, more: Queues, y: Snapshot): Histories
    requires WellShaped(voqs, y) && forall e :: e in voqs ==> e in hs && e in more
  {
    map e | e in voqs :: hs[e] + [Step(more[e], Matched(voqs, y, In, e))]
  }

  lemma OfferedNext(h: seq<Step>, offered: seq<seq<nat>>, last: Step, steps: nat)
    requires OfferedTo(h, offered, steps) && |offered| == steps
    ensures OfferedTo(h + [last], offered + [last.arrivals], steps + 1)
    ensures OfferedTo(h, offered + [last.arrivals], steps)
  {
  }

  /** One VOQ follows the switch one step further. */
  lemma VoqNext(voqs: seq<Voq>, xs: seq<Snapshot>, h: seq<Step>, offered: seq<seq<nat>>, last: Step, cap: nat,
                steps: nat, y: Snapshot, e: Voq)
    requires FollowsThroughout(voqs, xs, h, cap, e) && OfferedTo(h, offered, steps) && |offered| == steps == |xs|
    requires WellShaped(voqs, y) && e in voqs && y.b[e] == (Queue(h, cap, steps) != [])
    requires last.deq == Matched(voqs, y, In, e)
    ensures FollowsThroughout(voqs, xs + [y], h + [last], cap, e)
    ensures OfferedTo(h + [last], offered + [last.arrivals], steps + 1)
  {
    OfferedNext(h, offered, last, steps);
    FollowNext(voqs, xs, h, offered + [last.arrivals], last, cap, y, e);
  }

  /** One switch: its run gets one step more. */
  lemma NodeNext(voqs: seq<Voq>, xs: seq<Snapshot>, hs: Histories, arr: Arrivals, cap: nat, steps: nat, y: Snapshot,
                 more: Queues)
    requires QueuesFollow(voqs, xs, hs, arr, cap, steps) && WellShaped(voqs, y) && y.b == Flags(voqs, hs, cap, steps)
    requires forall e :: e in voqs ==> e in more
    ensures QueuesFollow(voqs, xs + [y], LongerHistories(voqs, hs, more, y), Longer(voqs, arr, more), cap, steps + 1)
  {
    var hs', arr' := LongerHistories(voqs, hs, more, y), Longer(voqs, arr, more);
    forall e | e in voqs
      ensures FollowsThroughout(voqs, xs + [y], hs'[e], cap, e) && OfferedTo(hs'[e], arr'[e], steps + 1)
    {
      VoqNext(voqs, xs, hs[e], arr[e], Step(more[e], Matched(voqs, y, In, e)), cap, steps, y, e);
    }
  }

  lemma QueuesStay(voqs: seq<Voq>, hs: Histories, more: Queues, y: Snapshot, cap: nat, steps: nat, t: nat)
    requires WellShaped(voqs, y) && t <= steps && forall e :: e in voqs ==> e in hs && e in more && |hs[e]| == steps
    ensures QueuesAt(voqs, LongerHistories(voqs, hs, more, y), cap, t) == QueuesAt(voqs, hs, cap, t)
  {
    forall e | e in voqs
      ensures Queue(LongerHistories(voqs, hs, more, y)[e], cap, t) == Queue(hs[e], cap, t)
    {
      QueueOfPrefix(hs[e], Step(more[e], Matched(voqs, y, In, e)), cap, t);
    }
  }

  ghost predicate NextSteps(net: Net, s: State, cap: nat, steps: nat, ys: seq<Snapshot>)
    requires NodeRuns(net, s, cap, steps)
  {
    |ys| == |net.nodes| && forall a :: 0 <= a < |net.nodes| ==>
        NextStep(net.nodes[a], s.xss[a], s.hss[a], cap, steps, ys[a])
  }

  lemma NextColumn(net: Net, s: State, cap: nat, steps: nat, ys: seq<Snapshot>)
    requires NodeRuns(net, s, cap, steps) && NextSteps(net, s, cap, steps, ys)
    ensures Column(net, ys, AllQueues(net, s, cap, steps, steps))
  {
  }

  /** What arrives everywhere in the next step. */
  ghost function Arriving(net: Net, s: State, ext: seq<Arrivals>, cap: nat, steps: nat,
                          ys: seq<Snapshot>): (mores: seq<Queues>)
    requires NetFits(net) && NodeRuns(net, s, cap, steps) && NextSteps(net, s, cap, steps, ys)
    requires Hosts(net, ext, steps + 1)
    ensures |mores| == |net.nodes| && forall a, e :: 0 <= a < |net.nodes| && e in net.nodes[a] ==> e in mores[a]
  {
    NextColumn(net, s, cap, steps, ys);
    seq(|net.nodes|, b requires 0 <= b < |net.nodes| =>
      map e | e in net.nodes[b] :: Incoming(net, ys, AllQueues(net, s, cap, steps, steps), ext[b][e][steps], b, e))
  }

  ghost function Next(net: Net, s: State, ext: seq<Arrivals>, cap: nat, steps: nat, ys: seq<Snapshot>): State
    requires NetFits(net) && NodeRuns(net, s, cap, steps) && NextSteps(net, s, cap, steps, ys)
    requires Hosts(net, ext, steps + 1)
  {
    var n, mores := |net.nodes|, Arriving(net, s, ext, cap, steps, ys);
    State(seq(n, a requires 0 <= a < n => s.xss[a] + [ys[a]]),
          seq(n, a requires 0 <= a < n => LongerHistories(net.nodes[a], s.hss[a], mores[a], ys[a])),
          seq(n, a requires 0 <= a < n => Longer(net.nodes[a], s.arrs[a], mores[a])))
  }

  lemma NextNodes(net: Net, s: State, ext: seq<Arrivals>, cap: nat, steps: nat, ys: seq<Snapshot>)
    requires NetFits(net) && NodeRuns(net, s, cap, steps) && NextSteps(net, s, cap, steps, ys)
    requires Hosts(net, ext, steps + 1)
    ensures NodeRuns(net, Next(net, s, ext, cap, steps, ys), cap, steps + 1)
    ensures forall t :: 0 <= t <= steps ==>
              AllQueues(net, Next(net, s, ext, cap, steps, ys), cap, steps + 1, t) == AllQueues(net, s, cap, steps, t)
  {
    var s', mores := Next(net, s, ext, cap, steps, ys), Arriving(net, s, ext, cap, steps, ys);
    forall a | 0 <= a < |net.nodes|
      ensures NodeRun(net.nodes[a], s'.xss[a], s'.hss[a], s'.arrs[a], cap, steps + 1)
      ensures forall t :: 0 <= t <= steps ==>
                QueuesAt(net.nodes[a], s'.hss[a], cap, t) == QueuesAt(net.nodes[a], s.hss[a], cap, t)
    {
      NodeNext(net.nodes[a], s.xss[a], s.hss[a], s.arrs[a], cap, steps, ys[a], mores[a]);
      forall t | 0 <= t <= steps
        ensures QueuesAt(net.nodes[a], s'.hss[a], cap, t) == QueuesAt(net.nodes[a], s.hss[a], cap, t)
      {
        QueuesStay(net.nodes[a], s.hss[a], mores[a], ys[a], cap, steps, t);
      }
    }
  }

  lemma ArrivedBefore(net: Net, ys: seq<Snapshot>, qss: seq<Queues>, arrs: seq<Arrivals>, mores: seq<Queues>,
                      arrs': seq<Arrivals>, ext: seq<Arrivals>, t: nat)
    requires NetFits(net) && Hosts(net, ext, t + 1) && ArrivesAt(net, ys, qss, arrs, ext, t)
    requires |mores| == |arrs'| == |net.nodes| && forall a, e :: 0 <= a < |net.nodes| && e in net.nodes[a] ==>
               e in mores[a]
    requires forall a :: 0 <= a < |net.nodes| ==> arrs'[a] == Longer(net.nodes[a], arrs[a], mores[a])
    ensures ArrivesAt(net, ys, qss, arrs', ext, t)
  {
  }

  lemma NextLinked(net: Net, s: State, ext: seq<Arrivals>, cap: nat, steps: nat, ys: seq<Snapshot>, t: nat)
    requires NetRun(net, s, ext, cap, steps) && NextSteps(net, s, cap, steps, ys) && Hosts(net, ext, steps + 1)
    requires t <= steps
    ensures t < steps ==> ArrivesAt(net, Snapshots(net, s, cap, steps, t), AllQueues(net, s, cap, steps, t),
                                    Next(net, s, ext, cap, steps, ys).arrs, ext, t)
    ensures t == steps ==> ArrivesAt(net, ys, AllQueues(net, s, cap, steps, t),
            Next(net, s, ext, cap, steps, ys).arrs, ext, t)
  {
    var arrs', mores := Next(net, s, ext, cap, steps, ys).arrs, Arriving(net, s, ext, cap, steps, ys);
    if t < steps {
      assert LinkedAt(net, s, ext, cap, steps, t);
      ArrivedBefore(net, Snapshots(net, s, cap, steps, t), AllQueues(net, s, cap, steps, t), s.arrs, mores, arrs',
        ext, t);
    } else {
      NextColumn(net, s, cap, steps, ys);
    }
  }

  lemma NextColumns(net: Net, s: State, s': State, cap: nat, steps: nat, ys: seq<Snapshot>, t: nat)
    requires NodeRuns(net, s, cap, steps) && NodeRuns(net, s', cap, steps + 1) && |ys| == |net.nodes| && t <= steps
    requires forall a :: 0 <= a < |net.nodes| ==> s'.xss[a] == s.xss[a] + [ys[a]]
    ensures Snapshots(net, s', cap, steps + 1, t) == if t < steps then Snapshots(net, s, cap, steps, t) else ys
  {
    forall a | 0 <= a < |net.nodes|
      ensures |s.xss[a]| == steps
    {
      assert NodeRun(net.nodes[a], s.xss[a], s.hss[a], s.arrs[a], cap, steps);
    }
  }

  lemma NextLinkedAt(net: Net, s: State, s': State, ext: seq<Arrivals>, cap: nat, steps: nat, ys: seq<Snapshot>,
                     t: nat)
    requires NetRun(net, s, ext, cap, steps) && NextSteps(net, s, cap, steps, ys) && Hosts(net, ext, steps + 1)
    requires t <= steps
    requires s' == Next(net, s, ext, cap, steps, ys) && NodeRuns(net, s', cap, steps + 1)
    requires AllQueues(net, s', cap, steps + 1, t) == AllQueues(net, s, cap, steps, t)
    ensures LinkedAt(net, s', ext, cap, steps + 1, t)
  {
    NextLinked(net, s, ext, cap, steps, ys, t);
    NextColumns(net, s, s', cap, steps, ys, t);
  }

  lemma NextRun(net: Net, s: State, s': State, ext: seq<Arrivals>, cap: nat, steps: nat, ys: seq<Snapshot>)
    requires NetRun(net, s, ext, cap, steps) && NextSteps(net, s, cap, steps, ys) && Hosts(net, ext, steps + 1)
    requires s' == Next(net, s, ext, cap, steps, ys)
    ensures NetRun(net, s', ext, cap, steps + 1)
  {
    NextNodes(net, s, ext, cap, steps, ys);
    var n := steps + 1;
    forall t | 0 <= t < n
      ensures LinkedAt(net, s', ext, cap, n, t)
    {
      NextLinkedAt(net, s, s', ext, cap, steps, ys, t);
    }
  }

  ghost function NothingYet(net: Net, cap: nat): (s: State)
    requires NetFits(net)
    ensures NodeRuns(net, s, cap, 0)
  {
    var n := |net.nodes|;
    State(seq(n, _ => []), seq(n, a requires 0 <= a < n => map e | e in net.nodes[a] :: []),
          seq(n, a requires 0 <= a < n => map e | e in net.nodes[a] :: []))
  }

  lemma OneStepMore(net: Net, s: State, ext: seq<Arrivals>, cap: nat, steps: nat, more: nat) returns (s': State)
    requires NetRun(net, s, ext, cap, steps) && more == steps + 1 && Hosts(net, ext, more)
    ensures NetRun(net, s', ext, cap, more)
  {
    var ys := NextSnapshots(net, s, cap, steps, |net.nodes|);
    assert NextSteps(net, s, cap, steps, ys);
    s' := Next(net, s, ext, cap, steps, ys);
    NextRun(net, s, s', ext, cap, steps, ys);
  }

  /** Whatever the hosts send, the linked switches have a run of any length. */
  lemma {:induction false} NetworkRuns(net: Net, ext: seq<Arrivals>, cap: nat, steps: nat) returns (s: State)
    requires NetFits(net) && Hosts(net, ext, steps)
    ensures NetRun(net, s, ext, cap, steps)
  {
    if steps == 0 {
      s := NothingYet(net, cap);
    } else {
      assert Hosts(net, ext, steps - 1);
      var before := NetworkRuns(net, ext, cap, steps - 1);
      s := OneStepMore(net, before, ext, cap, steps - 1, steps);
    }
  }
}
