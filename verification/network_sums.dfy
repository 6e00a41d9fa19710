/** Sums over the VOQs of linked switches, by port. */
module NetworkSums {
  import opened StableMatching
  import opened VoqSwitch
  import opened Voqs
  import opened NetworkQueues

  type Values = map<Voq, int>

  ghost predicate Has(voqs: seq<Voq>, v: Values) {
    forall e :: e in voqs ==> e in v
  }

  /** The values of the first m VOQs. */
  function Total(voqs: seq<Voq>, v: Values, m: nat): int
    requires Has(voqs, v) && m <= |voqs|
  {
    if m == 0 then 0 else Total(voqs, v, m - 1) + v[voqs[m - 1]]
  }

  /** Those of them whose port on the side is one of the given ports. */
  ghost function TotalAt(voqs: seq<Voq>, v: Values, side: Side, ports: iset<int>, m: nat): int
    requires Has(voqs, v) && m <= |voqs|
  {
    if m == 0 then 0 else
      TotalAt(voqs, v, side, ports, m - 1) + if Own(side, voqs[m - 1]) in ports then v[voqs[m - 1]] else 0
  }

  ghost function PortTotal(voqs: seq<Voq>, v: Values, side: Side, port: int): int
    requires Has(voqs, v)
  {
    TotalAt(voqs, v, side, iset{port}, |voqs|)
  }

  ghost predicate IsSum(voqs: seq<Voq>, v: Values, a: Values, b: Values) {
    Has(voqs, v) && Has(voqs, a) && Has(voqs, b) && forall e :: e in voqs ==> v[e] == a[e] + b[e]
  }

  lemma {:induction false} TotalSum(voqs: seq<Voq>, v: Values, a: Values, b: Values, m: nat)
    requires IsSum(voqs, v, a, b) && m <= |voqs|
    ensures Total(voqs, v, m) == Total(voqs, a, m) + Total(voqs, b, m)
  {
    if m == 0 {
    } else {
      TotalSum(voqs, v, a, b, m - 1);
      assert voqs[m - 1] in voqs;
    }
  }

  ghost predicate IsAtMost(voqs: seq<Voq>, v: Values, w: Values) {
    Has(voqs, v) && Has(voqs, w) && forall e :: e in voqs ==> v[e] <= w[e]
  }

  lemma {:induction false} TotalAtMost(voqs: seq<Voq>, v: Values, w: Values, m: nat)
    requires IsAtMost(voqs, v, w) && m <= |voqs|
    ensures Total(voqs, v, m) <= Total(voqs, w, m)
  {
    if m == 0 {
    } else {
      TotalAtMost(voqs, v, w, m - 1);
      assert voqs[m - 1] in voqs;
    }
  }

  /** Only the ports of VOQs with a value matter. */
  lemma {:induction false} SamePorts(voqs: seq<Voq>, v: Values, side: Side, p: iset<int>, q: iset<int>, m: nat)
    requires Has(voqs, v) && m <= |voqs|
    requires forall e :: e in voqs && v[e] != 0 ==> (Own(side, e) in p <==> Own(side, e) in q)
    ensures TotalAt(voqs, v, side, p, m) == TotalAt(voqs, v, side, q, m)
  {
    if m == 0 {
    } else {
      SamePorts(voqs, v, side, p, q, m - 1);
      assert voqs[m - 1] in voqs;
    }
  }

  lemma {:induction false} OneMorePort(voqs: seq<Voq>, v: Values, side: Side, ports: iset<int>, port: int, m: nat)
    requires Has(voqs, v) && m <= |voqs| && port !in ports
    ensures TotalAt(voqs, v, side, ports + iset{port}, m)
            == TotalAt(voqs, v, side, ports, m) + TotalAt(voqs, v, side, iset{port}, m)
  {
    if m == 0 {
    } else {
      OneMorePort(voqs, v, side, ports, port, m - 1);
    }
  }

  lemma {:induction false} NoPorts(voqs: seq<Voq>, v: Values, side: Side, m: nat)
    requires Has(voqs, v) && m <= |voqs|
    ensures TotalAt(voqs, v, side, iset{}, m) == 0
  {
    if m == 0 {
    } else {
      NoPorts(voqs, v, side, m - 1);
    }
  }

  lemma {:induction false} AllPorts(voqs: seq<Voq>, v: Values, side: Side, ports: iset<int>, m: nat)
    requires Has(voqs, v) && m <= |voqs| && forall p :: p in ports
    ensures TotalAt(voqs, v, side, ports, m) == Total(voqs, v, m)
  {
    if m == 0 {
    } else {
      AllPorts(voqs, v, side, ports, m - 1);
    }
  }

  ghost predicate AllNonNegative(voqs: seq<Voq>, v: Values) {
    Has(voqs, v) && forall e :: e in voqs ==> v[e] >= 0
  }

  lemma {:induction false} TotalNonNegative(voqs: seq<Voq>, v: Values, m: nat)
    requires AllNonNegative(voqs, v) && m <= |voqs|
    ensures Total(voqs, v, m) >= 0
  {
    if m == 0 {
    } else {
      TotalNonNegative(voqs, v, m - 1);
      assert voqs[m - 1] in voqs;
    }
  }

  lemma {:induction false} PortsNonNegative(voqs: seq<Voq>, v: Values, side: Side, ports: iset<int>, m: nat)
    requires AllNonNegative(voqs, v) && m <= |voqs|
    ensures TotalAt(voqs, v, side, ports, m) >= 0
  {
    if m == 0 {
    } else {
      PortsNonNegative(voqs, v, side, ports, m - 1);
      assert voqs[m - 1] in voqs;
    }
  }

  lemma {:induction false} SomePositive(voqs: seq<Voq>, v: Values, m: nat) returns (e: Voq)
    requires Has(voqs, v) && m <= |voqs| && Total(voqs, v, m) > 0
    ensures e in voqs && v[e] > 0
  {
    if v[voqs[m - 1]] > 0 {
      e := voqs[m - 1];
    } else {
      e := SomePositive(voqs, v, m - 1);
    }
  }

  lemma {:induction false} TotalAtLeast(voqs: seq<Voq>, v: Values, m: nat, e: Voq)
    requires AllNonNegative(voqs, v) && m <= |voqs| && e in voqs[..m]
    ensures Total(voqs, v, m) >= v[e]
  {
    TotalNonNegative(voqs, v, m - 1);
    if e != voqs[m - 1] {
      TotalAtLeast(voqs, v, m - 1, e);
    }
  }

  /** At most r times as much everywhere. */
  ghost predicate IsScaled(voqs: seq<Voq>, v: Values, u: Values, r: int) {
    Has(voqs, v) && Has(voqs, u) && forall e :: e in voqs ==> v[e] <= r * u[e]
  }

  lemma Distribute(r: int, a: int, b: int)
    ensures r * (a + b) == r * a + r * b
  {
  }

  lemma {:induction false} TotalScaled(voqs: seq<Voq>, v: Values, u: Values, r: int, m: nat)
    requires IsScaled(voqs, v, u, r) && m <= |voqs|
    ensures Total(voqs, v, m) <= r * Total(voqs, u, m)
  {
    if m == 0 {
    } else {
      TotalScaled(voqs, v, u, r, m - 1);
      var rest, last := Total(voqs, u, m - 1), u[voqs[m - 1]];
      Distribute(r, rest, last);
    }
  }

  /** No VOQ at these ports has a value. */
  ghost predicate NothingAt(voqs: seq<Voq>, v: Values, side: Side, ports: iset<int>) {
    Has(voqs, v) && forall e :: e in voqs && Own(side, e) in ports ==> v[e] == 0
  }

  lemma {:induction false} TotalOfNothing(voqs: seq<Voq>, v: Values, side: Side, ports: iset<int>, m: nat)
    requires NothingAt(voqs, v, side, ports) && m <= |voqs|
    ensures TotalAt(voqs, v, side, ports, m) == 0
  {
    if m == 0 {
    } else {
      TotalOfNothing(voqs, v, side, ports, m - 1);
      assert voqs[m - 1] in voqs;
    }
  }

  // ---------------------------------------------------------------- ports without links

  predicate EndsAt(l: Link, side: Side, a: nat, port: int) {
    if side.In? then l.toNode == a && l.toPort == port else l.fromNode == a && l.fromPort == port
  }

  function NodeOf(l: Link, side: Side): nat {
    if side.In? then l.toNode else l.fromNode
  }

  function PortOf(l: Link, side: Side): int {
    if side.In? then l.toPort else l.fromPort
  }

  /** None of the first x links ends at the port. */
  ghost predicate Free(links: seq<Link>, x: nat, side: Side, a: nat, port: int)
    requires x <= |links|
  {
    forall i :: 0 <= i < x ==> !EndsAt(links[i], side, a, port)
  }

  ghost function FreePorts(links: seq<Link>, x: nat, side: Side, a: nat): iset<int>
    requires x <= |links|
  {
    iset p | Free(links, x, side, a, p)
  }

  /** No two links share an end. */
  ghost predicate EndsDiffer(links: seq<Link>, side: Side) {
    forall i, j :: 0 <= i < j < |links| ==> !EndsAt(links[i], side, NodeOf(links[j], side), PortOf(links[j], side))
  }

  /** One link more takes its port out of the free ones. */
  lemma FreeOrLinked(links: seq<Link>, x: nat, side: Side, a: nat)
    requires x < |links| && EndsDiffer(links, side)
    ensures NodeOf(links[x], side) != a ==> FreePorts(links, x, side, a) == FreePorts(links, x + 1, side, a)
    ensures NodeOf(links[x], side) == a ==>
              && PortOf(links[x], side) !in FreePorts(links, x + 1, side, a)
              && FreePorts(links, x, side, a) == FreePorts(links, x + 1, side, a) + iset{PortOf(links[x], side)}
  {
    forall p
      ensures Free(links, x, side, a, p) <==> Free(links, x + 1, side, a, p) || EndsAt(links[x], side, a, p)
    {
      if EndsAt(links[x], side, a, p) {
        assert a == NodeOf(links[x], side) && p == PortOf(links[x], side);
      }
    }
    assert EndsAt(links[x], side, NodeOf(links[x], side), PortOf(links[x], side));
  }

  // ---------------------------------------------------------------- the whole network

  ghost predicate AllHave(net: Net, vs: seq<Values>) {
    |vs| == |net.nodes| && forall a :: 0 <= a < |net.nodes| ==> Has(net.nodes[a], vs[a])
  }

  /** The values of all VOQs of the first b switches. */
  ghost function NetTotal(net: Net, vs: seq<Values>, b: nat): int
    requires AllHave(net, vs) && b <= |net.nodes|
  {
    if b == 0 then 0 else NetTotal(net, vs, b - 1) + Total(net.nodes[b - 1], vs[b - 1], |net.nodes[b - 1]|)
  }

  lemma {:induction false} NetTotalSum(net: Net, v: seq<Values>, a: seq<Values>, c: seq<Values>, b: nat)
    requires AllHave(net, v) && AllHave(net, a) && AllHave(net, c) && b <= |net.nodes|
    requires forall x :: 0 <= x < |net.nodes| ==> IsSum(net.nodes[x], v[x], a[x], c[x])
    ensures NetTotal(net, v, b) == NetTotal(net, a, b) + NetTotal(net, c, b)
  {
    if b == 0 {
    } else {
      NetTotalSum(net, v, a, c, b - 1);
      TotalSum(net.nodes[b - 1], v[b - 1], a[b - 1], c[b - 1], |net.nodes[b - 1]|);
    }
  }

  lemma {:induction false} NetTotalAtMost(net: Net, v: seq<Values>, w: seq<Values>, b: nat)
    requires AllHave(net, v) && AllHave(net, w) && b <= |net.nodes|
    requires forall x :: 0 <= x < |net.nodes| ==> IsAtMost(net.nodes[x], v[x], w[x])
    ensures NetTotal(net, v, b) <= NetTotal(net, w, b)
  {
    if b == 0 {
    } else {
      NetTotalAtMost(net, v, w, b - 1);
      TotalAtMost(net.nodes[b - 1], v[b - 1], w[b - 1], |net.nodes[b - 1]|);
    }
  }

  lemma {:induction false} NetNonNegative(net: Net, vs: seq<Values>, b: nat)
    requires AllHave(net, vs) && b <= |net.nodes|
    requires forall a :: 0 <= a < |net.nodes| ==> AllNonNegative(net.nodes[a], vs[a])
    ensures NetTotal(net, vs, b) >= 0
  {
    if b == 0 {
    } else {
      NetNonNegative(net, vs, b - 1);
      TotalNonNegative(net.nodes[b - 1], vs[b - 1], |net.nodes[b - 1]|);
    }
  }

  lemma {:induction false} NetTotalScaled(net: Net, vs: seq<Values>, us: seq<Values>, r: int, b: nat)
    requires AllHave(net, vs) && AllHave(net, us) && b <= |net.nodes|
    requires forall a :: 0 <= a < |net.nodes| ==> IsScaled(net.nodes[a], vs[a], us[a], r)
    ensures NetTotal(net, vs, b) <= r * NetTotal(net, us, b)
  {
    if b == 0 {
    } else {
      NetTotalScaled(net, vs, us, r, b - 1);
      TotalScaled(net.nodes[b - 1], vs[b - 1], us[b - 1], r, |net.nodes[b - 1]|);
      var rest, last := NetTotal(net, us, b - 1), Total(net.nodes[b - 1], us[b - 1], |net.nodes[b - 1]|);
      Distribute(r, rest, last);
    }
  }

  lemma {:induction false} NetTotalAtLeast(net: Net, vs: seq<Values>, b: nat, a: nat, e: Voq)
    requires AllHave(net, vs) && a < b <= |net.nodes| && e in net.nodes[a]
    requires forall c :: 0 <= c < |net.nodes| ==> AllNonNegative(net.nodes[c], vs[c])
    ensures NetTotal(net, vs, b) >= vs[a][e]
  {
    NetNonNegative(net, vs, b - 1);
    if a == b - 1 {
      assert net.nodes[a][..|net.nodes[a]|] == net.nodes[a];
      TotalAtLeast(net.nodes[a], vs[a], |net.nodes[a]|, e);
    } else {
      NetTotalAtLeast(net, vs, b - 1, a, e);
      TotalNonNegative(net.nodes[b - 1], vs[b - 1], |net.nodes[b - 1]|);
    }
  }

  /** Those at ports that the first x links leave free. */
  ghost function NetFree(net: Net, vs: seq<Values>, x: nat, side: Side, b: nat): int
    requires AllHave(net, vs) && x <= |net.links| && b <= |net.nodes|
  {
    if b == 0 then 0 else
      NetFree(net, vs, x, side, b - 1)
      + TotalAt(net.nodes[b - 1], vs[b - 1], side, FreePorts(net.links, x, side, b - 1), |net.nodes[b - 1]|)
  }

  lemma {:induction false} NoLinksYet(net: Net, vs: seq<Values>, side: Side, b: nat)
    requires AllHave(net, vs) && b <= |net.nodes|
    ensures NetFree(net, vs, 0, side, b) == NetTotal(net, vs, b)
  {
    if b == 0 {
    } else {
      NoLinksYet(net, vs, side, b - 1);
      AllPorts(net.nodes[b - 1], vs[b - 1], side, FreePorts(net.links, 0, side, b - 1), |net.nodes[b - 1]|);
    }
  }

  lemma {:induction false} NetFreeStep(net: Net, vs: seq<Values>, x: nat, side: Side, b: nat)
    requires AllHave(net, vs) && x < |net.links| && b <= |net.nodes| && EndsDiffer(net.links, side)
    requires NodeOf(net.links[x], side) < |net.nodes|
    ensures var a := NodeOf(net.links[x], side);
            NetFree(net, vs, x, side, b)
            == NetFree(net, vs, x + 1, side, b)
               + if a < b then PortTotal(net.nodes[a], vs[a], side, PortOf(net.links[x], side)) else 0
  {
    if b == 0 {
    } else {
      var a := b - 1;
      NetFreeStep(net, vs, x, side, a);
      FreeOrLinked(net.links, x, side, a);
      if NodeOf(net.links[x], side) == a {
        OneMorePort(net.nodes[a], vs[a], side, FreePorts(net.links, x + 1, side, a), PortOf(net.links[x], side),
          |net.nodes[a]|);
      }
    }
  }

  lemma {:induction false} NetFreeOfNothing(net: Net, vs: seq<Values>, x: nat, side: Side, b: nat)
    requires AllHave(net, vs) && x <= |net.links| && b <= |net.nodes|
    requires forall a :: 0 <= a < |net.nodes| ==> NothingAt(net.nodes[a], vs[a], side, FreePorts(net.links, x, side, a))
    ensures NetFree(net, vs, x, side, b) == 0
  {
    if b == 0 {
    } else {
      NetFreeOfNothing(net, vs, x, side, b - 1);
      TotalOfNothing(net.nodes[b - 1], vs[b - 1], side, FreePorts(net.links, x, side, b - 1), |net.nodes[b - 1]|);
    }
  }

  lemma {:induction false} NetFreeNonNegative(net: Net, vs: seq<Values>, x: nat, side: Side, b: nat)
    requires AllHave(net, vs) && x <= |net.links| && b <= |net.nodes|
    requires forall a :: 0 <= a < |net.nodes| ==> AllNonNegative(net.nodes[a], vs[a])
    ensures NetFree(net, vs, x, side, b) >= 0
  {
    if b == 0 {
    } else {
      NetFreeNonNegative(net, vs, x, side, b - 1);
      PortsNonNegative(net.nodes[b - 1], vs[b - 1], side, FreePorts(net.links, x, side, b - 1), |net.nodes[b - 1]|);
    }
  }

  /** By how much the values at the end of the link exceed those at its start. */
  ghost function LinkGap(net: Net, ins: seq<Values>, outs: seq<Values>, l: Link): int
    requires AllHave(net, ins) && AllHave(net, outs) && l.fromNode < |net.nodes| && l.toNode < |net.nodes|
  {
    PortTotal(net.nodes[l.toNode], ins[l.toNode], In, l.toPort)
      - PortTotal(net.nodes[l.fromNode], outs[l.fromNode], Out, l.fromPort)
  }

  ghost predicate NoGain(net: Net, ins: seq<Values>, outs: seq<Values>) {
    && AllHave(net, ins) && AllHave(net, outs) && LinksFit(net)
    && EndsDiffer(net.links, In) && EndsDiffer(net.links, Out)
    && forall i :: 0 <= i < |net.links| ==> LinkGap(net, ins, outs, net.links[i]) <= 0
  }

  ghost predicate NoLoss(net: Net, ins: seq<Values>, outs: seq<Values>)
    requires NoGain(net, ins, outs)
  {
    forall i :: 0 <= i < |net.links| ==> LinkGap(net, ins, outs, net.links[i]) == 0
  }

  ghost function FreeBalance(net: Net, ins: seq<Values>, outs: seq<Values>, x: nat): int
    requires AllHave(net, ins) && AllHave(net, outs) && x <= |net.links|
  {
    NetFree(net, ins, x, In, |net.nodes|) - NetFree(net, outs, x, Out, |net.nodes|)
  }

  lemma LinkOut(net: Net, ins: seq<Values>, outs: seq<Values>, x: nat)
    requires NoGain(net, ins, outs) && x < |net.links|
    ensures FreeBalance(net, ins, outs, x) == FreeBalance(net, ins, outs, x + 1) + LinkGap(net, ins, outs, net.links[x])
  {
    NetFreeStep(net, ins, x, In, |net.nodes|);
    NetFreeStep(net, outs, x, Out, |net.nodes|);
  }

  /** Links that do not gain: what is left of the balance when the first x links are taken out. */
  lemma {:induction false} LinksBalance(net: Net, ins: seq<Values>, outs: seq<Values>, x: nat)
    requires NoGain(net, ins, outs) && x <= |net.links|
    ensures NetTotal(net, ins, |net.nodes|) - NetTotal(net, outs, |net.nodes|) <= FreeBalance(net, ins, outs, x)
    ensures NoLoss(net, ins, outs) ==>
              NetTotal(net, ins, |net.nodes|) - NetTotal(net, outs, |net.nodes|) == FreeBalance(net, ins, outs, x)
  {
    if x == 0 {
      NoLinksYet(net, ins, In, |net.nodes|);
      NoLinksYet(net, outs, Out, |net.nodes|);
    } else {
      LinksBalance(net, ins, outs, x - 1);
      LinkOut(net, ins, outs, x - 1);
      assert LinkGap(net, ins, outs, net.links[x - 1]) <= 0;
    }
  }
}
