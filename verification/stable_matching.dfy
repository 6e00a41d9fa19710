/** Stable matchings between the input and the output ports of a crossbar. */
module StableMatching {
  import opened Voqs

  /** Every port ranks the VOQs that meet at it; a smaller rank is a higher priority. */
  datatype Instance = Instance(backlog: set<Voq>, inRank: map<Voq, nat>, outRank: map<Voq, nat>)

  /** Every backlogged VOQ is ranked at both ports, and no port ranks two VOQs alike. */
  ghost predicate Ranked(g: Instance) {
    && g.backlog <= g.inRank.Keys
    && g.backlog <= g.outRank.Keys
    && (forall e, f :: e in g.backlog && f in g.backlog && e != f && e.0 == f.0 ==> g.inRank[e] != g.inRank[f])
    && (forall e, f :: e in g.backlog && f in g.backlog && e != f && e.1 == f.1 ==> g.outRank[e] != g.outRank[f])
  }

  /** f leaves the same input port as e and has priority over it there. */
  ghost predicate BeatsIn(g: Instance, f: Voq, e: Voq)
    requires Ranked(g) && e in g.backlog && f in g.backlog
  {
    f.0 == e.0 && g.inRank[f] < g.inRank[e]
  }

  /** f enters the same output port as e and has priority over it there. */
  ghost predicate BeatsOut(g: Instance, f: Voq, e: Voq)
    requires Ranked(g) && e in g.backlog && f in g.backlog
  {
    f.1 == e.1 && g.outRank[f] < g.outRank[e]
  }

  ghost predicate Outranked(g: Instance, m: set<Voq>, e: Voq)
    requires Ranked(g) && m <= g.backlog && e in g.backlog
  {
    exists f :: f in m && (BeatsIn(g, f, e) || BeatsOut(g, f, e))
  }

  /**
    The set holds exactly the backlogged VOQs that none of its members outranks at either port: the
    relation that the crossbar constraints of src/leaf_spine/fperf_leaf_sts.cpp impose.
   */
  ghost predicate Stable(g: Instance, m: set<Voq>)
    requires Ranked(g)
  {
    && m <= g.backlog
    && forall e :: e in g.backlog ==> (e in m <==> !Outranked(g, m, e))
  }

  /** No two VOQs of the set share a port: the crossbar can serve them in one step. */
  ghost predicate ConflictFree(m: set<Voq>) {
    forall e, f :: e in m && f in m && e != f ==> e.0 != f.0 && e.1 != f.1
  }

  ghost function Inputs(m: set<Voq>): set<int> {
    set e | e in m :: e.0
  }

  ghost function Outputs(m: set<Voq>): set<int> {
    set e | e in m :: e.1
  }

  // ---------------------------------------------------------------- counting ports

  lemma PortsWithout(m: set<Voq>, e: Voq)
    requires e in m
    ensures Inputs(m) == Inputs(m - {e}) + {e.0}
    ensures Outputs(m) == Outputs(m - {e}) + {e.1}
  {
    assert m == (m - {e}) + {e};
  }

  lemma {:induction false} ConflictFreePorts(m: set<Voq>)
    requires ConflictFree(m)
    ensures |Inputs(m)| == |m| == |Outputs(m)|
  {
    if m != {} {
      var e :| e in m;
      ConflictFreePorts(m - {e});
      PortsWithout(m, e);
      assert e.0 !in Inputs(m - {e}) && e.1 !in Outputs(m - {e});
    }
  }

  lemma SubsetSize<T>(a: set<T>, b: set<T>)
    requires a <= b
    ensures |a| <= |b|
    ensures |a| == |b| ==> a == b
  {
    assert b == a + (b - a);
    assert |b| == |a| + |b - a|;
    if |a| == |b| {
      assert b - a == {};
    }
  }

  // ---------------------------------------------------------------- shape of one matching

  /** Of two VOQs that share a port, one outranks the other. */
  lemma SharedPortOutranks(g: Instance, m: set<Voq>, e: Voq, f: Voq)
    requires Ranked(g) && m <= g.backlog
    requires e in m && f in m && e != f
    ensures e.0 == f.0 || e.1 == f.1 ==> Outranked(g, m, e) || Outranked(g, m, f)
  {
    assert e.0 == f.0 ==> BeatsIn(g, e, f) || BeatsIn(g, f, e);
    assert e.1 == f.1 ==> BeatsOut(g, e, f) || BeatsOut(g, f, e);
  }

  /** Stability alone rules out serving two VOQs of one port. */
  lemma StableIsConflictFree(g: Instance, m: set<Voq>)
    requires Ranked(g) && Stable(g, m)
    ensures ConflictFree(m)
  {
    forall e, f | e in m && f in m && e != f
      ensures e.0 == f.0 || e.1 == f.1 ==> Outranked(g, m, e) || Outranked(g, m, f)
    {
      SharedPortOutranks(g, m, e, f);
    }
  }

  /** No backlogged VOQ could be added: one of its ports is already busy. */
  lemma StableIsMaximal(g: Instance, m: set<Voq>)
    requires Ranked(g) && Stable(g, m)
    ensures forall e :: e in g.backlog ==> e.0 in Inputs(m) || e.1 in Outputs(m)
  {
    forall e | e in g.backlog
      ensures e.0 in Inputs(m) || e.1 in Outputs(m)
    {
      if e !in m {
        var f :| f in m && (BeatsIn(g, f, e) || BeatsOut(g, f, e));
        assert f.0 in Inputs(m) && f.1 in Outputs(m);
      }
    }
  }

  lemma BusyPortsBound(m: set<Voq>, n: set<Voq>)
    requires ConflictFree(m) && ConflictFree(n)
    requires forall e :: e in n ==> e.0 in Inputs(m) || e.1 in Outputs(m)
    ensures |n| <= 2 * |m|
  {
    var left := set e | e in n && e.0 in Inputs(m);
    var right := n - left;
    assert |n| == |left| + |right| by { assert n == left + right; }
    SubsetSize(Inputs(left), Inputs(m));
    SubsetSize(Outputs(right), Outputs(m));
    ConflictFreePorts(left);
    ConflictFreePorts(right);
    ConflictFreePorts(m);
  }

  /** A stable matching serves at least half as many VOQs as any schedule of backlogged VOQs could. */
  lemma StableServesHalf(g: Instance, m: set<Voq>, n: set<Voq>)
    requires Ranked(g) && Stable(g, m)
    requires n <= g.backlog && ConflictFree(n)
    ensures |n| <= 2 * |m|
  {
    StableIsConflictFree(g, m);
    StableIsMaximal(g, m);
    BusyPortsBound(m, n);
  }

  // ---------------------------------------------------------------- all matchings serve the same ports

  /** The matched VOQs of m whose input port strictly prefers m to n. */
  ghost function InputGains(g: Instance, m: set<Voq>, n: set<Voq>): set<Voq>
    requires Ranked(g) && m <= g.backlog && n <= g.backlog
  {
    set e | e in m && (forall f :: f in n && f.0 == e.0 ==> g.inRank[e] < g.inRank[f])
  }

  /** The matched VOQs of n whose output port strictly prefers n to m. */
  ghost function OutputGains(g: Instance, m: set<Voq>, n: set<Voq>): set<Voq>
    requires Ranked(g) && m <= g.backlog && n <= g.backlog
  {
    set f | f in n && (forall e :: e in m && e.1 == f.1 ==> g.outRank[f] < g.outRank[e])
  }

  /** What an input gains by m, the output at its other end gains by n. */
  lemma InputGainIsOutputGain(g: Instance, m: set<Voq>, n: set<Voq>)
    requires Ranked(g) && Stable(g, m) && Stable(g, n)
    ensures Outputs(InputGains(g, m, n)) <= Outputs(OutputGains(g, m, n))
  {
    StableIsConflictFree(g, m);
    forall e | e in InputGains(g, m, n)
      ensures e.1 in Outputs(OutputGains(g, m, n))
    {
      assert e !in n;
      assert Outranked(g, n, e);
      var f :| f in n && (BeatsIn(g, f, e) || BeatsOut(g, f, e));
      assert f in OutputGains(g, m, n);
    }
  }

  lemma OutputGainIsInputGain(g: Instance, m: set<Voq>, n: set<Voq>)
    requires Ranked(g) && Stable(g, m) && Stable(g, n)
    ensures Inputs(OutputGains(g, m, n)) <= Inputs(InputGains(g, m, n))
  {
    StableIsConflictFree(g, n);
    forall f | f in OutputGains(g, m, n)
      ensures f.0 in Inputs(InputGains(g, m, n))
    {
      assert f !in m;
      assert Outranked(g, m, f);
      var e :| e in m && (BeatsIn(g, e, f) || BeatsOut(g, e, f));
      assert e in InputGains(g, m, n);
    }
  }

  lemma GainsUseTheSamePorts(g: Instance, m: set<Voq>, n: set<Voq>)
    requires Ranked(g) && Stable(g, m) && Stable(g, n)
    ensures Inputs(InputGains(g, m, n)) == Inputs(OutputGains(g, m, n))
    ensures Outputs(InputGains(g, m, n)) == Outputs(OutputGains(g, m, n))
  {
    var x, y := InputGains(g, m, n), OutputGains(g, m, n);
    StableIsConflictFree(g, m);
    StableIsConflictFree(g, n);
    InputGainIsOutputGain(g, m, n);
    OutputGainIsInputGain(g, m, n);
    ConflictFreePorts(x);
    ConflictFreePorts(y);
    SubsetSize(Outputs(x), Outputs(y));
    SubsetSize(Inputs(y), Inputs(x));
  }

  lemma PortsIncluded(g: Instance, m: set<Voq>, n: set<Voq>)
    requires Ranked(g) && Stable(g, m) && Stable(g, n)
    ensures Inputs(m) <= Inputs(n)
    ensures Outputs(n) <= Outputs(m)
  {
    GainsUseTheSamePorts(g, m, n);
    var x, y := InputGains(g, m, n), OutputGains(g, m, n);
    assert forall e :: e in m && e.0 !in Inputs(n) ==> e in x && e.0 in Inputs(x);
    assert forall f :: f in n && f.1 !in Outputs(m) ==> f in y && f.1 in Outputs(y);
    assert Inputs(y) <= Inputs(n) && Outputs(x) <= Outputs(m);
  }

  /** Any two stable matchings of one instance serve the same inputs, the same outputs and as many VOQs. */
  lemma SamePortsMatched(g: Instance, m: set<Voq>, n: set<Voq>)
    requires Ranked(g) && Stable(g, m) && Stable(g, n)
    ensures Inputs(m) == Inputs(n)
    ensures Outputs(m) == Outputs(n)
    ensures |m| == |n|
  {
    PortsIncluded(g, m, n);
    PortsIncluded(g, n, m);
    StableIsConflictFree(g, m);
    StableIsConflictFree(g, n);
    ConflictFreePorts(m);
    ConflictFreePorts(n);
  }

  // ---------------------------------------------------------------- a matching always exists

  /** Each input's best backlogged VOQ that has not been turned down. */
  ghost function Proposals(g: Instance, rejected: set<Voq>): set<Voq>
    requires Ranked(g)
  {
    set e | e in g.backlog && e !in rejected
            && (forall f :: f in g.backlog && f !in rejected && f.0 == e.0 ==> g.inRank[e] <= g.inRank[f])
  }

  /** An input that still has an eligible VOQ proposes one. */
  lemma {:induction false} SomeProposal(g: Instance, rejected: set<Voq>, e: Voq) returns (best: Voq)
    requires Ranked(g)
    requires e in g.backlog && e !in rejected
    ensures best in Proposals(g, rejected) && best.0 == e.0 && g.inRank[best] <= g.inRank[e]
    decreases g.inRank[e]
  {
    if f :| f in g.backlog && f !in rejected && f.0 == e.0 && g.inRank[f] < g.inRank[e] {
      best := SomeProposal(g, rejected, f);
    } else {
      best := e;
    }
  }

  ghost predicate Refused(g: Instance, rejected: set<Voq>, e: Voq)
    requires Ranked(g) && e in g.backlog
  {
    exists f :: f in Proposals(g, rejected) && BeatsOut(g, f, e)
  }

  /** Every VOQ that was turned down is outranked, at its output, by a standing proposal. */
  ghost predicate Justified(g: Instance, rejected: set<Voq>)
    requires Ranked(g)
  {
    && rejected <= g.backlog
    && forall e :: e in rejected ==> Refused(g, rejected, e)
  }

  ghost predicate Collide(g: Instance, rejected: set<Voq>, e: Voq, f: Voq)
    requires Ranked(g)
  {
    e in Proposals(g, rejected) && f in Proposals(g, rejected) && BeatsOut(g, f, e)
  }

  /** Turning e down leaves every other proposal standing. */
  lemma ProposalStands(g: Instance, rejected: set<Voq>, e: Voq, f: Voq)
    requires Ranked(g)
    requires f in Proposals(g, rejected) && f != e
    ensures f in Proposals(g, rejected + {e})
  {
  }

  lemma StillRefused(g: Instance, rejected: set<Voq>, e: Voq, f: Voq, x: Voq)
    requires Ranked(g) && Collide(g, rejected, e, f) && x in g.backlog
    requires x == e || Refused(g, rejected, x)
    ensures Refused(g, rejected + {e}, x)
  {
    var y := f;
    if x != e {
      y :| y in Proposals(g, rejected) && BeatsOut(g, y, x);
      y := if y == e then f else y;
    }
    ProposalStands(g, rejected, e, y);
    assert BeatsOut(g, y, x);
  }

  lemma RejectOne(g: Instance, rejected: set<Voq>, e: Voq, f: Voq)
    requires Ranked(g) && Justified(g, rejected) && Collide(g, rejected, e, f)
    ensures Justified(g, rejected + {e})
  {
    forall x | x in rejected + {e}
      ensures Refused(g, rejected + {e}, x)
    {
      StillRefused(g, rejected, e, f, x);
    }
  }

  lemma FewerLeft(backlog: set<Voq>, rejected: set<Voq>, e: Voq)
    requires e in backlog && e !in rejected
    ensures |backlog - (rejected + {e})| < |backlog - rejected|
  {
    assert backlog - rejected == (backlog - (rejected + {e})) + {e};
  }

  lemma SettledIsStable(g: Instance, rejected: set<Voq>)
    requires Ranked(g) && Justified(g, rejected)
    requires forall e, f :: !Collide(g, rejected, e, f)
    ensures Stable(g, Proposals(g, rejected))
  {
    var m := Proposals(g, rejected);
    forall e | e in g.backlog
      ensures e in m <==> !Outranked(g, m, e)
    {
      if e in m {
        assert forall f :: f in m ==> !BeatsIn(g, f, e) && !Collide(g, rejected, e, f);
      } else if e in rejected {
        var f :| f in m && BeatsOut(g, f, e);
      } else {
        var best := SomeProposal(g, rejected, e);
        assert BeatsIn(g, best, e);
      }
    }
  }

  /** Deferred acceptance: turn proposals down until no two meet at one output. */
  lemma {:induction false} DeferredAcceptance(g: Instance, rejected: set<Voq>) returns (m: set<Voq>)
    requires Ranked(g) && Justified(g, rejected)
    ensures Stable(g, m)
    decreases |g.backlog - rejected|
  {
    if e, f :| Collide(g, rejected, e, f) {
      RejectOne(g, rejected, e, f);
      FewerLeft(g.backlog, rejected, e);
      m := DeferredAcceptance(g, rejected + {e});
    } else {
      SettledIsStable(g, rejected);
      m := Proposals(g, rejected);
    }
  }

  /** The crossbar constraints can be met whatever the ranks and the backlog. */
  lemma StableExists(g: Instance) returns (m: set<Voq>)
    requires Ranked(g)
    ensures Stable(g, m)
  {
    m := DeferredAcceptance(g, {});
  }

  // ---------------------------------------------------------------- the choice is free

  ghost predicate Corner(e: Voq) {
    (e.0 == 0 || e.0 == 1) && (e.1 == 0 || e.1 == 1)
  }

  /** Two inputs and two outputs: each input prefers its own number, each output the other's. */
  ghost predicate Opposed(g: Instance) {
    && (forall e :: e in g.backlog <==> Corner(e))
    && g.inRank.Keys == g.backlog == g.outRank.Keys
    && (forall e :: e in g.backlog ==> g.inRank[e] == (if e.0 == e.1 then 0 else 1))
    && (forall e :: e in g.backlog ==> g.outRank[e] == (if e.0 == e.1 then 1 else 0))
  }

  lemma OpposedRanked(g: Instance)
    requires Opposed(g)
    ensures Ranked(g)
  {
  }

  lemma StraightStable(g: Instance, m: set<Voq>)
    requires Ranked(g) && Opposed(g)
    requires forall e :: e in m <==> Corner(e) && e.0 == e.1
    ensures Stable(g, m)
  {
    forall e | e in g.backlog
      ensures e in m <==> !Outranked(g, m, e)
    {
      if e !in m {
        assert BeatsIn(g, (e.0, e.0), e);
      }
    }
  }

  lemma CrossedStable(g: Instance, n: set<Voq>)
    requires Ranked(g) && Opposed(g)
    requires forall e :: e in n <==> Corner(e) && e.0 != e.1
    ensures Stable(g, n)
  {
    forall e | e in g.backlog
      ensures e in n <==> !Outranked(g, n, e)
    {
      if e !in n {
        assert BeatsOut(g, (1 - e.1, e.1), e);
      }
    }
  }

  /** The relation fixes the busy ports but not the VOQs: here two disjoint matchings are both stable. */
  lemma StableNotUnique(g: Instance, m: set<Voq>, n: set<Voq>)
    requires Opposed(g)
    requires forall e :: e in m <==> Corner(e) && e.0 == e.1
    requires forall e :: e in n <==> Corner(e) && e.0 != e.1
    ensures Ranked(g) && Stable(g, m) && Stable(g, n) && m != {} && m !! n
  {
    OpposedRanked(g);
    StraightStable(g, m);
    CrossedStable(g, n);
    assert (0, 0) in m;
  }
}
