/**
  The constraint builder of src/leaf_spine/fperf_leaf_sts.cpp as code.  Every method is proved to accept
  exactly the assignments that the predicates of VoqSwitch and VoqRuns describe.
 */
module VoqConstraints {
  import opened Cyclic
  import opened StableMatching
  import opened VoqSwitch
  import opened Voqs
  import opened VoqRuns

  // ---------------------------------------------------------------- ports and their VOQs

  /** get_buffs_for_src / get_buffs_for_dst. */
  method GetBuffsForPort(voqs: seq<Voq>, side: Side, port: int) returns (peers: seq<int>)
    ensures peers == Peers(voqs, side, port)
  {
    peers := [];
    for i := 0 to |voqs|
      invariant peers == Peers(voqs[..i], side, port)
    {
      assert voqs[..i + 1][..i] == voqs[..i];
      if Own(side, voqs[i]) == port {
        peers := peers + [Peer(side, voqs[i])];
      }
    }
    assert voqs[..|voqs|] == voqs;
  }

  /** Every port of the list has VOQ reps[q] for a witness, and every VOQ's port is listed. */
  ghost predicate Represent(voqs: seq<Voq>, side: Side, ports: seq<int>, reps: seq<Voq>) {
    && |reps| == |ports|
    && (forall q :: 0 <= q < |ports| ==> reps[q] in voqs && Own(side, reps[q]) == ports[q])
    && forall e :: e in voqs ==> Own(side, e) in ports
  }

  /** get_in_ports / get_out_ports: each port once, in order of first appearance. */
  method GetPorts(voqs: seq<Voq>, side: Side) returns (ports: seq<int>, ghost reps: seq<Voq>)
    ensures Distinct(ports)
    ensures forall e :: e in voqs ==> Own(side, e) in ports
    ensures Represent(voqs, side, ports, reps)
  {
    ports, reps := [], [];
    for i := 0 to |voqs|
      invariant Distinct(ports)
      invariant forall k :: 0 <= k < i ==> Own(side, voqs[k]) in ports
      invariant |reps| == |ports|
      invariant forall q :: 0 <= q < |ports| ==> reps[q] in voqs && Own(side, reps[q]) == ports[q]
    {
      var p := Own(side, voqs[i]);
      if p !in ports {
        ports, reps := ports + [p], reps + [voqs[i]];
      }
    }
  }

  lemma RepOf(voqs: seq<Voq>, side: Side, ports: seq<int>, reps: seq<Voq>, e: Voq) returns (q: nat)
    requires Represent(voqs, side, ports, reps) && e in voqs
    ensures q < |ports| && reps[q] in voqs && Own(side, reps[q]) == Own(side, e)
  {
    q :| 0 <= q < |ports| && ports[q] == Own(side, e);
  }

  lemma SinglePorts(voqs: seq<Voq>, x: Snapshot, side: Side, ports: seq<int>, reps: seq<Voq>)
    requires WellShaped(voqs, x) && Represent(voqs, side, ports, reps)
    ensures (forall q :: 0 <= q < |ports| ==> AtMostOne(MatchRow(voqs, x, side, reps[q])))
            <==> forall e :: e in voqs ==> AtMostOne(MatchRow(voqs, x, side, e))
  {
    if forall q :: 0 <= q < |ports| ==> AtMostOne(MatchRow(voqs, x, side, reps[q])) {
      forall e | e in voqs
        ensures AtMostOne(MatchRow(voqs, x, side, e))
      {
        var q := RepOf(voqs, side, ports, reps, e);
        assert AtMostOne(MatchRow(voqs, x, side, reps[q]));
      }
    }
  }

  lemma OneHeadPorts(voqs: seq<Voq>, x: Snapshot, side: Side, ports: seq<int>, reps: seq<Voq>)
    requires WellShaped(voqs, x) && Represent(voqs, side, ports, reps)
    ensures (forall q :: 0 <= q < |ports| ==> OneHot(HeadRow(voqs, x, side, reps[q])))
            <==> forall e :: e in voqs ==> OneHot(HeadRow(voqs, x, side, e))
  {
    if forall q :: 0 <= q < |ports| ==> OneHot(HeadRow(voqs, x, side, reps[q])) {
      forall e | e in voqs
        ensures OneHot(HeadRow(voqs, x, side, e))
      {
        var q := RepOf(voqs, side, ports, reps, e);
        assert OneHot(HeadRow(voqs, x, side, reps[q]));
      }
    }
  }

  lemma MovingPorts(voqs: seq<Voq>, x: Snapshot, y: Snapshot, side: Side, ports: seq<int>, reps: seq<Voq>)
    requires WellShaped(voqs, x) && WellShaped(voqs, y) && Represent(voqs, side, ports, reps)
    ensures (forall q :: 0 <= q < |ports| ==> PortHeadMoves(voqs, x, y, side, reps[q]))
            <==> forall e :: e in voqs ==> PortHeadMoves(voqs, x, y, side, e)
  {
    if forall q :: 0 <= q < |ports| ==> PortHeadMoves(voqs, x, y, side, reps[q]) {
      forall e | e in voqs
        ensures PortHeadMoves(voqs, x, y, side, e)
      {
        var q := RepOf(voqs, side, ports, reps, e);
        assert PortHeadMoves(voqs, x, y, side, reps[q]);
      }
    }
  }

  ghost predicate FirstCellSet(row: seq<bool>) {
    forall i :: 0 <= i < |row| ==> (row[i] <==> i == 0)
  }

  lemma StartingPorts(voqs: seq<Voq>, x: Snapshot, side: Side, ports: seq<int>, reps: seq<Voq>)
    requires WellShaped(voqs, x) && Represent(voqs, side, ports, reps)
    ensures (forall q :: 0 <= q < |ports| ==> FirstCellSet(HeadRow(voqs, x, side, reps[q])))
            <==> forall e :: e in voqs ==> FirstCellSet(HeadRow(voqs, x, side, e))
  {
    if forall q :: 0 <= q < |ports| ==> FirstCellSet(HeadRow(voqs, x, side, reps[q])) {
      forall e | e in voqs
        ensures FirstCellSet(HeadRow(voqs, x, side, e))
      {
        var q := RepOf(voqs, side, ports, reps, e);
        assert FirstCellSet(HeadRow(voqs, x, side, reps[q]));
      }
    }
  }

  // ---------------------------------------------------------------- rows of one port

  ghost predicate ClearBelow(row: seq<bool>, p: nat, r: nat)
    requires p < |row|
  {
    forall i :: 0 <= i < |row| && Rank(p, i, |row|) < r ==> !row[i]
  }

  /** One head position: walk the cells behind it until idx is reached. */
  method NotMatchedBefore(row: seq<bool>, p: nat, idx: nat) returns (notMatched: bool)
    requires p < |row| && idx < |row|
    ensures notMatched <==> ClearBelow(row, p, Rank(p, idx, |row|))
  {
    notMatched := true;
    for k := 0 to |row|
      invariant k <= Rank(p, idx, |row|)
      invariant notMatched <==> ClearBelow(row, p, k)
    {
      CellOfRank(p, k, |row|);
      var ind := (p + 1 + k) % |row|;
      if ind == idx {
        break;
      }
      forall i | 0 <= i < |row|
        ensures Rank(p, i, |row|) == k <==> i == ind
      {
        RankInjective(p, i, ind, |row|);
      }
      RankInjective(p, idx, ind, |row|);
      notMatched := notMatched && !row[ind];
    }
  }

  method NoBetterCell(row: seq<bool>, head: seq<bool>, idx: nat) returns (ok: bool)
    requires |row| == |head| && idx < |row|
    ensures ok <==> NoBetter(row, head, idx)
  {
    ok := true;
    for p := 0 to |head|
      invariant ok <==> forall q :: 0 <= q < p && head[q] ==> ClearBelow(row, q, Rank(q, idx, |row|))
    {
      var clear := NotMatchedBefore(row, p, idx);
      ok := ok && (head[p] ==> clear);
    }
    assert NoBetter(row, head, idx) <==>
           forall q :: 0 <= q < |head| && head[q] ==> ClearBelow(row, q, Rank(q, idx, |row|));
  }

  /** Every set cell implies that all other cells are clear. */
  method OnlyOne(row: seq<bool>) returns (ok: bool)
    ensures ok <==> AtMostOne(row)
  {
    ok := true;
    for i := 0 to |row|
      invariant ok <==> forall a, b :: 0 <= a < i && 0 <= b < |row| && a != b && row[a] ==> !row[b]
    {
      var othersZero := true;
      for j := 0 to |row|
        invariant othersZero <==> forall b :: 0 <= b < j && b != i ==> !row[b]
      {
        if i != j {
          othersZero := othersZero && !row[j];
        }
      }
      ok := ok && (row[i] ==> othersZero);
    }
  }

  method AnySet(row: seq<bool>) returns (any: bool)
    ensures any <==> exists i :: 0 <= i < |row| && row[i]
  {
    any := false;
    for i := 0 to |row|
      invariant any <==> exists k :: 0 <= k < i && row[k]
    {
      any := any || row[i];
    }
  }

  method HeadMovesAsMatched(matched: seq<bool>, head: seq<bool>, next: seq<bool>) returns (ok: bool)
    requires |matched| == |head| == |next|
    ensures ok <==> HeadMoves(matched, head, next)
  {
    ok := true;
    for i := 0 to |matched|
      invariant ok <==> forall k :: 0 <= k < i && matched[k] ==> next[k]
    {
      ok := ok && (matched[i] ==> next[i]);
    }
    var any := AnySet(matched);
    var same := true;
    for i := 0 to |head|
      invariant same <==> forall k :: 0 <= k < i ==> next[k] == head[k]
    {
      same := same && next[i] == head[i];
    }
    ok := ok && (!any ==> same);
  }

  method FirstOnly(row: seq<bool>) returns (ok: bool)
    requires |row| > 0
    ensures ok <==> FirstCellSet(row)
  {
    ok := row[0];
    for i := 1 to |row|
      invariant ok <==> forall k :: 0 <= k < i ==> (row[k] <==> k == 0)
    {
      ok := ok && !row[i];
    }
  }

  /** fperf_leaf_sts.cpp:201-242: at most one match for every port of one side. */
  method NoDoubleRows(voqs: seq<Voq>, x: Snapshot, side: Side) returns (ok: bool)
    requires WellShaped(voqs, x)
    ensures ok <==> forall e :: e in voqs ==> AtMostOne(MatchRow(voqs, x, side, e))
  {
    var ports, reps := GetPorts(voqs, side);
    ok := true;
    for q := 0 to |ports|
      invariant ok <==> forall k :: 0 <= k < q ==> AtMostOne(MatchRow(voqs, x, side, reps[k]))
    {
      assert reps[q] in voqs;
      var one := OnlyOne(x.Match(side)[ports[q]]);
      ok := ok && one;
    }
    SinglePorts(voqs, x, side, ports, reps);
  }

  /** fperf_leaf_sts.cpp:245-291: at least one head and only one head for every port of one side. */
  method OneHeadRows(voqs: seq<Voq>, x: Snapshot, side: Side) returns (ok: bool)
    requires WellShaped(voqs, x)
    ensures ok <==> forall e :: e in voqs ==> OneHot(HeadRow(voqs, x, side, e))
  {
    var ports, reps := GetPorts(voqs, side);
    ok := true;
    for q := 0 to |ports|
      invariant ok <==> forall k :: 0 <= k < q ==> OneHot(HeadRow(voqs, x, side, reps[k]))
    {
      assert reps[q] in voqs;
      var any := AnySet(x.Head(side)[ports[q]]);
      var one := OnlyOne(x.Head(side)[ports[q]]);
      ok := ok && any && one;
    }
    OneHeadPorts(voqs, x, side, ports, reps);
  }

  /** fperf_leaf_sts.cpp:293-357: the heads of one side after the matches of the previous step. */
  method PortHeadsMove(voqs: seq<Voq>, x: Snapshot, y: Snapshot, side: Side) returns (ok: bool)
    requires WellShaped(voqs, x) && WellShaped(voqs, y)
    ensures ok <==> forall e :: e in voqs ==> PortHeadMoves(voqs, x, y, side, e)
  {
    var ports, reps := GetPorts(voqs, side);
    ok := true;
    for q := 0 to |ports|
      invariant ok <==> forall k :: 0 <= k < q ==> PortHeadMoves(voqs, x, y, side, reps[k])
    {
      assert reps[q] in voqs;
      var moves := HeadMovesAsMatched(x.Match(side)[ports[q]], x.Head(side)[ports[q]], y.Head(side)[ports[q]]);
      ok := ok && moves;
    }
    MovingPorts(voqs, x, y, side, ports, reps);
  }

  /** The head constraints of init(): cell 0 is set, every other cell is clear. */
  method HeadsStart(voqs: seq<Voq>, x: Snapshot, side: Side) returns (ok: bool)
    requires WellShaped(voqs, x)
    ensures ok <==> forall e :: e in voqs ==> FirstCellSet(HeadRow(voqs, x, side, e))
  {
    var ports, reps := GetPorts(voqs, side);
    ok := true;
    for q := 0 to |ports|
      invariant ok <==> forall k :: 0 <= k < q ==> FirstCellSet(HeadRow(voqs, x, side, reps[k]))
    {
      assert reps[q] in voqs;
      ghost var cell := Index(voqs, side, reps[q]);
      var first := FirstOnly(x.Head(side)[ports[q]]);
      ok := ok && first;
    }
    StartingPorts(voqs, x, side, ports, reps);
  }

  ghost predicate AllShaped(voqs: seq<Voq>, xs: seq<Snapshot>) {
    forall u :: 0 <= u < |xs| ==> WellShaped(voqs, xs[u])
  }

  /** Everything a run says about step t. */
  ghost predicate StepOk(voqs: seq<Voq>, xs: seq<Snapshot>, t: int)
    requires 0 <= t < |xs| && AllShaped(voqs, xs)
  {
    StepConstraints(voqs, xs[t]) && (t > 0 ==> HeadsMove(voqs, xs[t - 1], xs[t]))
  }

  /** The heads start at the first cell, and the first n steps are in order. */
  ghost predicate StepsOk(voqs: seq<Voq>, xs: seq<Snapshot>, n: nat)
    requires 0 < |xs| && n <= |xs| && AllShaped(voqs, xs)
  {
    HeadsAtFirstCell(voqs, xs[0]) && forall t :: 0 <= t < n ==> StepOk(voqs, xs, t)
  }

  lemma RunIsAllSteps(voqs: seq<Voq>, xs: seq<Snapshot>)
    requires |xs| > 0 && AllShaped(voqs, xs)
    ensures Run(voqs, xs) <==> StepsOk(voqs, xs, |xs|)
  {
    if StepsOk(voqs, xs, |xs|) {
      forall t | 0 <= t < |xs|
        ensures StepConstraints(voqs, xs[t]) && (t > 0 ==> HeadsMove(voqs, xs[t - 1], xs[t]))
      {
        assert StepOk(voqs, xs, t);
      }
    }
  }

  /** The table holds the cell of every VOQ at its port on one side. */
  ghost predicate CellTable(voqs: seq<Voq>, side: Side, idx: map<Voq, nat>) {
    forall e :: e in voqs ==> e in idx && idx[e] == Index(voqs, side, e)
  }

  /** Its entry for voqs[i] is the number of VOQs at the same port that precede it. */
  lemma TableInOrder(voqs: seq<Voq>, side: Side, idx: map<Voq, nat>)
    requires Distinct(voqs) && CellTable(voqs, side, idx)
    ensures forall i :: 0 <= i < |voqs| ==>
              voqs[i] in idx && idx[voqs[i]] == CountAt(voqs, side, Own(side, voqs[i]), i)
  {
    forall i | 0 <= i < |voqs|
      ensures idx[voqs[i]] == CountAt(voqs, side, Own(side, voqs[i]), i)
    {
      CellsInListOrder(voqs, side, i);
    }
  }

  /** setup(): the cell of every VOQ at its port on one side. */
  method CellIndex(voqs: seq<Voq>, side: Side) returns (idx: map<Voq, nat>)
    requires Distinct(voqs)
    ensures CellTable(voqs, side, idx)
  {
    var ports, _ := GetPorts(voqs, side);
    idx := map[];
    for q := 0 to |ports|
      invariant forall e :: e in voqs && Own(side, e) in ports[..q] ==> e in idx && idx[e] == Index(voqs, side, e)
    {
      var before := idx;
      var peers := GetBuffsForPort(voqs, side, ports[q]);
      PeersExact(voqs, side, ports[q]);
      for i := 0 to |peers|
        invariant forall e :: e in voqs && Own(side, e) in ports[..q] ==> e in idx && idx[e] == Index(voqs, side, e)
        invariant forall k :: 0 <= k < i ==> Join(side, ports[q], peers[k]) in idx
                                             && idx[Join(side, ports[q], peers[k])] == k
      {
        assert ports[q] !in ports[..q];
        idx := idx[Join(side, ports[q], peers[i]) := i];
      }
      forall e | e in voqs && Own(side, e) in ports[..q + 1]
        ensures e in idx && idx[e] == Index(voqs, side, e)
      {
        if Own(side, e) == ports[q] {
          assert Join(side, ports[q], peers[Index(voqs, side, e)]) == e;
        }
      }
    }
    assert ports[..|ports|] == ports;
  }

  lemma OneStepMore(voqs: seq<Voq>, xs: seq<Snapshot>, n: nat)
    requires n < |xs| && AllShaped(voqs, xs)
    ensures StepsOk(voqs, xs, n + 1) <==> StepsOk(voqs, xs, n) && StepOk(voqs, xs, n)
  {
  }

  // ---------------------------------------------------------------- match and head variables

  datatype Family = Match | Head

  /** A boolean variable: family, side, port, cell at the port and time step. */
  datatype Name = Name(family: Family, side: Side, port: int, cell: nat, t: nat)

  type Rows = map<int, seq<seq<Name>>>

  /** One cell per VOQ of the port, with one variable per step. */
  function RowOf(family: Family, side: Side, port: int, cells: nat, steps: nat): seq<seq<Name>> {
    seq(cells, i requires 0 <= i < cells => seq(steps, t requires 0 <= t < steps => Name(family, side, port, i, t)))
  }

  /** One row for every port of the side. */
  ghost predicate RowsFor(voqs: seq<Voq>, family: Family, side: Side, steps: nat, rows: Rows) {
    && (forall e :: e in voqs ==> Own(side, e) in rows)
    && forall p :: p in rows ==>
         |Peers(voqs, side, p)| > 0 && rows[p] == RowOf(family, side, p, |Peers(voqs, side, p)|, steps)
  }

  method NewRow(family: Family, side: Side, port: int, cells: nat, steps: nat) returns (row: seq<seq<Name>>)
    ensures row == RowOf(family, side, port, cells, steps)
  {
    row := [];
    for i := 0 to cells
      invariant row == RowOf(family, side, port, i, steps)
    {
      var cell: seq<Name> := [];
      for t := 0 to steps
        invariant |cell| == t && forall u :: 0 <= u < t ==> cell[u] == Name(family, side, port, i, u)
      {
        cell := cell + [Name(family, side, port, i, t)];
      }
      assert cell == seq(steps, t requires 0 <= t < steps => Name(family, side, port, i, t));
      row := row + [cell];
    }
  }

  /** setup(): the variables of one family on one side. */
  method NewRows(voqs: seq<Voq>, family: Family, side: Side, steps: nat) returns (rows: Rows)
    ensures RowsFor(voqs, family, side, steps, rows)
  {
    var ports, reps := GetPorts(voqs, side);
    rows := map[];
    for q := 0 to |ports|
      invariant forall p :: p in rows <==> p in ports[..q]
      invariant forall p :: p in rows ==>
                  |Peers(voqs, side, p)| > 0 && rows[p] == RowOf(family, side, p, |Peers(voqs, side, p)|, steps)
    {
      var peers := GetBuffsForPort(voqs, side, ports[q]);
      PeersExact(voqs, side, ports[q]);
      assert Join(side, ports[q], Peer(side, reps[q])) == reps[q];
      var row := NewRow(family, side, ports[q], |peers|, steps);
      rows := rows[ports[q] := row];
    }
    assert ports[..|ports|] == ports;
  }

  /** The values of a family's variables at step t. */
  ghost function ValuesAt(voqs: seq<Voq>, family: Family, side: Side, steps: nat, rows: Rows, value: Name -> bool,
                          t: nat): (r: map<int, seq<bool>>)
    requires RowsFor(voqs, family, side, steps, rows) && t < steps
  {
    map p | p in rows :: seq(|rows[p]|, i requires 0 <= i < |rows[p]| => value(rows[p][i][t]))
  }

  /** The match and head variables of both sides. */
  datatype Variables = Variables(inToOut: Rows, inPrioHead: Rows, outFromIn: Rows, outPrioHead: Rows)

  ghost predicate VariablesFor(voqs: seq<Voq>, steps: nat, vars: Variables) {
    && RowsFor(voqs, Match, In, steps, vars.inToOut) && RowsFor(voqs, Head, In, steps, vars.inPrioHead)
    && RowsFor(voqs, Match, Out, steps, vars.outFromIn) && RowsFor(voqs, Head, Out, steps, vars.outPrioHead)
  }

  method NewVariables(voqs: seq<Voq>, steps: nat) returns (vars: Variables)
    ensures VariablesFor(voqs, steps, vars)
  {
    var inToOut := NewRows(voqs, Match, In, steps);
    var inPrioHead := NewRows(voqs, Head, In, steps);
    var outFromIn := NewRows(voqs, Match, Out, steps);
    var outPrioHead := NewRows(voqs, Head, Out, steps);
    vars := Variables(inToOut, inPrioHead, outFromIn, outPrioHead);
  }

  /** Every assignment to the variables gives a snapshot of the right shape at every step. */
  lemma AssignmentsAreShaped(voqs: seq<Voq>, vars: Variables, steps: nat, value: Name -> bool, b: map<Voq, bool>,
                             t: nat)
    requires VariablesFor(voqs, steps, vars) && t < steps && forall e :: e in voqs ==> e in b
    ensures WellShaped(voqs, Snapshot(ValuesAt(voqs, Match, In, steps, vars.inToOut, value, t),
                                      ValuesAt(voqs, Match, Out, steps, vars.outFromIn, value, t),
                                      ValuesAt(voqs, Head, In, steps, vars.inPrioHead, value, t),
                                      ValuesAt(voqs, Head, Out, steps, vars.outPrioHead, value, t), b))
  {
  }

  /** The value of a variable in a sequence of snapshots. */
  ghost function ValueIn(xs: seq<Snapshot>, v: Name): bool {
    if v.t >= |xs| then false else
      var rows := if v.family.Match? then xs[v.t].Match(v.side) else xs[v.t].Head(v.side);
      v.port in rows && v.cell < |rows[v.port]| && rows[v.port][v.cell]
  }

  lemma RowReached(voqs: seq<Voq>, family: Family, side: Side, steps: nat, rows: Rows, xs: seq<Snapshot>,
                   value: Name -> bool, t: nat, e: Voq)
    requires RowsFor(voqs, family, side, steps, rows) && |xs| == steps && t < steps && AllShaped(voqs, xs) && e in voqs
    requires forall v :: value(v) == ValueIn(xs, v)
    ensures Own(side, e) in rows
    ensures ValuesAt(voqs, family, side, steps, rows, value, t)[Own(side, e)]
            == if family.Match? then MatchRow(voqs, xs[t], side, e) else HeadRow(voqs, xs[t], side, e)
  {
    var port := Own(side, e);
    assert WellShaped(voqs, xs[t]);
    assert rows[port] == RowOf(family, side, port, Width(voqs, side, e), steps);
    forall i | 0 <= i < |rows[port]|
      ensures rows[port][i][t] == Name(family, side, port, i, t)
    {
    }
  }

  /** And every sequence of snapshots is reached by some assignment: no two variables are the same. */
  lemma AssignmentsReachAll(voqs: seq<Voq>, vars: Variables, steps: nat, xs: seq<Snapshot>)
    returns (value: Name -> bool)
    requires VariablesFor(voqs, steps, vars) && |xs| == steps && AllShaped(voqs, xs)
    ensures forall t, e :: 0 <= t < steps && e in voqs ==>
              && ValuesAt(voqs, Match, In, steps, vars.inToOut, value, t)[e.0] == MatchRow(voqs, xs[t], In, e)
              && ValuesAt(voqs, Head, In, steps, vars.inPrioHead, value, t)[e.0] == HeadRow(voqs, xs[t], In, e)
              && ValuesAt(voqs, Match, Out, steps, vars.outFromIn, value, t)[e.1] == MatchRow(voqs, xs[t], Out, e)
              && ValuesAt(voqs, Head, Out, steps, vars.outPrioHead, value, t)[e.1] == HeadRow(voqs, xs[t], Out, e)
  {
    value := (v: Name) => ValueIn(xs, v);
    forall t, e | 0 <= t < steps && e in voqs
      ensures ValuesAt(voqs, Match, In, steps, vars.inToOut, value, t)[e.0] == MatchRow(voqs, xs[t], In, e)
      ensures ValuesAt(voqs, Head, In, steps, vars.inPrioHead, value, t)[e.0] == HeadRow(voqs, xs[t], In, e)
      ensures ValuesAt(voqs, Match, Out, steps, vars.outFromIn, value, t)[e.1] == MatchRow(voqs, xs[t], Out, e)
      ensures ValuesAt(voqs, Head, Out, steps, vars.outPrioHead, value, t)[e.1] == HeadRow(voqs, xs[t], Out, e)
    {
      RowReached(voqs, Match, In, steps, vars.inToOut, xs, value, t, e);
      RowReached(voqs, Head, In, steps, vars.inPrioHead, xs, value, t, e);
      RowReached(voqs, Match, Out, steps, vars.outFromIn, xs, value, t, e);
      RowReached(voqs, Head, Out, steps, vars.outPrioHead, xs, value, t, e);
    }
  }

  // ---------------------------------------------------------------- the switch

  class FperfLeafSts {
    const voqs: seq<Voq>
    const timesteps: nat
    var srcDstToDstIdx: map<Voq, nat>
    var dstSrcToSrcIdx: map<Voq, nat>
    var variables: Variables

    ghost predicate Valid()
      reads this
    {
      Distinct(voqs) && CellTable(voqs, In, srcDstToDstIdx) && CellTable(voqs, Out, dstSrcToSrcIdx)
    }

    /** setup(): the cell of every VOQ at both of its ports, and the match and head variables of all ports. */
    method Setup()
      requires Distinct(voqs)
      modifies this
      ensures Valid() && VariablesFor(voqs, timesteps, variables)
    {
      srcDstToDstIdx := CellIndex(voqs, In);
      dstSrcToSrcIdx := CellIndex(voqs, Out);
      variables := NewVariables(voqs, timesteps);
    }

    constructor (voqs: seq<Voq>, timesteps: nat)
      requires Distinct(voqs)
      ensures this.voqs == voqs && this.timesteps == timesteps
      ensures Valid() && VariablesFor(voqs, timesteps, variables)
    {
      this.voqs := voqs;
      this.timesteps := timesteps;
      srcDstToDstIdx, dstSrcToSrcIdx := map[], map[];
      variables := Variables(map[], map[], map[], map[]);
      new;
      Setup();
    }

    ghost predicate AgreeUpTo(x: Snapshot, n: nat)
      requires WellShaped(voqs, x) && n <= |voqs|
    {
      forall k :: 0 <= k < n ==>
        var e := voqs[k];
        if Matched(voqs, x, In, e) then Matched(voqs, x, Out, e) && x.b[e] else !Matched(voqs, x, Out, e)
    }

    /** fperf_leaf_sts.cpp:133-153: both families of match variables agree, and only backlogged VOQs are matched. */
    method InAndOutTogether(x: Snapshot) returns (ok: bool)
      requires Valid() && WellShaped(voqs, x)
      ensures ok <==> Agree(voqs, x)
      ensures ok ==> forall e :: e in voqs && Matched(voqs, x, In, e) ==> Matched(voqs, x, Out, e) && x.b[e]
    {
      ok := true;
      for i := 0 to |voqs|
        invariant ok <==> AgreeUpTo(x, i)
      {
        var e := voqs[i];
        var inMatch := MatchRow(voqs, x, In, e)[srcDstToDstIdx[e]];
        var outMatch := MatchRow(voqs, x, Out, e)[dstSrcToSrcIdx[e]];
        ok := ok && (inMatch ==> outMatch && x.b[e]) && (!inMatch ==> !outMatch);
      }
    }

    /** The body of the loop, for one VOQ. */
    method MatchedUnlessOutranked(x: Snapshot, e: Voq) returns (ok: bool)
      requires Valid() && WellShaped(voqs, x) && e in voqs
      ensures ok <==> PriorityAt(voqs, x, e)
    {
      var inMatch := MatchRow(voqs, x, In, e)[srcDstToDstIdx[e]];
      var cond1 := NoBetterCell(MatchRow(voqs, x, Out, e), HeadRow(voqs, x, Out, e), dstSrcToSrcIdx[e]);
      var cond2 := NoBetterCell(MatchRow(voqs, x, In, e), HeadRow(voqs, x, In, e), srcDstToDstIdx[e]);
      var matchCond := cond1 && cond2 && x.b[e];
      ok := (matchCond ==> inMatch) && (!matchCond ==> !inMatch);
    }

    /** fperf_leaf_sts.cpp:155-199: a VOQ is matched exactly when nothing in front of it is, at either port. */
    method MatchesUnlessOutranked(x: Snapshot) returns (ok: bool)
      requires Valid() && WellShaped(voqs, x)
      ensures ok <==> MatchesByPriority(voqs, x)
    {
      ok := true;
      for i := 0 to |voqs|
        invariant ok <==> forall k :: 0 <= k < i ==> PriorityAt(voqs, x, voqs[k])
      {
        var one := MatchedUnlessOutranked(x, voqs[i]);
        ok := ok && one;
      }
      assert MatchesByPriority(voqs, x) <==> forall k :: 0 <= k < |voqs| ==> PriorityAt(voqs, x, voqs[k]);
    }

    /** trs(prev_t): the constraints on step prev_t + 1, with the head update when there is a step before it. */
    method Trs(xs: seq<Snapshot>, prevT: int) returns (ok: bool)
      requires Valid() && -1 <= prevT < |xs| - 1
      requires AllShaped(voqs, xs)
      ensures ok <==> StepOk(voqs, xs, prevT + 1)
    {
      var x := xs[prevT + 1];
      var together := InAndOutTogether(x);
      var matches := MatchesUnlessOutranked(x);
      var inSingle := NoDoubleRows(voqs, x, In);
      var outSingle := NoDoubleRows(voqs, x, Out);
      var inHead := OneHeadRows(voqs, x, In);
      var outHead := OneHeadRows(voqs, x, Out);
      ok := together && matches && inSingle && outSingle && inHead && outHead;
      if prevT >= 0 {
        var inMoves := PortHeadsMove(voqs, xs[prevT], x, In);
        var outMoves := PortHeadsMove(voqs, xs[prevT], x, Out);
        ok := ok && inMoves && outMoves;
      }
    }

    /** init(). */
    method Init(xs: seq<Snapshot>) returns (ok: bool)
      requires Valid() && |xs| > 0
      requires AllShaped(voqs, xs)
      ensures ok <==> StepsOk(voqs, xs, 1)
    {
      ok := Trs(xs, -1);
      var inStart := HeadsStart(voqs, xs[0], In);
      var outStart := HeadsStart(voqs, xs[0], Out);
      ok := ok && inStart && outStart;
    }

    /** LeafBase::trs(): init() and then trs(i) for every pair of successive steps. */
    method AllSteps(xs: seq<Snapshot>) returns (ok: bool)
      requires Valid() && |xs| > 0
      requires AllShaped(voqs, xs)
      ensures ok <==> Run(voqs, xs)
    {
      ok := Init(xs);
      for i := 0 to |xs| - 1
        invariant ok <==> StepsOk(voqs, xs, i + 1)
      {
        var step := Trs(xs, i);
        ok := ok && step;
        OneStepMore(voqs, xs, i + 1);
      }
      RunIsAllSteps(voqs, xs);
    }
  }
}
