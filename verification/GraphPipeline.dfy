/**
 The pipeline that drives the graph builder over the rows of one run: the stored graph, its two write
 transactions, the per-row control flow and the run statistics.
 */
module GraphPipeline {
  import opened Collections
  import opened BlockKeys
  import opened Adjacency
  import opened GraphBuild

  /** The stored graph; each method is one write transaction. */
  class GraphStore {
    var processed: set<Claim>
    var nodes: Nodes
    var edges: Edges

    ghost function Contents(): Graph
      reads this
    {
      Graph(processed, nodes, edges)
    }

    constructor ()
      ensures Contents() == Start.graph
    {
      processed, nodes, edges := {}, map[], map[];
    }

    /** The claim is new exactly when it was not there, and is there afterwards. */
    method ClaimMap(c: Claim) returns (wasNew: bool)
      modifies this
      ensures wasNew == (c !in old(processed))
      ensures Contents() == old(Contents()).(processed := old(processed) + {c})
    {
      wasNew := c !in processed;
      processed := processed + {c};
    }

    method MergeNodeRows(keys: seq<BlockKey>)
      modifies this`nodes
      ensures nodes == MergeNodes(old(nodes), keys)
    {
      for i := 0 to |keys|
        invariant nodes == MergeNodes(old(nodes), keys[..i])
      {
        assert keys[..i + 1][..i] == keys[..i];
        nodes := MergeNode(nodes, keys[i]);
      }
      assert keys[..|keys|] == keys;
    }

    /** The number returned is that of the rows whose end nodes are there. */
    method MergeEdgeRows(obs: seq<Observation>) returns (merged: nat)
      modifies this`edges
      ensures edges == MergeEdges(old(edges), nodes, obs)
      ensures merged == MatchedRows(nodes, obs)
    {
      merged := 0;
      for i := 0 to |obs|
        invariant edges == MergeEdges(old(edges), nodes, obs[..i]) && merged == MatchedRows(nodes, obs[..i])
      {
        assert obs[..i + 1][..i] == obs[..i];
        edges := MergeEdge(edges, nodes, obs[i]);
        if Matches(nodes, obs[i]) {
          merged := merged + 1;
        }
      }
      assert obs[..|obs|] == obs;
    }

    /** Merging the nodes and edges of an extraction is one step of the protocol, and every row of it counts. */
    method MergeGraph(keys: seq<BlockKey>, obs: seq<Observation>, ghost f: Flags) returns (nodeRows: nat, edgeRows: nat)
      requires Observed(obs, f, Ids(obs))
      requires EndsOf(keys, obs)
      modifies this
      ensures Contents() == Graph(old(processed), TouchNodes(old(nodes), Ids(obs)), TouchAll(old(edges), Ids(obs), f))
      ensures nodeRows == |keys| && edgeRows == |obs|
    {
      RowsAreOneStep(nodes, edges, keys, obs, f);
      nodeRows := |keys|;
      edgeRows := MergeRows(keys, obs);
    }

    /** The node rows, then the edge rows. */
    method MergeRows(keys: seq<BlockKey>, obs: seq<Observation>) returns (edgeRows: nat)
      modifies this
      ensures processed == old(processed) && nodes == MergeNodes(old(nodes), keys)
      ensures edges == MergeEdges(old(edges), MergeNodes(old(nodes), keys), obs)
      ensures edgeRows == MatchedRows(MergeNodes(old(nodes), keys), obs)
    {
      MergeNodeRows(keys);
      edgeRows := MergeEdgeRows(obs);
    }
  }

  predicate Matches(nodes: Nodes, o: Observation) { ObsId(o).0 in nodes && ObsId(o).1 in nodes }

  /** A row is counted and merged when both its end nodes are there; otherwise it is neither. */
  lemma {:induction false} RowMatches(nodes: Nodes, edges: Edges, o: Observation)
    ensures var both := Normalized(o.a) in nodes && Normalized(o.b) in nodes;
            && Matches(nodes, o) == both
            && (both ==> ObsId(o) in MergeEdge(edges, nodes, o))
            && (!both ==> MergeEdge(edges, nodes, o) == edges)
  {}

  ghost function MatchedRows(nodes: Nodes, obs: seq<Observation>): nat {
    if obs == [] then 0 else MatchedRows(nodes, obs[..|obs| - 1]) + if Matches(nodes, obs[|obs| - 1]) then 1 else 0
  }

  lemma {:induction false} AllRowsMatch(nodes: Nodes, obs: seq<Observation>)
    requires Endpoints(Ids(obs)) <= nodes.Keys
    ensures MatchedRows(nodes, obs) == |obs|
  {
    if obs != [] {
      var front, o := obs[..|obs| - 1], obs[|obs| - 1];
      assert ObsId(o) in Ids(obs);
      assert Ids(front) <= Ids(obs);
      AllRowsMatch(nodes, front);
    }
  }

  lemma {:induction false} RowsAreOneStep(nodes: Nodes, edges: Edges, keys: seq<BlockKey>,
                                          obs: seq<Observation>, f: Flags)
    requires Observed(obs, f, Ids(obs))
    requires EndsOf(keys, obs)
    ensures MergeNodes(nodes, keys) == TouchNodes(nodes, Ids(obs))
    ensures MergeEdges(edges, MergeNodes(nodes, keys), obs) == TouchAll(edges, Ids(obs), f)
    ensures MatchedRows(MergeNodes(nodes, keys), obs) == |obs|
  {
    MergeTouchesNodes(nodes, keys, obs, f);
    assert Endpoints(Ids(obs)) <= TouchNodes(nodes, Ids(obs)).Keys;
    MergeTouchesOnce(edges, MergeNodes(nodes, keys), obs, f);
    AllRowsMatch(MergeNodes(nodes, keys), obs);
  }

  /** The node rows of a batch are as many as the endpoints of its pairs. */
  lemma {:induction false} KeysAreEndpoints(keys: seq<BlockKey>, obs: seq<Observation>, f: Flags)
    requires Distinct(keys) && Observed(obs, f, Ids(obs))
    requires EndsOf(keys, obs)
    ensures |keys| == |Endpoints(Ids(obs))|
  {
    DistinctCardinality(keys);
    forall k | k in keys ensures WellFormed(k) && Normalized(k) in Endpoints(Ids(obs)) {
      var o :| o in obs && (k == o.a || k == o.b);
      assert Made(o, f) && ObsId(o) in Ids(obs);
    }
    forall a, b | a in keys && b in keys && Normalized(a) == Normalized(b) ensures a == b {
      NormalizedInjective(a, b);
    }
    forall s | s in Endpoints(Ids(obs)) ensures exists k :: k in Elements(keys) && Normalized(k) == s {
      var o :| o in obs && (Normalized(o.a) == s || Normalized(o.b) == s);
      assert o.a in keys && o.b in keys;
    }
    ImageCardinality(Normalized, Elements(keys), Endpoints(Ids(obs)));
  }

  // ----- one row of the run -----

  /** A candidate map with what the relational store says about it when it is read. */
  datatype Row = Row(id: int, parser: string, placements: seq<Placement>, stored: Option<string>)

  /** Which transaction of a row, if any, is going to raise. */
  datatype Fault = NoFault | ClaimFails | MergeFails

  datatype Settings = Settings(snapshot: Option<string>, bench: set<int>, broken: set<int>)

  /** The job of a row; none when no snapshot can be resolved. */
  function JobOf(row: Row, c: Settings): Option<Job> {
    var snapshot := if c.snapshot.Some? then c.snapshot else row.stored;
    if snapshot.None? then None
    else Some(Job(Claim(row.id, snapshot.value, row.parser), row.placements, row.id in c.bench, row.id in c.broken))
  }

  /** The protocol steps that processing a row amounts to, by the only worker. */
  ghost function StepsOf(row: Row, c: Settings, fault: Fault): seq<Step> {
    var j := JobOf(row, c);
    if row.placements == [] || j.None? || fault == ClaimFails then []
    else RowSteps(j.value, Crashes(j.value, fault))
  }

  datatype Stats = Stats(seen: nat, processed: nat, noPlacements: nat, alreadyProcessed: nat, errors: nat,
                         observations: nat, nodes: nat, edges: nat)

  /** Every row seen ended in exactly one of the four ways. */
  predicate Balanced(s: Stats) { s.seen == s.processed + s.noPlacements + s.alreadyProcessed + s.errors }

  /** The four ways in which a row can end. */
  datatype Ending = Processed(observations: nat, nodes: nat) | NoPlacements | AlreadyProcessed | Failed

  function CountEnding(s: Stats, e: Ending): Stats {
    match e
    case Processed(n, m) =>
      s.(processed := s.processed + 1, observations := s.observations + n, nodes := s.nodes + m, edges := s.edges + n)
    case NoPlacements => s.(noPlacements := s.noPlacements + 1)
    case AlreadyProcessed => s.(alreadyProcessed := s.alreadyProcessed + 1)
    case Failed => s.(errors := s.errors + 1)
  }

  /** How a row with a job ends, by what is already claimed, what its names are and what is going to raise. */
  ghost function JobEnding(s: System, j: Job, fault: Fault): Ending {
    if j.claim in s.graph.processed then AlreadyProcessed
    else if !Merges(j, fault) then Failed
    else Processed(|Adjacencies(j.placements)|, |Endpoints(Adjacencies(j.placements))|)
  }

  ghost function RowEnding(s: System, row: Row, c: Settings, fault: Fault): Ending {
    var j := JobOf(row, c);
    if row.placements == [] then NoPlacements
    else if j.None? || fault == ClaimFails then Failed
    else JobEnding(s, j.value, fault)
  }

  /** The observations merged by a history. */
  ghost function Contributed(log: seq<Job>): nat {
    if log == [] then 0 else Contributed(log[..|log| - 1]) + |Adjacencies(log[|log| - 1].placements)|
  }

  ghost predicate Idle(s: System, store: GraphStore)
    reads store
  {
    s.graph == store.Contents() && s.held == map[]
  }

  lemma {:induction false} TwoSteps(s: System, a: Step, b: Step)
    ensures Run(s, [a, b]) == Next(Next(s, a), b) && Run(s, []) == s
  {
    assert [a, b][..1] == [a] && [a][..0] == [];
    assert Run(s, [a]) == Next(s, a);
  }

  lemma {:induction false} NothingToMerge(g: Graph, j: Job)
    requires Adjacencies(j.placements) == {}
    ensures Merged(g, j) == g && |Endpoints(Adjacencies(j.placements))| == 0
  {
    NoEndpoints();
    TouchNoNodes(g.nodes);
    TouchNoEdges(g.edges, JobFlags(j));
  }

  lemma {:induction false} NoEndpoints()
    ensures Endpoints({}) == {}
  {}

  lemma {:induction false} TouchNoNodes(nodes: Nodes)
    ensures TouchNodes(nodes, {}) == nodes
  {
    NoEndpoints();
  }

  lemma {:induction false} TouchNoEdges(edges: Edges, f: Flags)
    ensures TouchAll(edges, {}, f) == edges
  {}

  /** The state after the two steps of a row with a job: skipped, claimed only, or merged. */
  ghost function RowResult(s: System, j: Job, merges: bool): System {
    var g := s.graph.(processed := s.graph.processed + {j.claim});
    if j.claim in s.graph.processed then s
    else if !merges then System(g, map[], s.log)
    else System(Merged(g, j), map[], s.log + [j])
  }

  ghost function RowSteps(j: Job, crash: bool): seq<Step> { [ClaimMap(0, j), if crash then Crash(0) else MergeHeld(0)] }

  lemma {:induction false} RowRuns(s: System, j: Job, crash: bool)
    requires s.held == map[] && j.placements != []
    ensures Run(s, RowSteps(j, crash)) == RowResult(s, j, Extractable(j.placements) && !crash)
  {
    var a, b := ClaimMap(0, j), if crash then Crash(0) else MergeHeld(0);
    TwoSteps(s, a, b);
    assert s.held - {0} == s.held;
    if j.claim !in s.graph.processed {
      assert Next(s, a).held == map[0 := j];
      assert Next(s, a).held - {0} == map[];
    }
  }

  ghost predicate Crashes(j: Job, fault: Fault) { fault == MergeFails && Adjacencies(j.placements) != {} }

  /** A won claim leads to a merge unless the extraction or the merge transaction raises. */
  ghost predicate Merges(j: Job, fault: Fault) { Extractable(j.placements) && !Crashes(j, fault) }

  lemma {:induction false} JobRuns(s: System, j: Job, fault: Fault)
    requires s.held == map[] && j.placements != []
    ensures Run(s, RowSteps(j, Crashes(j, fault))) == RowResult(s, j, Merges(j, fault))
  {
    RowRuns(s, j, Crashes(j, fault));
  }

  /** The control flow of one row: each row is the corresponding protocol steps, and is accounted for once. */
  method ProcessOne(store: GraphStore, row: Row, c: Settings, fault: Fault, before: Stats, ghost s: System)
    returns (stats: Stats, ghost t: System)
    requires Idle(s, store)
    modifies store
    ensures t == Run(s, StepsOf(row, c, fault)) && Idle(t, store)
    ensures stats == CountEnding(before, RowEnding(s, row, c, fault))
  {
    t := s;
    if row.placements == [] {
      return before.(noPlacements := before.noPlacements + 1), t;
    }
    var job := JobOf(row, c);
    if job.None? || fault == ClaimFails {
      return before.(errors := before.errors + 1), t;
    }
    var ending;
    ending, t := ProcessJob(store, job.value, fault, s);
    stats := CountEnding(before, ending);
  }

  /** The two transactions of a row whose job is known. */
  method ProcessJob(store: GraphStore, j: Job, fault: Fault, ghost s: System) returns (ending: Ending, ghost t: System)
    requires Idle(s, store) && j.placements != []
    modifies store
    ensures t == Run(s, RowSteps(j, Crashes(j, fault))) && Idle(t, store)
    ensures ending == JobEnding(s, j, fault)
  {
    JobRuns(s, j, fault);
    t := RowResult(s, j, Merges(j, fault));
    var wasNew := store.ClaimMap(j.claim);
    if wasNew {
      var outcome := MergeClaimed(store, j, fault);
      ending := if outcome.None? then Failed else Processed(outcome.value.0, outcome.value.1);
    } else {
      assert s.graph.processed + {j.claim} == s.graph.processed;
      ending := AlreadyProcessed;
    }
  }

  /** Extract and merge after a won claim; nothing is merged when the extraction or the transaction raises. */
  method MergeClaimed(store: GraphStore, j: Job, fault: Fault) returns (outcome: Option<(nat, nat)>)
    modifies store
    ensures outcome.Some? <==> Merges(j, fault)
    ensures outcome.None? ==> store.Contents() == old(store.Contents())
    ensures outcome.Some? ==>
              outcome.value == (|Adjacencies(j.placements)|, |Endpoints(Adjacencies(j.placements))|)
    ensures outcome.Some? ==> store.Contents() == Merged(old(store.Contents()), j)
  {
    var result := ExtractAdjacencies(j.placements, JobFlags(j));
    if result.None? {
      return None;
    }
    var obs := result.value;
    EmptyBatch(obs);
    if obs == [] {
      NothingToMerge(store.Contents(), j);
      outcome := Some((0, 0));
    } else if fault == MergeFails {
      outcome := None;
    } else {
      var nodeRows, edgeRows := MergeObservations(store, obs, JobFlags(j));
      outcome := Some((edgeRows, nodeRows));
    }
  }

  lemma {:induction false} EmptyBatch(obs: seq<Observation>)
    ensures obs == [] <==> Ids(obs) == {}
  {
    if obs != [] {
      assert ObsId(obs[0]) in Ids(obs);
    }
  }

  /** The node set of an extraction, and then its merge. */
  method MergeObservations(store: GraphStore, obs: seq<Observation>, ghost f: Flags)
    returns (nodeRows: nat, edgeRows: nat)
    requires Observed(obs, f, Ids(obs))
    modifies store
    ensures store.Contents() == Graph(old(store.processed), TouchNodes(old(store.nodes), Ids(obs)),
                                      TouchAll(old(store.edges), Ids(obs), f))
    ensures nodeRows == |Endpoints(Ids(obs))| && edgeRows == |Ids(obs)|
  {
    DistinctIds(obs, f);
    var keys := UniqueBlockKeys(obs);
    KeysAreEndpoints(keys, obs, f);
    nodeRows, edgeRows := store.MergeGraph(keys, obs, f);
  }

  /** An extraction has as many observations as adjacencies. */
  lemma {:induction false} DistinctIds(obs: seq<Observation>, f: Flags)
    requires Observed(obs, f, Ids(obs))
    ensures |Ids(obs)| == |obs|
    ensures forall o :: o in obs ==> WellFormed(o.a) && WellFormed(o.b)
  {
    if obs != [] {
      ObservedFront(obs, f);
      DistinctIds(obs[..|obs| - 1], f);
    }
    forall o | o in obs ensures WellFormed(o.a) && WellFormed(o.b) {
      var i :| 0 <= i < |obs| && obs[i] == o;
      assert Made(obs[i], f);
    }
  }

  // ----- the whole run -----

  ghost function AllSteps(rows: seq<Row>, c: Settings, faults: seq<Fault>): seq<Step>
    requires |faults| == |rows|
  {
    if rows == [] then []
    else AllSteps(rows[..|rows| - 1], c, faults[..|rows| - 1]) + StepsOf(rows[|rows| - 1], c, faults[|rows| - 1])
  }

  const NoStats := Stats(0, 0, 0, 0, 0, 0, 0, 0)

  function SeeRow(stats: Stats, e: Ending): Stats { CountEnding(stats.(seen := stats.seen + 1), e) }

  /** The statistics of a run: each row is seen, and counted by how it ends after the rows before it. */
  ghost function StatsOf(s: System, rows: seq<Row>, c: Settings, faults: seq<Fault>): Stats
    requires |faults| == |rows|
  {
    if rows == [] then NoStats
    else
      var n := |rows| - 1;
      var before := Run(s, AllSteps(rows[..n], c, faults[..n]));
      SeeRow(StatsOf(s, rows[..n], c, faults[..n]), RowEnding(before, rows[n], c, faults[n]))
  }

  /**
   The run over all rows is one run of the protocol, every row is accounted for, and each processed row is
   one merged claim.
   */
  method RunPipeline(store: GraphStore, rows: seq<Row>, c: Settings, faults: seq<Fault>, ghost s: System)
    returns (stats: Stats, ghost t: System)
    requires |faults| == |rows| && Idle(s, store)
    modifies store
    ensures t == Run(s, AllSteps(rows, c, faults)) && Idle(t, store)
    ensures Accounted(s, t, stats, |rows|)
    ensures stats == StatsOf(s, rows, c, faults)
  {
    stats, t := NoStats, s;
    ghost var done: seq<Step> := [];
    for i := 0 to |rows|
      invariant done == AllSteps(rows[..i], c, faults[..i])
      invariant t == Run(s, done) && Idle(t, store)
      invariant stats == StatsOf(s, rows[..i], c, faults[..i])
    {
      ghost var more := StepsOf(rows[i], c, faults[i]);
      StepsMore(rows, c, faults, i);
      RunAppend(s, done, more);
      stats, t := ProcessOne(store, rows[i], c, faults[i], stats.(seen := stats.seen + 1), t);
      done := done + more;
    }
    AllRows(rows, c, faults);
    StatsMean(s, rows, c, faults);
  }

  /**
   After `n` rows: the statistics balance, the processed rows are the merged claims, and the observations are
   theirs.
   */
  ghost predicate Accounted(s: System, t: System, stats: Stats, n: nat) {
    && t.held == map[] && Balanced(stats) && stats.seen == n && stats.edges == stats.observations
    && stats.processed == |t.log| - |s.log|
    && Contributed(t.log) == Contributed(s.log) + stats.observations
  }

  lemma {:induction false} RowAccounted(s: System, t: System, stats: Stats, n: nat, row: Row, c: Settings, fault: Fault)
    requires Accounted(s, t, stats, n)
    ensures Accounted(s, Run(t, StepsOf(row, c, fault)), SeeRow(stats, RowEnding(t, row, c, fault)), n + 1)
  {
    RowLogs(t, row, c, fault);
    RowClaims(t, row, c, fault);
  }

  lemma {:induction false} StatsMean(s: System, rows: seq<Row>, c: Settings, faults: seq<Fault>)
    requires |faults| == |rows| && s.held == map[]
    ensures Accounted(s, Run(s, AllSteps(rows, c, faults)), StatsOf(s, rows, c, faults), |rows|)
  {
    if rows != [] {
      var n := |rows| - 1;
      var done := AllSteps(rows[..n], c, faults[..n]);
      StatsMean(s, rows[..n], c, faults[..n]);
      RunAppend(s, done, StepsOf(rows[n], c, faults[n]));
      RowAccounted(s, Run(s, done), StatsOf(s, rows[..n], c, faults[..n]), n, rows[n], c, faults[n]);
    }
  }

  /** Exactly the processed rows add to the history, and each adds its own observations. */
  lemma {:induction false} RowLogs(s: System, row: Row, c: Settings, fault: Fault)
    requires s.held == map[]
    ensures var t, e := Run(s, StepsOf(row, c, fault)), RowEnding(s, row, c, fault);
            && |t.log| == |s.log| + (if e.Processed? then 1 else 0)
            && Contributed(t.log) == Contributed(s.log) + (if e.Processed? then e.observations else 0)
  {
    var j := JobOf(row, c);
    if !(row.placements == [] || j.None? || fault == ClaimFails) {
      JobRuns(s, j.value, fault);
      assert (s.log + [j.value])[..|s.log|] == s.log;
    }
  }

  lemma {:induction false} AllRows(rows: seq<Row>, c: Settings, faults: seq<Fault>)
    requires |faults| == |rows|
    ensures AllSteps(rows[..|rows|], c, faults[..|rows|]) == AllSteps(rows, c, faults)
    ensures forall s :: StatsOf(s, rows[..|rows|], c, faults[..|rows|]) == StatsOf(s, rows, c, faults)
  {
    assert rows[..|rows|] == rows && faults[..|rows|] == faults;
  }

  lemma {:induction false} StepsMore(rows: seq<Row>, c: Settings, faults: seq<Fault>, i: nat)
    requires |faults| == |rows| && i < |rows|
    ensures AllSteps(rows[..i + 1], c, faults[..i + 1])
         == AllSteps(rows[..i], c, faults[..i]) + StepsOf(rows[i], c, faults[i])
    ensures forall s :: StatsOf(s, rows[..i + 1], c, faults[..i + 1])
                     == SeeRow(StatsOf(s, rows[..i], c, faults[..i]),
                               RowEnding(Run(s, AllSteps(rows[..i], c, faults[..i])), rows[i], c, faults[i]))
  {
    assert rows[..i + 1][..i] == rows[..i] && faults[..i + 1][..i] == faults[..i];
  }

  // ----- running again -----

  /** The claim that processing a row asks for, if its claim transaction goes through. */
  ghost function AsksFor(row: Row, c: Settings, fault: Fault): set<Claim> {
    var j := JobOf(row, c);
    if row.placements == [] || j.None? || fault == ClaimFails then {} else {j.value.claim}
  }

  ghost function AllAskedFor(rows: seq<Row>, c: Settings, faults: seq<Fault>): set<Claim>
    requires |faults| == |rows|
  {
    if rows == [] then {}
    else AllAskedFor(rows[..|rows| - 1], c, faults[..|rows| - 1]) + AsksFor(rows[|rows| - 1], c, faults[|rows| - 1])
  }

  /** A row adds the claim it asks for, and changes nothing if that claim is already taken. */
  lemma {:induction false} RowClaims(s: System, row: Row, c: Settings, fault: Fault)
    requires s.held == map[]
    ensures var t := Run(s, StepsOf(row, c, fault));
            && t.held == map[] && t.graph.processed == s.graph.processed + AsksFor(row, c, fault)
            && (AsksFor(row, c, fault) <= s.graph.processed ==> t == s)
  {
    var j := JobOf(row, c);
    if !(row.placements == [] || j.None? || fault == ClaimFails) {
      JobRuns(s, j.value, fault);
    }
  }

  lemma {:induction false} RunClaims(s: System, rows: seq<Row>, c: Settings, faults: seq<Fault>)
    requires |faults| == |rows| && s.held == map[]
    ensures var t := Run(s, AllSteps(rows, c, faults));
            && t.held == map[] && t.graph.processed == s.graph.processed + AllAskedFor(rows, c, faults)
            && (AllAskedFor(rows, c, faults) <= s.graph.processed ==> t == s)
  {
    if rows != [] {
      var n := |rows| - 1;
      RunClaims(s, rows[..n], c, faults[..n]);
      var m := Run(s, AllSteps(rows[..n], c, faults[..n]));
      RunAppend(s, AllSteps(rows[..n], c, faults[..n]), StepsOf(rows[n], c, faults[n]));
      RowClaims(m, rows[n], c, faults[n]);
    }
  }

  /**
   Running the pipeline a second time over the same rows changes nothing if and only if every claim the second
   run asks for was there before, or was asked for in the first run. So whatever fails in a merge, a row is
   processed again only if its claim transaction failed the first time and no other row made that claim.
   */
  lemma {:induction false} RerunChangesNothing(s: System, rows: seq<Row>, c: Settings, first: seq<Fault>,
                                               second: seq<Fault>)
    requires |first| == |second| == |rows| && s.held == map[]
    ensures var t := Run(s, AllSteps(rows, c, first));
            Run(t, AllSteps(rows, c, second)) == t <==>
            AllAskedFor(rows, c, second) <= s.graph.processed + AllAskedFor(rows, c, first)
  {
    var t := Run(s, AllSteps(rows, c, first));
    RunClaims(s, rows, c, first);
    RunClaims(t, rows, c, second);
  }

  /**
   In particular when no claim transaction failed the first time, whatever else did and whatever fails the
   second time.
   */
  lemma {:induction false} ClaimsThroughSuffice(rows: seq<Row>, c: Settings, first: seq<Fault>, second: seq<Fault>)
    requires |first| == |second| == |rows| && ClaimFails !in first
    ensures AllAskedFor(rows, c, second) <= AllAskedFor(rows, c, first)
  {
    if rows != [] {
      var n := |rows| - 1;
      assert first[n] in first;
      ClaimsThroughSuffice(rows[..n], c, first[..n], second[..n]);
    }
  }
}
