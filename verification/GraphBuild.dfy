/**
 The constraint-graph builder: a claim transaction marks a map as processed, a later merge transaction
 adds its adjacencies to the graph, and a worker may die in between.
 */
module GraphBuild {
  import opened Collections
  import opened BlockKeys
  import opened Adjacency

  // ----- evidence and labels -----

  datatype Label = Unknown | Suspicious | Valid

  /** The policy; it raises on a negative count. How often an edge was observed does not matter. */
  function DeriveLabel(bench: int, broken: int, replay: int, observed: int): Option<Label> {
    if bench < 0 || broken < 0 || replay < 0 then None
    else if bench >= 1 then Some(Valid)
    else if broken > 0 && bench == 0 && replay == 0 then Some(Suspicious)
    else Some(Unknown)
  }

  /** The label expression inside the merge query. */
  function StoredLabel(bench: int, broken: int, replay: int): Label {
    if bench >= 1 then Valid
    else if broken > 0 && bench == 0 && replay == 0 then Suspicious
    else Unknown
  }

  datatype Edge = Edge(observed: int, bench: int, broken: int, replay: int, validity: Label, first: string,
                       last: string)

  type Edges = map<PairId, Edge>
  type Nodes = map<string, BlockKey>

  function One(b: bool): int { if b then 1 else 0 }

  /** The properties set on creation, or on a match, followed by the label. */
  function Touch(edge: Option<Edge>, f: Flags): Edge {
    match edge
    case None =>
      var bench, broken := One(f.bench), One(f.broken);
      Edge(1, bench, broken, 0, StoredLabel(bench, broken, 0), f.snapshot, f.snapshot)
    case Some(e) =>
      var bench, broken := e.bench + One(f.bench), e.broken + One(f.broken);
      Edge(e.observed + 1, bench, broken, e.replay, StoredLabel(bench, broken, e.replay), e.first, f.snapshot)
  }

  function Lookup(edges: Edges, id: PairId): Option<Edge> { if id in edges then Some(edges[id]) else None }

  // ----- the merge transaction, row by row -----

  function MergeNode(nodes: Nodes, k: BlockKey): Nodes {
    if Normalized(k) in nodes then nodes else nodes[Normalized(k) := k]
  }

  function MergeNodes(nodes: Nodes, keys: seq<BlockKey>): Nodes {
    if keys == [] then nodes else MergeNode(MergeNodes(nodes, keys[..|keys| - 1]), keys[|keys| - 1])
  }

  function ObsId(o: Observation): PairId { IdOf((o.a, o.b)) }

  function ObsFlags(o: Observation): Flags { Flags(o.snapshot, o.bench, o.broken) }

  /** A row whose end nodes are not in the graph matches nothing. */
  function MergeEdge(edges: Edges, nodes: Nodes, o: Observation): Edges {
    var id := ObsId(o);
    if id.0 in nodes && id.1 in nodes then edges[id := Touch(Lookup(edges, id), ObsFlags(o))] else edges
  }

  function MergeEdges(edges: Edges, nodes: Nodes, obs: seq<Observation>): Edges {
    if obs == [] then edges else MergeEdge(MergeEdges(edges, nodes, obs[..|obs| - 1]), nodes, obs[|obs| - 1])
  }

  // ----- the merge transaction as one step -----

  ghost function TouchAll(edges: Edges, ids: set<PairId>, f: Flags): Edges {
    map id | id in edges.Keys + ids :: if id in ids then Touch(Lookup(edges, id), f) else edges[id]
  }

  function Endpoints(ids: set<PairId>): set<string> { (set id | id in ids :: id.0) + (set id | id in ids :: id.1) }

  function Parsed(s: string): BlockKey {
    var k := FromNormalized(s);
    if k.Some? then k.value else BlockKey("", "", "")
  }

  ghost function TouchNodes(nodes: Nodes, ids: set<PairId>): Nodes {
    map s | s in nodes.Keys + Endpoints(ids) :: if s in nodes then nodes[s] else Parsed(s)
  }

  /** Because an extraction lists no pair twice, its rows touch every edge of the extraction exactly once. */
  lemma {:induction false} MergeTouchesOnce(edges: Edges, nodes: Nodes, obs: seq<Observation>, f: Flags)
    requires Observed(obs, f, Ids(obs)) && Endpoints(Ids(obs)) <= nodes.Keys
    ensures MergeEdges(edges, nodes, obs) == TouchAll(edges, Ids(obs), f)
  {
    if obs != [] {
      var n := |obs| - 1;
      ObservedFront(obs, f);
      MergeTouchesOnce(edges, nodes, obs[..n], f);
      TouchOneMore(edges, Ids(obs[..n]), ObsId(obs[n]), f);
      assert ObsId(obs[n]) in Ids(obs);
    }
  }

  lemma {:induction false} ObservedFront(obs: seq<Observation>, f: Flags)
    requires Observed(obs, f, Ids(obs)) && obs != []
    ensures var rest, o := obs[..|obs| - 1], obs[|obs| - 1];
            && Observed(rest, f, Ids(rest)) && Ids(obs) == Ids(rest) + {ObsId(o)}
            && ObsId(o) !in Ids(rest) && ObsFlags(o) == f
  {
    var rest, o := obs[..|obs| - 1], obs[|obs| - 1];
    assert obs == rest + [o];
    assert Made(o, f);
    forall e | e in rest ensures ObsId(e) != ObsId(o) {
      var i :| 0 <= i < |rest| && rest[i] == e;
      assert obs[i] == e;
    }
  }

  lemma {:induction false} TouchOneMore(edges: Edges, ids: set<PairId>, id: PairId, f: Flags)
    requires id !in ids
    ensures var t := TouchAll(edges, ids, f); TouchAll(edges, ids + {id}, f) == t[id := Touch(Lookup(t, id), f)]
  {
    assert Lookup(TouchAll(edges, ids, f), id) == Lookup(edges, id);
  }

  lemma {:induction false} MergeNodesAre(nodes: Nodes, keys: seq<BlockKey>)
    requires forall k :: k in keys ==> WellFormed(k)
    ensures var m := MergeNodes(nodes, keys);
            && (forall s :: s in m <==> s in nodes || exists k :: k in keys && Normalized(k) == s)
            && (forall s :: s in m ==> m[s] == if s in nodes then nodes[s] else Parsed(s))
  {
    if keys != [] {
      var n := |keys| - 1;
      assert keys == keys[..n] + [keys[n]];
      MergeNodesAre(nodes, keys[..n]);
      assert keys[n] in keys;
      KeyRoundTrip(keys[n]);
    }
  }

  /** The nodes after a merge: the old ones and the endpoints of the extraction. */
  lemma {:induction false} MergeTouchesNodes(nodes: Nodes, keys: seq<BlockKey>, obs: seq<Observation>, f: Flags)
    requires Observed(obs, f, Ids(obs))
    requires EndsOf(keys, obs)
    ensures MergeNodes(nodes, keys) == TouchNodes(nodes, Ids(obs))
  {
    forall k | k in keys ensures WellFormed(k) {
      var o :| o in obs && (k == o.a || k == o.b);
      assert Made(o, f);
    }
    MergeNodesAre(nodes, keys);
    forall s ensures s in Endpoints(Ids(obs)) <==> exists k :: k in keys && Normalized(k) == s {
      if s in Endpoints(Ids(obs)) {
        var o :| o in obs && (Normalized(o.a) == s || Normalized(o.b) == s);
        assert o.a in keys && o.b in keys;
      }
      if k :| k in keys && Normalized(k) == s {
        var o :| o in obs && (k == o.a || k == o.b);
        assert ObsId(o) in Ids(obs);
      }
    }
  }

  // ----- the protocol -----

  datatype Claim = Claim(mapId: int, snapshot: string, parser: string)

  /** What one worker is about to contribute. */
  datatype Job = Job(claim: Claim, placements: seq<Placement>, bench: bool, broken: bool)

  function JobFlags(j: Job): Flags { Flags(j.claim.snapshot, j.bench, j.broken) }

  datatype Graph = Graph(processed: set<Claim>, nodes: Nodes, edges: Edges)

  /** The graph, the jobs claimed but not merged, by worker, and the history of merged jobs. */
  datatype System = System(graph: Graph, held: map<nat, Job>, log: seq<Job>)

  datatype Step = ClaimMap(worker: nat, job: Job) | MergeHeld(worker: nat) | Crash(worker: nat)

  const Start := System(Graph({}, map[], map[]), map[], [])

  /** One atomic step. A worker that has no placements, is busy, or loses the claim does nothing. */
  ghost function Next(s: System, step: Step): System {
    match step
    case ClaimMap(w, j) =>
      if j.placements == [] || w in s.held || j.claim in s.graph.processed then s
      else s.(graph := s.graph.(processed := s.graph.processed + {j.claim}), held := s.held[w := j])
    case MergeHeld(w) =>
      if w !in s.held then s
      else if !Extractable(s.held[w].placements) then s.(held := s.held - {w})
      else
        System(Merged(s.graph, s.held[w]), s.held - {w}, s.log + [s.held[w]])
    case Crash(w) => s.(held := s.held - {w})
  }

  /** The merge transaction of a job. */
  ghost function Merged(g: Graph, j: Job): Graph {
    var ids := Adjacencies(j.placements);
    g.(nodes := TouchNodes(g.nodes, ids), edges := TouchAll(g.edges, ids, JobFlags(j)))
  }

  ghost function Run(s: System, steps: seq<Step>): System {
    if steps == [] then s else Next(Run(s, steps[..|steps| - 1]), steps[|steps| - 1])
  }

  lemma {:induction false} RunAppend(s: System, a: seq<Step>, b: seq<Step>)
    ensures Run(s, a + b) == Run(Run(s, a), b)
  {
    if b == [] {
      assert a + b == a;
    } else {
      var n := |b| - 1;
      assert (a + b)[..|a| + n] == a + b[..n];
      RunAppend(s, a, b[..n]);
    }
  }

  // ----- what every run keeps -----

  /** The merged claims whose job satisfies `p`. */
  ghost function Claims(log: seq<Job>, p: Job -> bool): set<Claim> { set j | j in log && p(j) :: j.claim }

  ghost function Count(log: seq<Job>, p: Job -> bool): nat { |Claims(log, p)| }

  ghost function Shows(id: PairId): Job -> bool { (j: Job) => id in Adjacencies(j.placements) }
  ghost function ShowsBench(id: PairId): Job -> bool { (j: Job) => j.bench && id in Adjacencies(j.placements) }
  ghost function ShowsBroken(id: PairId): Job -> bool { (j: Job) => j.broken && id in Adjacencies(j.placements) }
  ghost function Any(): Job -> bool { (j: Job) => true }

  ghost predicate ClaimedOnce(log: seq<Job>) {
    forall i, j :: 0 <= i < j < |log| ==> log[i].claim != log[j].claim
  }

  ghost function FirstShown(log: seq<Job>, id: PairId): Option<string> {
    if log == [] then None
    else if Shows(id)(log[0]) then Some(log[0].claim.snapshot)
    else FirstShown(log[1..], id)
  }

  ghost function LastShown(log: seq<Job>, id: PairId): Option<string> {
    if log == [] then None
    else if Shows(id)(log[|log| - 1]) then Some(log[|log| - 1].claim.snapshot)
    else LastShown(log[..|log| - 1], id)
  }

  /** What a history says about one edge. */
  datatype Tally = Tally(observed: nat, bench: nat, broken: nat, first: Option<string>, last: Option<string>)

  ghost function TallyOf(log: seq<Job>, id: PairId): Tally {
    Tally(Count(log, Shows(id)), Count(log, ShowsBench(id)), Count(log, ShowsBroken(id)),
          FirstShown(log, id), LastShown(log, id))
  }

  /** The stored edge says what the merged claims say, and its label is the derived one. */
  ghost predicate Says(edge: Option<Edge>, t: Tally) {
    match edge
    case None => t == Tally(0, 0, 0, None, None)
    case Some(e) =>
      && t == Tally(t.observed, t.bench, t.broken, Some(e.first), Some(e.last))
      && e.observed == t.observed > 0 && e.bench == t.bench && e.broken == t.broken && e.replay == 0
      && Some(e.validity) == DeriveLabel(e.bench, e.broken, e.replay, e.observed)
  }

  ghost predicate ClaimsKept(s: System) {
    && ClaimedOnce(s.log)
    && (forall j :: j in s.log ==> j.claim in s.graph.processed)
    && (forall w :: w in s.held ==> s.held[w].claim in s.graph.processed && s.held[w].claim !in Claims(s.log, Any()))
    && (forall v, w :: v in s.held && w in s.held && s.held[v].claim == s.held[w].claim ==> v == w)
  }

  ghost predicate NodesKept(g: Graph) {
    && g.nodes.Keys == Endpoints(g.edges.Keys)
    && forall s :: s in g.nodes ==> WellFormed(g.nodes[s]) && Normalized(g.nodes[s]) == s
  }

  ghost predicate Inv(s: System) {
    && ClaimsKept(s)
    && (forall id :: Says(Lookup(s.graph.edges, id), TallyOf(s.log, id)))
    && NodesKept(s.graph)
  }

  lemma {:induction false} ClaimsMore(log: seq<Job>, j: Job, p: Job -> bool)
    requires j.claim !in Claims(log, Any())
    ensures j.claim !in Claims(log, p)
    ensures Claims(log + [j], p) == Claims(log, p) + if p(j) then {j.claim} else {}
  {
    forall c | c in Claims(log, p) ensures c in Claims(log, Any()) {}
  }

  lemma {:induction false} CountMore(log: seq<Job>, j: Job, p: Job -> bool)
    requires j.claim !in Claims(log, Any())
    ensures Count(log + [j], p) == Count(log, p) + One(p(j))
  {
    ClaimsMore(log, j, p);
  }

  lemma {:induction false} FirstShownMore(log: seq<Job>, j: Job, id: PairId)
    ensures FirstShown(log + [j], id)
         == if FirstShown(log, id).Some? then FirstShown(log, id)
            else if Shows(id)(j) then Some(j.claim.snapshot) else None
  {
    if log == [] {
      assert log + [j] == [j];
      assert [j][1..] == [];
    } else {
      assert (log + [j])[1..] == log[1..] + [j];
      FirstShownMore(log[1..], j, id);
    }
  }

  /** One more job adds to exactly the counts it should. */
  lemma {:induction false} TallyMore(log: seq<Job>, j: Job, id: PairId)
    requires j.claim !in Claims(log, Any())
    ensures TallyOf(log + [j], id) ==
            if id in Adjacencies(j.placements) then Bump(TallyOf(log, id), JobFlags(j)) else TallyOf(log, id)
  {
    CountsMore(log, j, id);
    ShownMore(log, j, id);
  }

  lemma {:induction false} CountsMore(log: seq<Job>, j: Job, id: PairId)
    requires j.claim !in Claims(log, Any())
    ensures var here := id in Adjacencies(j.placements);
            && Count(log + [j], Shows(id)) == Count(log, Shows(id)) + One(here)
            && Count(log + [j], ShowsBench(id)) == Count(log, ShowsBench(id)) + One(j.bench && here)
            && Count(log + [j], ShowsBroken(id)) == Count(log, ShowsBroken(id)) + One(j.broken && here)
  {
    CountMore(log, j, Shows(id));
    CountMore(log, j, ShowsBench(id));
    CountMore(log, j, ShowsBroken(id));
  }

  lemma {:induction false} ShownMore(log: seq<Job>, j: Job, id: PairId)
    ensures var here := id in Adjacencies(j.placements);
            && FirstShown(log + [j], id)
               == (if FirstShown(log, id).None? && here then Some(j.claim.snapshot) else FirstShown(log, id))
            && LastShown(log + [j], id) == (if here then Some(j.claim.snapshot) else LastShown(log, id))
  {
    FirstShownMore(log, j, id);
    assert (log + [j])[..|log|] == log;
    assert Shows(id)(j) == (id in Adjacencies(j.placements));
  }

  ghost function Bump(t: Tally, f: Flags): Tally {
    Tally(t.observed + 1, t.bench + One(f.bench), t.broken + One(f.broken),
          if t.first.Some? then t.first else Some(f.snapshot), Some(f.snapshot))
  }

  lemma {:induction false} TouchSays(edge: Option<Edge>, t: Tally, f: Flags)
    requires Says(edge, t)
    ensures Says(Some(Touch(edge, f)), Bump(t, f))
  {}

  /** One merge keeps every edge faithful to the history. */
  lemma {:induction false} MergeSays(edges: Edges, log: seq<Job>, j: Job, id: PairId)
    requires Says(Lookup(edges, id), TallyOf(log, id)) && j.claim !in Claims(log, Any())
    ensures Says(Lookup(TouchAll(edges, Adjacencies(j.placements), JobFlags(j)), id), TallyOf(log + [j], id))
  {
    TallyMore(log, j, id);
    TouchSays(Lookup(edges, id), TallyOf(log, id), JobFlags(j));
  }

  lemma {:induction false} NodesMerge(g: Graph, ps: seq<Placement>, f: Flags)
    requires NodesKept(g) && Extractable(ps)
    ensures NodesKept(g.(nodes := TouchNodes(g.nodes, Adjacencies(ps)), edges := TouchAll(g.edges, Adjacencies(ps), f)))
  {
    var ids := Adjacencies(ps);
    var nodes, edges := TouchNodes(g.nodes, ids), TouchAll(g.edges, ids, f);
    assert nodes.Keys == Endpoints(edges.Keys) by {
      assert edges.Keys == g.edges.Keys + ids;
      EndpointsUnion(g.edges.Keys, ids);
    }
    forall s | s in nodes ensures WellFormed(nodes[s]) && Normalized(nodes[s]) == s {
      if s !in g.nodes {
        EndpointReads(ps, s);
      }
    }
  }

  lemma {:induction false} EndpointsUnion(a: set<PairId>, b: set<PairId>)
    ensures Endpoints(a + b) == Endpoints(a) + Endpoints(b)
  {}

  lemma {:induction false} EndpointReads(ps: seq<Placement>, s: string)
    requires Extractable(ps) && s in Endpoints(Adjacencies(ps))
    ensures WellFormed(Parsed(s)) && Normalized(Parsed(s)) == s
  {
    var id :| id in Adjacencies(ps) && (id.0 == s || id.1 == s);
    var c, k: Rotation.Direction :| c in CellsOf(ps) && PairAt(ps, c, k) == Some(id);
    var a, b := FirstAt(ps, c).value, FirstAt(ps, Rotation.Add(c, Rotation.DirectionDelta(k))).value;
    FirstAtWellFormed(ps, c);
    FirstAtWellFormed(ps, Rotation.Add(c, Rotation.DirectionDelta(k)));
    KeyRoundTrip(a);
    KeyRoundTrip(b);
  }

  lemma {:induction false} ClaimsMerge(s: System, w: nat)
    requires ClaimsKept(s) && w in s.held
    ensures ClaimsKept(System(s.graph, s.held - {w}, s.log + [s.held[w]]))
  {
    var j := s.held[w];
    var log, held := s.log + [j], s.held - {w};
    forall i | 0 <= i < |s.log| ensures s.log[i].claim != j.claim {
      assert s.log[i] in s.log && Any()(s.log[i]);
    }
    forall v | v in held ensures held[v].claim !in Claims(log, Any()) {
      ClaimsMore(s.log, j, Any());
    }
  }

  /** Every step keeps the invariant. */
  lemma {:induction false} StepKeeps(s: System, step: Step)
    requires Inv(s)
    ensures Inv(Next(s, step))
  {
    match step
    case ClaimMap(w, j) =>
      assert j.claim in Claims(s.log, Any()) ==> j.claim in s.graph.processed;
    case MergeHeld(w) =>
      if w in s.held && Extractable(s.held[w].placements) {
        var j := s.held[w];
        ClaimsMerge(s, w);
        NodesMerge(s.graph, j.placements, JobFlags(j));
        var edges := TouchAll(s.graph.edges, Adjacencies(j.placements), JobFlags(j));
        forall id ensures Says(Lookup(edges, id), TallyOf(s.log + [j], id)) {
          MergeSays(s.graph.edges, s.log, j, id);
        }
      }
    case Crash(w) =>
  }

  lemma {:induction false} StartKeeps()
    ensures Inv(Start)
  {
    forall id ensures Says(None, TallyOf([], id)) {
      assert Claims([], Shows(id)) == Claims([], ShowsBench(id)) == Claims([], ShowsBroken(id)) == {};
    }
  }

  /** Every interleaving of claims, merges and crashes keeps the invariant. */
  lemma {:induction false} RunKeeps(s: System, steps: seq<Step>)
    requires Inv(s)
    ensures Inv(Run(s, steps))
  {
    if steps != [] {
      var n := |steps| - 1;
      RunKeeps(s, steps[..n]);
      StepKeeps(Run(s, steps[..n]), steps[n]);
    }
  }

  // ----- what it means for the graph -----

  /**
   After any interleaving from the empty graph: an edge is stored iff some merged claim shows it, its
   observed count is the number of such claims, the other two counts are those of the flagged ones and
   never exceed it, no claim was merged twice, and the label is the derived one.
   */
  lemma {:induction false} EveryInterleaving(steps: seq<Step>, id: PairId)
    ensures var s := Run(Start, steps);
            && ClaimedOnce(s.log)
            && (id in s.graph.edges <==> Claims(s.log, Shows(id)) != {})
            && (id in s.graph.edges ==>
                  var e := s.graph.edges[id];
                  && e.observed == |Claims(s.log, Shows(id))|
                  && e.bench == |Claims(s.log, ShowsBench(id))| <= e.observed
                  && e.broken == |Claims(s.log, ShowsBroken(id))| <= e.observed
                  && Some(e.validity) == DeriveLabel(e.bench, e.broken, e.replay, e.observed)
                  && id.0 in s.graph.nodes && id.1 in s.graph.nodes)
  {
    var s := Run(Start, steps);
    StartKeeps();
    RunKeeps(Start, steps);
    assert Says(Lookup(s.graph.edges, id), TallyOf(s.log, id));
    FlaggedWithin(s.log, id);
    if id in s.graph.edges {
      assert id.0 in Endpoints(s.graph.edges.Keys) && id.1 in Endpoints(s.graph.edges.Keys);
    }
  }

  lemma {:induction false} FlaggedWithin(log: seq<Job>, id: PairId)
    ensures Count(log, ShowsBench(id)) <= Count(log, Shows(id)) && Count(log, ShowsBroken(id)) <= Count(log, Shows(id))
  {
    SubsetCardinality(Claims(log, ShowsBench(id)), Claims(log, Shows(id)));
    SubsetCardinality(Claims(log, ShowsBroken(id)), Claims(log, Shows(id)));
  }

  /** A label moves from unknown to suspicious to valid, and never back. */
  ghost predicate Rises(from: Label, to: Label) {
    from == Unknown || to == Valid || (from == Suspicious && to == Suspicious)
  }

  ghost predicate Risen(before: Edges, after: Edges, id: PairId) {
    id in before ==> id in after && Rises(before[id].validity, after[id].validity)
                                 && before[id].observed <= after[id].observed
  }

  lemma {:induction false} TouchRises(e: Edge, t: Tally, f: Flags)
    requires Says(Some(e), t)
    ensures Rises(e.validity, Touch(Some(e), f).validity) && e.observed <= Touch(Some(e), f).observed
  {}

  lemma {:induction false} TouchAllRises(edges: Edges, ids: set<PairId>, f: Flags, t: Tally, id: PairId)
    requires Says(Lookup(edges, id), t)
    ensures Risen(edges, TouchAll(edges, ids, f), id)
  {
    if id in edges && id in ids {
      TouchRises(edges[id], t, f);
    }
  }

  lemma {:induction false} StepRises(s: System, step: Step, id: PairId)
    requires Inv(s)
    ensures Risen(s.graph.edges, Next(s, step).graph.edges, id)
  {
    assert Says(Lookup(s.graph.edges, id), TallyOf(s.log, id));
    if step.MergeHeld? && step.worker in s.held {
      var j := s.held[step.worker];
      TouchAllRises(s.graph.edges, Adjacencies(j.placements), JobFlags(j), TallyOf(s.log, id), id);
    }
  }

  /** Edges are never lost, their counts never fall, and labels only move from unknown to suspicious to valid. */
  lemma {:induction false} LabelsOnlyRise(s: System, steps: seq<Step>, id: PairId)
    requires Inv(s)
    ensures Risen(s.graph.edges, Run(s, steps).graph.edges, id)
  {
    if steps != [] {
      var n := |steps| - 1;
      LabelsOnlyRise(s, steps[..n], id);
      RunKeeps(s, steps[..n]);
      StepRises(Run(s, steps[..n]), steps[n], id);
    }
  }

  /** Claimed, not merged, and in nobody's hands. */
  ghost predicate Orphan(s: System, c: Claim) {
    && c in s.graph.processed
    && (forall j :: j in s.log ==> j.claim != c)
    && (forall w :: w in s.held ==> s.held[w].claim != c)
  }

  lemma {:induction false} OrphanStays(s: System, steps: seq<Step>, c: Claim)
    requires Orphan(s, c)
    ensures Orphan(Run(s, steps), c)
  {
    if steps != [] {
      OrphanStays(s, steps[..|steps| - 1], c);
    }
  }

  /**
   A worker that dies, or whose extraction raises, between claim and merge: that claim is never counted in
   any continuation.
   */
  lemma {:induction false} CrashLosesClaim(s: System, w: nat, step: Step, steps: seq<Step>)
    requires Inv(s) && w in s.held
    requires step == Crash(w) || (step == MergeHeld(w) && !Extractable(s.held[w].placements))
    ensures Orphan(Run(Next(s, step), steps), s.held[w].claim)
  {
    var c := s.held[w].claim;
    forall j | j in s.log ensures j.claim != c {
      assert Any()(j);
    }
    OrphanStays(Next(s, step), steps, c);
  }

  /** Runs that merged the same jobs, in whatever order, agree on all evidence and labels. */
  lemma {:induction false} OrderIrrelevant(s: System, t: System, id: PairId)
    requires Inv(s) && Inv(t) && forall j :: j in s.log <==> j in t.log
    ensures id in s.graph.edges <==> id in t.graph.edges
    ensures id in s.graph.edges ==>
              var a, b := s.graph.edges[id], t.graph.edges[id];
              a.observed == b.observed && a.bench == b.bench && a.broken == b.broken && a.validity == b.validity
  {
    assert Says(Lookup(s.graph.edges, id), TallyOf(s.log, id));
    assert Says(Lookup(t.graph.edges, id), TallyOf(t.log, id));
    SameCount(s.log, t.log, Shows(id));
    SameCount(s.log, t.log, ShowsBench(id));
    SameCount(s.log, t.log, ShowsBroken(id));
  }

  lemma {:induction false} SameCount(a: seq<Job>, b: seq<Job>, p: Job -> bool)
    requires forall j :: j in a <==> j in b
    ensures Count(a, p) == Count(b, p)
  {
    assert Claims(a, p) == Claims(b, p);
  }

  /** The label stored by the query is the policy's label, which never depends on frequency. */
  lemma {:induction false} QueryFollowsPolicy(bench: int, broken: int, replay: int, observed: int, other: int)
    ensures DeriveLabel(bench, broken, replay, observed).Some? <==> bench >= 0 && broken >= 0 && replay >= 0
    ensures DeriveLabel(bench, broken, replay, observed).Some? ==>
              DeriveLabel(bench, broken, replay, observed) == Some(StoredLabel(bench, broken, replay))
    ensures DeriveLabel(bench, broken, replay, observed) == DeriveLabel(bench, broken, replay, other)
  {}
}
