/**
 Adjacency extraction from the placements of one map: each unordered pair of block keys that stand in
 face-adjacent cells is observed once.
 */
module Adjacency {
  import opened Rotation
  import opened Collections
  import opened BlockKeys

  datatype Placement = Placement(family: string, kind: string, variant: Option<string>, free: bool,
                                 x: Option<int>, y: Option<int>, z: Option<int>)

  /** Free blocks, and blocks with a coordinate missing, are in no grid cell. */
  function GridCell(p: Placement): Option<Vec> {
    if p.free || p.x.None? || p.y.None? || p.z.None? then None
    else Some(Vec(p.x.value, p.y.value, p.z.value))
  }

  function KeyOf(p: Placement): BlockKey {
    BlockKey(p.family, p.kind, if p.variant.Some? then p.variant.value else "")
  }

  /** A placement is in a grid cell exactly when it is not free and has all three coordinates, which are the cell's. */
  lemma {:induction false} GridCellMeans(p: Placement, c: Vec)
    ensures GridCell(p) == Some(c) <==> !p.free && p.x == Some(c.x) && p.y == Some(c.y) && p.z == Some(c.z)
  {}

  /** A placement's key is written family, kind and variant between bars; an absent variant is written empty. */
  lemma {:induction false} KeyMeans(p: Placement)
    ensures Normalized(KeyOf(p)) ==
            p.family + "|" + p.kind + "|" + match p.variant { case None => "" case Some(v) => v }
  {}

  /** Building a key raises on a malformed name, for every grid block, even one whose cell is taken. */
  ghost predicate Extractable(ps: seq<Placement>) {
    forall p :: p in ps && GridCell(p).Some? ==> WellFormed(KeyOf(p))
  }

  type ByCell = map<Vec, BlockKey>

  /** The first block listed for a cell holds it. */
  function FirstAt(ps: seq<Placement>, c: Vec): Option<BlockKey> {
    if ps == [] then None
    else
      var n := |ps| - 1;
      var before := FirstAt(ps[..n], c);
      if before.None? && GridCell(ps[n]) == Some(c) then Some(KeyOf(ps[n])) else before
  }

  /** The dictionary and its insertion order. */
  ghost predicate Placed(byCell: ByCell, order: seq<Vec>, ps: seq<Placement>) {
    && (forall c :: c in order <==> c in byCell)
    && (forall c :: FirstAt(ps, c) == if c in byCell then Some(byCell[c]) else None)
    && (forall c :: c in byCell ==> WellFormed(byCell[c]))
  }

  lemma {:induction false} PlacedMore(byCell: ByCell, order: seq<Vec>, ps: seq<Placement>, p: Placement, c: Vec)
    requires Placed(byCell, order, ps) && GridCell(p) == Some(c) && WellFormed(KeyOf(p))
    ensures c in byCell ==> Placed(byCell, order, ps + [p])
    ensures c !in byCell ==> Placed(byCell[c := KeyOf(p)], order + [c], ps + [p])
  {
    assert (ps + [p])[..|ps|] == ps;
    forall e
      ensures FirstAt(ps + [p], e) == if FirstAt(ps, e).None? && e == c then Some(KeyOf(p)) else FirstAt(ps, e)
    {}
  }

  lemma {:induction false} PlacedSkip(byCell: ByCell, order: seq<Vec>, ps: seq<Placement>, p: Placement)
    requires Placed(byCell, order, ps) && GridCell(p).None?
    ensures Placed(byCell, order, ps + [p])
  {
    assert (ps + [p])[..|ps|] == ps;
    forall e ensures FirstAt(ps + [p], e) == FirstAt(ps, e) {}
  }

  /** Fills the cell dictionary, or fails on the first malformed key. */
  method IndexCells(ps: seq<Placement>) returns (ok: bool, byCell: ByCell, order: seq<Vec>)
    ensures ok <==> Extractable(ps)
    ensures ok ==> Placed(byCell, order, ps)
  {
    ok, byCell, order := true, map[], [];
    var i := 0;
    while i < |ps| && ok
      invariant i <= |ps|
      invariant ok ==> Extractable(ps[..i]) && Placed(byCell, order, ps[..i])
      invariant !ok ==> !Extractable(ps)
    {
      var p := ps[i];
      var cell := GridCell(p);
      assert ps[..i + 1] == ps[..i] + [p];
      if cell.None? {
        PlacedSkip(byCell, order, ps[..i], p);
      } else if !WellFormed(KeyOf(p)) {
        ok := false;
      } else {
        PlacedMore(byCell, order, ps[..i], p, cell.value);
        if cell.value !in byCell {
          byCell, order := byCell[cell.value := KeyOf(p)], order + [cell.value];
        }
      }
      i := i + 1;
    }
    assert ps[..|ps|] == ps;
  }

  // ----- adjacent pairs -----

  /** The identity of the pair formed by the blocks in `c` and in its neighbour along `k`. */
  function PairAt(ps: seq<Placement>, c: Vec, k: Direction): Option<PairId> {
    var a, b := FirstAt(ps, c), FirstAt(ps, Add(c, DirectionDelta(k)));
    if a.Some? && b.Some? then Some(IdOf(OrderPair(a.value, b.value))) else None
  }

  ghost function CellsOf(ps: seq<Placement>): set<Vec> {
    set p | p in ps && GridCell(p).Some? :: GridCell(p).value
  }

  /** The identities of all pairs of blocks in face-adjacent cells. */
  ghost function Adjacencies(ps: seq<Placement>): set<PairId> {
    set c, k: Direction | c in CellsOf(ps) && PairAt(ps, c, k).Some? :: PairAt(ps, c, k).value
  }

  datatype Observation = Observation(a: BlockKey, b: BlockKey, snapshot: string, bench: bool, broken: bool)

  /** The evidence flags every observation of one extraction carries. */
  datatype Flags = Flags(snapshot: string, bench: bool, broken: bool)

  function Ids(obs: seq<Observation>): set<PairId> { set o | o in obs :: IdOf((o.a, o.b)) }

  /** An observation is well made: valid keys in storage order, with the flags of the extraction. */
  ghost predicate Made(o: Observation, f: Flags) {
    && WellFormed(o.a) && WellFormed(o.b) && OrderPair(o.a, o.b) == (o.a, o.b)
    && o.snapshot == f.snapshot && o.bench == f.bench && o.broken == f.broken
  }

  ghost predicate Observed(obs: seq<Observation>, f: Flags, seen: set<PairId>) {
    && seen == Ids(obs)
    && (forall i :: 0 <= i < |obs| ==> Made(obs[i], f))
    && (forall i, j :: 0 <= i < j < |obs| ==> IdOf((obs[i].a, obs[i].b)) != IdOf((obs[j].a, obs[j].b)))
  }

  function IdSet(p: Option<PairId>): set<PairId> { if p.None? then {} else {p.value} }

  /** The first `n` of the six neighbours. */
  ghost function IdsUpTo(ps: seq<Placement>, c: Vec, n: nat): set<PairId>
    requires n <= 6
  {
    if n == 0 then {} else IdsUpTo(ps, c, n - 1) + IdSet(PairAt(ps, c, n - 1))
  }

  ghost function IdsOver(ps: seq<Placement>, cells: seq<Vec>): set<PairId> {
    if cells == [] then {} else IdsOver(ps, cells[..|cells| - 1]) + IdsUpTo(ps, cells[|cells| - 1], 6)
  }

  lemma {:induction false} InIdsUpTo(ps: seq<Placement>, c: Vec, n: nat, id: PairId)
    requires n <= 6
    ensures id in IdsUpTo(ps, c, n) <==> exists k: Direction :: k < n && PairAt(ps, c, k) == Some(id)
  {
    if n > 0 {
      InIdsUpTo(ps, c, n - 1, id);
    }
  }

  lemma {:induction false} InIdsOver(ps: seq<Placement>, cells: seq<Vec>, id: PairId)
    ensures id in IdsOver(ps, cells) <==> exists c: Vec, k: Direction :: c in cells && PairAt(ps, c, k) == Some(id)
  {
    if cells != [] {
      var n := |cells| - 1;
      InIdsOver(ps, cells[..n], id);
      InIdsUpTo(ps, cells[n], 6, id);
      assert cells == cells[..n] + [cells[n]];
    }
  }

  lemma {:induction false} FirstAtCell(ps: seq<Placement>, c: Vec)
    ensures FirstAt(ps, c).Some? <==> c in CellsOf(ps)
  {
    if ps != [] {
      var n := |ps| - 1;
      FirstAtCell(ps[..n], c);
      assert ps == ps[..n] + [ps[n]];
    }
  }

  /** Visiting every indexed cell finds every adjacency. */
  lemma {:induction false} AllCellsVisited(byCell: ByCell, order: seq<Vec>, ps: seq<Placement>)
    requires Placed(byCell, order, ps)
    ensures IdsOver(ps, order) == Adjacencies(ps)
  {
    forall c ensures c in order <==> c in CellsOf(ps) {
      FirstAtCell(ps, c);
    }
    forall id ensures id in IdsOver(ps, order) <==> id in Adjacencies(ps) {
      InIdsOver(ps, order, id);
    }
  }

  method ObservePair(byCell: ByCell, ghost order: seq<Vec>, ghost ps: seq<Placement>, c: Vec, k: Direction, f: Flags,
                     obs: seq<Observation>, seen: set<PairId>)
    returns (obs': seq<Observation>, seen': set<PairId>)
    requires Placed(byCell, order, ps) && Observed(obs, f, seen) && c in byCell
    ensures Observed(obs', f, seen') && seen' == seen + IdSet(PairAt(ps, c, k))
  {
    obs', seen' := obs, seen;
    var neighbour := Add(c, DirectionDelta(k));
    assert FirstAt(ps, c) == Some(byCell[c]);
    assert FirstAt(ps, neighbour) == if neighbour in byCell then Some(byCell[neighbour]) else None;
    if neighbour in byCell {
      var p := OrderPair(byCell[c], byCell[neighbour]);
      OrderPairCanonical(byCell[c], byCell[neighbour]);
      if IdOf(p) !in seen {
        var o := Observation(p.0, p.1, f.snapshot, f.bench, f.broken);
        obs', seen' := obs + [o], seen + {IdOf(p)};
        ObservedMore(obs, f, seen, o);
      }
    }
  }

  lemma {:induction false} ObservedMore(obs: seq<Observation>, f: Flags, seen: set<PairId>, o: Observation)
    requires Observed(obs, f, seen) && Made(o, f) && IdOf((o.a, o.b)) !in seen
    ensures Observed(obs + [o], f, seen + {IdOf((o.a, o.b))})
  {
    forall i | 0 <= i < |obs| ensures IdOf((obs[i].a, obs[i].b)) in seen {
      assert obs[i] in obs;
    }
    assert Ids(obs + [o]) == Ids(obs) + {IdOf((o.a, o.b))};
  }

  /** Look at the first `n` of the six neighbours of a cell. */
  method ObserveCell(byCell: ByCell, ghost order: seq<Vec>, ghost ps: seq<Placement>, c: Vec, n: nat, f: Flags,
                     obs: seq<Observation>, seen: set<PairId>)
    returns (obs': seq<Observation>, seen': set<PairId>)
    requires Placed(byCell, order, ps) && Observed(obs, f, seen) && c in byCell && n <= 6
    ensures Observed(obs', f, seen') && seen' == seen + IdsUpTo(ps, c, n)
  {
    obs', seen' := obs, seen;
    for k := 0 to n
      invariant Observed(obs', f, seen') && seen' == seen + IdsUpTo(ps, c, k)
    {
      IdsStep(ps, c, k, seen);
      obs', seen' := ObservePair(byCell, order, ps, c, k, f, obs', seen');
    }
  }

  lemma {:induction false} IdsStep(ps: seq<Placement>, c: Vec, k: nat, seen: set<PairId>)
    requires k < 6
    ensures (seen + IdsUpTo(ps, c, k)) + IdSet(PairAt(ps, c, k)) == seen + IdsUpTo(ps, c, k + 1)
  {}

  /**
   The whole extraction: fails exactly on a malformed key, and otherwise observes exactly the adjacencies,
   each once.
   */
  method ExtractAdjacencies(ps: seq<Placement>, f: Flags) returns (result: Option<seq<Observation>>)
    ensures result.Some? <==> Extractable(ps)
    ensures result.Some? ==> Observed(result.value, f, Adjacencies(ps))
  {
    var ok, byCell, order := IndexCells(ps);
    if !ok {
      return None;
    }
    var obs, seen := [], {};
    for i := 0 to |order|
      invariant Observed(obs, f, seen) && seen == IdsOver(ps, order[..i])
    {
      assert order[..i + 1][..i] == order[..i];
      obs, seen := ObserveCell(byCell, order, ps, order[i], 6, f, obs, seen);
    }
    assert order[..|order|] == order;
    AllCellsVisited(byCell, order, ps);
    result := Some(obs);
  }

  ghost predicate EndsOf(keys: seq<BlockKey>, obs: seq<Observation>) {
    forall k :: k in keys <==> exists o :: o in obs && (k == o.a || k == o.b)
  }

  /** The node set of a batch: the endpoints of its observations, each once. */
  method UniqueBlockKeys(obs: seq<Observation>) returns (keys: seq<BlockKey>)
    requires forall o :: o in obs ==> WellFormed(o.a) && WellFormed(o.b)
    ensures Distinct(keys)
    ensures EndsOf(keys, obs)
  {
    keys := [];
    var seen: set<string> := {};
    for i := 0 to |obs|
      invariant Listed(keys, seen)
      invariant forall k :: k in keys <==> exists o :: o in obs[..i] && (k == o.a || k == o.b)
    {
      assert obs[i] in obs;
      assert obs[..i + 1] == obs[..i] + [obs[i]];
      keys, seen := AddKey(keys, seen, obs[i].a);
      keys, seen := AddKey(keys, seen, obs[i].b);
    }
    assert obs[..|obs|] == obs;
  }

  ghost predicate Listed(keys: seq<BlockKey>, seen: set<string>) {
    && Distinct(keys) && (forall k :: k in keys ==> WellFormed(k))
    && seen == set k | k in keys :: Normalized(k)
  }

  method AddKey(keys: seq<BlockKey>, seen: set<string>, k: BlockKey) returns (keys': seq<BlockKey>, seen': set<string>)
    requires Listed(keys, seen) && WellFormed(k)
    ensures Listed(keys', seen')
    ensures forall e :: e in keys' <==> e in keys || e == k
  {
    keys', seen' := keys, seen;
    if Normalized(k) !in seen {
      keys', seen' := keys + [k], seen + {Normalized(k)};
    } else {
      var e :| e in keys && Normalized(e) == Normalized(k);
      NormalizedInjective(e, k);
    }
  }

  /** Two blocks stand next to each other iff their pair is among the adjacencies, in whichever direction one looks. */
  lemma {:induction false} AdjacencyMeans(ps: seq<Placement>, a: BlockKey, b: BlockKey)
    requires Extractable(ps) && WellFormed(a) && WellFormed(b)
    ensures IdOf(OrderPair(a, b)) in Adjacencies(ps) <==>
            exists c: Vec, k: Direction ::
              FirstAt(ps, c) == Some(a) && FirstAt(ps, Add(c, DirectionDelta(k))) == Some(b)
  {
    var id := IdOf(OrderPair(a, b));
    if c: Vec, k: Direction :| FirstAt(ps, c) == Some(a) && FirstAt(ps, Add(c, DirectionDelta(k))) == Some(b) {
      FirstAtCell(ps, c);
      assert PairAt(ps, c, k) == Some(id);
    }
    if id in Adjacencies(ps) {
      var c: Vec, k: Direction :| c in CellsOf(ps) && PairAt(ps, c, k) == Some(id);
      var there := Add(c, DirectionDelta(k));
      var p, q := FirstAt(ps, c).value, FirstAt(ps, there).value;
      FirstAtWellFormed(ps, c);
      FirstAtWellFormed(ps, there);
      SamePair(p, q, a, b);
      var back := DirectionBack(c, k);
      assert || (p == a && q == b)
             || (FirstAt(ps, there) == Some(a) && FirstAt(ps, Add(there, DirectionDelta(back))) == Some(b));
    }
  }

  lemma {:induction false} FirstAtWellFormed(ps: seq<Placement>, c: Vec)
    requires Extractable(ps)
    ensures FirstAt(ps, c).Some? ==> WellFormed(FirstAt(ps, c).value)
  {
    if ps != [] {
      FirstAtWellFormed(ps[..|ps| - 1], c);
    }
  }
}
