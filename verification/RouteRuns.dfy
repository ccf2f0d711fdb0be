/**
 Chains of through-pieces in one map, cut into windows: where the runs of the macro miner come from.
 */
module RouteRuns {
  import opened Rotation
  import opened Collections
  import opened Occupancy

  // ----- touching placements -----

  /** Some cell of `i` shares a face with a cell of `j`. */
  ghost predicate Touch(cells: seq<seq<Vec>>, i: nat, j: nat) {
    && i < |cells| && j < |cells|
    && exists a: Vec, k: Direction :: a in cells[i] && Add(a, DirectionDelta(k)) in cells[j]
  }

  lemma {:induction false} TouchSymmetric(cells: seq<seq<Vec>>, i: nat, j: nat)
    requires Touch(cells, i, j)
    ensures Touch(cells, j, i)
  {
    var a: Vec, k: Direction :| a in cells[i] && Add(a, DirectionDelta(k)) in cells[j];
    var b := DirectionBack(a, k);
    assert Add(a, DirectionDelta(k)) in cells[j] && Add(Add(a, DirectionDelta(k)), DirectionDelta(b)) in cells[i];
  }

  type Links = seq<set<nat>>

  /** The cell index gives `j` as the owner of a cell next to a cell of `i`. */
  ghost predicate Sees(cells: seq<seq<Vec>>, i: nat, j: nat)
    requires i < |cells|
  {
    exists a: Vec, k: Direction :: a in cells[i] && LastOwner(cells, |cells|, Add(a, DirectionDelta(k))) == Some(j)
  }

  /** Different placements are neighbours when one sees the other. */
  ghost predicate Neighbours(cells: seq<seq<Vec>>, i: nat, j: nat) {
    i < |cells| && j < |cells| && i != j && (Sees(cells, i, j) || Sees(cells, j, i))
  }

  /** The links are the neighbours, and nothing else: a function of the map. */
  ghost predicate LinksOf(cells: seq<seq<Vec>>, links: Links) {
    |links| == |cells| && forall i, j :: 0 <= i < |links| ==> (j in links[i] <==> Neighbours(cells, i, j))
  }

  lemma {:induction false} SeesTouches(cells: seq<seq<Vec>>, i: nat, j: nat)
    requires i < |cells| && Sees(cells, i, j)
    ensures Touch(cells, i, j)
  {
    var a: Vec, k: Direction :| a in cells[i] && LastOwner(cells, |cells|, Add(a, DirectionDelta(k))) == Some(j);
    LastOwnerCovers(cells, |cells|, Add(a, DirectionDelta(k)));
  }

  /** Linked placements share a cell face. */
  lemma {:induction false} NeighboursTouch(cells: seq<seq<Vec>>, i: nat, j: nat)
    requires Neighbours(cells, i, j)
    ensures Touch(cells, i, j)
  {
    if Sees(cells, i, j) {
      SeesTouches(cells, i, j);
    } else {
      SeesTouches(cells, j, i);
      TouchSymmetric(cells, j, i);
    }
  }

  /** Every link joins neighbours, both ways; the links known so far. */
  ghost predicate SomeLinks(cells: seq<seq<Vec>>, links: Links) {
    && |links| == |cells|
    && (forall i, j :: 0 <= i < |links| && j in links[i] ==> Neighbours(cells, i, j))
    && (forall i, j :: 0 <= i < |links| && 0 <= j < |links| && j in links[i] ==> i in links[j])
  }

  /** Whoever is seen from cell `a` of `i` is linked to `i`. */
  ghost predicate CellLinked(cells: seq<seq<Vec>>, links: Links, i: nat, a: Vec)
    requires i < |links|
  {
    forall k: Direction :: FaceLinked(cells, links, i, a, k)
  }

  ghost predicate FaceLinked(cells: seq<seq<Vec>>, links: Links, i: nat, a: Vec, k: Direction)
    requires i < |links|
  {
    var j := LastOwner(cells, |cells|, Add(a, DirectionDelta(k)));
    j.Some? && j.value != i ==> j.value in links[i]
  }

  method BuildLinks(cells: seq<seq<Vec>>, owner: Owners) returns (links: Links)
    requires Indexes(owner, cells)
    ensures LinksOf(cells, links)
  {
    links := seq(|cells|, _ => {});
    for i := 0 to |cells|
      invariant SomeLinks(cells, links)
      invariant forall h, a :: 0 <= h < i && a in cells[h] ==> CellLinked(cells, links, h, a)
    {
      for m := 0 to |cells[i]|
        invariant SomeLinks(cells, links)
        invariant forall h, a :: 0 <= h < i && a in cells[h] ==> CellLinked(cells, links, h, a)
        invariant forall n :: 0 <= n < m ==> CellLinked(cells, links, i, cells[i][n])
      {
        ghost var before := links;
        links := LinkCell(cells, owner, links, i, cells[i][m]);
        forall h, a | 0 <= h < |cells| && CellLinked(cells, before, h, a) ensures CellLinked(cells, links, h, a) {
          MoreLinks(cells, before, links, h, a);
        }
      }
    }
    AllLinked(cells, links);
  }

  lemma {:induction false} MoreLinks(cells: seq<seq<Vec>>, before: Links, links: Links, i: nat, a: Vec)
    requires |before| == |links| && i < |links| && before[i] <= links[i] && CellLinked(cells, before, i, a)
    ensures CellLinked(cells, links, i, a)
  {
    forall k: Direction ensures FaceLinked(cells, links, i, a, k) {
      assert FaceLinked(cells, before, i, a, k);
    }
  }

  lemma {:induction false} AllLinked(cells: seq<seq<Vec>>, links: Links)
    requires SomeLinks(cells, links)
    requires forall h, a :: 0 <= h < |cells| && a in cells[h] ==> CellLinked(cells, links, h, a)
    ensures LinksOf(cells, links)
  {
    forall i, j | 0 <= i < |cells| && Neighbours(cells, i, j) ensures j in links[i] {
      if Sees(cells, i, j) {
        SeenIsLinked(cells, links, i, j);
      } else {
        SeenIsLinked(cells, links, j, i);
      }
    }
  }

  lemma {:induction false} SeenIsLinked(cells: seq<seq<Vec>>, links: Links, i: nat, j: nat)
    requires |links| == |cells| && i < |cells| && i != j && Sees(cells, i, j)
    requires forall a :: a in cells[i] ==> CellLinked(cells, links, i, a)
    ensures j in links[i]
  {
    var a: Vec, k: Direction :| a in cells[i] && LastOwner(cells, |cells|, Add(a, DirectionDelta(k))) == Some(j);
    assert CellLinked(cells, links, i, a);
    assert FaceLinked(cells, links, i, a, k);
  }

  method LinkCell(cells: seq<seq<Vec>>, owner: Owners, before: Links, i: nat, cell: Vec) returns (links: Links)
    requires Indexes(owner, cells) && SomeLinks(cells, before) && i < |cells| && cell in cells[i]
    ensures SomeLinks(cells, links)
    ensures forall k :: 0 <= k < |links| ==> before[k] <= links[k]
    ensures CellLinked(cells, links, i, cell)
  {
    links := before;
    for k := 0 to 6
      invariant SomeLinks(cells, links)
      invariant forall h :: 0 <= h < |links| ==> before[h] <= links[h]
      invariant forall n: Direction :: n < k ==> FaceLinked(cells, links, i, cell, n)
    {
      ghost var sofar := links;
      var probe := Add(cell, DirectionDelta(k));
      assert LastOwner(cells, |cells|, probe) == if probe in owner then Some(owner[probe]) else None;
      if probe in owner && owner[probe] != i {
        OwnerCovers(owner, cells, probe);
        assert Sees(cells, i, owner[probe]);
        links := LinkPair(cells, links, i, owner[probe]);
      }
      forall n: Direction | n <= k ensures FaceLinked(cells, links, i, cell, n) {
        assert n < k ==> FaceLinked(cells, sofar, i, cell, n);
      }
    }
  }

  method LinkPair(cells: seq<seq<Vec>>, before: Links, i: nat, j: nat) returns (links: Links)
    requires SomeLinks(cells, before) && Neighbours(cells, i, j)
    ensures SomeLinks(cells, links) && j in links[i]
    ensures forall k :: 0 <= k < |links| ==> before[k] <= links[k]
  {
    assert Neighbours(cells, j, i);
    links := before[i := before[i] + {j}];
    links := links[j := links[j] + {i}];
  }

  // ----- through-pieces -----

  function Sign(v: int): int { if v > 0 then 1 else if v < 0 then -1 else 0 }

  function Signs(v: Vec): Vec { Vec(Sign(v.x), Sign(v.y), Sign(v.z)) }

  lemma {:induction false} SignsOdd(v: Vec)
    ensures Signs(Neg(v)) == Neg(Signs(v))
  {
    assert Sign(-v.x) == -Sign(v.x) && Sign(-v.y) == -Sign(v.y) && Sign(-v.z) == -Sign(v.z);
  }

  /** In which of the 27 directions the anchor of `j` lies from that of `i`. */
  function Heading(at: seq<Vec>, i: nat, j: nat): Vec
    requires i < |at| && j < |at|
  {
    Signs(Sub(at[j], at[i]))
  }

  predicate IsZero(v: Vec) { v.x == 0 && v.y == 0 && v.z == 0 }

  /** Two neighbours of `i` on opposing sides. */
  ghost predicate Opposing(at: seq<Vec>, i: nat, a: nat, b: nat) {
    && i < |at| && a < |at| && b < |at|
    && Heading(at, i, a) == Neg(Heading(at, i, b)) && !IsZero(Heading(at, i, a))
  }

  /** On opposing sides: along every axis the two neighbours are on different sides or both level, not level in all. */
  lemma {:induction false} OpposingMeans(at: seq<Vec>, i: nat, a: nat, b: nat)
    requires i < |at| && a < |at| && b < |at|
    ensures var u, v := Sub(at[a], at[i]), Sub(at[b], at[i]);
            Opposing(at, i, a, b) <==>
            && (u.x > 0 <==> v.x < 0) && (u.x < 0 <==> v.x > 0)
            && (u.y > 0 <==> v.y < 0) && (u.y < 0 <==> v.y > 0)
            && (u.z > 0 <==> v.z < 0) && (u.z < 0 <==> v.z > 0)
            && u != Zero
  {
    var u, v := Sub(at[a], at[i]), Sub(at[b], at[i]);
    assert Heading(at, i, a) == Signs(u) && Heading(at, i, b) == Signs(v);
    assert Signs(u) == Neg(Signs(v)) <==> Sign(u.x) == -Sign(v.x) && Sign(u.y) == -Sign(v.y) && Sign(u.z) == -Sign(v.z);
  }

  lemma {:induction false} NegTwice(v: Vec)
    ensures Neg(Neg(v)) == v
  {}

  lemma {:induction false} NegSelf(v: Vec)
    ensures v == Neg(v) <==> IsZero(v)
  {
    assert v == Neg(v) <==> v.x == -v.x && v.y == -v.y && v.z == -v.z;
  }

  /** The first neighbour seen in each direction, with the directions in order of appearance. */
  ghost predicate Directions(at: seq<Vec>, i: nat, done: set<nat>, byDir: map<Vec, nat>, order: seq<Vec>)
    requires i < |at| && forall j :: j in done ==> j < |at|
  {
    && (forall v :: v in order <==> v in byDir)
    && (forall v :: v in byDir ==> byDir[v] in done && Heading(at, i, byDir[v]) == v)
    && (forall j :: j in done ==> Heading(at, i, j) in byDir)
  }

  method ByDirection(at: seq<Vec>, i: nat, neighbours: set<nat>) returns (byDir: map<Vec, nat>, order: seq<Vec>)
    requires i < |at| && forall j :: j in neighbours ==> j < |at|
    ensures Directions(at, i, neighbours, byDir, order)
  {
    byDir, order := map[], [];
    var todo := neighbours;
    while todo != {}
      invariant todo <= neighbours
      invariant Directions(at, i, neighbours - todo, byDir, order)
    {
      var j :| j in todo;
      var v := Heading(at, i, j);
      if v !in byDir {
        byDir, order := byDir[v := j], order + [v];
      }
      assert neighbours - (todo - {j}) == (neighbours - todo) + {j};
      todo := todo - {j};
    }
    assert neighbours - todo == neighbours;
  }

  /** A through-piece has neighbours on opposing sides: such a pair is found exactly when there is one. */
  method OpposingPair(at: seq<Vec>, i: nat, neighbours: set<nat>) returns (p: Option<(nat, nat)>)
    requires i < |at| && forall j :: j in neighbours ==> j < |at|
    ensures p.Some? ==> Found(at, i, neighbours, p.value)
    ensures p.None? ==> Unopposed(at, i, neighbours)
  {
    var byDir, order := ByDirection(at, i, neighbours);
    var v := FirstOpposed(byDir, order);
    if v.Some? {
      DirectionHit(at, i, neighbours, byDir, order, v.value);
      p := Some((byDir[v.value], byDir[Neg(v.value)]));
    } else {
      DirectionMiss(at, i, neighbours, byDir, order);
      p := None;
    }
  }

  /** The first direction whose opposite direction leads to another neighbour. */
  method FirstOpposed(byDir: map<Vec, nat>, order: seq<Vec>) returns (hit: Option<Vec>)
    requires forall m :: 0 <= m < |order| ==> order[m] in byDir
    ensures hit.Some? ==> hit.value in byDir && Neg(hit.value) in byDir && byDir[hit.value] != byDir[Neg(hit.value)]
    ensures hit.None? ==> forall m :: 0 <= m < |order| ==> NoPartner(byDir, order[m])
  {
    for k := 0 to |order|
      invariant forall m :: 0 <= m < k ==> NoPartner(byDir, order[m])
    {
      var v := order[k];
      if Neg(v) in byDir && byDir[v] != byDir[Neg(v)] {
        return Some(v);
      }
    }
    hit := None;
  }

  ghost predicate NoPartner(byDir: map<Vec, nat>, v: Vec) {
    v in byDir && (Neg(v) !in byDir || byDir[v] == byDir[Neg(v)])
  }

  lemma {:induction false} DirectionHit(at: seq<Vec>, i: nat, neighbours: set<nat>, byDir: map<Vec, nat>,
                                        order: seq<Vec>, v: Vec)
    requires i < |at| && (forall j :: j in neighbours ==> j < |at|) && Directions(at, i, neighbours, byDir, order)
    requires v in byDir && Neg(v) in byDir && byDir[v] != byDir[Neg(v)]
    ensures Found(at, i, neighbours, (byDir[v], byDir[Neg(v)]))
  {
    NegSelf(v);
    NegTwice(v);
  }

  lemma {:induction false} DirectionMiss(at: seq<Vec>, i: nat, neighbours: set<nat>, byDir: map<Vec, nat>,
                                         order: seq<Vec>)
    requires i < |at| && (forall j :: j in neighbours ==> j < |at|) && Directions(at, i, neighbours, byDir, order)
    requires forall m :: 0 <= m < |order| ==> NoPartner(byDir, order[m])
    ensures Unopposed(at, i, neighbours)
  {
    forall a, b | a in neighbours && b in neighbours ensures !Opposing(at, i, a, b) {
      var v, w := Heading(at, i, a), Heading(at, i, b);
      assert v in order && w in byDir;
      assert NoPartner(byDir, v);
      NegTwice(w);
      NegSelf(v);
    }
  }

  ghost predicate Found(at: seq<Vec>, i: nat, neighbours: set<nat>, p: (nat, nat)) {
    p.0 in neighbours && p.1 in neighbours && p.0 != p.1 && Opposing(at, i, p.0, p.1)
  }

  type Through = map<nat, (nat, nat)>

  ghost predicate ValidThrough(forward: Through, links: Links) {
    forall i :: i in forward ==>
                  && i < |links| && forward[i].0 in links[i] && forward[i].1 in links[i]
                  && forward[i].0 != forward[i].1
  }

  /** Every member of `forward` lies between two opposing neighbours, and nothing else does. */
  ghost predicate ThroughUpTo(at: seq<Vec>, links: Links, forward: Through, n: nat)
    requires n <= |links|
  {
    (forall i :: i in forward ==> i < n) && (forall i :: 0 <= i < n ==> ThroughAt(at, links, forward, i))
  }

  /** A placement has its pair of opposing neighbours, or there is none. */
  ghost predicate ThroughAt(at: seq<Vec>, links: Links, forward: Through, i: nat)
    requires i < |links|
  {
    if i in forward then Found(at, i, links[i], forward[i]) else Unopposed(at, i, links[i])
  }

  ghost predicate Unopposed(at: seq<Vec>, i: nat, neighbours: set<nat>) {
    forall a, b :: a in neighbours && b in neighbours ==> !Opposing(at, i, a, b)
  }

  ghost predicate LinksInside(links: Links) {
    forall i, j :: 0 <= i < |links| && j in links[i] ==> j < |links|
  }

  method FindThrough(at: seq<Vec>, links: Links) returns (forward: Through)
    requires |at| == |links| && LinksInside(links)
    ensures ThroughUpTo(at, links, forward, |links|) && ValidThrough(forward, links)
  {
    forward := map[];
    for i := 0 to |at|
      invariant ThroughUpTo(at, links, forward, i)
    {
      var p := OpposingPair(at, i, links[i]);
      ghost var before := forward;
      if p.Some? {
        forward := forward[i := p.value];
      }
      forall h | 0 <= h < i ensures ThroughAt(at, links, forward, h) {
        assert ThroughAt(at, links, before, h);
      }
    }
    forall i | i in forward
      ensures i < |links| && forward[i].0 in links[i] && forward[i].1 in links[i] && forward[i].0 != forward[i].1
    {
      assert ThroughAt(at, links, forward, i);
    }
  }

  /** What the source's comment asks of a through-piece: exactly two neighbours, on opposing sides. */
  ghost predicate TwoOpposing(at: seq<Vec>, links: Links, i: nat)
    requires i < |links|
  {
    |links[i]| == 2 && !Unopposed(at, i, links[i])
  }

  /** Code and comment agree on a placement if and only if it has exactly two neighbours or no opposing ones. */
  lemma {:induction false} CommentAgrees(at: seq<Vec>, links: Links, forward: Through, i: nat)
    requires i < |links| && ThroughAt(at, links, forward, i)
    ensures (i in forward <==> TwoOpposing(at, links, i)) <==> Unopposed(at, i, links[i]) || |links[i]| == 2
  {
    assert i in forward <==> !Unopposed(at, i, links[i]);
  }

  /** A one-cell block with one-cell neighbours to the north, the south and the west. */
  ghost predicate Crossing(at: seq<Vec>, cells: seq<seq<Vec>>) {
    && |at| == |cells| == 4 && (forall i :: 0 <= i < 4 ==> cells[i] == [at[i]])
    && at[1] == Add(at[0], DirectionDelta(4)) && at[2] == Add(at[0], DirectionDelta(5))
    && at[3] == Add(at[0], DirectionDelta(0))
  }

  /** It is a through-piece, although it has three neighbours. */
  lemma {:induction false} CommentFails(at: seq<Vec>, cells: seq<seq<Vec>>, links: Links, forward: Through)
    requires Crossing(at, cells) && LinksOf(cells, links) && ThroughAt(at, links, forward, 0)
    ensures 0 in forward && links[0] == {1, 2, 3} && !TwoOpposing(at, links, 0)
  {
    assert links[0] == {1, 2, 3} by { CrossingLinks(at, cells, links); }
    assert Opposing(at, 0, 1, 2) by { CrossingOpposes(at, cells); }
    ThreeNeighbours(at, links, forward);
  }

  /** Two opposing neighbours make a through-piece, whatever other neighbour there is. */
  lemma {:induction false} ThreeNeighbours(at: seq<Vec>, links: Links, forward: Through)
    requires links != [] && ThroughAt(at, links, forward, 0) && links[0] == {1, 2, 3} && Opposing(at, 0, 1, 2)
    ensures 0 in forward && links[0] == {1, 2, 3} && !TwoOpposing(at, links, 0)
  {
    assert |links[0]| == 3;
    assert 1 in links[0] && 2 in links[0];
  }

  lemma {:induction false} CrossingLinks(at: seq<Vec>, cells: seq<seq<Vec>>, links: Links)
    requires Crossing(at, cells) && LinksOf(cells, links)
    ensures links[0] == {1, 2, 3}
  {
    forall j ensures j in links[0] <==> j in {1, 2, 3} {
      assert j in links[0] <==> Neighbours(cells, 0, j);
      if j in {1, 2, 3} {
        CrossingSees(at, cells, if j == 1 then 4 else if j == 2 then 5 else 0, j);
      }
    }
  }

  lemma {:induction false} CrossingApart(at: seq<Vec>, cells: seq<seq<Vec>>)
    requires Crossing(at, cells)
    ensures Distinct(at)
  {
    var a := at[0];
    assert at[1].z == a.z + 1 && at[2].z == a.z - 1 && at[3].z == a.z;
    assert at[1].x == at[2].x == a.x && at[3].x == a.x + 1;
  }

  lemma {:induction false} CrossingOpposes(at: seq<Vec>, cells: seq<seq<Vec>>)
    requires Crossing(at, cells)
    ensures Opposing(at, 0, 1, 2)
  {
    var north, south := Sub(at[1], at[0]), Sub(at[2], at[0]);
    assert north.x == -south.x && north.y == -south.y && north.z == -south.z == 1;
    assert north == Neg(south);
    SignsOdd(south);
    assert Signs(north).z == 1;
  }

  lemma {:induction false} CrossingSees(at: seq<Vec>, cells: seq<seq<Vec>>, k: Direction, j: nat)
    requires Crossing(at, cells) && j < 4 && at[j] == Add(at[0], DirectionDelta(k))
    ensures Sees(cells, 0, j)
  {
    CrossingApart(at, cells);
    OneCellOwner(at, cells, 4, j);
    assert at[0] in cells[0];
  }

  /** One-cell blocks in different cells own their cells. */
  lemma {:induction false} OneCellOwner(at: seq<Vec>, cells: seq<seq<Vec>>, n: nat, j: nat)
    requires |at| == |cells| && Distinct(at) && (forall i :: 0 <= i < |at| ==> cells[i] == [at[i]]) && j < n <= |at|
    ensures LastOwner(cells, n, at[j]) == Some(j)
  {
    assert cells[n - 1] == [at[n - 1]];
    if j < n - 1 {
      OneCellOwner(at, cells, n - 1, j);
    }
  }

  // ----- chains -----

  /** A simple path along the links, through through-pieces only. */
  ghost predicate IsChain(forward: Through, links: Links, c: seq<nat>) {
    && Distinct(c)
    && (forall k :: 0 <= k < |c| ==> c[k] in forward)
    && (forall k :: 0 < k < |c| ==> Joined(links, c, k))
  }

  /** The `k`-th member is linked to the one before it. */
  ghost predicate Joined(links: Links, c: seq<nat>, k: nat) {
    0 < k < |c| && c[k - 1] < |links| && c[k] < |links| && c[k] in links[c[k - 1]] && c[k - 1] in links[c[k]]
  }

  /** Entering the through-piece `at` from `from`, the walk leaves by the other of its two pointers. */
  function Onward(forward: Through, from: nat, at: nat): nat
    requires at in forward
  {
    if forward[at].0 == from then forward[at].1 else forward[at].0
  }

  /** Where the walk goes after the `k`-th piece of `path`, which starts off on the given side. */
  function Pointer(forward: Through, path: seq<nat>, side: bool, k: nat): nat
    requires k < |path| && path[k] in forward
  {
    if k > 0 then Onward(forward, path[k - 1], path[k]) else if side then forward[path[0]].1 else forward[path[0]].0
  }

  /** The walk from `path[0]`: each piece is the one the walk is pointed to, and was free. */
  ghost predicate Follows(forward: Through, seen: set<nat>, path: seq<nat>, side: bool) {
    && path != [] && path[0] in seen && Distinct(path)
    && (forall k :: 0 <= k < |path| ==> path[k] in forward)
    && (forall k :: 0 < k < |path| ==> Pointed(forward, path, side, k) && path[k] !in seen)
  }

  /** The `k`-th piece is where the walk goes after the one before it. */
  ghost predicate Pointed(forward: Through, path: seq<nat>, side: bool, k: nat) {
    0 < k < |path| && path[k - 1] in forward && path[k] == Pointer(forward, path, side, k - 1)
  }

  /** The walk can go no further: it is pointed to no through-piece, or to one already taken. */
  ghost predicate Stops(forward: Through, seen: set<nat>, path: seq<nat>, side: bool)
    requires Follows(forward, seen, path, side)
  {
    var next := Pointer(forward, path, side, |path| - 1);
    next !in forward || next in seen || next in path
  }

  /** A maximal walk, given what was taken before it. */
  ghost predicate IsArm(forward: Through, seen: set<nat>, path: seq<nat>, side: bool) {
    Follows(forward, seen, path, side) && Stops(forward, seen, path, side)
  }

  /** Two walks from one start, joined there. */
  function Build(left: seq<nat>, right: seq<nat>): seq<nat>
    requires right != []
  {
    Reversed(left) + right[1..]
  }

  /** The chain made of the walks to side 0 and then to side 1. */
  ghost predicate Grown(forward: Through, taken: set<nat>, chain: seq<nat>, left: seq<nat>, right: seq<nat>) {
    && left != [] && right != [] && left[0] == right[0] && chain == Build(left, right)
    && FirstFree(forward, taken, left[0])
    && IsArm(forward, taken + {left[0]}, left, false)
    && IsArm(forward, taken + Elements(left), right, true)
  }

  /** The start of a chain is the first through-piece that no earlier chain has taken. */
  ghost predicate FirstFree(forward: Through, taken: set<nat>, start: nat) {
    start in forward && start !in taken && forall i :: i in forward && i < start ==> i in taken
  }

  ghost predicate MaximalChain(forward: Through, taken: set<nat>, chain: seq<nat>) {
    exists left, right :: Grown(forward, taken, chain, left, right)
  }

  ghost function Members(chains: seq<seq<nat>>): set<nat> {
    set k, x | 0 <= k < |chains| && x in chains[k] :: x
  }

  /** The `m`-th chain is a maximal walk, given the chains before it. */
  ghost predicate ChainAt(forward: Through, chains: seq<seq<nat>>, m: nat) {
    m < |chains| && MaximalChain(forward, Members(chains[..m]), chains[m])
  }

  ghost predicate ChainsOf(forward: Through, chains: seq<seq<nat>>) {
    forall m :: 0 <= m < |chains| ==> ChainAt(forward, chains, m)
  }

  /** Every chain is simple, and no two share a member. */
  ghost predicate ValidChains(forward: Through, links: Links, chains: seq<seq<nat>>) {
    && (forall k :: 0 <= k < |chains| ==> IsChain(forward, links, chains[k]))
    && (forall j, k :: 0 <= j < k < |chains| ==> Elements(chains[j]) !! Elements(chains[k]))
  }

  // ----- the walk -----

  lemma {:induction false} FollowsMore(forward: Through, seen: set<nat>, path: seq<nat>, side: bool, next: nat)
    requires Follows(forward, seen, path, side) && next == Pointer(forward, path, side, |path| - 1)
    requires next in forward && next !in seen && next !in path
    ensures Follows(forward, seen, path + [next], side)
    ensures Pointer(forward, path + [next], side, |path|) == Onward(forward, path[|path| - 1], next)
  {
    var more := path + [next];
    forall k | 0 < k < |more| ensures Pointed(forward, more, side, k) && more[k] !in seen {
      if k < |path| {
        assert Pointed(forward, path, side, k);
      }
      PointerOfPrefix(forward, path, side, next, k - 1);
    }
  }

  lemma {:induction false} PointerOfPrefix(forward: Through, path: seq<nat>, side: bool, next: nat, k: nat)
    requires k < |path| && path[k] in forward
    ensures Pointer(forward, path + [next], side, k) == Pointer(forward, path, side, k)
  {
    var more := path + [next];
    assert more[k] == path[k] && more[0] == path[0] && (k > 0 ==> more[k - 1] == path[k - 1]);
  }

  /** Walk one way from `start`, taking through-pieces nobody has taken, as far as it goes. */
  method WalkSide(forward: Through, start: nat, side: bool, seen: set<nat>) returns (path: seq<nat>, after: set<nat>)
    requires start in forward && start in seen && seen <= forward.Keys
    ensures IsArm(forward, seen, path, side) && path[0] == start
    ensures after == seen + Elements(path)
  {
    path, after := [start], seen;
    var cur, prev := if side then forward[start].1 else forward[start].0, start;
    while cur in forward && cur !in after
      invariant Underway(forward, seen, path, side, after, cur) && path[0] == start && prev == path[|path| - 1]
      decreases forward.Keys - after
    {
      OneFurther(forward, seen, path, side, after, cur);
      after := after + {cur};
      path := path + [cur];
      var next := if forward[cur].0 == prev then forward[cur].1 else forward[cur].0;
      cur, prev := next, cur;
    }
  }

  /** The walk has come along `path`, has taken `after`, and is pointed to `cur`. */
  ghost predicate Underway(forward: Through, seen: set<nat>, path: seq<nat>, side: bool, after: set<nat>, cur: nat) {
    && Follows(forward, seen, path, side) && cur == Pointer(forward, path, side, |path| - 1)
    && after == seen + Elements(path) && after <= forward.Keys
  }

  lemma {:induction false} OneFurther(forward: Through, seen: set<nat>, path: seq<nat>, side: bool, after: set<nat>,
                                      cur: nat)
    requires Underway(forward, seen, path, side, after, cur) && cur in forward && cur !in after
    ensures Underway(forward, seen, path + [cur], side, after + {cur}, Onward(forward, path[|path| - 1], cur))
  {
    FollowsMore(forward, seen, path, side, cur);
    assert Elements(path + [cur]) == Elements(path) + {cur};
  }

  /** Walk both ways from the first free through-piece. */
  method WalkBoth(forward: Through, start: nat, seen: set<nat>) returns (chain: seq<nat>, after: set<nat>)
    requires FirstFree(forward, seen, start) && seen <= forward.Keys
    ensures MaximalChain(forward, seen, chain) && start in chain
    ensures after == seen + Elements(chain) && after <= forward.Keys
  {
    var left, right, between;
    left, between := WalkSide(forward, start, false, seen + {start});
    assert between == seen + Elements(left);
    right, after := WalkSide(forward, start, true, between);
    chain := Build(left, right);
    BuildElements(left, right);
    assert Grown(forward, seen, chain, left, right);
  }

  lemma {:induction false} BuildElements(left: seq<nat>, right: seq<nat>)
    requires left != [] && right != [] && left[0] == right[0]
    ensures Elements(Build(left, right)) == Elements(left) + Elements(right)
    ensures left[0] in Build(left, right)
  {
    ReversedElements(left);
    assert right == [right[0]] + right[1..];
    assert Reversed(left)[|left| - 1] == left[0];
  }

  lemma {:induction false} ReversedElements(s: seq<nat>)
    ensures Elements(Reversed(s)) == Elements(s)
  {
    forall x | x in s ensures x in Reversed(s) {
      var i :| 0 <= i < |s| && s[i] == x;
      assert Reversed(s)[|s| - 1 - i] == x;
    }
  }

  /** A walk along the pointers is a walk along the links. */
  lemma {:induction false} ArmJoined(forward: Through, links: Links, cells: seq<seq<Vec>>, seen: set<nat>,
                                     path: seq<nat>, side: bool, k: nat)
    requires LinksOf(cells, links) && ValidThrough(forward, links) && Follows(forward, seen, path, side)
    requires 0 < k < |path|
    ensures Joined(links, path, k)
  {
    assert Pointed(forward, path, side, k);
    LinksBothWays(cells, links, path[k - 1], path[k]);
  }

  lemma {:induction false} LinksBothWays(cells: seq<seq<Vec>>, links: Links, i: nat, j: nat)
    requires LinksOf(cells, links) && i < |links| && j in links[i]
    ensures j < |links| && i in links[j]
  {
    assert Neighbours(cells, i, j) && Neighbours(cells, j, i);
  }

  lemma {:induction false} BuildJoined(links: Links, left: seq<nat>, right: seq<nat>, k: nat)
    requires left != [] && right != [] && left[0] == right[0] && 0 < k < |Build(left, right)|
    requires k < |left| ==> Joined(links, left, |left| - k)
    requires k >= |left| ==> Joined(links, right, k - |left| + 1)
    ensures Joined(links, Build(left, right), k)
  {
    var chain, n := Build(left, right), |left|;
    if k < n {
      assert chain[k] == left[n - 1 - k] && chain[k - 1] == left[n - k];
    } else {
      assert chain[k] == right[k - n + 1] && chain[k - 1] == right[k - n];
    }
  }

  lemma {:induction false} BothArmsJoined(forward: Through, links: Links, cells: seq<seq<Vec>>, seen: set<nat>,
                                          left: seq<nat>, more: set<nat>, right: seq<nat>, k: nat)
    requires LinksOf(cells, links) && ValidThrough(forward, links) && left != [] && right != [] && left[0] == right[0]
    requires Follows(forward, seen, left, false) && Follows(forward, more, right, true) && 0 < k < |Build(left, right)|
    ensures Joined(links, Build(left, right), k)
  {
    if k < |left| {
      ArmJoined(forward, links, cells, seen, left, false, |left| - k);
    } else {
      ArmJoined(forward, links, cells, more, right, true, k - |left| + 1);
    }
    BuildJoined(links, left, right, k);
  }

  lemma {:induction false} BuildDistinct(left: seq<nat>, right: seq<nat>)
    requires left != [] && right != [] && Distinct(left) && Distinct(right)
    requires forall k :: 0 < k < |right| ==> right[k] !in left
    ensures Distinct(Build(left, right))
  {
    var chain, n := Build(left, right), |left|;
    forall k, j | 0 <= k < j < |chain| ensures chain[k] != chain[j] {
      assert k < n ==> chain[k] == left[n - 1 - k];
      assert j < n ==> chain[j] == left[n - 1 - j];
      assert j >= n ==> chain[j] == right[j - n + 1];
      assert k >= n ==> chain[k] == right[k - n + 1];
    }
  }

  lemma {:induction false} GrownDistinct(forward: Through, taken: set<nat>, chain: seq<nat>, left: seq<nat>,
                                         right: seq<nat>)
    requires Grown(forward, taken, chain, left, right)
    ensures Distinct(chain)
    ensures forall x :: x in chain ==> x in forward && x !in taken
  {
    forall k | 0 < k < |right| ensures right[k] !in left {
      assert right[k] !in taken + Elements(left);
    }
    BuildDistinct(left, right);
    BuildElements(left, right);
    forall x | x in chain ensures x in forward && x !in taken {
      assert x in Elements(chain);
    }
  }

  lemma {:induction false} MaximalIsChain(forward: Through, links: Links, cells: seq<seq<Vec>>, taken: set<nat>,
                                          chain: seq<nat>)
    requires LinksOf(cells, links) && ValidThrough(forward, links) && MaximalChain(forward, taken, chain)
    ensures IsChain(forward, links, chain) && Elements(chain) !! taken
  {
    var left, right :| Grown(forward, taken, chain, left, right);
    GrownDistinct(forward, taken, chain, left, right);
    forall k | 0 < k < |chain| ensures Joined(links, chain, k) {
      BothArmsJoined(forward, links, cells, taken + {left[0]}, left, taken + Elements(left), right, k);
    }
  }

  lemma {:induction false} MembersSnoc(chains: seq<seq<nat>>, c: seq<nat>)
    ensures Members(chains + [c]) == Members(chains) + Elements(c)
  {
    var all := chains + [c];
    forall x ensures x in Members(all) <==> x in Members(chains) || x in Elements(c) {
      if x in Members(chains) {
        var k :| 0 <= k < |chains| && x in chains[k];
        assert x in all[k];
      }
      if x in Elements(c) {
        assert x in all[|chains|];
      }
      if x in Members(all) {
        var k :| 0 <= k < |all| && x in all[k];
        assert k < |chains| ==> x in chains[k];
      }
    }
  }

  /** The chains found so far, and what they have taken. */
  ghost predicate Finding(forward: Through, chains: seq<seq<nat>>, seen: set<nat>) {
    ChainsOf(forward, chains) && Members(chains) == seen && seen <= forward.Keys
  }

  method TakeChain(forward: Through, start: nat, before: seq<seq<nat>>, seen: set<nat>)
    returns (chains: seq<seq<nat>>, after: set<nat>)
    requires Finding(forward, before, seen) && FirstFree(forward, seen, start)
    ensures Finding(forward, chains, after) && seen <= after && start in after
  {
    var chain;
    chain, after := WalkBoth(forward, start, seen);
    chains := before + [chain];
    OneMore(forward, before, chain);
    MembersSnoc(before, chain);
  }

  lemma {:induction false} OneMore(forward: Through, chains: seq<seq<nat>>, chain: seq<nat>)
    requires ChainsOf(forward, chains) && MaximalChain(forward, Members(chains), chain)
    ensures ChainsOf(forward, chains + [chain])
  {
    var all := chains + [chain];
    forall m | 0 <= m < |all| ensures ChainAt(forward, all, m) {
      if m < |chains| {
        assert ChainAt(forward, chains, m);
        assert all[..m] == chains[..m];
      } else {
        assert all[..m] == chains;
      }
    }
  }

  /** Each chain is the maximal walk from the first free through-piece, and together they hold all of them. */
  method FindChains(count: nat, forward: Through) returns (chains: seq<seq<nat>>)
    requires forall i :: i in forward ==> i < count
    ensures ChainsOf(forward, chains)
    ensures Members(chains) == forward.Keys
  {
    chains := [];
    var seen: set<nat> := {};
    for start := 0 to count
      invariant Finding(forward, chains, seen)
      invariant forall i :: i in forward && i < start ==> i in seen
    {
      if start in forward && start !in seen {
        chains, seen := TakeChain(forward, start, chains, seen);
      }
    }
    assert seen == forward.Keys;
  }

  lemma {:induction false} ChainAtValid(forward: Through, links: Links, cells: seq<seq<Vec>>, chains: seq<seq<nat>>,
                                        m: nat)
    requires LinksOf(cells, links) && ValidThrough(forward, links) && ChainAt(forward, chains, m)
    ensures IsChain(forward, links, chains[m])
    ensures forall j :: 0 <= j < m ==> Elements(chains[j]) !! Elements(chains[m])
  {
    var taken := Members(chains[..m]);
    MaximalIsChain(forward, links, cells, taken, chains[m]);
    forall j | 0 <= j < m ensures Elements(chains[j]) <= taken {
      assert chains[..m][j] == chains[j];
    }
  }

  /** Maximal walks are simple paths along the links, and no two of them share a member. */
  lemma {:induction false} ChainsAreValid(forward: Through, links: Links, cells: seq<seq<Vec>>, chains: seq<seq<nat>>)
    requires LinksOf(cells, links) && ValidThrough(forward, links) && ChainsOf(forward, chains)
    ensures ValidChains(forward, links, chains)
  {
    forall m | 0 <= m < |chains|
      ensures IsChain(forward, links, chains[m])
      ensures forall j :: 0 <= j < m ==> Elements(chains[j]) !! Elements(chains[m])
    {
      ChainAtValid(forward, links, cells, chains, m);
    }
  }

  // ----- the chains are determined by the pointers -----

  lemma {:induction false} PointersAgree(forward: Through, p: seq<nat>, q: seq<nat>, side: bool, k: nat)
    requires k < |p| && k < |q| && p[k] == q[k] && (k > 0 ==> p[k - 1] == q[k - 1]) && p[k] in forward
    requires k == 0 || p[0] == q[0]
    ensures Pointer(forward, p, side, k) == Pointer(forward, q, side, k)
  {}

  lemma {:induction false} ArmsAgree(forward: Through, seen: set<nat>, p: seq<nat>, q: seq<nat>, side: bool, i: nat)
    requires Follows(forward, seen, p, side) && Follows(forward, seen, q, side) && p[0] == q[0]
    requires i < |p| && i < |q|
    ensures p[i] == q[i]
  {
    if i > 0 {
      ArmsAgree(forward, seen, p, q, side, i - 1);
      if i > 1 {
        ArmsAgree(forward, seen, p, q, side, i - 2);
      }
      PointersAgree(forward, p, q, side, i - 1);
      assert Pointed(forward, p, side, i) && Pointed(forward, q, side, i);
    }
  }

  /** A walk that stops early could have gone on, so two maximal walks from one start are the same. */
  lemma {:induction false} ArmUnique(forward: Through, seen: set<nat>, p: seq<nat>, q: seq<nat>, side: bool)
    requires IsArm(forward, seen, p, side) && IsArm(forward, seen, q, side) && p[0] == q[0]
    ensures p == q
  {
    forall i | 0 <= i < |p| && i < |q| ensures p[i] == q[i] {
      ArmsAgree(forward, seen, p, q, side, i);
    }
    if |p| <= |q| {
      assert p == q[..|p|];
      PrefixStops(forward, seen, q, side, |p|);
    } else {
      assert q == p[..|q|];
      PrefixStops(forward, seen, p, side, |q|);
    }
  }

  /** A maximal walk has no proper part that is maximal. */
  lemma {:induction false} PrefixStops(forward: Through, seen: set<nat>, q: seq<nat>, side: bool, n: nat)
    requires 0 < n <= |q| && Follows(forward, seen, q, side) && IsArm(forward, seen, q[..n], side)
    ensures n == |q|
  {
    PointersAgree(forward, q[..n], q, side, n - 1);
    assert n == |q| || Pointed(forward, q, side, n);
  }

  lemma {:induction false} ChainUnique(forward: Through, taken: set<nat>, c: seq<nat>, d: seq<nat>)
    requires MaximalChain(forward, taken, c) && MaximalChain(forward, taken, d)
    ensures c == d
  {
    var cl, cr :| Grown(forward, taken, c, cl, cr);
    var dl, dr :| Grown(forward, taken, d, dl, dr);
    assert cl[0] == dl[0];
    ArmUnique(forward, taken + {cl[0]}, cl, dl, false);
    ArmUnique(forward, taken + Elements(cl), cr, dr, true);
  }

  lemma {:induction false} CommonChains(forward: Through, a: seq<seq<nat>>, b: seq<seq<nat>>, m: nat)
    requires ChainsOf(forward, a) && ChainsOf(forward, b) && m < |a| && m < |b|
    ensures a[m] == b[m]
  {
    forall j | 0 <= j < m ensures a[j] == b[j] {
      CommonChains(forward, a, b, j);
    }
    assert a[..m] == b[..m];
    assert ChainAt(forward, a, m) && ChainAt(forward, b, m);
    ChainUnique(forward, Members(a[..m]), a[m], b[m]);
  }

  /** A complete list of chains cannot be extended. */
  lemma {:induction false} ChainsExtend(forward: Through, a: seq<seq<nat>>, b: seq<seq<nat>>)
    requires ChainsOf(forward, a) && ChainsOf(forward, b) && |a| <= |b| && Members(a) == forward.Keys
    ensures a == b
  {
    forall m | 0 <= m < |a| ensures a[m] == b[m] {
      CommonChains(forward, a, b, m);
    }
    assert a == b[..|a|];
    forall c ensures !MaximalChain(forward, forward.Keys, c) {
      NoMoreChains(forward, c);
    }
    assert |a| == |b| || ChainAt(forward, b, |a|);
  }

  /** The pointers determine the chains: two lists of maximal chains that hold all through-pieces are the same list. */
  lemma {:induction false} ChainsUnique(forward: Through, a: seq<seq<nat>>, b: seq<seq<nat>>)
    requires ChainsOf(forward, a) && ChainsOf(forward, b) && Members(a) == forward.Keys == Members(b)
    ensures a == b
  {
    if |a| <= |b| {
      ChainsExtend(forward, a, b);
    } else {
      ChainsExtend(forward, b, a);
    }
  }

  /** A further chain needs a free through-piece. */
  lemma {:induction false} NoMoreChains(forward: Through, c: seq<nat>)
    ensures !MaximalChain(forward, forward.Keys, c)
  {}

  // ----- windows -----

  function Window(chain: seq<nat>, i: nat, maxRun: nat): seq<nat>
    requires i <= |chain|
  {
    if i + maxRun <= |chain| then chain[i..i + maxRun] else chain[i..]
  }

  /** A window is what follows its first position in the chain, as long as the limit and the chain allow. */
  lemma {:induction false} WindowMeans(chain: seq<nat>, i: nat, maxRun: nat)
    requires i <= |chain|
    ensures |Window(chain, i, maxRun)| == if maxRun < |chain| - i then maxRun else |chain| - i
    ensures Window(chain, i, maxRun) <= chain[i..]
  {}

  /** How many windows of a chain of length `n` are long enough. */
  function RunCount(n: nat, minRun: nat, maxRun: nat): nat {
    if minRun <= n && minRun <= maxRun then n - minRun + 1 else 0
  }

  /** The windows from each position that are long enough. */
  function Windows(chain: seq<nat>, minRun: nat, maxRun: nat): seq<seq<nat>> {
    var n := RunCount(|chain|, minRun, maxRun);
    seq(n, i requires 0 <= i < n => Window(chain, i, maxRun))
  }

  /** All runs of one chain; a chain of `n` pieces gives `n - minRun + 1` of them. */
  method CutRuns(chain: seq<nat>, minRun: nat, maxRun: nat) returns (runs: seq<seq<nat>>)
    ensures runs == Windows(chain, minRun, maxRun)
  {
    runs := [];
    if |chain| >= minRun {
      for i := 0 to |chain| - minRun + 1
        invariant |runs| == if minRun <= maxRun then i else 0
        invariant forall j :: 0 <= j < |runs| ==> WindowAt(chain, j, maxRun, runs[j])
      {
        var window := Window(chain, i, maxRun);
        if |window| >= minRun {
          runs := runs + [window];
        }
      }
    }
    WindowsListed(chain, minRun, maxRun, runs);
  }

  ghost predicate WindowAt(chain: seq<nat>, j: nat, maxRun: nat, w: seq<nat>) {
    j <= |chain| && w == Window(chain, j, maxRun)
  }

  lemma {:induction false} WindowsListed(chain: seq<nat>, minRun: nat, maxRun: nat, runs: seq<seq<nat>>)
    requires |runs| == RunCount(|chain|, minRun, maxRun)
    requires forall j :: 0 <= j < |runs| ==> WindowAt(chain, j, maxRun, runs[j])
    ensures runs == Windows(chain, minRun, maxRun)
  {}

  /** Every window has a length within the bounds. */
  lemma {:induction false} WindowLengths(chain: seq<nat>, minRun: nat, maxRun: nat, i: nat)
    requires i < RunCount(|chain|, minRun, maxRun)
    ensures minRun <= |Window(chain, i, maxRun)| <= maxRun
  {}

  // ----- one map -----

  /** A run: some chain member after another, each touching the next by a cell face. */
  ghost predicate IsRun(cells: seq<seq<Vec>>, r: seq<nat>, minRun: nat, maxRun: nat) {
    && minRun <= |r| <= maxRun && Distinct(r)
    && forall k :: 0 < k < |r| ==> Touch(cells, r[k - 1], r[k])
  }

  function AllRuns(chains: seq<seq<nat>>, minRun: nat, maxRun: nat): seq<seq<nat>> {
    FlatMap(c => Windows(c, minRun, maxRun), chains)
  }

  lemma {:induction false} AllRunsMore(chains: seq<seq<nat>>, k: nat, minRun: nat, maxRun: nat)
    requires k < |chains|
    ensures AllRuns(chains[..k + 1], minRun, maxRun)
         == AllRuns(chains[..k], minRun, maxRun) + Windows(chains[k], minRun, maxRun)
  {
    assert chains[..k + 1][..k] == chains[..k];
  }

  lemma {:induction false} WindowIsRun(forward: Through, links: Links, cells: seq<seq<Vec>>, chain: seq<nat>, i: nat,
                                       minRun: nat, maxRun: nat)
    requires LinksOf(cells, links) && IsChain(forward, links, chain) && i <= |chain|
    requires minRun <= |Window(chain, i, maxRun)|
    ensures IsRun(cells, Window(chain, i, maxRun), minRun, maxRun)
  {
    var w := Window(chain, i, maxRun);
    forall k | 0 < k < |w| ensures Touch(cells, w[k - 1], w[k]) {
      assert w[k] == chain[i + k] && w[k - 1] == chain[i + k - 1];
      assert Joined(links, chain, i + k);
      NeighboursTouch(cells, w[k - 1], w[k]);
    }
  }

  /** The runs of a map: all windows of the maximal chains of its through-pieces. */
  ghost predicate RunsOf(at: seq<Vec>, cells: seq<seq<Vec>>, minRun: nat, maxRun: nat, runs: seq<seq<nat>>) {
    exists links, forward, chains :: Mined(at, cells, links, forward, chains) && runs == AllRuns(chains, minRun, maxRun)
  }

  ghost predicate Mined(at: seq<Vec>, cells: seq<seq<Vec>>, links: Links, forward: Through, chains: seq<seq<nat>>) {
    && LinksOf(cells, links) && ThroughUpTo(at, links, forward, |links|)
    && ChainsOf(forward, chains) && Members(chains) == forward.Keys
  }

  /** Cutting every chain into its windows gives runs only. */
  lemma {:induction false} AllRunsAreRuns(forward: Through, links: Links, cells: seq<seq<Vec>>, chains: seq<seq<nat>>,
                                          minRun: nat, maxRun: nat, r: seq<nat>)
    requires LinksOf(cells, links) && ValidChains(forward, links, chains) && r in AllRuns(chains, minRun, maxRun)
    ensures IsRun(cells, r, minRun, maxRun)
  {
    FlatMapMember(c => Windows(c, minRun, maxRun), chains, r);
    var c :| c in chains && r in Windows(c, minRun, maxRun);
    var k :| 0 <= k < |chains| && chains[k] == c;
    var i :| 0 <= i < |Windows(c, minRun, maxRun)| && Windows(c, minRun, maxRun)[i] == r;
    WindowLengths(c, minRun, maxRun, i);
    WindowIsRun(forward, links, cells, c, i, minRun, maxRun);
  }

  /** All runs of a map, as lists of placement indices; `at` holds the anchors and `cells` the world cells. */
  method ExtractRuns(at: seq<Vec>, cells: seq<seq<Vec>>, minRun: nat, maxRun: nat) returns (runs: seq<seq<nat>>)
    requires |at| == |cells|
    ensures if |at| < minRun then runs == [] else RunsOf(at, cells, minRun, maxRun, runs)
    ensures forall r :: r in runs ==> IsRun(cells, r, minRun, maxRun)
  {
    runs := [];
    if |at| < minRun {
      return;
    }
    var owner := BuildOwners(cells);
    var links := BuildLinks(cells, owner);
    assert LinksInside(links) by {
      forall i, j | 0 <= i < |links| && j in links[i] ensures j < |links| {
        assert Neighbours(cells, i, j);
      }
    }
    var forward := FindThrough(at, links);
    var chains := FindChains(|at|, forward);
    runs := CutAll(chains, minRun, maxRun);
    ChainsAreValid(forward, links, cells, chains);
    forall r | r in runs ensures IsRun(cells, r, minRun, maxRun) {
      AllRunsAreRuns(forward, links, cells, chains, minRun, maxRun, r);
    }
    assert Mined(at, cells, links, forward, chains);
  }

  method CutAll(chains: seq<seq<nat>>, minRun: nat, maxRun: nat) returns (runs: seq<seq<nat>>)
    ensures runs == AllRuns(chains, minRun, maxRun)
  {
    runs := [];
    for k := 0 to |chains|
      invariant runs == AllRuns(chains[..k], minRun, maxRun)
    {
      var more := CutRuns(chains[k], minRun, maxRun);
      AllRunsMore(chains, k, minRun, maxRun);
      runs := runs + more;
    }
    assert chains[..|chains|] == chains;
  }
}
