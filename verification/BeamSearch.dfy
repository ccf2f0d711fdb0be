/**
 Block-by-block synthesis between anchors: a beam search that steps toward the destination cell.
 The score of a candidate is an arbitrary function, so the results hold for every scorer.
 */
module BeamSearch {
  import opened Rotation
  import opened Collections
  import opened Layers

  // ----- stepping toward the destination -----

  /** Unit steps by rotation: +x, +z, -x, -z. */
  function Advance(cell: Vec, rotation: Quarter): Vec {
    Vec(cell.x + (if rotation == 0 then 1 else if rotation == 2 then -1 else 0),
        cell.y,
        cell.z + (if rotation == 1 then 1 else if rotation == 3 then -1 else 0))
  }

  /** Along the longer axis; X wins a tie. */
  function DirectionToward(src: Vec, dst: Vec): Quarter {
    var dx, dz := dst.x - src.x, dst.z - src.z;
    if Abs(dx) >= Abs(dz) then (if dx >= 0 then 0 else 2) else (if dz >= 0 then 1 else 3)
  }

  function Step(cell: Vec, dst: Vec): Vec { Advance(cell, DirectionToward(cell, dst)) }

  /** Chebyshev-adjacent in the horizontal plane. */
  predicate Close(cell: Vec, dst: Vec) { Abs(dst.x - cell.x) <= 1 && Abs(dst.z - cell.z) <= 1 }

  function Less1(n: int): nat { if Abs(n) <= 1 then 0 else Abs(n) - 1 }

  /** How many steps it takes to come close. */
  function Needed(cell: Vec, dst: Vec): nat { Less1(dst.x - cell.x) + Less1(dst.z - cell.z) }

  function Distance(cell: Vec, dst: Vec): nat { Abs(dst.x - cell.x) + Abs(dst.z - cell.z) }

  /** The cell after `k` steps. */
  function Greedy(src: Vec, dst: Vec, k: nat): Vec {
    if k == 0 then src else Step(Greedy(src, dst, k - 1), dst)
  }

  lemma {:induction false} NeededIsZero(cell: Vec, dst: Vec)
    ensures Needed(cell, dst) == 0 <==> Close(cell, dst)
  {}

  /** Until it is close, every step cuts both the distance and the number of steps left by one. */
  lemma {:induction false} StepProgress(cell: Vec, dst: Vec)
    requires !Close(cell, dst)
    ensures Distance(Step(cell, dst), dst) == Distance(cell, dst) - 1
    ensures Needed(Step(cell, dst), dst) == Needed(cell, dst) - 1
    ensures Step(cell, dst).y == cell.y
  {}

  lemma {:induction false} GreedyProgress(src: Vec, dst: Vec, k: nat)
    requires k <= Needed(src, dst)
    ensures Needed(Greedy(src, dst, k), dst) == Needed(src, dst) - k
    ensures Distance(Greedy(src, dst, k), dst) == Distance(src, dst) - k
  {
    if k > 0 {
      GreedyProgress(src, dst, k - 1);
      NeededIsZero(Greedy(src, dst, k - 1), dst);
      StepProgress(Greedy(src, dst, k - 1), dst);
    }
  }

  /** The first `k + 1` cells of the greedy walk. */
  function Path(src: Vec, dst: Vec, k: nat): seq<Vec> {
    seq(k + 1, i requires 0 <= i => Greedy(src, dst, i))
  }

  lemma {:induction false} PathDistinct(src: Vec, dst: Vec, k: nat)
    requires k <= Needed(src, dst)
    ensures Distinct(Path(src, dst, k))
  {
    forall i, j | 0 <= i < j <= k ensures Path(src, dst, k)[i] != Path(src, dst, k)[j] {
      GreedyProgress(src, dst, i);
      GreedyProgress(src, dst, j);
    }
  }

  // ----- beams -----

  datatype Entry = Entry(family: string, name: string, footprintX: int)

  datatype Block = Block(family: string, name: string, at: Vec, rotation: Quarter, score: real)

  datatype Beam = Beam(blocks: seq<Block>, pathCells: seq<Vec>, intervalCells: set<Vec>, scoreSum: real,
                       current: Vec, prev: Option<(string, string)>, prevPrev: Option<(string, string)>)

  function ShadowCell(origin: Vec, rotation: Quarter, i: int): Vec {
    Vec(origin.x + (if rotation == 0 then i else if rotation == 2 then -i else 0),
        origin.y,
        origin.z + (if rotation == 1 then i else if rotation == 3 then -i else 0))
  }

  /** Origin and shadow: a wide mesh extends along its rotation. */
  function FootprintCells(origin: Vec, rotation: Quarter, footprintX: int): set<Vec> {
    if footprintX <= 1 then {origin} else set i | 0 <= i < footprintX :: ShadowCell(origin, rotation, i)
  }

  predicate ReachedDst(b: Beam, dst: Vec) { b.blocks != [] && Close(b.current, dst) }

  /** A score for putting `entry` at the next cell of a beam, given the cells in use. */
  type Scorer = (Beam, Entry, set<Vec>) -> real

  function Child(b: Beam, e: Entry, next: Vec, rotation: Quarter, score: real): Beam {
    Beam(b.blocks + [Block(e.family, e.name, next, rotation, score)], b.pathCells + [next],
         b.intervalCells + FootprintCells(next, rotation, e.footprintX), b.scoreSum + score, next,
         Some((e.family, e.name)), b.prev)
  }

  function ByScore(a: (real, Entry), b: (real, Entry)): bool { a.0 >= b.0 }

  /** Expand one beam by one step: the best `topN` candidates at the next greedy cell. */
  function ExpandBeam(b: Beam, dst: Vec, catalogue: seq<Entry>, occupied: set<Vec>, score: Scorer,
                      topN: nat): seq<Beam> {
    var rotation := DirectionToward(b.current, dst);
    var next := Advance(b.current, rotation);
    if next in occupied || next in b.intervalCells then []
    else
      var scored := Map((e: Entry) => (score(b, e, occupied + b.intervalCells), e), catalogue);
      var best := TakeAtMost(Sort(ByScore, scored), topN);
      Map((s: (real, Entry)) => Child(b, s.1, next, rotation, s.0), best)
  }

  // ----- what every live beam looks like -----

  /** A beam after `k` steps: whatever was scored, it stands on the greedy walk, on free cells only. */
  ghost predicate OnPath(b: Beam, src: Vec, dst: Vec, occupied: set<Vec>, k: nat) {
    && b.pathCells == Path(src, dst, k)
    && b.current == Greedy(src, dst, k)
    && |b.blocks| == k
    && (forall i :: 0 <= i < k ==> b.blocks[i].at == Greedy(src, dst, i + 1))
    && (forall i :: 1 <= i <= k ==> Greedy(src, dst, i) !in occupied && Greedy(src, dst, i) in b.intervalCells)
  }

  /** With one-cell blocks the cells taken are exactly the walk's. */
  ghost predicate Unit(catalogue: seq<Entry>) { forall e :: e in catalogue ==> e.footprintX <= 1 }

  ghost predicate Lean(b: Beam, src: Vec, dst: Vec, k: nat) {
    forall c :: c in b.intervalCells ==> exists i :: 1 <= i <= k && c == Greedy(src, dst, i)
  }

  lemma {:induction false} ExpandKeepsPath(b: Beam, src: Vec, dst: Vec, k: nat, catalogue: seq<Entry>,
                                           occupied: set<Vec>, score: Scorer, topN: nat, c: Beam)
    requires OnPath(b, src, dst, occupied, k) && c in ExpandBeam(b, dst, catalogue, occupied, score, topN)
    ensures OnPath(c, src, dst, occupied, k + 1)
    ensures Greedy(src, dst, k + 1) !in occupied
    ensures Unit(catalogue) && Lean(b, src, dst, k) ==> Lean(c, src, dst, k + 1)
  {
    var e, s := ChildOrigin(b, dst, catalogue, occupied, score, topN, c);
    ChildOnPath(b, src, dst, k, occupied, e, s);
    if Unit(catalogue) && Lean(b, src, dst, k) {
      ChildLean(b, src, dst, k, e, s);
    }
  }

  /** A child placed at the next cell of the walk. */
  function ChildAt(b: Beam, dst: Vec, e: Entry, s: real): Beam {
    Child(b, e, Step(b.current, dst), DirectionToward(b.current, dst), s)
  }

  lemma {:induction false} ChildOnPath(b: Beam, src: Vec, dst: Vec, k: nat, occupied: set<Vec>, e: Entry, s: real)
    requires OnPath(b, src, dst, occupied, k) && Step(b.current, dst) !in occupied
    ensures OnPath(ChildAt(b, dst, e, s), src, dst, occupied, k + 1) && Greedy(src, dst, k + 1) !in occupied
  {
    var c, next := ChildAt(b, dst, e, s), Greedy(src, dst, k + 1);
    assert next == Step(b.current, dst);
    assert Path(src, dst, k + 1) == Path(src, dst, k) + [next];
    FootprintHasOrigin(next, DirectionToward(b.current, dst), e.footprintX);
    forall i | 1 <= i <= k + 1 ensures Greedy(src, dst, i) !in occupied && Greedy(src, dst, i) in c.intervalCells {
      assert i <= k ==> Greedy(src, dst, i) in b.intervalCells;
    }
  }

  lemma {:induction false} ChildLean(b: Beam, src: Vec, dst: Vec, k: nat, e: Entry, s: real)
    requires e.footprintX <= 1 && Lean(b, src, dst, k) && b.current == Greedy(src, dst, k)
    ensures Lean(ChildAt(b, dst, e, s), src, dst, k + 1)
  {
    var c, next := ChildAt(b, dst, e, s), Greedy(src, dst, k + 1);
    assert c.intervalCells == b.intervalCells + {next};
    forall x | x in c.intervalCells ensures exists i :: 1 <= i <= k + 1 && x == Greedy(src, dst, i) {
      if x in b.intervalCells {
        var i :| 1 <= i <= k && x == Greedy(src, dst, i);
      }
    }
  }

  lemma {:induction false} FootprintHasOrigin(origin: Vec, rotation: Quarter, footprintX: int)
    ensures origin in FootprintCells(origin, rotation, footprintX)
  {
    if footprintX > 1 {
      assert origin == ShadowCell(origin, rotation, 0);
    }
  }

  lemma {:induction false} ChildOrigin(b: Beam, dst: Vec, catalogue: seq<Entry>, occupied: set<Vec>,
                                       score: Scorer, topN: nat, c: Beam) returns (e: Entry, s: real)
    requires c in ExpandBeam(b, dst, catalogue, occupied, score, topN)
    ensures e in catalogue && c == ChildAt(b, dst, e, s)
    ensures Step(b.current, dst) !in occupied
  {
    var scored := Map((e: Entry) => (score(b, e, occupied + b.intervalCells), e), catalogue);
    SortPermutes(ByScore, scored);
    var best := TakeAtMost(Sort(ByScore, scored), topN);
    var i :| 0 <= i < |best| && ExpandBeam(b, dst, catalogue, occupied, score, topN)[i] == c;
    assert best[i] in Sort(ByScore, scored);
    assert best[i] in scored;
    s, e := best[i].0, best[i].1;
    var j :| 0 <= j < |scored| && scored[j] == best[i];
    assert catalogue[j] == e;
  }

  /** When expansion yields anything. */
  lemma {:induction false} ExpandNonEmpty(b: Beam, dst: Vec, catalogue: seq<Entry>, occupied: set<Vec>, score: Scorer,
                                          topN: nat)
    requires topN >= 1
    ensures ExpandBeam(b, dst, catalogue, occupied, score, topN) != [] <==>
            catalogue != [] && Step(b.current, dst) !in occupied && Step(b.current, dst) !in b.intervalCells
  {
    SortPermutes(ByScore, Map((e: Entry) => (score(b, e, occupied + b.intervalCells), e), catalogue));
  }

  // ----- the layers of the search -----

  datatype Task = Task(src: Vec, dst: Vec, srcBlock: Option<(string, string)>, catalogue: seq<Entry>,
                       occupied: set<Vec>, score: Scorer, width: nat, topN: nat)

  function Initial(t: Task): Beam { Beam([], [t.src], {}, 0.0, t.src, t.srcBlock, None) }

  function Expander(t: Task): Beam -> seq<Beam> {
    b => ExpandBeam(b, t.dst, t.catalogue, t.occupied, t.score, t.topN)
  }

  function Arrived(t: Task): Beam -> bool { b => ReachedDst(b, t.dst) }

  function ByTotal(a: Beam, b: Beam): bool { a.scoreSum >= b.scoreSum }

  /** The live beams after `k` steps: the best `width` children of the layer before. */
  function Beams(t: Task, k: nat): seq<Beam> { Layer(Expander(t), ByTotal, t.width, Initial(t), k) }

  ghost predicate Good(t: Task, b: Beam, k: nat) {
    OnPath(b, t.src, t.dst, t.occupied, k) && (Unit(t.catalogue) ==> Lean(b, t.src, t.dst, k))
  }

  /** All beams of a layer share one path: the greedy walk, on free cells. */
  lemma {:induction false} BeamsOnPath(t: Task, k: nat)
    ensures forall b :: b in Beams(t, k) ==> Good(t, b, k)
  {
    var inv := (b: Beam, i: nat) => Good(t, b, i);
    assert Path(t.src, t.dst, 0) == [t.src];
    assert inv(Initial(t), 0);
    forall b, i: nat, c | inv(b, i) && c in Expander(t)(b) ensures inv(c, i + 1) {
      ExpandKeepsPath(b, t.src, t.dst, i, t.catalogue, t.occupied, t.score, t.topN, c);
    }
    LayerInvariant(Expander(t), ByTotal, t.width, Initial(t), k, inv);
    forall b | b in Beams(t, k) ensures Good(t, b, k) {
      assert inv(b, k);
    }
  }

  ghost predicate Clear(t: Task, n: nat) {
    forall i :: 1 <= i <= n ==> Greedy(t.src, t.dst, i) !in t.occupied
  }

  /** With one-cell blocks a layer is inhabited exactly as long as the walk is free and there is a block to place. */
  lemma {:induction false} BeamsInhabited(t: Task, k: nat)
    requires Unit(t.catalogue) && t.width >= 1 && t.topN >= 1 && k <= Needed(t.src, t.dst)
    ensures Beams(t, k) != [] <==> k == 0 || (t.catalogue != [] && Clear(t, k))
  {
    forall i: nat | i < k ensures Continues(AliveAt(t), FreeAt(t), i) {
      BeamsContinue(t, i);
    }
    AliveAtStart(t);
    AliveWhileFree(AliveAt(t), FreeAt(t), k);
    FreeIsClear(t, FreeAt(t), k);
  }

  ghost function AliveAt(t: Task): nat -> bool { (i: nat) => Beams(t, i) != [] }

  ghost function FreeAt(t: Task): nat -> bool { (i: nat) => Free(t, i) }

  lemma {:induction false} AliveAtStart(t: Task)
    ensures AliveAt(t)(0)
  {}

  lemma {:induction false} BeamsContinue(t: Task, i: nat)
    requires Unit(t.catalogue) && t.width >= 1 && t.topN >= 1 && i < Needed(t.src, t.dst)
    ensures Continues(AliveAt(t), FreeAt(t), i)
  {
    BeamsStep(t, i);
  }

  ghost predicate Continues(alive: nat -> bool, free: nat -> bool, i: nat) { alive(i + 1) <==> alive(i) && free(i + 1) }

  ghost predicate FreeUpTo(free: nat -> bool, k: nat) { k == 0 || (FreeUpTo(free, k - 1) && free(k)) }

  lemma {:induction false} AliveWhileFree(alive: nat -> bool, free: nat -> bool, k: nat)
    requires alive(0) && forall i: nat :: i < k ==> Continues(alive, free, i)
    ensures alive(k) <==> FreeUpTo(free, k)
  {
    if k > 0 {
      AliveWhileFree(alive, free, k - 1);
      assert Continues(alive, free, k - 1);
    }
  }

  lemma {:induction false} FreeIsClear(t: Task, free: nat -> bool, k: nat)
    requires forall i: nat :: free(i) == Free(t, i)
    ensures FreeUpTo(free, k) <==> k == 0 || (t.catalogue != [] && Clear(t, k))
  {
    if k > 0 {
      FreeIsClear(t, free, k - 1);
      ClearStep(t, k);
    }
  }

  lemma {:induction false} ClearStep(t: Task, k: nat)
    requires k > 0
    ensures Clear(t, k) <==> Clear(t, k - 1) && Greedy(t.src, t.dst, k) !in t.occupied
  {}

  lemma {:induction false} BeamsStep(t: Task, k: nat)
    requires Unit(t.catalogue) && t.width >= 1 && t.topN >= 1 && k < Needed(t.src, t.dst)
    ensures Beams(t, k + 1) != [] <==> Beams(t, k) != [] && Free(t, k + 1)
  {
    BeamsAlike(t, k);
    NextInhabited(Expander(t), ByTotal, t.width, Initial(t), k, Free(t, k + 1));
  }

  /** The `k`-th cell of the walk can be built on. */
  ghost predicate Free(t: Task, k: nat) { t.catalogue != [] && Greedy(t.src, t.dst, k) !in t.occupied }

  lemma {:induction false} BeamsAlike(t: Task, k: nat)
    requires Unit(t.catalogue) && t.topN >= 1 && k < Needed(t.src, t.dst)
    ensures ExpandsIff(Expander(t), Beams(t, k), Free(t, k + 1))
  {
    BeamsOnPath(t, k);
    forall b | b in Beams(t, k) ensures Expander(t)(b) != [] <==> Free(t, k + 1) {
      assert Good(t, b, k);
      BeamExpands(t, k, b);
    }
  }

  lemma {:induction false} BeamExpands(t: Task, k: nat, b: Beam)
    requires Unit(t.catalogue) && t.topN >= 1 && k < Needed(t.src, t.dst) && Good(t, b, k)
    ensures Expander(t)(b) != [] <==> Free(t, k + 1)
  {
    NextIsNew(t, k + 1, b);
    ExpandNonEmpty(b, t.dst, t.catalogue, t.occupied, t.score, t.topN);
  }

  /** The next greedy cell is strictly nearer, so the walk never meets its own cells. */
  lemma {:induction false} NextIsNew(t: Task, k: nat, b: Beam)
    requires 1 <= k <= Needed(t.src, t.dst) && OnPath(b, t.src, t.dst, t.occupied, k - 1)
    requires Lean(b, t.src, t.dst, k - 1)
    ensures Step(b.current, t.dst) == Greedy(t.src, t.dst, k)
    ensures Greedy(t.src, t.dst, k) !in b.intervalCells
  {
    var next := Greedy(t.src, t.dst, k);
    GreedyProgress(t.src, t.dst, k);
    forall c | c in b.intervalCells ensures c != next {
      var i :| 1 <= i <= k - 1 && c == Greedy(t.src, t.dst, i);
      GreedyProgress(t.src, t.dst, i);
    }
  }

  // ----- one interval -----

  datatype Reject = NoValidCandidates | BeamExhausted

  datatype Interval = Interval(blocks: seq<Block>, pathCells: seq<Vec>, scoreSum: real, reject: Option<Reject>)

  function Mean(b: Beam): real { b.scoreSum / (if |b.blocks| < 1 then 1 else |b.blocks|) as real }

  /** Higher mean score first, then fewer blocks. */
  predicate Better(a: Beam, b: Beam) {
    Mean(a) > Mean(b) || (Mean(a) == Mean(b) && |a.blocks| < |b.blocks|)
  }

  lemma {:induction false} BetterIsStrict()
    ensures StrictWeak(Better)
  {
    forall a, b, c ensures Better(a, b) && !Better(c, b) ==> Better(a, c) && !Better(c, a) {
      BetterBeats(a, b, c);
    }
  }

  lemma {:induction false} BetterBeats(a: Beam, b: Beam, c: Beam)
    ensures Better(a, b) && !Better(c, b) ==> Better(a, c) && !Better(c, a)
    ensures !Better(a, a)
  {}

  /** None of the beams is better, and all before it are worse. */
  ghost predicate FirstBest(beams: seq<Beam>, best: Beam) { FirstMax(Better, beams, best) }

  method BestOf(beams: seq<Beam>) returns (best: Beam)
    requires beams != []
    ensures best in beams && FirstBest(beams, best)
  {
    BetterIsStrict();
    best := MaxBy(Better, beams);
  }

  /** The result is the best beam of the layer that arrives. */
  ghost predicate Arrives(t: Task, r: Interval, won: Beam) {
    && FirstBest(Beams(t, Needed(t.src, t.dst)), won)
    && r == Interval(won.blocks, won.pathCells, won.scoreSum, None)
  }

  /** The blocks placed stand on the first cells of the greedy walk, all of them free before. */
  ghost predicate Walked(t: Task, r: Interval) {
    && |r.blocks| <= Needed(t.src, t.dst)
    && r.pathCells == Path(t.src, t.dst, |r.blocks|)
    && (forall i :: 0 <= i < |r.blocks| ==>
                      r.blocks[i].at == Greedy(t.src, t.dst, i + 1) && r.blocks[i].at !in t.occupied)
  }

  /** When the search from `src` succeeds: for one-cell blocks, a condition on the inputs alone. */
  ghost predicate Reachable(t: Task, maxDepth: int) {
    t.catalogue != [] && Clear(t, Needed(t.src, t.dst)) && Needed(t.src, t.dst) <= maxDepth
  }

  /**
   How far the search gets with one-cell blocks: it stops at the destination, at the depth cap, for want of
   a block, or in front of an occupied cell.
   */
  ghost predicate TakesSteps(src: Vec, dst: Vec, catalogue: seq<Entry>, occupied: set<Vec>, maxDepth: int, k: nat) {
    && k <= Needed(src, dst)
    && (k > 0 ==> catalogue != [] && k <= maxDepth)
    && (forall i :: 1 <= i <= k ==> Greedy(src, dst, i) !in occupied)
    && (k < Needed(src, dst) ==> k >= maxDepth || catalogue == [] || Greedy(src, dst, k + 1) in occupied)
  }

  /** A rejected interval shows the best beam of the last depth reached. */
  ghost predicate BestPartial(t: Task, r: Interval, best: Beam, k: nat) {
    && FirstBest(Beams(t, k), best)
    && r.blocks == best.blocks && r.pathCells == best.pathCells && r.scoreSum == best.scoreSum
  }

  /** What a search ends with, whatever the blocks: the best beam of the layer it reached, and why it stopped. */
  ghost predicate Searched(t: Task, maxDepth: int, r: Interval, won: Beam, k: nat) {
    var n := Needed(t.src, t.dst);
    && k <= n && (k == 0 || k <= maxDepth)
    && (t.width >= 1 ==> Beams(t, k) != [] && |r.blocks| == k)
    && (k < n ==> k >= maxDepth || Beams(t, k + 1) == [])
    && (r.reject.None? <==> n <= maxDepth && Beams(t, n) != [])
    && (r.reject.None? ==> Arrives(t, r, won))
    && (r.reject.Some? && t.width >= 1 ==> BestPartial(t, r, won, k))
    && (r.reject.Some? ==> (r.reject.value == NoValidCandidates <==> maxDepth <= 0 || Expander(t)(Initial(t)) == []))
  }

  /** With one-cell blocks the outcome is settled by how far the search gets. */
  ghost predicate UnitOutcome(t: Task, maxDepth: int, r: Interval) {
    && TakesSteps(t.src, t.dst, t.catalogue, t.occupied, maxDepth, |r.blocks|)
    && (r.reject.None? <==> |r.blocks| == Needed(t.src, t.dst))
    && (r.reject == Some(NoValidCandidates) <==> |r.blocks| == 0 < Needed(t.src, t.dst))
  }

  /** The layers of a non-trivial interval, and the best beam of the last one. */
  method Search(t: Task, maxDepth: int) returns (r: Interval, best: Beam, ghost k: nat)
    requires !Close(t.src, t.dst)
    ensures Searched(t, maxDepth, r, best, k) && Walked(t, r)
  {
    NeededIsZero(t.src, t.dst);
    BeamsArrive(t);
    var live, any;
    live, any, k := Descend(Expander(t), ByTotal, t.width, Initial(t), maxDepth, Arrived(t), Needed(t.src, t.dst));
    r, best := Conclude(t, maxDepth, live, any, k);
  }

  /** The best completed beam, or the best partial one with the reason why none is complete. */
  method Conclude(t: Task, maxDepth: int, live: seq<Beam>, any: bool, ghost k: nat) returns (r: Interval, best: Beam)
    requires !Close(t.src, t.dst)
    requires Descended(Expander(t), ByTotal, t.width, Initial(t), maxDepth, Needed(t.src, t.dst), live, any, k)
    ensures Searched(t, maxDepth, r, best, k) && Walked(t, r)
  {
    LiveBeams(t, live, k);
    FilterUniform(Arrived(t), live, k == Needed(t.src, t.dst));
    var completed := Filter(Arrived(t), live);
    best := Initial(t);
    if completed == [] {
      var reason := if any then BeamExhausted else NoValidCandidates;
      r := Interval([], [t.src], 0.0, Some(reason));
      if any && live != [] {
        best := BestOf(live);
        r := Interval(best.blocks, best.pathCells, best.scoreSum, Some(reason));
      } else {
        NoBeamIsInitial(t, maxDepth, live, any, k);
      }
      EndsPartial(t, maxDepth, live, any, k, best, reason);
    } else {
      best := BestOf(completed);
      r := Interval(best.blocks, best.pathCells, best.scoreSum, None);
      EndsComplete(t, maxDepth, live, any, k, best);
    }
  }

  ghost predicate BestOrInitial(t: Task, live: seq<Beam>, best: Beam) {
    (best in live && FirstBest(live, best)) || (live == [] && best == Initial(t))
  }

  /** Without a step, or without a live beam, the result shows the initial beam. */
  lemma {:induction false} NoBeamIsInitial(t: Task, maxDepth: int, live: seq<Beam>, any: bool, k: nat)
    requires Descended(Expander(t), ByTotal, t.width, Initial(t), maxDepth, Needed(t.src, t.dst), live, any, k)
    requires !any || live == []
    ensures BestOrInitial(t, live, Initial(t))
  {
    NoStepNoBeam(t, maxDepth, live, any, k);
    BetterIsStrict();
    OnlyIsMax(Better, Initial(t));
  }

  lemma {:induction false} EndsPartial(t: Task, maxDepth: int, live: seq<Beam>, any: bool, k: nat, best: Beam,
                                       reason: Reject)
    requires Descended(Expander(t), ByTotal, t.width, Initial(t), maxDepth, Needed(t.src, t.dst), live, any, k)
    requires k < Needed(t.src, t.dst) || live == []
    requires forall b :: b in live ==> OnPath(b, t.src, t.dst, t.occupied, k)
    requires BestOrInitial(t, live, best) && reason == if any then BeamExhausted else NoValidCandidates
    ensures var r := Interval(best.blocks, best.pathCells, best.scoreSum, Some(reason));
            Searched(t, maxDepth, r, best, k) && Walked(t, r)
  {
    var r := Interval(best.blocks, best.pathCells, best.scoreSum, Some(reason));
    InitialOnPath(t);
    BeamWalked(t, best, if best in live then k else 0, r);
    assert t.width >= 1 ==> Beams(t, k) != [] && |r.blocks| == k && BestPartial(t, r, best, k);
  }

  lemma {:induction false} InitialOnPath(t: Task)
    ensures OnPath(Initial(t), t.src, t.dst, t.occupied, 0)
  {
    assert Path(t.src, t.dst, 0) == [t.src];
  }

  lemma {:induction false} BeamWalked(t: Task, b: Beam, k: nat, r: Interval)
    requires OnPath(b, t.src, t.dst, t.occupied, k) && k <= Needed(t.src, t.dst)
    requires r.blocks == b.blocks && r.pathCells == b.pathCells
    ensures Walked(t, r)
  {}

  lemma {:induction false} EndsComplete(t: Task, maxDepth: int, live: seq<Beam>, any: bool, k: nat, best: Beam)
    requires Descended(Expander(t), ByTotal, t.width, Initial(t), maxDepth, Needed(t.src, t.dst), live, any, k)
    requires k == Needed(t.src, t.dst) && best in live && FirstBest(live, best)
    requires OnPath(best, t.src, t.dst, t.occupied, k)
    ensures var r := Interval(best.blocks, best.pathCells, best.scoreSum, None);
            Searched(t, maxDepth, r, best, k) && Walked(t, r)
  {}

  lemma {:induction false} LiveBeams(t: Task, live: seq<Beam>, k: nat)
    requires !Close(t.src, t.dst) && k <= Needed(t.src, t.dst) && live == Beams(t, k)
    ensures forall b :: b in live ==> OnPath(b, t.src, t.dst, t.occupied, k)
    ensures ReachesIff(Arrived(t), live, k == Needed(t.src, t.dst))
  {
    BeamsOnPath(t, k);
    forall b | b in live ensures OnPath(b, t.src, t.dst, t.occupied, k) {
      assert Good(t, b, k);
    }
    BeamsArriveTogether(t, k);
  }

  lemma {:induction false} NoStepNoBeam(t: Task, maxDepth: int, live: seq<Beam>, any: bool, k: nat)
    requires Descended(Expander(t), ByTotal, t.width, Initial(t), maxDepth, Needed(t.src, t.dst), live, any, k)
    ensures !any && live != [] ==> k == 0
  {
    if k > 0 && live != [] {
      Stuck(Expander(t), ByTotal, t.width, Initial(t), 0, k);
      FlatMapSingle(Expander(t), Initial(t));
    }
  }

  class Synthesis {
    /** Cells of anchors and of the intervals already built. */
    var occupied: set<Vec>

    constructor (occupied: set<Vec>)
      ensures this.occupied == occupied
    {
      this.occupied := occupied;
    }

    method GenerateInterval(t: Task, maxDepth: int) returns (r: Interval, ghost won: Beam, ghost k: nat)
      requires t.occupied == occupied
      modifies this
      ensures Walked(t, r)
      ensures Close(t.src, t.dst) ==> r == Interval([], [t.src], 0.0, None) && occupied == old(occupied)
      ensures !Close(t.src, t.dst) ==> Searched(t, maxDepth, r, won, k)
      ensures !Close(t.src, t.dst) && r.reject.None? ==> occupied == old(occupied) + won.intervalCells
      ensures r.reject.Some? ==> occupied == old(occupied)
      ensures Unit(t.catalogue) && t.width >= 1 && t.topN >= 1 ==> UnitOutcome(t, maxDepth, r)
    {
      won, k := Initial(t), 0;
      NeededIsZero(t.src, t.dst);
      if Close(t.src, t.dst) {
        r := Interval([], [t.src], 0.0, None);
        assert Path(t.src, t.dst, 0) == [t.src];
      } else {
        var best;
        r, best, k := Search(t, maxDepth);
        won := best;
        if r.reject.None? {
          occupied := occupied + best.intervalCells;
        }
        if Unit(t.catalogue) && t.width >= 1 && t.topN >= 1 {
          UnitSearched(t, maxDepth, r, won, k);
        }
      }
    }
  }

  /** The depth at which the loop ends is how far the search gets. */
  lemma {:induction false} DepthReached(t: Task, maxDepth: int, k: nat)
    requires Unit(t.catalogue) && t.width >= 1 && t.topN >= 1 && k <= Needed(t.src, t.dst)
    requires Beams(t, k) != [] && (k == 0 || k <= maxDepth)
    requires k < Needed(t.src, t.dst) ==> k >= maxDepth || Beams(t, k + 1) == []
    ensures TakesSteps(t.src, t.dst, t.catalogue, t.occupied, maxDepth, k)
  {
    BeamsInhabited(t, k);
    if k < Needed(t.src, t.dst) && k < maxDepth {
      BeamsStep(t, k);
    }
  }

  lemma {:induction false} UnitSearched(t: Task, maxDepth: int, r: Interval, won: Beam, k: nat)
    requires Unit(t.catalogue) && t.width >= 1 && t.topN >= 1
    requires !Close(t.src, t.dst) && Searched(t, maxDepth, r, won, k)
    ensures UnitOutcome(t, maxDepth, r)
  {
    var n := Needed(t.src, t.dst);
    NeededIsZero(t.src, t.dst);
    DepthReached(t, maxDepth, k);
    BeamsInhabited(t, n);
    ExpandNonEmpty(Initial(t), t.dst, t.catalogue, t.occupied, t.score, t.topN);
    assert Greedy(t.src, t.dst, 1) == Step(t.src, t.dst);
  }

  /**
   The closed form. For one-cell blocks and positive widths, whatever the scorer says: the interval
   succeeds exactly when there is a block to place, the greedy walk is free and it is short enough;
   and it is rejected without a step exactly when it may not take one, or the first cell is taken.
   */
  lemma {:induction false} IntervalClosedForm(t: Task, maxDepth: int, r: Interval)
    requires !Close(t.src, t.dst) && UnitOutcome(t, maxDepth, r)
    ensures r.reject.None? <==> Reachable(t, maxDepth)
    ensures r.reject == Some(NoValidCandidates) <==>
            maxDepth <= 0 || t.catalogue == [] || Step(t.src, t.dst) in t.occupied
  {
    NeededIsZero(t.src, t.dst);
    assert Greedy(t.src, t.dst, 1) == Step(t.src, t.dst);
  }

  /** A layer arrives as a whole, after exactly the needed number of steps. */
  lemma {:induction false} BeamsArriveTogether(t: Task, k: nat)
    requires k <= Needed(t.src, t.dst) && !Close(t.src, t.dst)
    ensures ReachesIff(Arrived(t), Beams(t, k), k == Needed(t.src, t.dst))
  {
    BeamsOnPath(t, k);
    NeededIsZero(t.src, t.dst);
    GreedyProgress(t.src, t.dst, k);
    NeededIsZero(Greedy(t.src, t.dst, k), t.dst);
  }

  lemma {:induction false} BeamsArrive(t: Task)
    requires !Close(t.src, t.dst)
    ensures ArrivesAt(Expander(t), ByTotal, t.width, Initial(t), Arrived(t), Needed(t.src, t.dst))
  {
    var n := Needed(t.src, t.dst);
    forall i: nat | i <= n
      ensures ReachesIff(Arrived(t), Layer(Expander(t), ByTotal, t.width, Initial(t), i), i == n)
    {
      BeamsArriveTogether(t, i);
    }
  }

  // ----- all intervals -----

  ghost predicate Fresh(blocks: seq<Block>, occupied: set<Vec>) {
    && (forall i, j :: 0 <= i < j < |blocks| ==> blocks[i].at != blocks[j].at)
    && forall i :: 0 <= i < |blocks| ==> blocks[i].at !in occupied
  }

  lemma {:induction false} WalkedFresh(t: Task, r: Interval)
    requires Walked(t, r)
    ensures Fresh(r.blocks, t.occupied)
  {
    var n := |r.blocks|;
    PathDistinct(t.src, t.dst, n);
    forall i, j | 0 <= i < j < n ensures r.blocks[i].at != r.blocks[j].at {
      assert r.blocks[i].at == Path(t.src, t.dst, n)[i + 1] && r.blocks[j].at == Path(t.src, t.dst, n)[j + 1];
    }
  }

  lemma {:induction false} FreshAppend(a: seq<Block>, b: seq<Block>, occupied: set<Vec>, later: set<Vec>)
    requires Fresh(a, occupied) && Fresh(b, later) && occupied <= later
    requires forall i :: 0 <= i < |a| ==> a[i].at in later
    ensures Fresh(a + b, occupied)
  {
    var c := a + b;
    forall i, j | 0 <= i < j < |c| ensures c[i].at != c[j].at {
      if i < |a| <= j {
        assert c[i].at in later && c[j].at !in later;
      }
    }
  }

  // ----- the whole map -----

  /** Both ends of interval `i`, from anchor `i - 1` to anchor `i`, are known. */
  predicate Known(anchors: seq<Option<Vec>>, i: nat) {
    0 < i < |anchors| && anchors[i - 1].Some? && anchors[i].Some?
  }

  function NeedAt(anchors: seq<Option<Vec>>, i: nat): nat {
    if Known(anchors, i) then Needed(anchors[i - 1].value, anchors[i].value) else 0
  }

  /** The first `n` cells of the walk of interval `i`. */
  function WalkAt(anchors: seq<Option<Vec>>, i: nat, n: nat): (w: seq<Vec>)
    ensures |w| == if Known(anchors, i) then n else 0
  {
    if !Known(anchors, i) then []
    else seq(n, j requires 0 <= j < n => Greedy(anchors[i - 1].value, anchors[i].value, j + 1))
  }

  function FullWalk(anchors: seq<Option<Vec>>, i: nat): seq<Vec> { WalkAt(anchors, i, NeedAt(anchors, i)) }

  /** The walks of all intervals before `i`, one after another. */
  function WalksBefore(anchors: seq<Option<Vec>>, i: nat): seq<Vec> {
    if i == 0 then [] else WalksBefore(anchors, i - 1) + FullWalk(anchors, i - 1)
  }

  function AnchorCells(anchors: seq<Option<Vec>>): set<Vec> {
    set a | a in anchors && a.Some? :: a.value
  }

  /** What interval `i` must avoid when all before it were built. */
  function TakenBefore(anchors: seq<Option<Vec>>, i: nat): set<Vec> {
    AnchorCells(anchors) + Elements(WalksBefore(anchors, i))
  }

  /** Interval `i` gets `k` steps far. */
  ghost predicate StepsAt(anchors: seq<Option<Vec>>, catalogue: seq<Entry>, maxDepth: int, i: nat, k: nat) {
    && Known(anchors, i)
    && TakesSteps(anchors[i - 1].value, anchors[i].value, catalogue, TakenBefore(anchors, i), maxDepth, k)
  }

  /** Interval `i` can be built after all before it. */
  ghost predicate Passes(anchors: seq<Option<Vec>>, catalogue: seq<Entry>, maxDepth: int, i: nat) {
    && (NeedAt(anchors, i) > 0 ==> catalogue != [] && NeedAt(anchors, i) <= maxDepth)
    && Elements(FullWalk(anchors, i)) !! TakenBefore(anchors, i)
  }

  ghost predicate PassesBefore(anchors: seq<Option<Vec>>, catalogue: seq<Entry>, maxDepth: int, n: nat) {
    forall i :: 0 <= i < n ==> Passes(anchors, catalogue, maxDepth, i)
  }

  function CellsOf(blocks: seq<Block>): seq<Vec> { Map((b: Block) => b.at, blocks) }

  /** The map failed in interval `i`, after `k` of its steps. */
  ghost predicate FailsAt(anchors: seq<Option<Vec>>, catalogue: seq<Entry>, maxDepth: int, blocks: seq<Block>,
                          reject: Reject, i: nat, k: nat) {
    && PassesBefore(anchors, catalogue, maxDepth, i)
    && StepsAt(anchors, catalogue, maxDepth, i, k) && k < NeedAt(anchors, i)
    && CellsOf(blocks) == WalksBefore(anchors, i) + WalkAt(anchors, i, k)
    && reject == if k == 0 then NoValidCandidates else BeamExhausted
  }

  /**
   The closed form of the whole map, for one-cell blocks: either every walk passes and the blocks are all the
   walks, or they are the walks up to the first interval that does not, and that interval's own steps.
   */
  ghost predicate MapOutcome(anchors: seq<Option<Vec>>, catalogue: seq<Entry>, maxDepth: int, blocks: seq<Block>,
                             reject: Option<Reject>) {
    match reject
    case None =>
      && PassesBefore(anchors, catalogue, maxDepth, |anchors|)
      && CellsOf(blocks) == WalksBefore(anchors, |anchors|)
    case Some(reason) => exists i: nat, k: nat :: FailsAt(anchors, catalogue, maxDepth, blocks, reason, i, k)
  }

  /** The intervals before `i` are built. */
  ghost predicate BuiltBefore(anchors: seq<Option<Vec>>, catalogue: seq<Entry>, maxDepth: int, i: nat,
                              occupied: set<Vec>, blocks: seq<Block>) {
    && PassesBefore(anchors, catalogue, maxDepth, i)
    && occupied == TakenBefore(anchors, i)
    && CellsOf(blocks) == WalksBefore(anchors, i)
  }

  lemma {:induction false} CellsWalked(anchors: seq<Option<Vec>>, i: nat, t: Task, r: Interval)
    requires Known(anchors, i) && t.src == anchors[i - 1].value && t.dst == anchors[i].value && Walked(t, r)
    ensures CellsOf(r.blocks) == WalkAt(anchors, i, |r.blocks|)
  {}

  /** What a successful interval adds to the occupied cells. */
  lemma {:induction false} WonCells(t: Task, maxDepth: int, r: Interval, won: Beam, k: nat)
    requires Unit(t.catalogue) && !Close(t.src, t.dst)
    requires Searched(t, maxDepth, r, won, k) && r.reject.None? && Walked(t, r)
    ensures |r.blocks| == Needed(t.src, t.dst)
    ensures won.intervalCells == Elements(CellsOf(r.blocks))
  {
    var n := Needed(t.src, t.dst);
    BeamsOnPath(t, n);
    assert Good(t, won, n);
    forall c ensures c in won.intervalCells <==> c in CellsOf(r.blocks) {
      if c in won.intervalCells {
        var i :| 1 <= i <= n && c == Greedy(t.src, t.dst, i);
        assert CellsOf(r.blocks)[i - 1] == c;
      }
      if c in CellsOf(r.blocks) {
        var i :| 0 <= i < n && CellsOf(r.blocks)[i] == c;
        assert c == Greedy(t.src, t.dst, i + 1);
      }
    }
  }

  /** An interval that gets all the way passes, and its walk is the next one. */
  lemma {:induction false} IntervalBuilt(anchors: seq<Option<Vec>>, catalogue: seq<Entry>, maxDepth: int, i: nat,
                                         occupied: set<Vec>, blocks: seq<Block>, t: Task, r: Interval)
    requires BuiltBefore(anchors, catalogue, maxDepth, i, occupied, blocks) && Known(anchors, i)
    requires t.src == anchors[i - 1].value && t.dst == anchors[i].value
    requires t.catalogue == catalogue && t.occupied == occupied
    requires Walked(t, r) && UnitOutcome(t, maxDepth, r) && r.reject.None?
    ensures BuiltBefore(anchors, catalogue, maxDepth, i + 1, occupied + Elements(CellsOf(r.blocks)), blocks + r.blocks)
  {
    CellsWalked(anchors, i, t, r);
    assert FullWalk(anchors, i) == CellsOf(r.blocks);
    assert Passes(anchors, catalogue, maxDepth, i) by { WalkedOffOccupied(t, r); }
    OneMoreWalk(anchors, i, blocks, r.blocks);
  }

  lemma {:induction false} WalkedOffOccupied(t: Task, r: Interval)
    requires Walked(t, r)
    ensures Elements(CellsOf(r.blocks)) !! t.occupied
  {
    forall x | x in CellsOf(r.blocks) ensures x !in t.occupied {
      var j :| 0 <= j < |r.blocks| && CellsOf(r.blocks)[j] == x;
      assert r.blocks[j].at !in t.occupied;
    }
  }

  lemma {:induction false} OneMoreWalk(anchors: seq<Option<Vec>>, i: nat, blocks: seq<Block>, more: seq<Block>)
    requires CellsOf(blocks) == WalksBefore(anchors, i) && CellsOf(more) == FullWalk(anchors, i)
    ensures CellsOf(blocks + more) == WalksBefore(anchors, i + 1)
    ensures TakenBefore(anchors, i + 1) == TakenBefore(anchors, i) + Elements(CellsOf(more))
  {
    assert CellsOf(blocks + more) == CellsOf(blocks) + CellsOf(more);
    var a, b := WalksBefore(anchors, i), FullWalk(anchors, i);
    assert Elements(a + b) == Elements(a) + Elements(b);
  }

  lemma {:induction false} IntervalSkipped(anchors: seq<Option<Vec>>, catalogue: seq<Entry>, maxDepth: int, i: nat,
                                           occupied: set<Vec>, blocks: seq<Block>)
    requires BuiltBefore(anchors, catalogue, maxDepth, i, occupied, blocks) && !Known(anchors, i)
    ensures BuiltBefore(anchors, catalogue, maxDepth, i + 1, occupied, blocks)
  {
    assert FullWalk(anchors, i) == [];
    assert WalksBefore(anchors, i + 1) == WalksBefore(anchors, i);
    assert Passes(anchors, catalogue, maxDepth, i);
  }

  lemma {:induction false} IntervalFailed(anchors: seq<Option<Vec>>, catalogue: seq<Entry>, maxDepth: int, i: nat,
                                          occupied: set<Vec>, blocks: seq<Block>, t: Task, r: Interval)
    requires BuiltBefore(anchors, catalogue, maxDepth, i, occupied, blocks) && Known(anchors, i)
    requires t.src == anchors[i - 1].value && t.dst == anchors[i].value
    requires t.catalogue == catalogue && t.occupied == occupied
    requires Walked(t, r) && UnitOutcome(t, maxDepth, r) && r.reject.Some?
    ensures FailsAt(anchors, catalogue, maxDepth, blocks + r.blocks, r.reject.value, i, |r.blocks|)
  {
    CellsWalked(anchors, i, t, r);
    assert CellsOf(blocks + r.blocks) == CellsOf(blocks) + CellsOf(r.blocks);
  }

  /** What a whole map is asked for. */
  datatype Plan = Plan(anchors: seq<Option<Vec>>, blockAt: Vec -> Option<(string, string)>, catalogue: seq<Entry>,
                       score: Scorer, maxDepth: int, width: nat, topN: nat)

  /** One interval searched on the way: its number, its task, its result and the beam behind it. */
  datatype Leg = Leg(at: nat, t: Task, r: Interval, won: Beam, depth: nat)

  function TaskAt(p: Plan, at: nat, taken: set<Vec>): Task
    requires Known(p.anchors, at)
  {
    var src, dst := p.anchors[at - 1].value, p.anchors[at].value;
    Task(src, dst, p.blockAt(src), p.catalogue, taken, p.score, p.width, p.topN)
  }

  /** The interval between anchors `at - 1` and `at`, searched with those cells taken. */
  ghost predicate LegOf(p: Plan, l: Leg, taken: set<Vec>) {
    && Known(p.anchors, l.at) && l.t == TaskAt(p, l.at, taken)
    && (Close(l.t.src, l.t.dst) ==> l.r == Interval([], [l.t.src], 0.0, None) && l.won == Initial(l.t))
    && (!Close(l.t.src, l.t.dst) ==> Searched(l.t, p.maxDepth, l.r, l.won, l.depth))
  }

  /** Cells of the anchors and of the beams that won. */
  ghost function Taken(p: Plan, legs: seq<Leg>): set<Vec> {
    if legs == [] then AnchorCells(p.anchors)
    else Taken(p, legs[..|legs| - 1]) + legs[|legs| - 1].won.intervalCells
  }

  ghost predicate AllBuilt(legs: seq<Leg>) { legs == [] || legs[|legs| - 1].r.reject.None? }

  /** One leg for every interval before `i` with known ends, in order, each after the ones before it were built. */
  ghost predicate Logged(p: Plan, legs: seq<Leg>, i: nat) {
    if i <= 1 then legs == []
    else if !Known(p.anchors, i - 1) then Logged(p, legs, i - 1)
    else
      && legs != []
      && var front, last := legs[..|legs| - 1], legs[|legs| - 1];
         && last.at == i - 1 && LegOf(p, last, Taken(p, front))
         && AllBuilt(front) && Logged(p, front, i - 1)
  }

  lemma {:induction false} OneMoreLeg(p: Plan, legs: seq<Leg>, i: nat, l: Leg, blocks: seq<Block>)
    requires 1 <= i && Logged(p, legs, i) && AllBuilt(legs) && l.at == i && LegOf(p, l, Taken(p, legs))
    requires blocks == FlatMap(BlocksOf, legs)
    ensures Logged(p, legs + [l], i + 1) && Taken(p, legs + [l]) == Taken(p, legs) + l.won.intervalCells
    ensures blocks + l.r.blocks == FlatMap(BlocksOf, legs + [l])
  {
    assert (legs + [l])[..|legs|] == legs;
  }

  function BlocksOf(l: Leg): seq<Block> { l.r.blocks }

  /** The route is the blocks of its legs, and a reject is the last leg's. */
  ghost predicate RouteOf(p: Plan, legs: seq<Leg>, stop: nat, blocks: seq<Block>, reject: Option<Reject>) {
    && Logged(p, legs, stop) && blocks == FlatMap(BlocksOf, legs)
    && (reject.None? ==> AllBuilt(legs))
    && (reject.Some? ==> legs != [] && legs[|legs| - 1].r.reject == reject)
  }

  /** For every catalogue: the blocks so far are apart and off the anchors, recorded, and as many as needed. */
  ghost predicate SafeSoFar(p: Plan, i: nat, occupied: set<Vec>, blocks: seq<Block>, reject: Option<Reject>) {
    && Fresh(blocks, AnchorCells(p.anchors)) && AnchorCells(p.anchors) <= occupied
    && (reject.None? ==>
          |blocks| == BlocksNeeded(p.anchors, i) && forall j :: 0 <= j < |blocks| ==> blocks[j].at in occupied)
  }

  /** For one-cell blocks: the outcome so far is the closed form. */
  ghost predicate UnitSoFar(p: Plan, i: nat, occupied: set<Vec>, blocks: seq<Block>, reject: Option<Reject>) {
    Unit(p.catalogue) && p.topN >= 1 ==>
      if reject.None? then BuiltBefore(p.anchors, p.catalogue, p.maxDepth, i, occupied, blocks)
      else MapOutcome(p.anchors, p.catalogue, p.maxDepth, blocks, reject)
  }

  /** Where the interval loop stands before interval `i`. */
  ghost predicate Underway(p: Plan, legs: seq<Leg>, i: nat, occupied: set<Vec>, blocks: seq<Block>,
                           reject: Option<Reject>) {
    && RouteOf(p, legs, i, blocks, reject) && (reject.None? ==> occupied == Taken(p, legs))
    && SafeSoFar(p, i, occupied, blocks, reject) && UnitSoFar(p, i, occupied, blocks, reject)
  }

  lemma {:induction false} RouteStarts(p: Plan, i: nat)
    requires i <= 1
    ensures Underway(p, [], i, AnchorCells(p.anchors), [], None)
  {
    NothingBuilt(p.anchors, p.catalogue, p.maxDepth);
  }

  lemma {:induction false} RouteGrows(p: Plan, legs: seq<Leg>, i: nat, before: seq<Block>, l: Leg, occupied: set<Vec>)
    requires 1 <= i && RouteOf(p, legs, i, before, None) && l.at == i && LegOf(p, l, Taken(p, legs))
    requires l.r.reject.None? ==> occupied == Taken(p, legs) + l.won.intervalCells
    requires SafeSoFar(p, i + 1, occupied, before + l.r.blocks, l.r.reject)
    requires UnitSoFar(p, i + 1, occupied, before + l.r.blocks, l.r.reject)
    ensures Underway(p, legs + [l], i + 1, occupied, before + l.r.blocks, l.r.reject)
  {
    OneMoreLeg(p, legs, i, l, before);
  }

  /** A turn of the loop for an interval with an unknown end changes nothing. */
  lemma {:induction false} RouteSkips(p: Plan, legs: seq<Leg>, i: nat, occupied: set<Vec>, blocks: seq<Block>)
    requires 1 <= i && !Known(p.anchors, i) && Underway(p, legs, i, occupied, blocks, None)
    ensures Underway(p, legs, i + 1, occupied, blocks, None)
  {
    if Unit(p.catalogue) && p.topN >= 1 {
      IntervalSkipped(p.anchors, p.catalogue, p.maxDepth, i, occupied, blocks);
    }
  }

  /** What a whole map comes to. */
  ghost predicate MapOf(p: Plan, legs: seq<Leg>, stop: nat, blocks: seq<Block>, reject: Option<Reject>) {
    && RouteOf(p, legs, stop, blocks, reject) && (reject.None? ==> stop == |p.anchors|)
    && Fresh(blocks, AnchorCells(p.anchors))
    && (reject.None? ==> |blocks| == BlocksNeeded(p.anchors, |p.anchors|))
    && (Unit(p.catalogue) && p.topN >= 1 ==> MapOutcome(p.anchors, p.catalogue, p.maxDepth, blocks, reject))
  }

  lemma {:induction false} RouteEnds(p: Plan, legs: seq<Leg>, i: nat, occupied: set<Vec>, blocks: seq<Block>,
                                     reject: Option<Reject>)
    requires Underway(p, legs, i, occupied, blocks, reject) && (reject.None? ==> i == |p.anchors|)
    ensures MapOf(p, legs, i, blocks, reject)
  {}

  /** A turn of the interval loop for known ends. */
  method BuildInterval(work: Synthesis, p: Plan, i: nat, before: seq<Block>)
    returns (blocks: seq<Block>, reject: Option<Reject>, ghost leg: Leg)
    requires Known(p.anchors, i) && p.width >= 1
    requires SafeSoFar(p, i, work.occupied, before, None) && UnitSoFar(p, i, work.occupied, before, None)
    modifies work
    ensures leg.at == i && LegOf(p, leg, old(work.occupied))
    ensures blocks == before + leg.r.blocks && reject == leg.r.reject
    ensures reject.None? ==> work.occupied == old(work.occupied) + leg.won.intervalCells
    ensures SafeSoFar(p, i + 1, work.occupied, blocks, reject) && UnitSoFar(p, i + 1, work.occupied, blocks, reject)
  {
    var src, dst := p.anchors[i - 1].value, p.anchors[i].value;
    var t := Task(src, dst, p.blockAt(src), p.catalogue, work.occupied, p.score, p.width, p.topN);
    var r, won, k := work.GenerateInterval(t, p.maxDepth);
    leg := Leg(i, t, r, if Close(src, dst) then Initial(t) else won, k);
    WalkedFresh(t, r);
    FreshAppend(before, r.blocks, AnchorCells(p.anchors), t.occupied);
    blocks, reject := before + r.blocks, r.reject;
    NeededIsZero(src, dst);
    if reject.None? {
      if !Close(src, dst) {
        IntervalLength(t, p.maxDepth, r, won, k);
      }
    }
    if Unit(p.catalogue) && p.topN >= 1 {
      if reject.None? {
        IntervalBuilt(p.anchors, p.catalogue, p.maxDepth, i, t.occupied, before, t, r);
        if Close(src, dst) {
          assert Elements(CellsOf(r.blocks)) == {};
        } else {
          WonCells(t, p.maxDepth, r, won, k);
        }
      } else {
        IntervalFailed(p.anchors, p.catalogue, p.maxDepth, i, t.occupied, before, t, r);
      }
    }
  }

  /** A successful interval has exactly the needed blocks, all of them recorded as taken. */
  lemma {:induction false} IntervalLength(t: Task, maxDepth: int, r: Interval, won: Beam, k: nat)
    requires !Close(t.src, t.dst) && Searched(t, maxDepth, r, won, k) && r.reject.None? && Walked(t, r)
    ensures |r.blocks| == Needed(t.src, t.dst)
    ensures forall i :: 0 <= i < |r.blocks| ==> r.blocks[i].at in won.intervalCells
  {
    BeamsOnPath(t, Needed(t.src, t.dst));
    assert Good(t, won, Needed(t.src, t.dst));
  }

  /** How many blocks the first intervals need in all. */
  function BlocksNeeded(anchors: seq<Option<Vec>>, n: nat): nat {
    if n == 0 then 0 else BlocksNeeded(anchors, n - 1) + NeedAt(anchors, n - 1)
  }

  function AskedPlan(anchors: seq<Option<Vec>>, blockAt: Vec -> Option<(string, string)>, catalogue: seq<Entry>,
                     score: Scorer, maxDepth: int, beamWidth: int, topN: nat): Plan {
    Plan(anchors, blockAt, catalogue, score, maxDepth, if beamWidth < 1 then 1 else beamWidth, topN)
  }

  /**
   The interval loop. For every scorer and every catalogue, wide blocks included: the route joins what
   the searches of the intervals ended with, each with the cells of the anchors and of the winners before it
   taken; no two synthesised blocks share a cell and none stands on an anchor, also in the partial route of a
   reject; a complete route has exactly as many blocks as the walks between the anchors need. For one-cell
   blocks the whole outcome is the closed form.
   */
  method GenerateMap(anchors: seq<Option<Vec>>, blockAt: Vec -> Option<(string, string)>, catalogue: seq<Entry>,
                     score: Scorer, maxDepth: int, beamWidth: int, topN: nat)
    returns (blocks: seq<Block>, reject: Option<Reject>, ghost legs: seq<Leg>, ghost stop: nat)
    ensures RouteOf(AskedPlan(anchors, blockAt, catalogue, score, maxDepth, beamWidth, topN), legs, stop, blocks,
                    reject)
    ensures reject.None? ==> stop == |anchors|
    ensures Fresh(blocks, AnchorCells(anchors))
    ensures reject.None? ==> |blocks| == BlocksNeeded(anchors, |anchors|)
    ensures Unit(catalogue) && topN >= 1 ==> MapOutcome(anchors, catalogue, maxDepth, blocks, reject)
  {
    var p := Plan(anchors, blockAt, catalogue, score, maxDepth, if beamWidth < 1 then 1 else beamWidth, topN);
    blocks, reject, legs, stop := BuildAll(p);
  }

  /** One turn of the interval loop. */
  method OneTurn(work: Synthesis, p: Plan, i: nat, before: seq<Block>, ghost sofar: seq<Leg>)
    returns (blocks: seq<Block>, reject: Option<Reject>, ghost legs: seq<Leg>)
    requires 1 <= i && p.width >= 1 && Underway(p, sofar, i, work.occupied, before, None)
    modifies work
    ensures Underway(p, legs, i + 1, work.occupied, blocks, reject)
  {
    if Known(p.anchors, i) {
      ghost var leg;
      blocks, reject, leg := BuildInterval(work, p, i, before);
      RouteGrows(p, sofar, i, before, leg, work.occupied);
      legs := sofar + [leg];
    } else {
      RouteSkips(p, sofar, i, work.occupied, before);
      blocks, reject, legs := before, None, sofar;
    }
  }

  method BuildAll(p: Plan) returns (blocks: seq<Block>, reject: Option<Reject>, ghost legs: seq<Leg>, ghost stop: nat)
    requires p.width >= 1
    ensures MapOf(p, legs, stop, blocks, reject)
  {
    var work := new Synthesis(AnchorCells(p.anchors));
    blocks, reject, legs, stop := [], None, [], 0;
    if p.anchors == [] {
      RouteStarts(p, 0);
      RouteEnds(p, legs, 0, work.occupied, blocks, reject);
      return;
    }
    var i := 1;
    RouteStarts(p, 1);
    while i < |p.anchors| && reject.None?
      invariant fresh(work) && 1 <= i <= |p.anchors|
      invariant Underway(p, legs, i, work.occupied, blocks, reject)
      decreases |p.anchors| - i
    {
      blocks, reject, legs := OneTurn(work, p, i, blocks, legs);
      i := i + 1;
    }
    RouteEnds(p, legs, i, work.occupied, blocks, reject);
    stop := i;
  }

  lemma {:induction false} NothingBuilt(anchors: seq<Option<Vec>>, catalogue: seq<Entry>, maxDepth: int)
    ensures BuiltBefore(anchors, catalogue, maxDepth, 0, AnchorCells(anchors), [])
    ensures BuiltBefore(anchors, catalogue, maxDepth, 1, AnchorCells(anchors), [])
    ensures BlocksNeeded(anchors, 1) == 0
  {
    assert FullWalk(anchors, 0) == [];
    assert WalksBefore(anchors, 1) == [];
    assert CellsOf([]) == [];
  }

  // ----- when a map can be built -----

  ghost predicate Apart(a: seq<Vec>, b: seq<Vec>) { Elements(a) !! Elements(b) }

  /** Every walk is short enough and keeps off the anchors, no two walks meet, and there is a block if one is needed. */
  ghost predicate Feasible(anchors: seq<Option<Vec>>, catalogue: seq<Entry>, maxDepth: int) {
    && (forall i :: 0 <= i < |anchors| && NeedAt(anchors, i) > 0 ==> catalogue != [] && NeedAt(anchors, i) <= maxDepth)
    && (forall i :: 0 <= i < |anchors| ==> Elements(FullWalk(anchors, i)) !! AnchorCells(anchors))
    && (forall i, j :: 0 <= i < j < |anchors| ==> Apart(FullWalk(anchors, i), FullWalk(anchors, j)))
  }

  lemma {:induction false} InWalksBefore(anchors: seq<Option<Vec>>, n: nat, x: Vec)
    ensures x in WalksBefore(anchors, n) <==> exists i :: 0 <= i < n && x in FullWalk(anchors, i)
  {
    if n > 0 {
      InWalksBefore(anchors, n - 1, x);
    }
  }

  lemma {:induction false} ApartFromBefore(anchors: seq<Option<Vec>>, w: seq<Vec>, n: nat)
    requires forall i :: 0 <= i < n ==> Apart(FullWalk(anchors, i), w)
    ensures Elements(w) !! Elements(WalksBefore(anchors, n))
  {
    if n > 0 {
      ApartFromBefore(anchors, w, n - 1);
      assert Apart(FullWalk(anchors, n - 1), w);
    }
  }

  /** A map of one-cell blocks succeeds if and only if its walks, each on its own, can be laid side by side. */
  lemma {:induction false} MapClosedForm(anchors: seq<Option<Vec>>, catalogue: seq<Entry>, maxDepth: int,
                                         blocks: seq<Block>, reject: Option<Reject>)
    requires MapOutcome(anchors, catalogue, maxDepth, blocks, reject)
    ensures reject.None? <==> Feasible(anchors, catalogue, maxDepth)
  {
    PassesIffFeasible(anchors, catalogue, maxDepth);
    if reject.Some? {
      var i: nat, k: nat :| FailsAt(anchors, catalogue, maxDepth, blocks, reject.value, i, k);
      FailureDoesNotPass(anchors, catalogue, maxDepth, i, k);
    }
  }

  lemma {:induction false} FailureDoesNotPass(anchors: seq<Option<Vec>>, catalogue: seq<Entry>, maxDepth: int, i: nat,
                                              k: nat)
    requires StepsAt(anchors, catalogue, maxDepth, i, k) && k < NeedAt(anchors, i)
    ensures i < |anchors| && !Passes(anchors, catalogue, maxDepth, i)
  {
    var w := FullWalk(anchors, i);
    assert w[k] == Greedy(anchors[i - 1].value, anchors[i].value, k + 1);
    assert w[k] in Elements(w);
  }

  lemma {:induction false} PassesIffFeasible(anchors: seq<Option<Vec>>, catalogue: seq<Entry>, maxDepth: int)
    ensures PassesBefore(anchors, catalogue, maxDepth, |anchors|) <==> Feasible(anchors, catalogue, maxDepth)
  {
    if PassesBefore(anchors, catalogue, maxDepth, |anchors|) {
      forall j | 0 <= j < |anchors|
        ensures NeedAt(anchors, j) > 0 ==> catalogue != [] && NeedAt(anchors, j) <= maxDepth
        ensures Elements(FullWalk(anchors, j)) !! AnchorCells(anchors)
        ensures forall i :: 0 <= i < j ==> Apart(FullWalk(anchors, i), FullWalk(anchors, j))
      {
        assert Passes(anchors, catalogue, maxDepth, j);
        forall i | 0 <= i < j ensures Apart(FullWalk(anchors, i), FullWalk(anchors, j)) {
          forall x | x in FullWalk(anchors, i) ensures x in TakenBefore(anchors, j) {
            InWalksBefore(anchors, j, x);
          }
        }
      }
    }
    if Feasible(anchors, catalogue, maxDepth) {
      forall j | 0 <= j < |anchors| ensures Passes(anchors, catalogue, maxDepth, j) {
        ApartFromBefore(anchors, FullWalk(anchors, j), j);
      }
    }
  }
}
