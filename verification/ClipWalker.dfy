/**
 The clip-matching route walker: a depth-first search with backtracking over a shared mutable
 route and occupancy set. Randomness is an arbitrary stream, so every result holds for every seed.
 */
module ClipWalker {
  import opened Rotation
  import opened Collections
  import opened Catalogue

  const GRID_MIN := 6
  const GRID_MAX := 42
  const GROUND_Y := 9
  const MAX_Y := GROUND_Y + 10
  const ORIGIN := Vec(GRID_MIN + (GRID_MAX - GRID_MIN) / 2, GROUND_Y, GRID_MIN + (GRID_MAX - GRID_MIN) / 2)

  datatype Placement = Placement(blockId: string, anchor: Vec, rotation: int)

  /** A block at one of its four rotations, with its route-clip ports only. */
  datatype Oriented = Oriented(blockId: string, rotation: int, cells: seq<Vec>, ports: seq<Port>, waypoint: Waypoint)

  /** The walker's stock of orientations and the parameters of one run. */
  datatype Config = Config(
    starts: seq<Oriented>, finishes: seq<Oriented>, checkpoints: seq<Oriented>, plain: seq<Oriented>,
    length: int, every: int, maxExpansions: int)

  predicate Has(pool: seq<Oriented>, waypoint: Waypoint, ports: nat) {
    forall o :: o in pool ==> o.waypoint == waypoint && |o.ports| == ports
  }

  /** What the constructor's filters establish. */
  predicate ValidConfig(c: Config) {
    && Has(c.starts, Start, 1) && c.starts != []
    && Has(c.finishes, Finish, 1) && c.finishes != []
    && Has(c.checkpoints, Checkpoint, 2)
    && Has(c.plain, NoWaypoint, 2)
  }

  predicate OccursAt(text: string, needle: string, i: nat) {
    i + |needle| <= |text| && text[i..i + |needle|] == needle
  }

  predicate Contains(text: string, needle: string) {
    exists i :: 0 <= i <= |text| && OccursAt(text, needle, i)
  }

  predicate IsDirectional(o: Oriented) {
    || o.waypoint == Checkpoint || o.waypoint == StartFinish
    || Contains(o.blockId, "Special") || Contains(o.blockId, "Penalty")
  }

  // ----- what a legal route is, said without the search -----

  /** A placed block together with the port it was entered by. */
  datatype Link = Link(o: Oriented, anchor: Vec, entry: nat)

  function ToPlacement(l: Link): Placement { Placement(l.o.blockId, l.anchor, l.o.rotation) }

  function Placements(route: seq<Link>): seq<Placement> { Map(ToPlacement, route) }

  function Footprint(l: Link): set<Vec> { set c | c in l.o.cells :: Add(l.anchor, c) }

  predicate Linear(l: Link) {
    |l.o.ports| == 1 || (|l.o.ports| == 2 && l.entry < 2)
  }

  /** The port the route leaves by: the only one of a start, the other one of a through block. */
  function OutPort(l: Link): Port
    requires Linear(l)
  {
    if |l.o.ports| == 1 then l.o.ports[0] else l.o.ports[1 - l.entry]
  }

  /** Port to port: facing each other, in touching cells, with the same clip. */
  ghost predicate Meets(a: Link, b: Link) {
    && Linear(a) && b.entry < |b.o.ports|
    && var p, q := OutPort(a), b.o.ports[b.entry];
       && q.face == OppositeFace(p.face)
       && q.clip == p.clip
       && Add(b.anchor, q.cell) == Add(Add(a.anchor, p.cell), FaceDelta(p.face))
  }

  predicate InBounds(cells: set<Vec>) {
    forall c :: c in cells ==> GRID_MIN <= c.x < GRID_MAX && GROUND_Y <= c.y <= MAX_Y && GRID_MIN <= c.z < GRID_MAX
  }

  ghost predicate FacesTravel(l: Link) {
    Linear(l) && (IsDirectional(l.o) ==> RotateFace(NORTH, l.o.rotation) == OutPort(l).face)
  }

  /** Index of the finish: the route has this many blocks after the start. */
  function Last(c: Config): nat { if c.length < 1 then 1 else c.length }

  function Pool(c: Config, k: nat): seq<Oriented> {
    if k >= c.length then c.finishes
    else if c.every > 0 && k > 0 && k % c.every == 0 then
      if c.checkpoints != [] then c.checkpoints else c.plain
    else c.plain
  }

  ghost predicate LegalStart(c: Config, l: Link) {
    l.o in c.starts && l.anchor == ORIGIN && l.entry == 0
  }

  ghost predicate LegalStep(c: Config, k: nat, prev: Link, l: Link) {
    && l.o in Pool(c, k)
    && Meets(prev, l)
    && InBounds(Footprint(l))
    && (k < Last(c) ==> FacesTravel(l))
  }

  ghost predicate Disjoint(route: seq<Link>) {
    forall i, j :: 0 <= i < j < |route| ==> Footprint(route[i]) !! Footprint(route[j])
  }

  ghost predicate LegalPrefix(c: Config, route: seq<Link>) {
    && 1 <= |route| <= Last(c) + 1
    && LegalStart(c, route[0])
    && (forall k :: 1 <= k < |route| ==> LegalStep(c, k, route[k - 1], route[k]))
    && Disjoint(route)
  }

  ghost predicate LegalRoute(c: Config, route: seq<Link>) {
    LegalPrefix(c, route) && |route| == Last(c) + 1
  }

  /** No legal route continues this prefix. */
  ghost predicate Hopeless(c: Config, prefix: seq<Link>) {
    forall r :: prefix <= r ==> !LegalRoute(c, r)
  }

  ghost function Occupied(route: seq<Link>): set<Vec> {
    set k, x | 0 <= k < |route| && x in Footprint(route[k]) :: x
  }

  // ----- how prefixes grow -----

  lemma {:induction false} ExtendPrefix(c: Config, prefix: seq<Link>, l: Link)
    requires LegalPrefix(c, prefix) && |prefix| <= Last(c)
    requires LegalStep(c, |prefix|, prefix[|prefix| - 1], l)
    requires Footprint(l) !! Occupied(prefix)
    ensures LegalPrefix(c, prefix + [l])
    ensures Occupied(prefix + [l]) == Occupied(prefix) + Footprint(l)
  {
    var r := prefix + [l];
    forall i, j | 0 <= i < j < |r| ensures Footprint(r[i]) !! Footprint(r[j]) {
      if j == |prefix| {
        assert Footprint(prefix[i]) <= Occupied(prefix);
      }
    }
    forall x ensures x in Occupied(r) <==> x in Occupied(prefix) || x in Footprint(l) {
      if x in Occupied(prefix) {
        var k :| 0 <= k < |prefix| && x in Footprint(prefix[k]);
        assert x in Footprint(r[k]);
      }
      if x in Footprint(l) {
        assert x in Footprint(r[|prefix|]);
      }
      if x in Occupied(r) {
        var k :| 0 <= k < |r| && x in Footprint(r[k]);
        assert k < |prefix| ==> x in Footprint(prefix[k]);
      }
    }
  }

  /** Footprints of a legal prefix are disjoint, so removing the last one leaves the others' cells. */
  lemma {:induction false} ShrinkPrefix(c: Config, prefix: seq<Link>, l: Link)
    requires prefix != [] && LegalPrefix(c, prefix + [l])
    ensures LegalPrefix(c, prefix)
    ensures Occupied(prefix + [l]) - Footprint(l) == Occupied(prefix)
  {
    var r := prefix + [l];
    assert forall k :: 0 <= k < |prefix| ==> r[k] == prefix[k];
    forall k | 1 <= k < |prefix| ensures LegalStep(c, k, prefix[k - 1], prefix[k]) {
      assert LegalStep(c, k, r[k - 1], r[k]);
    }
    forall x ensures x in Occupied(r) - Footprint(l) <==> x in Occupied(prefix) {
      if x in Occupied(prefix) {
        var k :| 0 <= k < |prefix| && x in Footprint(prefix[k]);
        assert x in Footprint(r[k]) && Footprint(r[k]) !! Footprint(r[|prefix|]);
      }
      if x in Occupied(r) - Footprint(l) {
        var k :| 0 <= k < |r| && x in Footprint(r[k]);
        assert x in Footprint(prefix[k]);
      }
    }
  }

  /** A block that is not a legal step, or lands on an occupied cell, ends every hope. */
  lemma {:induction false} BadStepHopeless(c: Config, prefix: seq<Link>, l: Link)
    requires 1 <= |prefix| <= Last(c)
    requires !LegalStep(c, |prefix|, prefix[|prefix| - 1], l) || !(Footprint(l) !! Occupied(prefix))
    ensures Hopeless(c, prefix + [l])
  {
    forall r | prefix + [l] <= r ensures !LegalRoute(c, r) {
      var n := |prefix|;
      assert r[n] == (prefix + [l])[n] == l && r[n - 1] == (prefix + [l])[n - 1] == prefix[n - 1];
      if !(Footprint(l) !! Occupied(prefix)) {
        var x :| x in Footprint(l) && x in Occupied(prefix);
        var k :| 0 <= k < n && x in Footprint(prefix[k]);
        assert r[k] == (prefix + [l])[k] == prefix[k];
        assert !(Footprint(r[k]) !! Footprint(r[n]));
      }
    }
  }

  /** The open port of `prev` wants a port of that clip and face in the cell `target`. */
  ghost predicate OpensTo(prev: Link, target: Vec, entryFace: Quarter, clip: string) {
    && Linear(prev)
    && var p := OutPort(prev);
       && target == Add(Add(prev.anchor, p.cell), FaceDelta(p.face))
       && entryFace == OppositeFace(p.face) && clip == p.clip
  }

  /** The only way to enter `o` by its port `e` from the open port of `prev`. */
  function LinkAt(prev: Link, o: Oriented, e: nat): Link
    requires Linear(prev) && e < |o.ports|
  {
    var p := OutPort(prev);
    Link(o, Sub(Add(Add(prev.anchor, p.cell), FaceDelta(p.face)), o.ports[e].cell), e)
  }

  /** No legal route continues the prefix by `o` entered at port `e`. */
  ghost predicate EntryHopeless(c: Config, prefix: seq<Link>, o: Oriented, e: nat)
    requires prefix != [] && Linear(prefix[|prefix| - 1]) && e < |o.ports|
  {
    Hopeless(c, prefix + [LinkAt(prefix[|prefix| - 1], o, e)])
  }

  ghost predicate BlockHopeless(c: Config, prefix: seq<Link>, o: Oriented)
    requires prefix != [] && Linear(prefix[|prefix| - 1])
  {
    EntriesHopeless(c, prefix, o, |o.ports|)
  }

  /** The same for the first `n` ports of `o`. */
  ghost predicate EntriesHopeless(c: Config, prefix: seq<Link>, o: Oriented, n: nat)
    requires prefix != [] && Linear(prefix[|prefix| - 1]) && n <= |o.ports|
  {
    forall e: nat :: e < n ==> EntryHopeless(c, prefix, o, e)
  }

  lemma {:induction false} OneMoreEntry(c: Config, prefix: seq<Link>, o: Oriented, e: nat)
    requires prefix != [] && Linear(prefix[|prefix| - 1]) && e < |o.ports|
    requires EntriesHopeless(c, prefix, o, e) && EntryHopeless(c, prefix, o, e)
    ensures EntriesHopeless(c, prefix, o, e + 1)
  {}

  /** A legal continuation enters some pool block, and its anchor is forced by the meeting ports. */
  lemma {:induction false} NextStepForced(c: Config, prefix: seq<Link>, r: seq<Link>)
    requires 1 <= |prefix| <= Last(c) && Linear(prefix[|prefix| - 1])
    requires prefix <= r && LegalRoute(c, r)
    ensures var l := r[|prefix|];
            l.o in Pool(c, |prefix|) && !BlockHopeless(c, prefix, l.o)
  {
    var n := |prefix|;
    var l := r[n];
    assert LegalStep(c, n, r[n - 1], l);
    assert r[n - 1] == prefix[n - 1];
    assert LinkAt(prefix[n - 1], l.o, l.entry) == l;
    assert prefix + [l] <= r;
    assert !EntryHopeless(c, prefix, l.o, l.entry);
  }

  /** Every entry of every pool block fails: the prefix itself is hopeless. */
  lemma {:induction false} AllStepsHopeless(c: Config, prefix: seq<Link>)
    requires 1 <= |prefix| <= Last(c) && Linear(prefix[|prefix| - 1])
    requires forall o :: o in Pool(c, |prefix|) ==> BlockHopeless(c, prefix, o)
    ensures Hopeless(c, prefix)
  {
    forall r: seq<Link> | prefix <= r ensures !LegalRoute(c, r) {
      if LegalRoute(c, r) {
        NextStepForced(c, prefix, r);
      }
    }
  }

  // ----- candidate order -----

  /** A draw of the generator's uniform random number. */
  type Unit = u: real | 0.0 <= u < 1.0 witness 0.0

  /** The generator: an arbitrary stream, so that a property proved here holds for every seed. */
  class Rng {
    const stream: nat -> Unit
    var used: nat

    constructor (stream: nat -> Unit)
      ensures this.stream == stream && used == 0
    {
      this.stream := stream;
      used := 0;
    }

    method Random() returns (u: Unit)
      modifies this
      ensures u == stream(old(used)) && used == old(used) + 1
    {
      u := stream(used);
      used := used + 1;
    }

    method Below(n: nat) returns (i: nat)
      requires n > 0
      modifies this
      ensures i == Scaled(stream(old(used)), n) && i < n && used == old(used) + 1
    {
      var u := Random();
      ScaledBelow(u, n);
      i := Scaled(u, n);
    }
  }

  /** The index below `n` that a draw stands for. */
  function Scaled(u: Unit, n: nat): int { (u * n as real).Floor }

  lemma {:induction false} ScaledBelow(u: Unit, n: nat)
    requires n > 0
    ensures 0 <= Scaled(u, n) < n
  {
    FractionBelow(u, n as real);
    FloorBelow(u * n as real, n);
  }

  lemma {:induction false} FractionBelow(u: real, m: real)
    requires 0.0 <= u < 1.0 && m > 0.0
    ensures 0.0 <= u * m < m
  {
    var rest := 1.0 - u;
    assert rest * m > 0.0;
    assert u * m == m - rest * m;
  }

  lemma {:induction false} FloorBelow(x: real, n: nat)
    requires 0.0 <= x < n as real
    ensures 0 <= x.Floor < n
  {}

  type Weighted = (Oriented, real)

  function TotalWeight(items: seq<Weighted>): real {
    if items == [] then 0.0 else TotalWeight(items[..|items| - 1]) + items[|items| - 1].1
  }

  function WeightUpTo(items: seq<Weighted>, k: nat): real
    requires k <= |items|
  {
    TotalWeight(items[..k])
  }

  /** The first candidate at which the running weight reaches the pick, or the last one. */
  ghost predicate DrawnAt(items: seq<Weighted>, pick: real, chosen: nat) {
    && chosen < |items|
    && (forall k :: 1 <= k <= chosen ==> WeightUpTo(items, k) < pick)
    && (chosen + 1 < |items| ==> pick <= WeightUpTo(items, chosen + 1))
  }

  method DrawWeighted(items: seq<Weighted>, pick: real) returns (chosen: nat)
    requires items != []
    ensures DrawnAt(items, pick, chosen)
  {
    var acc := 0.0;
    chosen := |items| - 1;
    for i := 0 to |items|
      invariant chosen == |items| - 1 && acc == WeightUpTo(items, i)
      invariant forall k :: 1 <= k <= i ==> WeightUpTo(items, k) < pick
    {
      assert items[..i + 1][..i] == items[..i];
      acc := acc + items[i].1;
      if pick <= acc {
        return i;
      }
    }
  }

  lemma {:induction false} WeightsGrow(items: seq<Weighted>, i: nat, j: nat)
    requires i <= j <= |items| && forall k :: 0 <= k < |items| ==> items[k].1 >= 0.0
    ensures WeightUpTo(items, i) <= WeightUpTo(items, j)
    decreases j
  {
    if i < j {
      WeightsGrow(items, i, j - 1);
      assert items[..j][..j - 1] == items[..j - 1];
    }
  }

  /**
   The chance of a candidate is its share of the weight: for weights that are not negative it is drawn exactly when
   the pick falls after the weights before it and within its own. So no candidate of positive weight is shut out.
   */
  lemma {:induction false} DrawIsShare(items: seq<Weighted>, u: Unit, pick: real, chosen: nat, i: nat)
    requires forall k :: 0 <= k < |items| ==> items[k].1 >= 0.0
    requires pick == u * TotalWeight(items) && DrawnAt(items, pick, chosen) && i < |items|
    ensures chosen == i <==> (i > 0 ==> WeightUpTo(items, i) < pick) && pick <= WeightUpTo(items, i + 1)
  {
    PickWithin(items, u, pick);
    DrawnWithin(items, pick, chosen, i);
  }

  lemma {:induction false} PickWithin(items: seq<Weighted>, u: Unit, pick: real)
    requires pick == u * TotalWeight(items) && forall k :: 0 <= k < |items| ==> items[k].1 >= 0.0
    ensures pick <= WeightUpTo(items, |items|)
  {
    WeightsGrow(items, 0, |items|);
    assert items[..|items|] == items && items[..0] == [];
    ShareWithin(u, TotalWeight(items), pick);
  }

  lemma {:induction false} DrawnWithin(items: seq<Weighted>, pick: real, chosen: nat, i: nat)
    requires forall k :: 0 <= k < |items| ==> items[k].1 >= 0.0
    requires DrawnAt(items, pick, chosen) && i < |items| && pick <= WeightUpTo(items, |items|)
    ensures chosen == i <==> (i > 0 ==> WeightUpTo(items, i) < pick) && pick <= WeightUpTo(items, i + 1)
  {
    if i > chosen {
      WeightsGrow(items, chosen + 1, i);
    }
  }

  lemma {:induction false} ShareWithin(u: real, total: real, pick: real)
    requires 0.0 <= u < 1.0 && total >= 0.0 && pick == u * total
    ensures pick <= total
  {
    if total > 0.0 {
      FractionBelow(u, total);
    }
  }

  method Shuffle(pool: seq<Oriented>, rng: Rng) returns (out: seq<Oriented>)
    modifies rng
    ensures multiset(out) == multiset(pool)
    ensures rng.used == old(rng.used) + if pool == [] then 0 else |pool| - 1
  {
    out := pool;
    var i := |pool|;
    while i > 1
      invariant 0 <= i <= |pool| == |out| && (i == 0 ==> pool == [])
      invariant rng.used == old(rng.used) + |pool| - i
      invariant multiset(out) == multiset(pool)
    {
      i := i - 1;
      var j := rng.Below(i + 1);
      var swapped := out[i := out[j]][j := out[i]];
      assert multiset(swapped) == multiset(out);
      out := swapped;
    }
  }

  /**
   The try order: a uniform shuffle, or a weighted order without replacement. Whatever the weights
   are, zero and negative ones included, nothing is lost and nothing is repeated.
   */
  method OrderCandidates(pool: seq<Oriented>, weighted: bool, weight: Oriented -> real, rng: Rng)
    returns (ordered: seq<Oriented>)
    modifies rng
    ensures multiset(ordered) == multiset(pool)
  {
    if !weighted {
      ordered := Shuffle(pool, rng);
      return;
    }
    var items: seq<Weighted> := Map((o: Oriented) => (o, weight(o)), pool);
    ordered := [];
    assert Map((it: Weighted) => it.0, items) == pool;
    while items != []
      invariant multiset(ordered) + multiset(Map((it: Weighted) => it.0, items)) == multiset(pool)
      decreases |items|
    {
      var u := rng.Random();
      var chosen := DrawWeighted(items, u * TotalWeight(items));
      MapRemoveAt((it: Weighted) => it.0, items, chosen);
      ordered := ordered + [items[chosen].0];
      items := items[..chosen] + items[chosen + 1..];
    }
  }

  // ----- the search -----

  datatype Verdict = Found | Failed | BudgetExhausted

  // ----- the size of the search tree -----

  /** A block the search places and searches on from: legal here, on free cells, and not the finish. */
  ghost predicate Admissible(c: Config, prefix: seq<Link>, l: Link)
    requires prefix != []
  {
    && |prefix| < Last(c) && Linear(l)
    && LegalStep(c, |prefix|, prefix[|prefix| - 1], l) && Footprint(l) !! Occupied(prefix)
  }

  /**
   The number of legal prefixes that continue `prefix`, itself included, counted as often as the pools list
   their blocks.
   */
  ghost function Tree(c: Config, prefix: seq<Link>): nat
    requires prefix != [] && Linear(prefix[|prefix| - 1])
    decreases Last(c) - |prefix|, 2
  {
    1 + SumOver((o: Oriented) => BlockTree(c, prefix, o), Pool(c, |prefix|))
  }

  /** The part of the tree that begins with `o`, entered by any of its ports. */
  ghost function BlockTree(c: Config, prefix: seq<Link>, o: Oriented): nat
    requires prefix != [] && Linear(prefix[|prefix| - 1])
    decreases Last(c) - |prefix|, 1
  {
    SumTo((e: nat) => EntryTree(c, prefix, o, e), |o.ports|)
  }

  ghost function EntryTree(c: Config, prefix: seq<Link>, o: Oriented, e: nat): nat
    requires prefix != [] && Linear(prefix[|prefix| - 1])
    decreases Last(c) - |prefix|, 0
  {
    if e < |o.ports| && Admissible(c, prefix, LinkAt(prefix[|prefix| - 1], o, e))
    then Tree(c, prefix + [LinkAt(prefix[|prefix| - 1], o, e)]) else 0
  }

  /** The sizes of the search tree, as functions the search can be stated with. */
  datatype Sizes = Sizes(tree: seq<Link> -> nat, block: (seq<Link>, Oriented) -> nat,
                         entry: (seq<Link>, Oriented, nat) -> nat)

  ghost predicate Open(prefix: seq<Link>) { prefix != [] && Linear(prefix[|prefix| - 1]) }

  ghost function SizesOf(c: Config): Sizes {
    Sizes((p: seq<Link>) => if Open(p) then Tree(c, p) else 0,
          (p: seq<Link>, o: Oriented) => if Open(p) then BlockTree(c, p, o) else 0,
          (p: seq<Link>, o: Oriented, e: nat) => if Open(p) then EntryTree(c, p, o, e) else 0)
  }

  function BlockSizes(z: Sizes, p: seq<Link>): Oriented -> nat { (o: Oriented) => z.block(p, o) }

  function EntrySizes(z: Sizes, p: seq<Link>, o: Oriented): nat -> nat { (e: nat) => z.entry(p, o, e) }

  ghost predicate TreeFits(c: Config, z: Sizes, p: seq<Link>) {
    Open(p) ==> z.tree(p) == 1 + SumOver(BlockSizes(z, p), Pool(c, |p|))
  }

  ghost predicate BlockFits(z: Sizes, p: seq<Link>, o: Oriented) {
    Open(p) ==> z.block(p, o) == SumTo(EntrySizes(z, p, o), |o.ports|)
  }

  ghost predicate EntryFits(c: Config, z: Sizes, p: seq<Link>, o: Oriented, e: nat) {
    Open(p) && e < |o.ports| ==>
      var l := LinkAt(p[|p| - 1], o, e);
      z.entry(p, o, e) == if Admissible(c, p, l) then z.tree(p + [l]) else 0
  }

  ghost predicate SizesFit(c: Config, z: Sizes) {
    && (forall p :: TreeFits(c, z, p))
    && (forall p, o :: BlockFits(z, p, o))
    && (forall p, o, e: nat :: EntryFits(c, z, p, o, e))
  }

  lemma {:induction false} SizesOfFit(c: Config)
    ensures SizesFit(c, SizesOf(c))
  {
    var z := SizesOf(c);
    forall p ensures TreeFits(c, z, p) {
      if Open(p) {
        SumOverSame((o: Oriented) => BlockTree(c, p, o), BlockSizes(z, p), Pool(c, |p|));
      }
    }
    forall p, o ensures BlockFits(z, p, o) {
      if Open(p) {
        SumToSame((e: nat) => EntryTree(c, p, o, e), EntrySizes(z, p, o), |o.ports|);
      }
    }
    forall p, o, e: nat ensures EntryFits(c, z, p, o, e) {}
  }

  /** The tree below a prefix, in whatever order the pool is tried. */
  lemma {:induction false} TreeOverPool(c: Config, z: Sizes, p: seq<Link>, pool: seq<Oriented>)
    requires Open(p) && TreeFits(c, z, p) && multiset(pool) == multiset(Pool(c, |p|))
    ensures z.tree(p) == 1 + SumOver(BlockSizes(z, p), pool)
  {
    SumOverPermutes(BlockSizes(z, p), pool, Pool(c, |p|));
  }

  lemma {:induction false} SamePool(c: Config, k: nat, pool: seq<Oriented>)
    requires multiset(pool) == multiset(Pool(c, k))
    ensures forall o :: o in pool <==> o in Pool(c, k)
  {
    SameMembers(pool, Pool(c, k));
  }

  function Without<T>(s: seq<T>, i: nat): seq<T>
    requires i < |s|
  {
    s[..i] + s[i + 1..]
  }

  class Walk {
    const c: Config
    const weighted: bool
    const weight: (Placement, string, Oriented) -> real
    const rng: Rng
    var placements: seq<Placement>
    var occupied: set<Vec>
    var expansions: int
    ghost const size: Sizes
    ghost var route: seq<Link>

    /**
     The route and the occupancy set describe the same legal prefix; `route` thereby determines
     both, so restoring it restores them.
     */
    ghost predicate Valid()
      reads this
    {
      && ValidConfig(c) && SizesFit(c, size)
      && LegalPrefix(c, route)
      && placements == Placements(route)
      && occupied == Occupied(route)
    }

    constructor (c: Config, weighted: bool, weight: (Placement, string, Oriented) -> real, rng: Rng, start: Oriented)
      requires ValidConfig(c) && start in c.starts
      ensures Valid() && this.c == c && this.rng == rng && route == [Link(start, ORIGIN, 0)] && expansions == 0
      ensures size == SizesOf(c)
    {
      this.c, this.weighted, this.weight, this.rng := c, weighted, weight, rng;
      var first := Link(start, ORIGIN, 0);
      size := SizesOf(c);
      SizesOfFit(c);
      placements := [Placement(start.blockId, ORIGIN, start.rotation)];
      occupied := set x | x in start.cells :: Add(ORIGIN, x);
      expansions := 0;
      route := [first];
      new;
      assert Occupied(route) == Footprint(first) by {
        assert forall x :: x in Footprint(first) ==> x in Footprint(route[0]);
      }
    }

    /**
     Extends the current prefix by a block entered from the open port (`wcell`, `wface`, `clip`).
     A success leaves a legal route; a failure restores the state and proves the prefix hopeless.
     */
    method Dfs(wcell: Vec, wface: Quarter, clip: string, steps: nat) returns (v: Verdict)
      requires Valid() && 1 <= steps == |route| <= Last(c)
      requires Linear(route[steps - 1])
      requires var p := OutPort(route[steps - 1]);
               wcell == Add(route[steps - 1].anchor, p.cell) && wface == p.face && clip == p.clip
      modifies this, rng
      ensures v == Found ==> LegalRoute(c, route) && placements == Placements(route) && old(route) <= route
      ensures v == Failed ==> Valid() && route == old(route) && placements == old(placements)
                              && occupied == old(occupied) && Hopeless(c, route)
      ensures v == BudgetExhausted <==> expansions > c.maxExpansions
      ensures old(expansions) < expansions <= old(expansions) + size.tree(old(route))
      ensures v == Failed ==> expansions == old(expansions) + size.tree(old(route))
      decreases Last(c) - steps, 5
    {
      assert TreeFits(c, size, route);
      expansions := expansions + 1;
      if expansions > c.maxExpansions {
        return BudgetExhausted;
      }
      var target := Add(wcell, FaceDelta(wface));
      var entryFace := OppositeFace(wface);
      var last := placements[|placements| - 1];
      var pool := OrderCandidates(Pool(c, steps), weighted, o => weight(last, clip, o), rng);
      TreeOverPool(c, size, route, pool);
      v := TryPool(pool, target, entryFace, clip, steps);
    }

    /** The outer loop of the search: every candidate, in the given order. */
    method TryPool(pool: seq<Oriented>, target: Vec, entryFace: Quarter, clip: string, steps: nat) returns (v: Verdict)
      requires Valid() && 1 <= steps == |route| <= Last(c)
      requires multiset(pool) == multiset(Pool(c, steps)) && expansions <= c.maxExpansions
      requires OpensTo(route[steps - 1], target, entryFace, clip)
      modifies this, rng
      ensures v == Found ==> LegalRoute(c, route) && placements == Placements(route) && old(route) <= route
      ensures v == Failed ==> Valid() && route == old(route) && Hopeless(c, route)
      ensures v == BudgetExhausted <==> expansions > c.maxExpansions
      ensures old(expansions) <= expansions <= old(expansions) + SumOver(BlockSizes(size, old(route)), pool)
      ensures v == Failed ==> expansions == old(expansions) + SumOver(BlockSizes(size, old(route)), pool)
      decreases Last(c) - steps, 4
    {
      ghost var prefix := route;
      SamePool(c, steps, pool);
      for i := 0 to |pool|
        invariant Valid() && route == prefix && expansions <= c.maxExpansions
        invariant forall j :: 0 <= j < i ==> BlockHopeless(c, prefix, pool[j])
        invariant expansions == old(expansions) + SumOver(BlockSizes(size, prefix), pool[..i])
      {
        SumOverPrefix(BlockSizes(size, prefix), pool, i);
        v := TryBlock(pool[i], target, entryFace, clip, steps);
        if v != Failed {
          return;
        }
      }
      assert forall o :: o in Pool(c, steps) ==> BlockHopeless(c, prefix, o);
      AllStepsHopeless(c, prefix);
      assert pool[..|pool|] == pool;
      v := Failed;
    }

    /** The inner loop of the search: every port of `cand` is tried as the entry. */
    method TryBlock(cand: Oriented, target: Vec, entryFace: Quarter, clip: string, steps: nat)
      returns (v: Verdict)
      requires Valid() && 1 <= steps == |route| <= Last(c)
      requires cand in Pool(c, steps) && expansions <= c.maxExpansions
      requires OpensTo(route[steps - 1], target, entryFace, clip)
      modifies this, rng
      ensures v == Found ==> LegalRoute(c, route) && placements == Placements(route) && old(route) <= route
      ensures v == Failed ==> Valid() && route == old(route) && BlockHopeless(c, route, cand)
      ensures v == BudgetExhausted <==> expansions > c.maxExpansions
      ensures old(expansions) <= expansions <= old(expansions) + size.block(old(route), cand)
      ensures v == Failed ==> expansions == old(expansions) + size.block(old(route), cand)
      decreases Last(c) - steps, 3
    {
      ghost var prefix, sizes := route, EntrySizes(size, route, cand);
      assert BlockFits(size, prefix, cand);
      v := Failed;
      var e := 0;
      while e < |cand.ports| && v == Failed
        invariant 0 <= e <= |cand.ports|
        invariant v == Failed ==> Valid() && route == prefix && EntriesHopeless(c, prefix, cand, e)
        invariant v == Failed ==> expansions == old(expansions) + SumTo(sizes, e)
        invariant v == Found ==> LegalRoute(c, route) && placements == Placements(route) && prefix <= route
        invariant v == BudgetExhausted <==> expansions > c.maxExpansions
        invariant old(expansions) <= expansions <= old(expansions) + SumTo(sizes, |cand.ports|)
      {
        SumToGrows(sizes, e, |cand.ports|);
        v := TryEntry(cand, e, target, entryFace, clip, steps);
        if v == Failed {
          OneMoreEntry(c, prefix, cand, e);
        }
        e := e + 1;
      }
    }

    /** One iteration of that loop: candidate `cand` entered by its port `e`. */
    method TryEntry(cand: Oriented, e: nat, target: Vec, entryFace: Quarter, clip: string, steps: nat)
      returns (v: Verdict)
      requires Valid() && 1 <= steps == |route| <= Last(c)
      requires cand in Pool(c, steps) && e < |cand.ports| && expansions <= c.maxExpansions
      requires OpensTo(route[steps - 1], target, entryFace, clip)
      modifies this, rng
      ensures v == Found ==> LegalRoute(c, route) && placements == Placements(route) && old(route) <= route
      ensures v == Failed ==> Valid() && route == old(route) && EntryHopeless(c, route, cand, e)
      ensures v == BudgetExhausted <==> expansions > c.maxExpansions
      ensures old(expansions) <= expansions <= old(expansions) + size.entry(old(route), cand, e)
      ensures v == Failed ==> expansions == old(expansions) + size.entry(old(route), cand, e)
      decreases Last(c) - steps, 2
    {
      v := Failed;
      var entry := cand.ports[e];
      var anchor := Sub(target, entry.cell);
      var footprint := set x | x in cand.cells :: Add(anchor, x);
      ghost var prefix := route;
      ghost var link := LinkAt(prefix[steps - 1], cand, e);
      assert link == Link(cand, anchor, e) && Footprint(link) == footprint;

      if entry.face != entryFace || entry.clip != clip || !InBounds(footprint) || !(footprint !! occupied) {
        assert EntryHopeless(c, prefix, cand, e) by { BadStepHopeless(c, prefix, link); }
        assert EntryFits(c, size, prefix, cand, e);
        return;
      }
      v := PlaceEntry(cand, e, anchor, footprint, steps, link);
    }

    /** The rest of that iteration, for an entry that meets the open port on free cells inside the grid. */
    method PlaceEntry(cand: Oriented, e: nat, anchor: Vec, footprint: set<Vec>, steps: nat, ghost link: Link)
      returns (v: Verdict)
      requires Valid() && 1 <= steps == |route| <= Last(c)
      requires cand in Pool(c, steps) && e < |cand.ports| && expansions <= c.maxExpansions
      requires Linear(route[steps - 1]) && link == LinkAt(route[steps - 1], cand, e)
      requires link == Link(cand, anchor, e) && Footprint(link) == footprint
      requires Meets(route[steps - 1], link) && InBounds(footprint) && footprint !! occupied
      modifies this, rng
      ensures v == Found ==> LegalRoute(c, route) && placements == Placements(route) && old(route) <= route
      ensures v == Failed ==> Valid() && route == old(route) && Hopeless(c, route + [link])
      ensures v == BudgetExhausted <==> expansions > c.maxExpansions
      ensures old(expansions) <= expansions <= old(expansions) + size.entry(old(route), cand, e)
      ensures v == Failed ==> expansions == old(expansions) + size.entry(old(route), cand, e)
      decreases Last(c) - steps, 1
    {
      assert EntryFits(c, size, route, cand, e);
      var exits := Without(cand.ports, e);
      if cand.waypoint == Finish {
        // A finish has one port, so no exit is left to reject it for.
        assert exits == [];
        Close(cand, anchor, footprint, link);
        return Found;
      }
      // A through block has two ports, so exactly one exit is left.
      assert |exits| == 1 && exits[0] == OutPort(link);
      if IsDirectional(cand) && RotateFace(NORTH, cand.rotation) != exits[0].face {
        BadStepHopeless(c, route, link);
        return Failed;
      }
      v := Descend(cand, anchor, footprint, exits[0], steps, link);
    }

    /** Places an admissible through block, searches on from its exit, and takes it back on failure. */
    method Descend(cand: Oriented, anchor: Vec, footprint: set<Vec>, exit: Port, steps: nat, ghost link: Link)
      returns (v: Verdict)
      requires Valid() && 1 <= steps == |route| < Last(c)
      requires link.o == cand && link.anchor == anchor && Footprint(link) == footprint
      requires LegalStep(c, steps, route[steps - 1], link) && footprint !! occupied
      requires Linear(link) && exit == OutPort(link)
      modifies this, rng
      ensures v == Found ==> LegalRoute(c, route) && placements == Placements(route) && old(route) <= route
      ensures v == Failed ==> Valid() && route == old(route) && Hopeless(c, route + [link])
      ensures v == BudgetExhausted <==> expansions > c.maxExpansions
      ensures old(expansions) < expansions <= old(expansions) + size.tree(old(route) + [link])
      ensures v == Failed ==> expansions == old(expansions) + size.tree(old(route) + [link])
      decreases Last(c) - steps, 0
    {
      ghost var prefix := route;
      Push(cand, anchor, footprint, link);
      v := Dfs(Add(anchor, exit.cell), exit.face, exit.clip, steps + 1);
      if v == Failed {
        Pop(footprint, prefix, link);
      }
    }

    /** Takes the last block back: exactly the state before it was appended. */
    method Pop(footprint: set<Vec>, ghost prefix: seq<Link>, ghost link: Link)
      requires Valid() && prefix != [] && route == prefix + [link] && Footprint(link) == footprint
      modifies this`placements, this`occupied, this`route
      ensures Valid() && route == prefix
    {
      assert placements == Placements(prefix) + Placements([link]) by { MapAppend(ToPlacement, prefix, [link]); }
      assert Occupied(route) - footprint == Occupied(prefix) && LegalPrefix(c, prefix) by {
        ShrinkPrefix(c, prefix, link);
      }
      placements := placements[..|placements| - 1];
      occupied := occupied - footprint;
      route := prefix;
    }

    /** Appends the finish; its cells are not recorded. */
    method Close(cand: Oriented, anchor: Vec, footprint: set<Vec>, ghost link: Link)
      requires Valid() && |route| == Last(c)
      requires link.o == cand && link.anchor == anchor && Footprint(link) == footprint
      requires LegalStep(c, |route|, route[|route| - 1], link) && footprint !! occupied
      modifies this`placements, this`route
      ensures LegalRoute(c, route) && placements == Placements(route) && route == old(route) + [link]
    {
      ExtendPrefix(c, route, link);
      MapAppend(ToPlacement, route, [link]);
      placements := placements + [Placement(cand.blockId, anchor, cand.rotation)];
      route := route + [link];
    }

    /** Appends a through block to the route and records its cells. */
    method Push(cand: Oriented, anchor: Vec, footprint: set<Vec>, ghost link: Link)
      requires Valid() && |route| <= Last(c)
      requires link.o == cand && link.anchor == anchor && Footprint(link) == footprint
      requires LegalStep(c, |route|, route[|route| - 1], link) && footprint !! occupied
      modifies this`placements, this`occupied, this`route
      ensures Valid() && route == old(route) + [link]
      ensures placements == old(placements) + [Placement(cand.blockId, anchor, cand.rotation)]
      ensures occupied == old(occupied) + footprint
    {
      ExtendPrefix(c, route, link);
      MapAppend(ToPlacement, route, [link]);
      placements := placements + [Placement(cand.blockId, anchor, cand.rotation)];
      occupied := occupied + footprint;
      route := route + [link];
    }
  }

  // ----- one run of the walker -----

  datatype Outcome = Route(placements: seq<Placement>) | NoRoute | OutOfBudget

  /** No legal route begins with the start orientation `s`. */
  ghost predicate NoRouteFrom(c: Config, s: Oriented) {
    forall r: seq<Link> :: LegalRoute(c, r) ==> r[0].o != s
  }

  /** The number of legal prefixes of one start, with the multiplicity of the pools. */
  ghost function StartTree(c: Config, start: Oriented): nat
    requires |start.ports| == 1
  {
    Tree(c, [Link(start, ORIGIN, 0)])
  }

  /** The start orientation that the first draw stands for. */
  function DrawnStart(c: Config, stream: nat -> Unit): (o: Oriented)
    requires ValidConfig(c)
    ensures o in c.starts && |o.ports| == 1
  {
    ScaledBelow(stream(0), |c.starts|);
    c.starts[Scaled(stream(0), |c.starts|)]
  }

  /**
   For every stream of random draws: a returned route is legal and begins with the start that was drawn,
   a dead end means that no legal route begins with it, and whether a hopeless search is decided depends on
   one number: it reports the dead end when the budget is at least the number of legal prefixes of the drawn
   start, and gives up when it is not.
   */
  method Generate(c: Config, weighted: bool, weight: (Placement, string, Oriented) -> real, stream: nat -> Unit)
    returns (outcome: Outcome)
    requires ValidConfig(c)
    ensures outcome.Route? ==> exists r: seq<Link> :: LegalRoute(c, r) && outcome.placements == Placements(r)
                                           && r[0].o == DrawnStart(c, stream)
    ensures outcome.NoRoute? ==> NoRouteFrom(c, DrawnStart(c, stream))
    ensures outcome.OutOfBudget? ==> c.maxExpansions < StartTree(c, DrawnStart(c, stream))
    ensures outcome.NoRoute? ==> StartTree(c, DrawnStart(c, stream)) <= c.maxExpansions
    ensures c.maxExpansions < 1 ==> outcome.OutOfBudget?
  {
    var rng := new Rng(stream);
    assert rng.stream == stream && rng.used == 0;
    var pick := rng.Below(|c.starts|);
    var start := c.starts[pick];
    var walk := new Walk(c, weighted, weight, rng, start);
    var port := start.ports[0];
    var v := walk.Dfs(Add(ORIGIN, port.cell), port.face, port.clip, 1);
    match v
    case Found =>
      outcome := Route(walk.placements);
    case BudgetExhausted =>
      outcome := OutOfBudget;
    case Failed =>
      assert NoRouteFrom(c, start) by { HopelessStart(c, start); }
      outcome := NoRoute;
  }

  lemma {:induction false} HopelessStart(c: Config, start: Oriented)
    requires Hopeless(c, [Link(start, ORIGIN, 0)])
    ensures NoRouteFrom(c, start)
  {
    forall r: seq<Link> | LegalRoute(c, r) ensures r[0].o != start {
      assert LegalStart(c, r[0]);
      assert [r[0]] <= r;
    }
  }

  /** Reading a legal route: its length, its two ends, and where the checkpoints are. */
  lemma {:induction false} LegalRouteShape(c: Config, r: seq<Link>, k: nat)
    requires ValidConfig(c) && LegalRoute(c, r) && k < |r|
    ensures |Placements(r)| == (if c.length < 1 then 1 else c.length) + 1
    ensures r[k].o.waypoint == Start <==> k == 0
    ensures r[k].o.waypoint == Finish <==> k == |r| - 1
    ensures r[k].o.waypoint == Checkpoint <==>
            0 < k < c.length && c.every > 0 && k % c.every == 0 && c.checkpoints != []
  {
    if k > 0 {
      assert LegalStep(c, k, r[k - 1], r[k]);
    }
  }

  // ----- building the stock from the catalogue -----

  function RoutePorts(v: BlockVariant, clips: set<string>): seq<UnitPort> {
    Filter((p: UnitPort) => p.clip in clips, SidePorts(v))
  }

  function Orient(block: BlockDef, v: BlockVariant, ports: seq<UnitPort>, rotation: Quarter): Oriented {
    Oriented(block.blockId, rotation, TurnCells(v.units, rotation, v.size), TurnPorts(ports, rotation, v.size),
             block.waypoint)
  }

  function Orientations(block: BlockDef, clips: set<string>): seq<Oriented> {
    match GroundVariant(block)
    case None => []
    case Some(v) =>
      var ports := RoutePorts(v, clips);
      if ports == [] then []
      else [Orient(block, v, ports, 0), Orient(block, v, ports, 1),
            Orient(block, v, ports, 2), Orient(block, v, ports, 3)]
  }

  function Select(pool: seq<Oriented>, waypoint: Waypoint, ports: nat): (r: seq<Oriented>)
    ensures forall o :: o in r <==> o in pool && o.waypoint == waypoint && |o.ports| == ports
  {
    Filter((o: Oriented) => o.waypoint == waypoint && |o.ports| == ports, pool)
  }

  datatype BuildResult = Built(c: Config) | UnknownBlock(id: string) | NoEnds

  /** `o` is one of the four orientations of an allowed catalogue block. */
  ghost predicate Stocked(catalogue: map<string, BlockDef>, allowed: seq<string>, clips: set<string>, o: Oriented) {
    exists id :: id in allowed && id in catalogue && o in Orientations(catalogue[id], clips)
  }

  ghost predicate HasEnd(catalogue: map<string, BlockDef>, allowed: seq<string>, clips: set<string>, kind: Waypoint) {
    exists o :: Stocked(catalogue, allowed, clips, o) && o.waypoint == kind && |o.ports| == 1
  }

  method Build(catalogue: map<string, BlockDef>, allowed: seq<string>, clips: set<string>,
               length: int, every: int, maxExpansions: int) returns (r: BuildResult)
    ensures r.UnknownBlock? <==> exists id :: id in allowed && id !in catalogue
    ensures r.Built? ==> ValidConfig(r.c) && r.c.length == length && r.c.every == every
                         && r.c.maxExpansions == maxExpansions
    ensures r.Built? ==> forall o :: o in r.c.starts <==>
                           Stocked(catalogue, allowed, clips, o) && o.waypoint == Start && |o.ports| == 1
    ensures r.Built? ==> forall o :: o in r.c.finishes <==>
                           Stocked(catalogue, allowed, clips, o) && o.waypoint == Finish && |o.ports| == 1
    ensures r.Built? ==> forall o :: o in r.c.checkpoints <==>
                           Stocked(catalogue, allowed, clips, o) && o.waypoint == Checkpoint && |o.ports| == 2
    ensures r.Built? ==> forall o :: o in r.c.plain <==>
                           Stocked(catalogue, allowed, clips, o) && o.waypoint == NoWaypoint && |o.ports| == 2
    ensures r.NoEnds? ==> !HasEnd(catalogue, allowed, clips, Start) || !HasEnd(catalogue, allowed, clips, Finish)
  {
    var orient, unknown := Stock(catalogue, allowed, clips);
    if unknown.Some? {
      return UnknownBlock(unknown.value);
    }
    var c := Config(Select(orient, Start, 1), Select(orient, Finish, 1), Select(orient, Checkpoint, 2),
                    Select(orient, NoWaypoint, 2), length, every, maxExpansions);
    if c.starts == [] || c.finishes == [] {
      return NoEnds;
    }
    r := Built(c);
  }

  /** The orientations of all allowed blocks, or the first name that is not in the catalogue. */
  method Stock(catalogue: map<string, BlockDef>, allowed: seq<string>, clips: set<string>)
    returns (orient: seq<Oriented>, unknown: Option<string>)
    ensures unknown.Some? <==> exists id :: id in allowed && id !in catalogue
    ensures unknown.None? ==> AllStocked(catalogue, allowed, clips, orient)
  {
    orient, unknown := [], None;
    var i := 0;
    while i < |allowed| && unknown.None?
      invariant 0 <= i <= |allowed|
      invariant unknown.None? ==> forall j :: 0 <= j < i ==> allowed[j] in catalogue
      invariant unknown.None? ==> AllStocked(catalogue, allowed[..i], clips, orient)
      invariant unknown.Some? ==> exists id :: id in allowed && id !in catalogue
    {
      if allowed[i] in catalogue {
        StockMore(catalogue, allowed, clips, i, orient);
        orient := orient + Orientations(catalogue[allowed[i]], clips);
      } else {
        unknown := Some(allowed[i]);
      }
      i := i + 1;
    }
    assert allowed[..|allowed|] == allowed;
  }

  ghost predicate AllStocked(catalogue: map<string, BlockDef>, allowed: seq<string>, clips: set<string>,
                             orient: seq<Oriented>) {
    forall o :: o in orient <==> Stocked(catalogue, allowed, clips, o)
  }

  lemma {:induction false} StockMore(catalogue: map<string, BlockDef>, allowed: seq<string>, clips: set<string>, i: nat,
                                     orient: seq<Oriented>)
    requires i < |allowed| && allowed[i] in catalogue && AllStocked(catalogue, allowed[..i], clips, orient)
    ensures AllStocked(catalogue, allowed[..i + 1], clips, orient + Orientations(catalogue[allowed[i]], clips))
  {
    assert allowed[..i + 1] == allowed[..i] + [allowed[i]];
  }
}
