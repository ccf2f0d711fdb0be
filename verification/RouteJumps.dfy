/**
 Gaps between open route ends: from each open face the miner scans ahead for the first foreign block
 and records a jump when the landing is an open end pointing back.
 */
module RouteJumps {
  import opened Rotation
  import opened Poses
  import opened Collections
  import opened Catalogue
  import opened Occupancy

  const MAX_JUMP_GAP: nat := 6

  /** A face of a cell with nothing on the other side. */
  datatype OpenEnd = OpenEnd(block: nat, cell: Vec, face: Quarter)

  /** A flight of `gap` cells from an open end onto block `onto`. */
  datatype Flight = Flight(from: OpenEnd, gap: nat, onto: nat)

  /** What is stored: both names and the landing as seen from the take-off. */
  datatype Jump = Jump(a: string, b: string, offset: Vec, rel: Quarter, gap: nat)

  /** A name the catalogue does not know, or one without a ground variant, covers its anchor cell. */
  function CellsOf(catalogue: Catalog, p: Placed): seq<Vec> {
    if p.name !in catalogue then [p.pose.at]
    else match GroundVariant(catalogue[p.name])
      case None => [p.pose.at]
      case Some(v) => WorldCells(v.units, v.size, p.pose)
  }

  /** Which cells a placement covers: those of its turned ground variant, or its anchor cell. */
  lemma {:induction false} CellsAre(catalogue: Catalog, p: Placed, c: Vec)
    ensures c in CellsOf(catalogue, p) <==>
            if p.name in catalogue && GroundVariant(catalogue[p.name]).Some?
            then var v := GroundVariant(catalogue[p.name]).value;
                 exists u :: u in v.units && c == Add(p.pose.at, RotateOffset(u.offset, p.pose.rot, v.size))
            else c == p.pose.at
  {
    if p.name in catalogue && GroundVariant(catalogue[p.name]).Some? {
      var v := GroundVariant(catalogue[p.name]).value;
      WorldCellsAre(v.units, v.size, p.pose, c);
    }
  }

  function AllCells(catalogue: Catalog, placed: seq<Placed>): seq<seq<Vec>> {
    Map((p: Placed) => CellsOf(catalogue, p), placed)
  }

  /** The `k`-th cell in front of an open end. */
  function Ahead(e: OpenEnd, k: int): Vec { Along(e.cell, e.face, k) }

  ghost predicate IsOpen(owner: Owners, cells: seq<seq<Vec>>, e: OpenEnd) {
    e.block < |cells| && e.cell in cells[e.block] && Ahead(e, 1) !in owner
  }

  /** Nobody but the block itself owns a cell of the flight up to `k`. */
  ghost predicate ClearOfOthers(owner: Owners, e: OpenEnd, n: int) {
    forall k :: 1 <= k <= n && Ahead(e, k) in owner ==> owner[Ahead(e, k)] == e.block
  }

  ghost predicate IsFlight(owner: Owners, cells: seq<seq<Vec>>, f: Flight) {
    && IsOpen(owner, cells, f.from)
    && 1 <= f.gap <= MAX_JUMP_GAP
    && LandsOn(owner, f)
    && Ahead(f.from, f.gap) !in owner
    && ClearOfOthers(owner, f.from, f.gap)
  }

  ghost predicate LandsOn(owner: Owners, f: Flight) {
    && Ahead(f.from, f.gap + 1) in owner
    && owner[Ahead(f.from, f.gap + 1)] == f.onto
    && f.onto != f.from.block
  }

  // ----- the open ends -----

  /** How often an open end is listed: once per listing of its cell. */
  ghost function EndCount(owner: Owners, cells: seq<seq<Vec>>, e: OpenEnd): nat {
    if IsOpen(owner, cells, e) then multiset(cells[e.block])[e.cell] else 0
  }

  method CellEnds(owner: Owners, i: nat, cell: Vec) returns (ends: seq<OpenEnd>)
    ensures forall e :: multiset(ends)[e] == if e.block == i && e.cell == cell && Ahead(e, 1) !in owner then 1 else 0
  {
    ends := [];
    for f := 0 to 4
      invariant forall e ::
        multiset(ends)[e] == if e.block == i && e.cell == cell && e.face < f && Ahead(e, 1) !in owner then 1 else 0
    {
      var e := OpenEnd(i, cell, f);
      if Ahead(e, 1) !in owner {
        ends := ends + [e];
      }
    }
  }

  method BlockEnds(owner: Owners, i: nat, world: seq<Vec>) returns (ends: seq<OpenEnd>)
    ensures forall e ::
              multiset(ends)[e] == if e.block == i && Ahead(e, 1) !in owner then multiset(world)[e.cell] else 0
  {
    ends := [];
    for k := 0 to |world|
      invariant forall e ::
        multiset(ends)[e] == if e.block == i && Ahead(e, 1) !in owner then multiset(world[..k])[e.cell] else 0
    {
      var more := CellEnds(owner, i, world[k]);
      assert world[..k + 1] == world[..k] + [world[k]];
      ends := ends + more;
    }
    assert world[..|world|] == world;
  }

  method OpenEnds(owner: Owners, cells: seq<seq<Vec>>) returns (ends: seq<OpenEnd>)
    ensures ListsEnds(owner, cells, ends)
  {
    ends := [];
    for i := 0 to |cells|
      invariant forall e :: multiset(ends)[e] == if e.block < i then EndCount(owner, cells, e) else 0
    {
      var more := BlockEnds(owner, i, cells[i]);
      ends := ends + more;
    }
  }

  // ----- the scan -----

  /** The scan finds the flight from an open end, and there is at most one. */
  method Scan(owner: Owners, cells: seq<seq<Vec>>, e: OpenEnd) returns (found: Option<Flight>)
    requires IsOpen(owner, cells, e)
    ensures forall f: Flight :: f.from == e ==> (IsFlight(owner, cells, f) <==> found == Some(f))
    ensures found.Some? ==> found.value.from == e
  {
    found := None;
    var gap, stopped := 1, false;
    while gap <= MAX_JUMP_GAP && !stopped
      invariant 1 <= gap <= MAX_JUMP_GAP + 1
      invariant !stopped ==> ClearOfOthers(owner, e, gap) && found == None
      invariant stopped ==> Decided(owner, cells, e, found)
    {
      var probe := Ahead(e, gap + 1);
      if probe in owner && owner[probe] != e.block {
        if Ahead(e, gap) !in owner {
          found := Some(Flight(e, gap, owner[probe]));
        }
        ScanStops(owner, cells, e, gap, found);
        stopped := true;
      }
      gap := gap + 1;
    }
    if !stopped {
      ScanEnds(owner, cells, e);
    }
  }

  ghost predicate Decided(owner: Owners, cells: seq<seq<Vec>>, e: OpenEnd, found: Option<Flight>) {
    && (forall f: Flight :: f.from == e ==> (IsFlight(owner, cells, f) <==> found == Some(f)))
    && (found.Some? ==> found.value.from == e)
  }

  lemma {:induction false} ScanStops(owner: Owners, cells: seq<seq<Vec>>, e: OpenEnd, gap: nat, found: Option<Flight>)
    requires IsOpen(owner, cells, e) && 1 <= gap <= MAX_JUMP_GAP && ClearOfOthers(owner, e, gap)
    requires Ahead(e, gap + 1) in owner && owner[Ahead(e, gap + 1)] != e.block
    requires found == if Ahead(e, gap) !in owner then Some(Flight(e, gap, owner[Ahead(e, gap + 1)])) else None
    ensures Decided(owner, cells, e, found)
  {
    forall f: Flight | f.from == e ensures IsFlight(owner, cells, f) <==> found == Some(f) {
      if IsFlight(owner, cells, f) {
        SameGap(owner, e, gap, f.gap);
      }
    }
  }

  /** Two distances at which the first foreign block stands are the same. */
  lemma {:induction false} SameGap(owner: Owners, e: OpenEnd, g: nat, h: nat)
    requires ClearOfOthers(owner, e, g) && Ahead(e, g + 1) in owner && owner[Ahead(e, g + 1)] != e.block
    requires ClearOfOthers(owner, e, h) && Ahead(e, h + 1) in owner && owner[Ahead(e, h + 1)] != e.block
    ensures g == h
  {
    assert !(g + 1 <= h) && !(h + 1 <= g);
  }

  lemma {:induction false} ScanEnds(owner: Owners, cells: seq<seq<Vec>>, e: OpenEnd)
    requires ClearOfOthers(owner, e, MAX_JUMP_GAP + 1)
    ensures Decided(owner, cells, e, None)
  {
    forall f: Flight | f.from == e ensures !IsFlight(owner, cells, f) {
      assert 1 <= f.gap <= MAX_JUMP_GAP ==> 1 <= f.gap + 1 <= MAX_JUMP_GAP + 1;
    }
  }

  // ----- the miner -----

  function PlacedAt(placed: seq<Placed>, i: nat): Placed {
    if i < |placed| then placed[i] else Placed("", Pose(0, Zero))
  }

  function JumpOf(placed: seq<Placed>, f: Flight): Jump {
    var a, b := PlacedAt(placed, f.from.block), PlacedAt(placed, f.onto);
    Jump(a.name, b.name, OffsetFrom(a.pose, b.pose), TurnFrom(a.pose, b.pose), f.gap)
  }

  /** A stored jump names take-off and landing, carries the gap, and leads from the one placement to the other. */
  lemma {:induction false} JumpMeans(placed: seq<Placed>, f: Flight)
    requires f.from.block < |placed| && f.onto < |placed|
    ensures var j, a, b := JumpOf(placed, f), placed[f.from.block], placed[f.onto];
            j.a == a.name && j.b == b.name && j.gap == f.gap && Displace(a.pose, j.offset, j.rel) == b.pose
  {
    Replays(placed[f.from.block].pose, placed[f.onto].pose);
  }

  /**
   A flight crosses one to six cells in front of a covered cell: the first and the last of them are empty, none of
   them is another block's, and the next one is.
   */
  lemma {:induction false} FlightMeans(owner: Owners, cells: seq<seq<Vec>>, f: Flight)
    ensures IsFlight(owner, cells, f) <==>
            && f.from.block < |cells| && f.from.cell in cells[f.from.block] && 1 <= f.gap <= 6
            && Along(f.from.cell, f.from.face, 1) !in owner && Along(f.from.cell, f.from.face, f.gap) !in owner
            && (forall k :: 1 <= k <= f.gap && Along(f.from.cell, f.from.face, k) in owner ==>
                              owner[Along(f.from.cell, f.from.face, k)] == f.from.block)
            && Along(f.from.cell, f.from.face, f.gap + 1) in owner
            && owner[Along(f.from.cell, f.from.face, f.gap + 1)] == f.onto != f.from.block
  {
    if ClearOfOthers(owner, f.from, f.gap) {
      forall k | 1 <= k <= f.gap && Along(f.from.cell, f.from.face, k) in owner
        ensures owner[Along(f.from.cell, f.from.face, k)] == f.from.block
      {
        assert Ahead(f.from, k) in owner;
      }
    }
  }

  /** `flights` lists every flight of the map, once per listing of its take-off cell. */
  ghost predicate ListsFlights(owner: Owners, cells: seq<seq<Vec>>, flights: seq<Flight>) {
    forall f :: multiset(flights)[f] == if IsFlight(owner, cells, f) then EndCount(owner, cells, f.from) else 0
  }

  method FindFlights(owner: Owners, cells: seq<seq<Vec>>, ends: seq<OpenEnd>) returns (flights: seq<Flight>)
    requires ListsEnds(owner, cells, ends)
    ensures ListsFlights(owner, cells, flights)
    ensures |flights| <= |ends|
  {
    flights := [];
    for k := 0 to |ends|
      invariant |flights| <= k
      invariant forall f :: multiset(flights)[f] == if IsFlight(owner, cells, f) then multiset(ends[..k])[f.from] else 0
    {
      assert ends[k] in multiset(ends);
      var found := Scan(owner, cells, ends[k]);
      assert ends[..k + 1] == ends[..k] + [ends[k]];
      if found.Some? {
        flights := flights + [found.value];
      }
    }
    assert ends[..|ends|] == ends;
  }

  ghost predicate ListsEnds(owner: Owners, cells: seq<seq<Vec>>, ends: seq<OpenEnd>) {
    forall e :: multiset(ends)[e] == EndCount(owner, cells, e)
  }

  /** `jumps` are the named flights of a map with that many open ends. */
  ghost predicate JumpsOfMap(placed: seq<Placed>, cells: seq<seq<Vec>>, jumps: seq<Jump>, openEnds: nat) {
    exists owner, ends, flights ::
      && Indexes(owner, cells) && ListsEnds(owner, cells, ends) && ListsFlights(owner, cells, flights)
      && jumps == JumpsOf(placed, flights) && openEnds == |ends|
  }

  /** The jumps of one map, with the number of open ends. */
  method ExtractJumps(placed: seq<Placed>, catalogue: Catalog) returns (jumps: seq<Jump>, openEnds: nat)
    ensures JumpsOfMap(placed, AllCells(catalogue, placed), jumps, openEnds)
    ensures |jumps| <= openEnds
  {
    var cells := AllCells(catalogue, placed);
    var owner := BuildOwners(cells);
    var ends := OpenEnds(owner, cells);
    var flights := FindFlights(owner, cells, ends);
    openEnds := |ends|;
    jumps := NameJumps(placed, flights);
  }

  method NameJumps(placed: seq<Placed>, flights: seq<Flight>) returns (jumps: seq<Jump>)
    ensures jumps == JumpsOf(placed, flights)
  {
    jumps := [];
    for k := 0 to |flights|
      invariant |jumps| == k && forall i :: 0 <= i < k ==> jumps[i] == JumpOf(placed, flights[i])
    {
      jumps := jumps + [JumpOf(placed, flights[k])];
    }
  }

  function JumpsOf(placed: seq<Placed>, flights: seq<Flight>): seq<Jump> { Map(f => JumpOf(placed, f), flights) }

  // ----- the way back -----

  /** The same gap flown the other way. */
  function Back(f: Flight): Flight {
    Flight(OpenEnd(f.onto, Ahead(f.from, f.gap + 1), OppositeFace(f.from.face)), f.gap, f.from.block)
  }

  lemma {:induction false} BackCells(f: Flight, k: int)
    ensures Ahead(Back(f).from, k) == Ahead(f.from, f.gap + 1 - k)
  {}

  lemma {:induction false} StandingStill(e: OpenEnd)
    ensures Ahead(e, 0) == e.cell
  {}

  lemma {:induction false} BackTwice(f: Flight)
    ensures Back(Back(f)) == f
  {
    assert Ahead(Back(f).from, f.gap + 1) == f.from.cell by {
      BackCells(f, f.gap + 1);
      StandingStill(f.from);
    }
    assert OppositeFace(OppositeFace(f.from.face)) == f.from.face by { OppositeFaces(f.from.face); }
  }

  /** No cell strictly between take-off and landing is owned, and the take-off cell is the block's own. */
  ghost predicate Reversible(owner: Owners, f: Flight) {
    && f.from.cell in owner && owner[f.from.cell] == f.from.block
    && forall k :: 1 <= k <= f.gap ==> Ahead(f.from, k) !in owner
  }

  /** A flight has its way back exactly when nothing at all is in between and the take-off cell was not overwritten. */
  lemma {:induction false} ReverseExact(owner: Owners, cells: seq<seq<Vec>>, f: Flight)
    requires Indexes(owner, cells) && IsFlight(owner, cells, f)
    ensures IsFlight(owner, cells, Back(f)) <==> Reversible(owner, f)
  {
    var b := Back(f);
    BackCells(f, 1);
    BackCells(f, f.gap);
    BackCells(f, f.gap + 1);
    StandingStill(f.from);
    OwnerCovers(owner, cells, Ahead(f.from, f.gap + 1));
    assert IsOpen(owner, cells, b.from);
    ClearBothWays(owner, f);
  }

  /** A block with a hole: it can be flown over its own far cell, but not back. */
  lemma {:induction false} OverOwnCell(owner: Owners)
    requires Indexes(owner, HoledMap())
    ensures IsFlight(owner, HoledMap(), HoledFlight()) && !IsFlight(owner, HoledMap(), Back(HoledFlight()))
  {
    var cells, f := HoledMap(), HoledFlight();
    forall k | 1 <= k <= 4 ensures Ahead(f.from, k) in owner <==> k % 2 == 0 {
      Owned(owner, cells, Ahead(f.from, k));
    }
    Owned(owner, cells, Ahead(f.from, 2));
    Owned(owner, cells, Ahead(f.from, 4));
    ReverseExact(owner, cells, f);
  }

  /** A block of two separate cells in a line, another block beyond them, and the flight over the far cell. */
  function HoledMap(): seq<seq<Vec>> { [[Vec(0, 0, 0), Vec(0, 0, 2)], [Vec(0, 0, 4)]] }

  function HoledFlight(): Flight { Flight(OpenEnd(0, Vec(0, 0, 0), 0), 3, 1) }

  /** The take-off cell is also covered by a later block: the way back lands on that one. */
  lemma {:induction false} FromSharedCell(owner: Owners)
    requires Indexes(owner, SharedMap())
    ensures IsFlight(owner, SharedMap(), SharedFlight()) && !IsFlight(owner, SharedMap(), Back(SharedFlight()))
  {
    var cells, f := SharedMap(), SharedFlight();
    Owned(owner, cells, Ahead(f.from, 1));
    Owned(owner, cells, Ahead(f.from, 2));
    Owned(owner, cells, Ahead(f.from, 3));
    Owned(owner, cells, f.from.cell);
    ReverseExact(owner, cells, f);
  }

  /** Blocks 0 and 2 in one cell, block 1 two cells away from them. */
  function SharedMap(): seq<seq<Vec>> { [[Vec(0, 0, 0)], [Vec(0, 0, 3)], [Vec(0, 0, 0)]] }

  function SharedFlight(): Flight { Flight(OpenEnd(0, Vec(0, 0, 0), 0), 2, 1) }

  lemma {:induction false} Owned(owner: Owners, cells: seq<seq<Vec>>, c: Vec)
    requires Indexes(owner, cells)
    ensures LastOwner(cells, |cells|, c) == if c in owner then Some(owner[c]) else None
  {}

  lemma {:induction false} ClearBothWays(owner: Owners, f: Flight)
    requires ClearOfOthers(owner, f.from, f.gap) && f.onto != f.from.block
    ensures ClearOfOthers(owner, Back(f).from, f.gap) <==> forall k :: 1 <= k <= f.gap ==> Ahead(f.from, k) !in owner
  {
    forall k | 1 <= k <= f.gap ensures Ahead(Back(f).from, f.gap + 1 - k) == Ahead(f.from, k) {
      BackCells(f, f.gap + 1 - k);
    }
    forall k | 1 <= k <= f.gap ensures Ahead(Back(f).from, k) == Ahead(f.from, f.gap + 1 - k) {
      BackCells(f, k);
    }
  }

  /** Blocks do not overlap, and list each of their cells once. */
  ghost predicate Separate(cells: seq<seq<Vec>>) {
    && (forall i :: 0 <= i < |cells| ==> Distinct(cells[i]))
    && (forall i, j, c :: 0 <= i < |cells| && 0 <= j < |cells| && c in cells[i] && c in cells[j] ==> i == j)
  }

  /** Along each side direction a block has no hole: after a cell that is not its own, none is. */
  ghost predicate NoHoles(world: seq<Vec>) {
    forall c: Vec, f: Quarter, k: int :: c in world && k > 1 && Along(c, f, k) in world ==> Along(c, f, 1) in world
  }

  ghost predicate Solid(cells: seq<seq<Vec>>) { forall i :: 0 <= i < |cells| ==> NoHoles(cells[i]) }

  lemma {:induction false} SingleCellSolid(c: Vec)
    ensures NoHoles([c]) && Distinct([c])
  {
    forall f: Quarter, k: int | k > 1 ensures Along(c, f, k) != c {
      assert Along(c, f, k).x != c.x || Along(c, f, k).z != c.z;
    }
  }

  /** One-cell blocks on pairwise different cells are separate and solid. */
  lemma {:induction false} SingleCellsQualify(cells: seq<seq<Vec>>)
    requires forall i :: 0 <= i < |cells| ==> |cells[i]| == 1
    requires Distinct(cells)
    ensures Separate(cells) && Solid(cells)
  {
    forall i | 0 <= i < |cells| ensures NoHoles(cells[i]) {
      SingleCellSolid(cells[i][0]);
      assert cells[i] == [cells[i][0]];
    }
    forall i, j, c | 0 <= i < |cells| && 0 <= j < |cells| && c in cells[i] && c in cells[j] ensures i == j {
      assert cells[i] == [c] && cells[j] == [c];
    }
  }

  /** Separate solid blocks: every flight can be flown back. */
  lemma {:induction false} AlwaysReversible(owner: Owners, cells: seq<seq<Vec>>, f: Flight)
    requires Indexes(owner, cells) && Separate(cells) && Solid(cells) && IsFlight(owner, cells, f)
    ensures IsFlight(owner, cells, Back(f))
  {
    var i, c := f.from.block, f.from.cell;
    OwnerCovers(owner, cells, c);
    assert owner[c] == i;
    forall k | 1 <= k <= f.gap ensures Ahead(f.from, k) !in owner {
      OwnerCovers(owner, cells, Ahead(f.from, k));
      if k > 1 && Ahead(f.from, k) in owner {
        assert NoHoles(cells[i]);
        OwnerCovers(owner, cells, Ahead(f.from, 1));
      }
    }
    ReverseExact(owner, cells, f);
  }

  /** The stored jump as seen from the landing. */
  function ReverseJump(j: Jump): Jump {
    Jump(j.b, j.a, RotateVector(Neg(j.offset), 0 - j.rel), (0 - j.rel) % 4, j.gap)
  }

  lemma {:induction false} JumpOfBack(placed: seq<Placed>, f: Flight)
    ensures JumpOf(placed, Back(f)) == ReverseJump(JumpOf(placed, f))
  {
    SeenFromOther(PlacedAt(placed, f.from.block).pose, PlacedAt(placed, f.onto).pose);
  }

  lemma {:induction false} FlightsDistinct(owner: Owners, cells: seq<seq<Vec>>, flights: seq<Flight>)
    requires Separate(cells) && ListsFlights(owner, cells, flights)
    ensures Distinct(flights)
    ensures forall f :: f in flights <==> IsFlight(owner, cells, f)
  {
    forall f ensures multiset(flights)[f] == if IsFlight(owner, cells, f) then 1 else 0 {
      if IsFlight(owner, cells, f) {
        DistinctMultiplicity(cells[f.from.block], f.from.cell);
      }
    }
    forall i, j | 0 <= i < j < |flights| ensures flights[i] != flights[j] {
      if flights[i] == flights[j] {
        RepeatedMultiplicity(flights, i, j);
      }
    }
    forall f ensures f in flights <==> IsFlight(owner, cells, f) {
      assert f in flights <==> f in multiset(flights);
    }
  }

  lemma {:induction false} FlightsTurnBack(owner: Owners, cells: seq<seq<Vec>>, flights: seq<Flight>)
    requires Indexes(owner, cells) && Separate(cells) && Solid(cells) && ListsFlights(owner, cells, flights)
    ensures multiset(flights) == multiset(Map(Back, flights))
  {
    FlightsDistinct(owner, cells, flights);
    var back := Map(Back, flights);
    forall i, j | 0 <= i < j < |back| ensures back[i] != back[j] {
      BackTwice(flights[i]);
      BackTwice(flights[j]);
    }
    forall f ensures f in flights <==> f in back {
      if f in flights {
        AlwaysReversible(owner, cells, f);
        var k :| 0 <= k < |flights| && flights[k] == Back(f);
        BackTwice(f);
        assert back[k] == f;
      }
      if f in back {
        var k :| 0 <= k < |back| && back[k] == f;
        AlwaysReversible(owner, cells, flights[k]);
      }
    }
    DistinctSameElements(flights, back);
  }

  /** The jumps of a map of separate solid blocks are closed under reversal, with the same gap and multiplicity. */
  lemma {:induction false} JumpsClosedUnderReversal(placed: seq<Placed>, cells: seq<seq<Vec>>, jumps: seq<Jump>,
                                                    openEnds: nat)
    requires Separate(cells) && Solid(cells) && JumpsOfMap(placed, cells, jumps, openEnds)
    ensures multiset(jumps) == multiset(Map(ReverseJump, jumps))
  {
    var owner, ends, flights :|
      && Indexes(owner, cells) && ListsEnds(owner, cells, ends) && ListsFlights(owner, cells, flights)
      && jumps == JumpsOf(placed, flights) && openEnds == |ends|;
    FlightsClosed(placed, owner, cells, flights);
  }

  lemma {:induction false} FlightsClosed(placed: seq<Placed>, owner: Owners, cells: seq<seq<Vec>>, flights: seq<Flight>)
    requires Indexes(owner, cells) && Separate(cells) && Solid(cells) && ListsFlights(owner, cells, flights)
    ensures var jumps := JumpsOf(placed, flights); multiset(jumps) == multiset(Map(ReverseJump, jumps))
  {
    var key := (f: Flight) => JumpOf(placed, f);
    var jumps := Map(key, flights);
    FlightsTurnBack(owner, cells, flights);
    MapKeepsMultiset(key, flights, Map(Back, flights));
    forall k | 0 <= k < |flights| ensures JumpOf(placed, Back(flights[k])) == ReverseJump(jumps[k]) {
      JumpOfBack(placed, flights[k]);
    }
    assert Map(key, Map(Back, flights)) == Map(ReverseJump, jumps);
    assert JumpsOf(placed, flights) == jumps;
  }
}
