/**
 Construction tokens and grid blocks: tokens carry displacements only, realisation finds the place on
 the grid, and export turns blocks back into tokens.
 */
module Realisation {
  import opened Rotation
  import opened Collections

  /** `rot` is absent when the token does not carry one. */
  datatype Token = Place(name: string, d: Vec, rot: Option<int>) | Revisit(back: int) | OtherToken

  datatype Block = Block(name: string, at: Vec, rotation: int)

  type Axis = a: int | 0 <= a < 3

  function Coord(v: Vec, a: Axis): int { if a == 0 then v.x else if a == 1 then v.y else v.z }

  /** The grid is 48 by 40 by 48 cells. */
  function GridSize(a: Axis): int { if a == 1 then 40 else 48 }

  const GROUND_Y := 9

  function RotationOf(rot: Option<int>): int { if rot.None? then 0 else rot.value }

  // ----- pass one: accumulate from an arbitrary origin -----

  datatype Trace = Trace(raw: seq<Block>, cursor: Vec)

  /** A revisit moves the cursor to the `back`-th last placed block, if there are that many. */
  function Follow(tr: Trace, t: Token): Trace {
    match t
    case Place(name, d, rot) =>
      var at := Add(tr.cursor, d);
      Trace(tr.raw + [Block(name, at, RotationOf(rot))], at)
    case Revisit(back) =>
      if 1 <= back <= |tr.raw| then Trace(tr.raw, tr.raw[|tr.raw| - back].at) else tr
    case OtherToken => tr
  }

  function TraceFrom(origin: Vec, tokens: seq<Token>): Trace {
    if tokens == [] then Trace([], origin) else Follow(TraceFrom(origin, tokens[..|tokens| - 1]), tokens[|tokens| - 1])
  }

  method Accumulate(tokens: seq<Token>) returns (raw: seq<Block>)
    ensures raw == TraceFrom(Zero, tokens).raw
  {
    raw := [];
    var placed: seq<Vec> := [];
    var cur := Zero;
    for i := 0 to |tokens|
      invariant TraceFrom(Zero, tokens[..i]) == Trace(raw, cur)
      invariant |placed| == |raw| && forall k :: 0 <= k < |raw| ==> placed[k] == raw[k].at
    {
      assert tokens[..i + 1][..i] == tokens[..i];
      match tokens[i] {
        case Place(name, d, rot) =>
          cur := Add(cur, d);
          raw := raw + [Block(name, cur, RotationOf(rot))];
          placed := placed + [cur];
        case Revisit(back) =>
          if 1 <= back <= |placed| {
            cur := placed[|placed| - back];
          }
        case OtherToken =>
      }
    }
    assert tokens[..|tokens|] == tokens;
  }

  // ----- what a revisit does -----

  predicate IsPlace(t: Token) { t.Place? }

  /** Tokens only ever append blocks, one for each place. */
  lemma {:induction false} TraceExtends(origin: Vec, before: seq<Token>, after: seq<Token>)
    ensures TraceFrom(origin, before).raw <= TraceFrom(origin, before + after).raw
    ensures |TraceFrom(origin, before + after).raw| == |TraceFrom(origin, before).raw| + |Filter(IsPlace, after)|
  {
    if after == [] {
      assert before + after == before;
    } else {
      var n := |after| - 1;
      TraceExtends(origin, before, after[..n]);
      TraceSnoc(origin, before + after[..n], after[n]);
      assert before + after == before + after[..n] + [after[n]];
    }
  }

  lemma {:induction false} TraceSnoc(origin: Vec, tokens: seq<Token>, t: Token)
    ensures TraceFrom(origin, tokens + [t]) == Follow(TraceFrom(origin, tokens), t)
  {
    assert (tokens + [t])[..|tokens|] == tokens;
  }

  /**
   Back to a placed block: whatever tokens follow the place `p`, a revisit of one more than the places
   among them brings the cursor back to where `p` left it, and places nothing itself.
   */
  lemma {:induction false} RevisitReturns(origin: Vec, before: seq<Token>, p: Token, between: seq<Token>)
    requires p.Place?
    ensures var done := before + [p] + between;
            TraceFrom(origin, done + [Revisit(|Filter(IsPlace, between)| + 1)])
            == Trace(TraceFrom(origin, done).raw, TraceFrom(origin, before + [p]).cursor)
  {
    var here, n := TraceFrom(origin, before + [p]), |Filter(IsPlace, between)|;
    TraceSnoc(origin, before, p);
    TraceExtends(origin, before + [p], between);
    TraceSnoc(origin, before + [p] + between, Revisit(n + 1));
    var raw := TraceFrom(origin, before + [p] + between).raw;
    assert raw[|here.raw| - 1] == here.raw[|here.raw| - 1];
  }

  /** The plain case: `n` further places and `Revisit(n + 1)`. */
  lemma {:induction false} RevisitAfterPlaces(origin: Vec, before: seq<Token>, p: Token, places: seq<Token>)
    requires p.Place? && forall t :: t in places ==> t.Place?
    ensures TraceFrom(origin, before + [p] + places + [Revisit(|places| + 1)]).cursor
            == TraceFrom(origin, before + [p]).cursor
  {
    FilterUniform(IsPlace, places, true);
    RevisitReturns(origin, before, p, places);
  }

  /** A revisit below one, or of more blocks than the tokens placed, changes nothing, like any other token. */
  lemma {:induction false} RevisitOutOfRange(origin: Vec, tokens: seq<Token>, back: int)
    requires back < 1 || back > |Filter(IsPlace, tokens)|
    ensures TraceFrom(origin, tokens + [Revisit(back)]) == TraceFrom(origin, tokens)
    ensures TraceFrom(origin, tokens + [OtherToken]) == TraceFrom(origin, tokens)
  {
    TraceExtends(origin, [], tokens);
    assert [] + tokens == tokens;
    TraceSnoc(origin, tokens, Revisit(back));
    TraceSnoc(origin, tokens, OtherToken);
  }

  /** A place without a rotation is a place with rotation zero. */
  lemma {:induction false} AbsentRotation(origin: Vec, before: seq<Token>, name: string, d: Vec, after: seq<Token>)
    ensures TraceFrom(origin, before + [Place(name, d, None)] + after)
            == TraceFrom(origin, before + [Place(name, d, Some(0))] + after)
  {
    var a, b := before + [Place(name, d, None)], before + [Place(name, d, Some(0))];
    if after == [] {
      assert a + after == a && b + after == b;
      TraceSnoc(origin, before, Place(name, d, None));
      TraceSnoc(origin, before, Place(name, d, Some(0)));
    } else {
      var n := |after| - 1;
      AbsentRotation(origin, before, name, d, after[..n]);
      TraceSnoc(origin, a + after[..n], after[n]);
      TraceSnoc(origin, b + after[..n], after[n]);
      assert a + after == a + after[..n] + [after[n]] && b + after == b + after[..n] + [after[n]];
    }
  }

  function Moved(b: Block, v: Vec): Block { Block(b.name, Add(b.at, v), b.rotation) }

  function MoveAll(raw: seq<Block>, v: Vec): seq<Block> { Map(b => Moved(b, v), raw) }

  /**
   The tokens determine a shape, not a position: another origin moves every block by the same amount,
   revisits included.
   */
  lemma {:induction false} OriginMovesShape(origin: Vec, tokens: seq<Token>)
    ensures TraceFrom(origin, tokens).raw == MoveAll(TraceFrom(Zero, tokens).raw, origin)
    ensures TraceFrom(origin, tokens).cursor == Add(TraceFrom(Zero, tokens).cursor, origin)
  {
    if tokens != [] {
      var n := |tokens| - 1;
      OriginMovesShape(origin, tokens[..n]);
      FollowMoves(TraceFrom(Zero, tokens[..n]), TraceFrom(origin, tokens[..n]), origin, tokens[n]);
    }
  }

  lemma {:induction false} FollowMoves(a: Trace, b: Trace, v: Vec, t: Token)
    requires b.raw == MoveAll(a.raw, v) && b.cursor == Add(a.cursor, v)
    ensures Follow(b, t).raw == MoveAll(Follow(a, t).raw, v) && Follow(b, t).cursor == Add(Follow(a, t).cursor, v)
  {
    if t.Place? {
      AddMoves(a.cursor, t.d, v);
    }
  }

  lemma {:induction false} AddMoves(a: Vec, d: Vec, v: Vec)
    ensures Add(Add(a, v), d) == Add(Add(a, d), v)
  {}

  // ----- the bounding box -----

  function Least(s: seq<int>): int
    requires s != []
  {
    if |s| == 1 then s[0] else if s[0] < Least(s[1..]) then s[0] else Least(s[1..])
  }

  function Most(s: seq<int>): int
    requires s != []
  {
    if |s| == 1 then s[0] else if s[0] > Most(s[1..]) then s[0] else Most(s[1..])
  }

  lemma {:induction false} ExtremesBound(s: seq<int>, i: nat)
    requires i < |s|
    ensures Least(s) <= s[i] <= Most(s)
  {
    if |s| > 1 {
      ExtremesBound(s[1..], if i == 0 then 0 else i - 1);
    }
  }

  lemma {:induction false} ExtremesAttained(s: seq<int>) returns (i: nat, j: nat)
    requires s != []
    ensures i < |s| && j < |s| && Least(s) == s[i] && Most(s) == s[j]
  {
    i, j := 0, 0;
    if |s| > 1 {
      i, j := ExtremesAttained(s[1..]);
      i := if s[0] < Least(s[1..]) then 0 else i + 1;
      j := if s[0] > Most(s[1..]) then 0 else j + 1;
    }
  }

  function Plus(s: seq<int>, k: int): seq<int> { Map(c => c + k, s) }

  lemma {:induction false} ExtremesMove(s: seq<int>, k: int)
    requires s != []
    ensures Least(Plus(s, k)) == Least(s) + k && Most(Plus(s, k)) == Most(s) + k
  {
    if |s| > 1 {
      ExtremesMove(s[1..], k);
      assert Plus(s, k)[1..] == Plus(s[1..], k);
    }
  }

  function Coords(raw: seq<Block>, a: Axis): seq<int> { Map((b: Block) => Coord(b.at, a), raw) }

  function Low(raw: seq<Block>, a: Axis): int
    requires raw != []
  {
    Least(Coords(raw, a))
  }

  function High(raw: seq<Block>, a: Axis): int
    requires raw != []
  {
    Most(Coords(raw, a))
  }

  function Span(raw: seq<Block>, a: Axis): int
    requires raw != []
  {
    High(raw, a) - Low(raw, a) + 1
  }

  lemma {:induction false} InBox(raw: seq<Block>, i: nat, a: Axis)
    requires i < |raw|
    ensures Low(raw, a) <= Coord(raw[i].at, a) <= High(raw, a)
  {
    ExtremesBound(Coords(raw, a), i);
  }

  predicate TooLong(raw: seq<Block>, a: Axis)
    requires raw != []
  {
    Span(raw, a) > GridSize(a)
  }

  predicate Oversize(raw: seq<Block>)
    requires raw != []
  {
    TooLong(raw, 0) || TooLong(raw, 1) || TooLong(raw, 2)
  }

  // ----- pass two: translate into the grid -----

  /** Where the lowest coordinate goes: centred in x and z, on the ground, or against the top if it would poke out. */
  function LowTarget(a: Axis, low: int, high: int): int {
    var span := high - low + 1;
    if a != 1 then (GridSize(a) - span) / 2
    else if GROUND_Y - low + high >= GridSize(1) then GridSize(1) - span
    else GROUND_Y
  }

  function Lift(raw: seq<Block>, a: Axis): int
    requires raw != []
  {
    LowTarget(a, Low(raw, a), High(raw, a)) - Low(raw, a)
  }

  function Offset(raw: seq<Block>): Vec
    requires raw != []
  {
    Vec(Lift(raw, 0), Lift(raw, 1), Lift(raw, 2))
  }

  /** The blocks a raw trace is emitted as. */
  function Emitted(raw: seq<Block>): seq<Block> {
    if raw == [] || Oversize(raw) then [] else MoveAll(raw, Offset(raw))
  }

  datatype Report = Report(outOfBounds: nat, span: Vec, oversize: bool)

  ghost function ReportOn(raw: seq<Block>): Report {
    if raw == [] then Report(0, Zero, false)
    else Report(if Oversize(raw) then |raw| else 0, Vec(Span(raw, 0), Span(raw, 1), Span(raw, 2)), Oversize(raw))
  }

  method TokensToBlocks(tokens: seq<Token>) returns (blocks: seq<Block>, report: Report)
    ensures blocks == Emitted(TraceFrom(Zero, tokens).raw)
    ensures report == ReportOn(TraceFrom(Zero, tokens).raw)
  {
    var raw := Accumulate(tokens);
    blocks, report := PlaceOnGrid(raw);
  }

  method PlaceOnGrid(raw: seq<Block>) returns (blocks: seq<Block>, report: Report)
    ensures blocks == Emitted(raw) && report == ReportOn(raw)
  {
    if raw == [] {
      return [], Report(0, Zero, false);
    }
    var span := Vec(Span(raw, 0), Span(raw, 1), Span(raw, 2));
    if Oversize(raw) {
      return [], Report(|raw|, span, true);
    }
    blocks := MoveEach(raw, Offset(raw));
    report := Report(0, span, false);
  }

  method MoveEach(raw: seq<Block>, off: Vec) returns (blocks: seq<Block>)
    ensures blocks == MoveAll(raw, off)
  {
    blocks := [];
    for i := 0 to |raw|
      invariant |blocks| == i && forall k :: 0 <= k < i ==> blocks[k] == Moved(raw[k], off)
    {
      blocks := blocks + [Moved(raw[i], off)];
    }
  }

  // ----- what is emitted -----

  predicate Inside(c: int, a: Axis) { 0 <= c < GridSize(a) }

  predicate InGrid(v: Vec) { 0 <= v.x < 48 && 0 <= v.y < 40 && 0 <= v.z < 48 }

  ghost predicate Fits(raw: seq<Block>, v: Vec) {
    forall i :: 0 <= i < |raw| ==> InGrid(Add(raw[i].at, v))
  }

  lemma {:induction false} TargetInside(a: Axis, low: int, high: int, c: int)
    requires low <= c <= high && high - low + 1 <= GridSize(a)
    ensures Inside(c + (LowTarget(a, low, high) - low), a)
  {}

  lemma {:induction false} OffsetFits(raw: seq<Block>)
    requires raw != [] && !Oversize(raw)
    ensures Fits(raw, Offset(raw))
  {
    forall i | 0 <= i < |raw| ensures InGrid(Add(raw[i].at, Offset(raw))) {
      forall a: Axis | !TooLong(raw, a) ensures Inside(Coord(raw[i].at, a) + Lift(raw, a), a) {
        InBox(raw, i, a);
        TargetInside(a, Low(raw, a), High(raw, a), Coord(raw[i].at, a));
      }
      assert Inside(Coord(raw[i].at, 0) + Lift(raw, 0), 0);
      assert Inside(Coord(raw[i].at, 1) + Lift(raw, 1), 1);
      assert Inside(Coord(raw[i].at, 2) + Lift(raw, 2), 2);
    }
  }

  lemma {:induction false} FitBoundsSpan(raw: seq<Block>, v: Vec, a: Axis)
    requires raw != [] && Fits(raw, v)
    ensures !TooLong(raw, a)
  {
    var i, j := ExtremesAttained(Coords(raw, a));
    assert InGrid(Add(raw[i].at, v)) && InGrid(Add(raw[j].at, v));
    CoordMoves(raw[i].at, v, a);
    CoordMoves(raw[j].at, v, a);
  }

  lemma {:induction false} CoordMoves(u: Vec, v: Vec, a: Axis)
    ensures Coord(Add(u, v), a) == Coord(u, a) + Coord(v, a)
  {}

  /** Nothing is emitted exactly when no translation at all would bring every block inside the grid. */
  lemma {:induction false} OversizeExact(raw: seq<Block>)
    requires raw != []
    ensures Oversize(raw) <==> !exists v :: Fits(raw, v)
  {
    if !Oversize(raw) {
      OffsetFits(raw);
    }
    if v :| Fits(raw, v) {
      FitBoundsSpan(raw, v, 0);
      FitBoundsSpan(raw, v, 1);
      FitBoundsSpan(raw, v, 2);
    }
  }

  /** All blocks or none, in order, with names and rotations kept. */
  ghost predicate SameBlocks(raw: seq<Block>, out: seq<Block>) {
    |out| == |raw| && forall i :: 0 <= i < |out| ==> out[i].name == raw[i].name && out[i].rotation == raw[i].rotation
  }

  ghost predicate SameDisplacements(raw: seq<Block>, out: seq<Block>)
    requires |raw| == |out|
  {
    forall i, j :: 0 <= i < |out| && 0 <= j < |out| ==> Sub(out[j].at, out[i].at) == Sub(raw[j].at, raw[i].at)
  }

  /**
   Whatever the tokens: either no translation fits and nothing is emitted, or everything is, inside the grid
   and undistorted.
   */
  lemma {:induction false} EmittedFaithful(raw: seq<Block>)
    requires raw != []
    ensures Emitted(raw) == [] <==> !exists v :: Fits(raw, v)
    ensures Emitted(raw) != [] ==>
              && SameBlocks(raw, Emitted(raw)) && SameDisplacements(raw, Emitted(raw))
              && forall i :: 0 <= i < |raw| ==> InGrid(Emitted(raw)[i].at)
  {
    OversizeExact(raw);
    if !Oversize(raw) {
      OffsetFits(raw);
      MovedTogether(raw, Offset(raw));
    }
  }

  /** Two blocks 48 cells apart: neither of them is emitted. */
  lemma {:induction false} OversizeIsDropped(a: Block, b: Block)
    requires b.at.x - a.at.x == 48
    ensures Emitted([a, b]) == []
  {
    InBox([a, b], 0, 0);
    InBox([a, b], 1, 0);
  }

  lemma {:induction false} MovedTogether(raw: seq<Block>, v: Vec)
    ensures SameBlocks(raw, MoveAll(raw, v)) && SameDisplacements(raw, MoveAll(raw, v))
  {
    var out := MoveAll(raw, v);
    forall i, j | 0 <= i < |raw| && 0 <= j < |raw| ensures Sub(out[j].at, out[i].at) == Sub(raw[j].at, raw[i].at) {
      SubMoves(raw[i].at, raw[j].at, v);
    }
  }

  lemma {:induction false} SubMoves(a: Vec, b: Vec, v: Vec)
    ensures Sub(Add(b, v), Add(a, v)) == Sub(b, a)
  {}

  lemma {:induction false} BoxMoves(raw: seq<Block>, v: Vec, a: Axis)
    requires raw != []
    ensures Low(MoveAll(raw, v), a) == Low(raw, a) + Coord(v, a)
    ensures High(MoveAll(raw, v), a) == High(raw, a) + Coord(v, a)
  {
    forall i | 0 <= i < |raw| ensures Coords(MoveAll(raw, v), a)[i] == Plus(Coords(raw, a), Coord(v, a))[i] {
      CoordMoves(raw[i].at, v, a);
    }
    assert Coords(MoveAll(raw, v), a) == Plus(Coords(raw, a), Coord(v, a));
    ExtremesMove(Coords(raw, a), Coord(v, a));
  }

  lemma {:induction false} CoordOffset(raw: seq<Block>, a: Axis)
    requires raw != []
    ensures Coord(Offset(raw), a) == Lift(raw, a)
  {}

  /**
   Margins: equal to within one cell in x and z; on the ground when that leaves the top inside, else against
   the top.
   */
  lemma {:induction false} EmittedRests(raw: seq<Block>, a: Axis)
    requires raw != [] && !Oversize(raw)
    ensures var out := Emitted(raw);
            && out != [] && Span(out, a) == Span(raw, a)
            && (a != 1 ==> 0 <= (47 - High(out, a)) - Low(out, a) <= 1)
            && (a == 1 ==> if 9 + Span(raw, a) <= 40 then Low(out, a) == 9 else High(out, a) == 39)
  {
    BoxMoves(raw, Offset(raw), a);
    CoordOffset(raw, a);
  }

  lemma {:induction false} LiftMoves(raw: seq<Block>, v: Vec, a: Axis)
    requires raw != []
    ensures Coord(v, a) + Lift(MoveAll(raw, v), a) == Lift(raw, a)
    ensures TooLong(MoveAll(raw, v), a) <==> TooLong(raw, a)
  {
    BoxMoves(raw, v, a);
  }

  /** Realisation forgets the position: any translate of a shape is emitted as the same blocks. */
  lemma {:induction false} PositionForgotten(raw: seq<Block>, v: Vec)
    ensures Emitted(MoveAll(raw, v)) == Emitted(raw)
  {
    if raw != [] {
      LiftMoves(raw, v, 0);
      LiftMoves(raw, v, 1);
      LiftMoves(raw, v, 2);
      if !Oversize(raw) {
        assert Add(v, Offset(MoveAll(raw, v))) == Offset(raw);
        MoveTwice(raw, v, Offset(MoveAll(raw, v)));
      }
    }
  }

  /** Whatever origin pass one starts from, pass two emits the same blocks. */
  lemma {:induction false} OriginIrrelevant(origin: Vec, tokens: seq<Token>)
    ensures Emitted(TraceFrom(origin, tokens).raw) == Emitted(TraceFrom(Zero, tokens).raw)
  {
    OriginMovesShape(origin, tokens);
    PositionForgotten(TraceFrom(Zero, tokens).raw, origin);
  }

  lemma {:induction false} MoveTwice(raw: seq<Block>, v: Vec, w: Vec)
    ensures MoveAll(MoveAll(raw, v), w) == MoveAll(raw, Add(v, w))
  {
    forall i | 0 <= i < |raw| ensures Moved(Moved(raw[i], v), w) == Moved(raw[i], Add(v, w)) {
      AddAssociates(raw[i].at, v, w);
    }
  }

  lemma {:induction false} AddAssociates(a: Vec, b: Vec, c: Vec)
    ensures Add(Add(a, b), c) == Add(a, Add(b, c))
  {}

  // ----- export, and the round trip -----

  /** Each block as a displacement from the one before it, its rotation reduced modulo 4. */
  function TokenAt(blocks: seq<Block>, i: nat): Token
    requires i < |blocks|
  {
    Place(blocks[i].name, if i == 0 then Zero else Sub(blocks[i].at, blocks[i - 1].at), Some(blocks[i].rotation % 4))
  }

  function Exported(blocks: seq<Block>): (tokens: seq<Token>)
    ensures |tokens| == |blocks|
  {
    seq(|blocks|, i requires 0 <= i < |blocks| => TokenAt(blocks, i))
  }

  method BlocksToTokens(blocks: seq<Block>) returns (tokens: seq<Token>)
    ensures tokens == Exported(blocks)
  {
    tokens := [];
    var prev: Option<Vec> := None;
    for i := 0 to |blocks|
      invariant prev == if i == 0 then None else Some(blocks[i - 1].at)
      invariant |tokens| == i && forall k :: 0 <= k < i ==> tokens[k] == TokenAt(blocks, k)
    {
      var cur := blocks[i].at;
      var d := if prev.None? then Zero else Sub(cur, prev.value);
      tokens := tokens + [Place(blocks[i].name, d, Some(blocks[i].rotation % 4))];
      prev := Some(cur);
    }
  }

  function Reduced(b: Block): Block { Block(b.name, b.at, b.rotation % 4) }

  lemma {:induction false} SelfDifference(v: Vec)
    ensures Add(v, Neg(v)) == Zero
  {}

  lemma {:induction false} AddZero(v: Vec)
    ensures Add(v, Zero) == v
  {}

  lemma {:induction false} Telescope(a: Vec, b: Vec, c: Vec)
    ensures Add(Add(b, Neg(a)), Sub(c, b)) == Add(c, Neg(a))
  {}

  function ReduceAll(blocks: seq<Block>): seq<Block> { Map(Reduced, blocks) }

  ghost predicate TracesBack(blocks: seq<Block>, tr: Trace)
    requires blocks != []
  {
    && tr.raw == MoveAll(ReduceAll(blocks), Neg(blocks[0].at))
    && tr.cursor == Add(blocks[|blocks| - 1].at, Neg(blocks[0].at))
  }

  lemma {:induction false} FirstTraces(b: Block, rot: int)
    requires Reduced(b).rotation == rot
    ensures TracesBack([b], Follow(Trace([], Zero), Place(b.name, Zero, Some(rot))))
  {
    SelfDifference(b.at);
    AddZero(Zero);
    assert MoveAll(ReduceAll([b]), Neg(b.at)) == [Moved(Reduced(b), Neg(b.at))];
  }

  lemma {:induction false} NextTraces(blocks: seq<Block>, b: Block, tr: Trace)
    requires blocks != [] && TracesBack(blocks, tr)
    ensures var d := Sub(b.at, blocks[|blocks| - 1].at);
            TracesBack(blocks + [b], Follow(tr, Place(b.name, d, Some(b.rotation % 4))))
  {
    var v := Neg(blocks[0].at);
    Telescope(blocks[0].at, blocks[|blocks| - 1].at, b.at);
    assert MoveAll(ReduceAll(blocks + [b]), v) == MoveAll(ReduceAll(blocks), v) + [Moved(Reduced(b), v)];
  }

  /** The tokens of a block list trace the same list, moved so that its first block is at the origin. */
  lemma {:induction false} ExportTraces(blocks: seq<Block>)
    requires blocks != []
    ensures TracesBack(blocks, TraceFrom(Zero, Exported(blocks)))
  {
    var n := |blocks| - 1;
    var tokens := Exported(blocks);
    assert TraceFrom(Zero, tokens) == Follow(TraceFrom(Zero, tokens[..n]), TokenAt(blocks, n));
    if n == 0 {
      assert blocks == [blocks[0]];
      FirstTraces(blocks[0], blocks[0].rotation % 4);
    } else {
      assert tokens[..n] == Exported(blocks[..n]);
      assert blocks == blocks[..n] + [blocks[n]];
      ExportTraces(blocks[..n]);
      NextTraces(blocks[..n], blocks[n], TraceFrom(Zero, tokens[..n]));
    }
  }

  /** Exporting blocks and realising the tokens is realising the blocks themselves, with rotations reduced modulo 4. */
  lemma {:induction false} RoundTrip(blocks: seq<Block>)
    ensures Emitted(TraceFrom(Zero, Exported(blocks)).raw) == Emitted(ReduceAll(blocks))
  {
    if blocks == [] {
      assert Exported(blocks) == [] && ReduceAll(blocks) == [];
    } else {
      ExportTraces(blocks);
      PositionForgotten(ReduceAll(blocks), Neg(blocks[0].at));
    }
  }

  lemma {:induction false} ReducedBox(raw: seq<Block>)
    requires raw != []
    ensures Oversize(ReduceAll(raw)) == Oversize(raw) && Offset(ReduceAll(raw)) == Offset(raw)
  {
    assert Coords(ReduceAll(raw), 0) == Coords(raw, 0);
    assert Coords(ReduceAll(raw), 1) == Coords(raw, 1);
    assert Coords(ReduceAll(raw), 2) == Coords(raw, 2);
  }

  /**
   So blocks that some translation brings inside the grid come back as one translate of themselves, with
   the same names and rotations modulo 4; any others are reported oversize and do not come back.
   */
  lemma {:induction false} RoundTripExact(blocks: seq<Block>)
    requires blocks != []
    ensures (exists v :: Fits(blocks, v)) ==>
              Emitted(TraceFrom(Zero, Exported(blocks)).raw) == MoveAll(ReduceAll(blocks), Offset(blocks))
    ensures !(exists v :: Fits(blocks, v)) ==> Emitted(TraceFrom(Zero, Exported(blocks)).raw) == []
  {
    RoundTrip(blocks);
    ReducedBox(blocks);
    OversizeExact(blocks);
  }

  lemma {:induction false} ReduceMoves(raw: seq<Block>, v: Vec)
    ensures ReduceAll(MoveAll(raw, v)) == MoveAll(ReduceAll(raw), v)
  {}

  /** What has been realised once is a fixed point of export and realisation, up to reducing rotations. */
  lemma {:induction false} RealisedIsStable(raw: seq<Block>)
    ensures Emitted(TraceFrom(Zero, Exported(Emitted(raw))).raw) == ReduceAll(Emitted(raw))
  {
    RoundTrip(Emitted(raw));
    if raw == [] || Oversize(raw) {
      assert ReduceAll(Emitted(raw)) == [];
    } else {
      ReduceMoves(raw, Offset(raw));
      PositionForgotten(ReduceAll(raw), Offset(raw));
      ReducedBox(raw);
    }
  }
}
