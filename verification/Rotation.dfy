/**
 The quarter-turn geometry every other module stands on: how a grid direction 0..3 acts on
 faces, on free displacement vectors, and on the unit cells of a block footprint that is
 re-anchored so that its minimum corner stays at the origin.
 */
module Rotation {

  datatype Vec = Vec(x: int, y: int, z: int)

  const Zero := Vec(0, 0, 0)

  function Add(a: Vec, b: Vec): Vec { Vec(a.x + b.x, a.y + b.y, a.z + b.z) }

  function Sub(a: Vec, b: Vec): Vec { Vec(a.x - b.x, a.y - b.y, a.z - b.z) }

  function Neg(a: Vec): Vec { Vec(-a.x, -a.y, -a.z) }

  function Abs(n: int): nat { if n < 0 then -n else n }

  /** A side face, and also a quarter-turn count already reduced modulo 4. */
  type Quarter = q: int | 0 <= q < 4

  const NORTH: Quarter := 0

  /** Calibrated world deltas: north is +z, east is -x, south is -z, west is +x. */
  function FaceDelta(face: Quarter): Vec {
    Vec(if face == 1 then -1 else if face == 3 then 1 else 0,
        0,
        if face == 0 then 1 else if face == 2 then -1 else 0)
  }

  /** The cell `k` steps away through the given face; see `AlongIsScaled`. */
  function Along(a: Vec, face: Quarter, k: int): Vec {
    Vec(a.x + (if face == 1 then -k else if face == 3 then k else 0),
        a.y,
        a.z + (if face == 0 then k else if face == 2 then -k else 0))
  }

  /** Two quarter-turns on; see `OppositeIsHalfTurn`. */
  function OppositeFace(face: Quarter): Quarter { if face < 2 then face + 2 else face - 2 }

  function RotateFace(face: Quarter, direction: int): Quarter { (face + direction) % 4 }

  function RotateOffset(o: Vec, direction: int, size: Vec): Vec {
    var d := direction % 4;
    if d == 0 then o
    else if d == 1 then Vec(size.z - 1 - o.z, o.y, o.x)
    else if d == 2 then Vec(size.x - 1 - o.x, o.y, size.z - 1 - o.z)
    else Vec(o.z, o.y, size.x - 1 - o.x)
  }

  function RotateVector(v: Vec, direction: int): Vec {
    var d := direction % 4;
    if d == 0 then v
    else if d == 1 then Vec(-v.z, v.y, v.x)
    else if d == 2 then Vec(-v.x, v.y, -v.z)
    else Vec(v.z, v.y, -v.x)
  }

  /** An odd number of quarter-turns swaps the two horizontal extents; see `RotatedSizeIsParity`. */
  function RotatedSize(size: Vec, direction: int): Vec {
    var d := direction % 4;
    if d == 1 || d == 3 then Vec(size.z, size.y, size.x) else size
  }

  /** The re-anchoring term: what `RotateOffset` adds to the free rotation. */
  function Shift(direction: int, size: Vec): Vec {
    var d := direction % 4;
    if d == 0 then Zero
    else if d == 1 then Vec(size.z - 1, 0, 0)
    else if d == 2 then Vec(size.x - 1, 0, size.z - 1)
    else Vec(0, 0, size.x - 1)
  }

  /** The cells of a footprint of the given size whose minimum corner is the origin. */
  predicate InBox(o: Vec, size: Vec) {
    0 <= o.x < size.x && 0 <= o.y < size.y && 0 <= o.z < size.z
  }

  // ----- free vectors: a linear action of the integers modulo 4 -----

  lemma {:induction false} ModSum(a: int, b: int)
    ensures (a + b) % 4 == if a % 4 + b % 4 < 4 then a % 4 + b % 4 else a % 4 + b % 4 - 4
  {
    assert a + b == a % 4 + b % 4 + 4 * (a / 4 + b / 4);
  }

  /** Turning by `a` and then by `b` is turning by `a + b`, and `-a` undoes `a`. */
  lemma {:induction false} RotateVectorAction(v: Vec, a: int, b: int)
    ensures RotateVector(RotateVector(v, a), b) == RotateVector(v, a + b)
    ensures RotateVector(v, a % 4) == RotateVector(v, a)
    ensures RotateVector(RotateVector(v, a), -a) == v == RotateVector(RotateVector(v, -a), a)
  {
    ModSum(a, b);
    ModSum(a, -a);
  }

  lemma {:induction false} RotateVectorLinear(u: Vec, v: Vec, d: int)
    ensures RotateVector(Add(u, v), d) == Add(RotateVector(u, d), RotateVector(v, d))
    ensures RotateVector(Sub(u, v), d) == Sub(RotateVector(u, d), RotateVector(v, d))
    ensures RotateVector(Neg(v), d) == Neg(RotateVector(v, d))
  {}

  /** The source writes the inverse turn of `a` as `(4 - a) % 4`. */
  lemma {:induction false} InverseTurn(v: Vec, a: int)
    ensures RotateVector(v, (4 - a) % 4) == RotateVector(v, -a)
  {}

  // ----- footprint cells -----

  /** A footprint cell turns like a free vector, then moves by an amount that only depends on the size. */
  lemma {:induction false} RotateOffsetIsShiftedVector(o: Vec, d: int, size: Vec)
    ensures RotateOffset(o, d, size) == Add(RotateVector(o, d), Shift(d, size))
  {}

  /** The source tests `direction % 2 == 1`. */
  lemma {:induction false} RotatedSizeIsParity(size: Vec, d: int)
    ensures RotatedSize(size, d) == if d % 2 == 1 then Vec(size.z, size.y, size.x) else size
  {
    assert d == d % 4 + 2 * (2 * (d / 4));
  }

  /** How the re-anchoring terms of two successive turns combine. */
  lemma {:induction false} ShiftCocycle(a: int, b: int, size: Vec)
    ensures Add(RotateVector(Shift(a, size), b), Shift(b, RotatedSize(size, a))) == Shift(a + b, size)
  {
    ModSum(a, b);
  }

  /** Re-anchoring does not break the action: turning the turned footprint composes. */
  lemma {:induction false} RotateOffsetAction(o: Vec, a: int, b: int, size: Vec)
    ensures RotateOffset(RotateOffset(o, a, size), b, RotatedSize(size, a)) == RotateOffset(o, a + b, size)
  {
    var p := RotateVector(o, a);
    var q := Shift(a, size);
    calc {
      RotateOffset(RotateOffset(o, a, size), b, RotatedSize(size, a));
      { RotateOffsetIsShiftedVector(o, a, size);
        RotateOffsetIsShiftedVector(Add(p, q), b, RotatedSize(size, a)); }
      Add(RotateVector(Add(p, q), b), Shift(b, RotatedSize(size, a)));
      { RotateVectorLinear(p, q, b); }
      Add(RotateVector(p, b), Add(RotateVector(q, b), Shift(b, RotatedSize(size, a))));
      { RotateVectorAction(o, a, b); ShiftCocycle(a, b, size); }
      Add(RotateVector(o, a + b), Shift(a + b, size));
      { RotateOffsetIsShiftedVector(o, a + b, size); }
      RotateOffset(o, a + b, size);
    }
  }

  /** A turn maps the footprint onto the turned footprint, cell for cell, minimum corner still at the origin. */
  lemma {:induction false} RotateOffsetFillsRotatedBox(o: Vec, d: int, size: Vec)
    ensures InBox(o, size) <==> InBox(RotateOffset(o, d, size), RotatedSize(size, d))
    ensures RotateOffset(RotateOffset(o, d, size), -d, RotatedSize(size, d)) == o
  {
    RotateOffsetAction(o, d, -d, size);
  }

  // ----- faces -----

  lemma {:induction false} RotateFaceAction(face: Quarter, a: int, b: int)
    ensures RotateFace(RotateFace(face, a), b) == RotateFace(face, a + b)
  {
    ModSum(face, a);
    ModSum(face + a, b);
    ModSum((face + a) % 4, b);
  }

  /** Turning a face turns the cell delta it looks along. */
  lemma {:induction false} FaceDeltaEquivariant(face: Quarter, d: int)
    ensures RotateVector(FaceDelta(face), d) == FaceDelta(RotateFace(face, d))
  {
    ModSum(face, d);
  }

  /** The source adds `k` times the face's delta. */
  lemma {:induction false} AlongIsScaled(a: Vec, face: Quarter, k: int)
    ensures Along(a, face, k).x == a.x + FaceDelta(face).x * k
    ensures Along(a, face, k).y == a.y + FaceDelta(face).y * k
    ensures Along(a, face, k).z == a.z + FaceDelta(face).z * k
  {}

  /** The source writes the opposite face as `(face + 2) % 4`. */
  lemma {:induction false} OppositeIsHalfTurn(face: Quarter)
    ensures OppositeFace(face) == (face + 2) % 4 == RotateFace(face, 2)
  {}

  /** Opposite faces look opposite ways, and opposition is an involution. */
  lemma {:induction false} OppositeFaces(face: Quarter)
    ensures FaceDelta(OppositeFace(face)) == Neg(FaceDelta(face))
    ensures OppositeFace(OppositeFace(face)) == face
  {}

  /** Faces that are opposite stay opposite under every turn. */
  lemma {:induction false} OppositeFacesTurn(face: Quarter, d: int)
    ensures OppositeFace(RotateFace(face, d)) == RotateFace(OppositeFace(face), d)
  {
    ModSum(face, d);
    ModSum(OppositeFace(face), d);
  }

  // ----- the six neighbours of a cell -----

  /** The directions +x, -x, +y, -y, +z, -z. */
  type Direction = k: int | 0 <= k < 6

  function DirectionDelta(k: Direction): Vec {
    Vec(if k == 0 then 1 else if k == 1 then -1 else 0,
        if k == 2 then 1 else if k == 3 then -1 else 0,
        if k == 4 then 1 else if k == 5 then -1 else 0)
  }

  /** Every step to a neighbour has a step back. */
  lemma {:induction false} DirectionBack(c: Vec, k: Direction) returns (b: Direction)
    ensures Add(Add(c, DirectionDelta(k)), DirectionDelta(b)) == c
  {
    b := if k == 0 || k == 2 || k == 4 then k + 1 else k - 1;
    var d, e := DirectionDelta(k), DirectionDelta(b);
    assert e.x == 0 - d.x && e.y == 0 - d.y && e.z == 0 - d.z;
  }
}
