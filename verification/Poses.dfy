/**
 Where a block stands and which way it faces, and how one placement looks from another: the frame
 in which moves, macro steps and jumps are stored.
 */
module Poses {
  import opened Rotation

  datatype Pose = Pose(rot: Quarter, at: Vec)

  /** A placement row: the block's name, its rotation reduced modulo 4 and its anchor. */
  datatype Placed = Placed(name: string, pose: Pose)

  /** The displacement from `a` to `b` in `a`'s own frame. The source writes the inverse turn as `(4 - r) % 4`. */
  function OffsetFrom(a: Pose, b: Pose): Vec { RotateVector(Sub(b.at, a.at), (4 - a.rot) % 4) }

  function TurnFrom(a: Pose, b: Pose): Quarter { (b.rot - a.rot) % 4 }

  /** Apply a stored relative placement to a pose. */
  function Displace(p: Pose, offset: Vec, rel: int): Pose {
    Pose((p.rot + rel) % 4, Add(p.at, RotateVector(offset, p.rot)))
  }

  /** A rigid motion of the scene: a quarter-turn, then a translation. */
  function MovePose(p: Pose, d: int, shift: Vec): Pose {
    Pose(RotateFace(p.rot, d), Add(RotateVector(p.at, d), shift))
  }

  // ----- turn arithmetic -----

  lemma {:induction false} CongruentTurns(a: int, b: int, k: int)
    requires a == b + 4 * k
    ensures a % 4 == b % 4
  {}

  lemma {:induction false} SameTurn(v: Vec, a: int, b: int)
    requires a % 4 == b % 4
    ensures RotateVector(v, a) == RotateVector(v, b)
  {}

  lemma {:induction false} RelativeTurn(a: Quarter, b: Quarter)
    ensures (a + (b - a) % 4) % 4 == b
  {
    CongruentTurns(a + (b - a) % 4, b, -((b - a) / 4));
  }

  /** Turns as seen from the other pose of a pair. */
  lemma {:induction false} ReverseTurns(a: Quarter, b: Quarter)
    ensures ((0 - a) + (0 - (b - a) % 4)) % 4 == (0 - b) % 4
    ensures (a - b) % 4 == (0 - (b - a) % 4) % 4
  {
    var q := (b - a) / 4;
    CongruentTurns((0 - a) + (0 - (b - a) % 4), 0 - b, q);
    CongruentTurns(a - b, 0 - (b - a) % 4, -q);
  }

  /** Turns after the whole scene has turned. */
  lemma {:induction false} SceneTurns(a: Quarter, b: Quarter, d: int)
    ensures (d + (0 - RotateFace(a, d))) % 4 == (0 - a) % 4
    ensures (RotateFace(b, d) - RotateFace(a, d)) % 4 == (b - a) % 4
  {
    var m, n := (a + d) / 4, (b + d) / 4;
    CongruentTurns(d + (0 - RotateFace(a, d)), 0 - a, m);
    CongruentTurns(RotateFace(b, d) - RotateFace(a, d), b - a, m - n);
  }

  // ----- relative placements -----

  /** The relative placement of `b` from `a`, applied to `a`, gives `b`. */
  lemma {:induction false} Replays(a: Pose, b: Pose)
    ensures Displace(a, OffsetFrom(a, b), TurnFrom(a, b)) == b
  {
    var v := Sub(b.at, a.at);
    assert RotateVector(OffsetFrom(a, b), a.rot) == v by {
      InverseTurn(v, a.rot);
      RotateVectorAction(v, a.rot, 0);
    }
    RelativeTurn(a.rot, b.rot);
  }

  /** Seen from the other side: the reversed offset, turned back, and the opposite turn. */
  lemma {:induction false} SeenFromOther(a: Pose, b: Pose)
    ensures OffsetFrom(b, a) == RotateVector(Neg(OffsetFrom(a, b)), 0 - TurnFrom(a, b))
    ensures TurnFrom(b, a) == (0 - TurnFrom(a, b)) % 4
  {
    var v := Sub(b.at, a.at);
    ReverseTurns(a.rot, b.rot);
    InverseTurn(v, a.rot);
    InverseTurn(Neg(v), b.rot);
    ReverseOffset(v, a.rot, TurnFrom(a, b), b.rot);
    assert Sub(a.at, b.at) == Neg(v);
  }

  lemma {:induction false} ReverseOffset(v: Vec, a: int, rel: int, b: int)
    requires ((0 - a) + (0 - rel)) % 4 == (0 - b) % 4
    ensures RotateVector(Neg(RotateVector(v, 0 - a)), 0 - rel) == RotateVector(Neg(v), 0 - b)
  {
    calc {
      RotateVector(Neg(RotateVector(v, 0 - a)), 0 - rel);
      { RotateVectorLinear(v, v, 0 - a); }
      RotateVector(RotateVector(Neg(v), 0 - a), 0 - rel);
      { RotateVectorAction(Neg(v), 0 - a, 0 - rel); }
      RotateVector(Neg(v), (0 - a) + (0 - rel));
      { SameTurn(Neg(v), (0 - a) + (0 - rel), 0 - b); }
      RotateVector(Neg(v), 0 - b);
    }
  }

  /** Reversing a relative placement twice gives it back. */
  lemma {:induction false} DoubleReverse(o: Vec, r: Quarter)
    ensures RotateVector(Neg(RotateVector(Neg(o), 0 - r)), 0 - (0 - r) % 4) == o
    ensures (0 - (0 - r) % 4) % 4 == r
  {
    ReverseOffset(Neg(o), r, (0 - r) % 4, 0);
    assert Neg(Neg(o)) == o;
  }

  /** Relative placements do not change when the scene moves. */
  lemma {:induction false} MovedTogether(a: Pose, b: Pose, d: int, shift: Vec)
    ensures OffsetFrom(MovePose(a, d, shift), MovePose(b, d, shift)) == OffsetFrom(a, b)
    ensures TurnFrom(MovePose(a, d, shift), MovePose(b, d, shift)) == TurnFrom(a, b)
    ensures Sub(MovePose(b, d, shift).at, MovePose(a, d, shift).at) == RotateVector(Sub(b.at, a.at), d)
  {
    var v := Sub(b.at, a.at);
    var r: int := RotateFace(a.rot, d);
    var w := Sub(MovePose(b, d, shift).at, MovePose(a, d, shift).at);
    SceneTurns(a.rot, b.rot, d);
    MovedOffset(a.at, b.at, d, shift, 0 - r, 0 - a.rot);
    assert OffsetFrom(a, b) == RotateVector(v, 0 - a.rot) by { InverseTurn(v, a.rot); }
    assert OffsetFrom(MovePose(a, d, shift), MovePose(b, d, shift)) == RotateVector(w, 0 - r) by { InverseTurn(w, r); }
  }

  lemma {:induction false} MovedOffset(a: Vec, b: Vec, d: int, shift: Vec, turned: int, turn: int)
    requires (d + turned) % 4 == turn % 4
    ensures var w := Sub(Add(RotateVector(b, d), shift), Add(RotateVector(a, d), shift));
            w == RotateVector(Sub(b, a), d) && RotateVector(w, turned) == RotateVector(Sub(b, a), turn)
  {
    var w := Sub(Add(RotateVector(b, d), shift), Add(RotateVector(a, d), shift));
    assert w == Sub(RotateVector(b, d), RotateVector(a, d));
    RotateVectorLinear(b, a, d);
    RotateVectorAction(Sub(b, a), d, turned);
    SameTurn(Sub(b, a), d + turned, turn);
  }

  /** Any pose is moved onto any other by one turn and one translation. */
  lemma {:induction false} MoveOnto(a: Pose, b: Pose)
    ensures MovePose(a, b.rot - a.rot, Sub(b.at, RotateVector(a.at, b.rot - a.rot))) == b
  {
    assert a.rot + (b.rot - a.rot) == b.rot;
  }

  /** Applying a relative placement commutes with moving the scene. */
  lemma {:induction false} DisplaceMoves(p: Pose, offset: Vec, rel: int, d: int, shift: Vec)
    ensures Displace(MovePose(p, d, shift), offset, rel) == MovePose(Displace(p, offset, rel), d, shift)
  {
    var r := RotateFace(p.rot, d);
    assert (r + rel) % 4 == ((p.rot + rel) % 4 + d) % 4 by {
      CongruentTurns(r + rel, p.rot + d + rel, -((p.rot + d) / 4));
      CongruentTurns((p.rot + rel) % 4 + d, p.rot + rel + d, -((p.rot + rel) / 4));
    }
    assert RotateVector(offset, r) == RotateVector(RotateVector(offset, p.rot), d) by {
      RotateVectorAction(offset, p.rot, d);
      CongruentTurns(r, p.rot + d, -((p.rot + d) / 4));
      SameTurn(offset, r, p.rot + d);
    }
    RotateVectorLinear(p.at, RotateVector(offset, p.rot), d);
  }
}
