/**
 Whether a clip of block A meets a clip of block B: asked once per mined key with A at rotation 0,
 and transported to every heading.
 */
module ClipMeeting {
  import opened Rotation
  import opened Collections
  import opened Catalogue

  /** A port's place in the world: its cell and the face it looks through. */
  datatype Spot = Spot(cell: Vec, face: Quarter)

  function SpotOf(p: Port, d: Vec): Spot { Spot(Add(d, p.cell), p.face) }

  /** The clip recorded at a spot: a later port of the list overwrites an earlier one. */
  function Lookup(ports: seq<Port>, d: Vec, s: Spot): Option<string> {
    if ports == [] then None
    else if SpotOf(ports[|ports| - 1], d) == s then Some(ports[|ports| - 1].clip)
    else Lookup(ports[..|ports| - 1], d, s)
  }

  /** The spot that faces port `p` from the other side. */
  function Facing(p: Port): Spot { Across(Spot(p.cell, p.face)) }

  /** The spot on the other side of the face. */
  function Across(s: Spot): Spot { Spot(Add(s.cell, FaceDelta(s.face)), OppositeFace(s.face)) }

  ghost predicate Meet(aPorts: seq<Port>, bPorts: seq<Port>, d: Vec) {
    exists i :: 0 <= i < |aPorts| && Lookup(bPorts, d, Facing(aPorts[i])) == Some(aPorts[i].clip)
  }

  /** The dictionary of B's spots, then a scan over A's ports. */
  method ClipsMeet(aPorts: seq<Port>, bPorts: seq<Port>, d: Vec) returns (r: bool)
    ensures r <==> Meet(aPorts, bPorts, d)
  {
    var cells: map<Spot, string> := map[];
    for j := 0 to |bPorts|
      invariant forall s :: Lookup(bPorts[..j], d, s) == if s in cells then Some(cells[s]) else None
    {
      assert bPorts[..j + 1][..j] == bPorts[..j];
      cells := cells[SpotOf(bPorts[j], d) := bPorts[j].clip];
    }
    assert bPorts[..|bPorts|] == bPorts;
    for i := 0 to |aPorts|
      invariant forall k :: 0 <= k < i ==> Lookup(bPorts, d, Facing(aPorts[k])) != Some(aPorts[k].clip)
    {
      var s := Facing(aPorts[i]);
      if s in cells && cells[s] == aPorts[i].clip {
        return true;
      }
    }
    r := false;
  }

  // ----- turning the scene -----

  /** Blocks A and B with the given local ports and sizes, at rotations `ra` and `rb`, B displaced by `d`. */
  ghost predicate SceneMeets(a: seq<UnitPort>, sizeA: Vec, ra: int, b: seq<UnitPort>, sizeB: Vec, rb: int, d: Vec) {
    Meet(TurnPorts(a, ra, sizeA), TurnPorts(b, rb, sizeB), d)
  }

  /** The turn of the whole scene by `t` about A's footprint. */
  function TurnSpot(s: Spot, t: int, sizeA: Vec): Spot {
    Spot(Add(RotateVector(s.cell, t), Shift(t, sizeA)), RotateFace(s.face, t))
  }

  lemma {:induction false} TurnSpotInjective(s: Spot, u: Spot, t: int, sizeA: Vec)
    requires TurnSpot(s, t, sizeA) == TurnSpot(u, t, sizeA)
    ensures s == u
  {
    assert RotateVector(s.cell, t) == RotateVector(u.cell, t);
    assert s.cell == u.cell by {
      RotateVectorAction(s.cell, t, 0);
      RotateVectorAction(u.cell, t, 0);
    }
    assert s.face == u.face by {
      RotateFaceAction(s.face, t, -t);
      RotateFaceAction(u.face, t, -t);
    }
  }

  /** The displacement of B after the turn: the free rotation, corrected by both re-anchorings. */
  function TurnedDisplacement(o: Vec, t: int, sizeA: Vec, sizeB: Vec, r: int): Vec {
    Sub(Add(RotateVector(o, t), Shift(t, sizeA)), Shift(t, RotatedSize(sizeB, r)))
  }

  /** A port of B sits, after the turn, at the turned spot. */
  lemma {:induction false} SpotOfB(p: UnitPort, t: int, r: int, sizeA: Vec, sizeB: Vec, o: Vec)
    ensures SpotOf(TurnPort(p, r + t, sizeB), TurnedDisplacement(o, t, sizeA, sizeB, r))
         == TurnSpot(SpotOf(TurnPort(p, r, sizeB), o), t, sizeA)
  {
    var c := RotateOffset(p.offset, r, sizeB);
    var s := RotatedSize(sizeB, r);
    assert RotateOffset(p.offset, r + t, sizeB) == Add(RotateVector(c, t), Shift(t, s)) by {
      RotateOffsetAction(p.offset, r, t, sizeB);
      RotateOffsetIsShiftedVector(c, t, s);
    }
    assert RotateVector(Add(o, c), t) == Add(RotateVector(o, t), RotateVector(c, t)) by { RotateVectorLinear(o, c, t); }
    RotateFaceAction(p.face, r, t);
  }

  /** What faces a port of A turns with it. */
  lemma {:induction false} FacingTurns(p: UnitPort, t: int, sizeA: Vec)
    ensures Facing(TurnPort(p, t, sizeA)) == TurnSpot(Facing(TurnPort(p, 0, sizeA)), t, sizeA)
  {
    var q := TurnPort(p, 0, sizeA);
    assert q.cell == p.offset && q.face == p.face;
    assert RotateOffset(p.offset, t, sizeA) == Add(RotateVector(p.offset, t), Shift(t, sizeA)) by {
      RotateOffsetIsShiftedVector(p.offset, t, sizeA);
    }
    var f := FaceDelta(p.face);
    assert RotateVector(Add(p.offset, f), t) == Add(RotateVector(p.offset, t), RotateVector(f, t)) by {
      RotateVectorLinear(p.offset, f, t);
    }
    assert RotateVector(f, t) == FaceDelta(RotateFace(p.face, t)) by { FaceDeltaEquivariant(p.face, t); }
    OppositeFacesTurn(p.face, t);
  }

  lemma {:induction false} LookupTurns(b: seq<UnitPort>, t: int, r: int, sizeA: Vec, sizeB: Vec, o: Vec, s: Spot)
    ensures Lookup(TurnPorts(b, r + t, sizeB), TurnedDisplacement(o, t, sizeA, sizeB, r), TurnSpot(s, t, sizeA))
         == Lookup(TurnPorts(b, r, sizeB), o, s)
  {
    if b != [] {
      var n := |b| - 1;
      LookupTurns(b[..n], t, r, sizeA, sizeB, o, s);
      assert TurnPorts(b, r, sizeB)[..n] == TurnPorts(b[..n], r, sizeB);
      assert TurnPorts(b, r + t, sizeB)[..n] == TurnPorts(b[..n], r + t, sizeB);
      SpotOfB(b[n], t, r, sizeA, sizeB, o);
      var here := SpotOf(TurnPort(b[n], r, sizeB), o);
      if TurnSpot(here, t, sizeA) == TurnSpot(s, t, sizeA) {
        TurnSpotInjective(here, s, t, sizeA);
      }
    }
  }

  /**
   Heading invariance: the scene turned by `t` gives the same answer as the scene with A at rotation
   0, when B's displacement is corrected for the re-anchoring of both footprints.
   */
  lemma {:induction false} MeetTurns(a: seq<UnitPort>, sizeA: Vec, b: seq<UnitPort>, sizeB: Vec, r: int, t: int, o: Vec)
    ensures SceneMeets(a, sizeA, t, b, sizeB, r + t, TurnedDisplacement(o, t, sizeA, sizeB, r))
       <==> SceneMeets(a, sizeA, 0, b, sizeB, r, o)
  {
    var d := TurnedDisplacement(o, t, sizeA, sizeB, r);
    forall i | 0 <= i < |a|
      ensures Lookup(TurnPorts(b, r + t, sizeB), d, Facing(TurnPorts(a, t, sizeA)[i]))
           == Lookup(TurnPorts(b, r, sizeB), o, Facing(TurnPorts(a, 0, sizeA)[i]))
      ensures TurnPorts(a, t, sizeA)[i].clip == TurnPorts(a, 0, sizeA)[i].clip
    {
      FacingTurns(a[i], t, sizeA);
      LookupTurns(b, t, r, sizeA, sizeB, o, Facing(TurnPort(a[i], 0, sizeA)));
    }
  }

  /** Turning the mined displacement alone, without the correction, is right for all port layouts of two footprints. */
  ghost predicate PlainTurnRight(sizeA: Vec, sizeB: Vec, r: int, t: int) {
    forall a: seq<UnitPort>, b: seq<UnitPort>, o: Vec :: PlainTurnAgrees(a, sizeA, b, sizeB, r, t, o)
  }

  ghost predicate PlainTurnAgrees(a: seq<UnitPort>, sizeA: Vec, b: seq<UnitPort>, sizeB: Vec, r: int, t: int, o: Vec) {
    SceneMeets(a, sizeA, t, b, sizeB, r + t, RotateVector(o, t)) <==> SceneMeets(a, sizeA, 0, b, sizeB, r, o)
  }

  /** That is so if and only if the two re-anchoring terms agree. */
  lemma {:induction false} PlainTurnExact(sizeA: Vec, sizeB: Vec, r: int, t: int)
    ensures PlainTurnRight(sizeA, sizeB, r, t) <==> Shift(t, sizeA) == Shift(t, RotatedSize(sizeB, r))
  {
    if Shift(t, sizeA) == Shift(t, RotatedSize(sizeB, r)) {
      forall a: seq<UnitPort>, b: seq<UnitPort>, o: Vec ensures PlainTurnAgrees(a, sizeA, b, sizeB, r, t, o) {
        PlainTurnSuffices(a, sizeA, b, sizeB, r, t, o);
      }
    } else {
      var pa := UnitPort(Zero, NORTH, "clip");
      var pb, o := PlainTurnFails(pa, sizeA, sizeB, r, t);
      assert !PlainTurnAgrees([pa], sizeA, [pb], sizeB, r, t, o);
    }
  }

  lemma {:induction false} PlainTurnSuffices(a: seq<UnitPort>, sizeA: Vec, b: seq<UnitPort>, sizeB: Vec, r: int,
                                             t: int, o: Vec)
    requires Shift(t, sizeA) == Shift(t, RotatedSize(sizeB, r))
    ensures PlainTurnAgrees(a, sizeA, b, sizeB, r, t, o)
  {
    MeetTurns(a, sizeA, b, sizeB, r, t, o);
    NoCorrection(RotateVector(o, t), Shift(t, sizeA));
  }

  lemma {:induction false} NoCorrection(v: Vec, s: Vec)
    ensures Sub(Add(v, s), s) == v
  {}

  /** Any port of A has a partner: they meet at rotation 0 and miss by the difference of the shifts after the turn. */
  lemma {:induction false} PlainTurnFails(pa: UnitPort, sizeA: Vec, sizeB: Vec, r: int, t: int)
    returns (pb: UnitPort, o: Vec)
    requires Shift(t, sizeA) != Shift(t, RotatedSize(sizeB, r))
    ensures SceneMeets([pa], sizeA, 0, [pb], sizeB, r, o)
    ensures !SceneMeets([pa], sizeA, t, [pb], sizeB, r + t, RotateVector(o, t))
  {
    var facing := Facing(TurnPort(pa, 0, sizeA));
    pb := UnitPort(pa.offset, RotateFace(facing.face, -r), pa.clip);
    var qb := TurnPort(pb, r, sizeB);
    assert qb.face == facing.face by { RotateFaceAction(facing.face, -r, r); }
    o := Sub(facing.cell, qb.cell);
    assert SpotOf(qb, o) == facing;
    SinglesMeet(pa, sizeA, 0, pb, sizeB, r, o);
    SinglesMiss(pa, pb, sizeA, sizeB, r, t, o);
    SinglesMeet(pa, sizeA, t, pb, sizeB, r + t, RotateVector(o, t));
  }

  lemma {:induction false} SinglesMiss(pa: UnitPort, pb: UnitPort, sizeA: Vec, sizeB: Vec, r: int, t: int, o: Vec)
    requires Shift(t, sizeA) != Shift(t, RotatedSize(sizeB, r))
    requires SpotOf(TurnPort(pb, r, sizeB), o) == Facing(TurnPort(pa, 0, sizeA))
    ensures SpotOf(TurnPort(pb, r + t, sizeB), RotateVector(o, t)) != Facing(TurnPort(pa, t, sizeA))
  {
    var d, e := RotateVector(o, t), TurnedDisplacement(o, t, sizeA, sizeB, r);
    assert d != e by {
      var u, v := Shift(t, sizeA), Shift(t, RotatedSize(sizeB, r));
      assert e == Sub(Add(d, u), v);
      assert u.x != v.x || u.y != v.y || u.z != v.z;
    }
    var tb := TurnPort(pb, r + t, sizeB);
    assert SpotOf(tb, e) == Facing(TurnPort(pa, t, sizeA)) by {
      SpotOfB(pb, t, r, sizeA, sizeB, o);
      FacingTurns(pa, t, sizeA);
    }
    assert SpotOf(tb, d).cell != SpotOf(tb, e).cell;
  }

  lemma {:induction false} SinglesMeet(pa: UnitPort, sizeA: Vec, ra: int, pb: UnitPort, sizeB: Vec, rb: int, d: Vec)
    requires pa.clip == pb.clip
    ensures SceneMeets([pa], sizeA, ra, [pb], sizeB, rb, d) <==>
            SpotOf(TurnPort(pb, rb, sizeB), d) == Facing(TurnPort(pa, ra, sizeA))
  {
    assert TurnPorts([pa], ra, sizeA) == [TurnPort(pa, ra, sizeA)];
    assert TurnPorts([pb], rb, sizeB) == [TurnPort(pb, rb, sizeB)];
    SingleMeet(TurnPort(pa, ra, sizeA), TurnPort(pb, rb, sizeB), d);
  }

  lemma {:induction false} SingleMeet(p: Port, q: Port, d: Vec)
    requires p.clip == q.clip
    ensures Meet([p], [q], d) <==> SpotOf(q, d) == Facing(p)
  {
    assert [q][..0] == [];
    assert Lookup([q], d, Facing(p)) == if SpotOf(q, d) == Facing(p) then Some(q.clip) else None;
    if SpotOf(q, d) == Facing(p) {
      assert Lookup([q], d, Facing([p][0])) == Some([p][0].clip);
    }
  }

  /** One-cell-wide blocks need no correction; a 2x1x1 block against a unit block does at a half turn. */
  lemma {:induction false} UnitFootprintsAgree(sizeA: Vec, sizeB: Vec, r: int, t: int)
    ensures sizeA.x == sizeA.z == sizeB.x == sizeB.z == 1 ==> Shift(t, sizeA) == Shift(t, RotatedSize(sizeB, r))
    ensures Shift(2, Vec(2, 1, 1)) != Shift(2, RotatedSize(Vec(1, 1, 1), r))
  {}
}
