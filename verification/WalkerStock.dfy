/**
 What the walker's stock holds: the four turns of each allowed block, with its cells and its route ports turned
 together, and the bounds and names the walker goes by.
 */
module WalkerStock {
  import opened Rotation
  import opened Collections
  import opened Catalogue
  import opened ClipWalker

  /** The ground variant has a route clip on a side face. */
  ghost predicate OnRoute(block: BlockDef, clips: set<string>) {
    && GroundVariant(block).Some?
    && exists u, f: Quarter, clip :: u in GroundVariant(block).value.units && clip in ClipsOn(u, f) && clip in clips
  }

  lemma {:induction false} RoutePortsAre(v: BlockVariant, clips: set<string>, p: UnitPort)
    ensures p in RoutePorts(v, clips) <==>
            p.clip in clips && exists u :: u in v.units && p.offset == u.offset && p.clip in ClipsOn(u, p.face)
  {
    SidePortsAre(v.units, p);
  }

  lemma {:induction false} RoutePortsExist(block: BlockDef, clips: set<string>)
    requires GroundVariant(block).Some?
    ensures OnRoute(block, clips) <==> RoutePorts(GroundVariant(block).value, clips) != []
  {
    var v := GroundVariant(block).value;
    var ports := RoutePorts(v, clips);
    if ports != [] {
      RoutePortsAre(v, clips, ports[0]);
    }
    if OnRoute(block, clips) {
      var u, f: Quarter, clip :| u in v.units && clip in ClipsOn(u, f) && clip in clips;
      RoutePortsAre(v, clips, UnitPort(u.offset, f, clip));
    }
  }

  /** A block is stocked at the rotations 0 to 3 if it has a route clip on the side, and not at all otherwise. */
  lemma {:induction false} FourTurns(block: BlockDef, clips: set<string>)
    ensures var os := Orientations(block, clips);
            && (OnRoute(block, clips) ==> |os| == 4)
            && (!OnRoute(block, clips) ==> os == [])
            && forall r :: 0 <= r < |os| ==> os[r].rotation == r && os[r].blockId == block.blockId
                                             && os[r].waypoint == block.waypoint
  {
    if GroundVariant(block).Some? {
      RoutePortsExist(block, clips);
    }
  }

  /** The unit offsets as they are in the catalogue. */
  function Offsets(v: BlockVariant): seq<Vec> { Map((u: BlockUnit) => u.offset, v.units) }

  ghost predicate CellsTurned(from: Oriented, to: Oriented, r: int, size: Vec) {
    && |to.cells| == |from.cells|
    && forall i :: 0 <= i < |to.cells| ==> to.cells[i] == RotateOffset(from.cells[i], r, size)
  }

  ghost predicate PortsTurned(from: Oriented, to: Oriented, r: int, size: Vec) {
    |to.ports| == |from.ports| && forall i :: 0 <= i < |to.ports| ==> PortTurned(from.ports[i], to.ports[i], r, size)
  }

  ghost predicate PortTurned(p: Port, q: Port, r: int, size: Vec) {
    q.cell == RotateOffset(p.cell, r, size) && q.face == RotateFace(p.face, r) && q.clip == p.clip
  }

  /** Cells and ports of every orientation are those of the first, turned together; the first has the unit offsets. */
  lemma {:induction false} TurnedFromFirst(block: BlockDef, clips: set<string>, r: nat)
    requires OnRoute(block, clips) && r < 4
    ensures var os, v := Orientations(block, clips), GroundVariant(block).value;
            && |os| == 4 && os[0].cells == Offsets(v)
            && CellsTurned(os[0], os[r], r, v.size) && PortsTurned(os[0], os[r], r, v.size)
  {
    FourTurns(block, clips);
    var v := GroundVariant(block).value;
    var os, ports := Orientations(block, clips), RoutePorts(v, clips);
    assert os[r] == Orient(block, v, ports, r) && os[0] == Orient(block, v, ports, 0);
    forall i | 0 <= i < |v.units| ensures os[0].cells[i] == v.units[i].offset {}
    forall i | 0 <= i < |ports| ensures PortTurned(os[0].ports[i], os[r].ports[i], r, v.size) {
      TurnedPort(ports[i], r, v.size);
    }
  }

  lemma {:induction false} TurnedPort(p: UnitPort, r: int, size: Vec)
    ensures PortTurned(TurnPort(p, 0, size), TurnPort(p, r, size), r, size)
  {
    assert RotateFace(p.face, 0) == p.face;
  }

  /** The ports of an orientation are exactly the route clips on the side faces, each at its turned cell and face. */
  lemma {:induction false} OrientedPortsAre(block: BlockDef, clips: set<string>, r: nat, p: Port)
    requires OnRoute(block, clips) && r < 4
    ensures |Orientations(block, clips)| == 4
    ensures p in Orientations(block, clips)[r].ports <==>
            p.clip in clips && TurnedClipOf(GroundVariant(block).value, r, p)
  {
    FourTurns(block, clips);
    var v := GroundVariant(block).value;
    assert Orientations(block, clips)[r].ports == TurnPorts(RoutePorts(v, clips), r, v.size);
    TurnedPortsAre(v, (q: UnitPort) => q.clip in clips, clip => clip in clips, r, p);
  }

  /** Every port of an orientation sits on one of that orientation's own cells. */
  lemma {:induction false} PortsOnOwnCells(block: BlockDef, clips: set<string>, o: Oriented, p: Port)
    requires o in Orientations(block, clips) && p in o.ports
    ensures p.cell in o.cells
  {
    FourTurns(block, clips);
    var v := GroundVariant(block).value;
    var r :| 0 <= r < 4 && Orientations(block, clips)[r] == o;
    OrientedPortsAre(block, clips, r, p);
    TurnedClipOnCell(v, r, p);
  }

  /** A block that fills its box fills the turned box at every rotation. */
  lemma {:induction false} OrientationFillsBox(block: BlockDef, clips: set<string>, r: nat, c: Vec)
    requires OnRoute(block, clips) && r < 4
    requires forall x :: x in Offsets(GroundVariant(block).value) <==> InBox(x, GroundVariant(block).value.size)
    ensures |Orientations(block, clips)| == 4
    ensures c in Orientations(block, clips)[r].cells <==> InBox(c, RotatedSize(GroundVariant(block).value.size, r))
  {
    TurnedFromFirst(block, clips, r);
    var v := GroundVariant(block).value;
    var os, box := Orientations(block, clips), RotatedSize(v.size, r);
    if c in os[r].cells {
      var i :| 0 <= i < |os[r].cells| && os[r].cells[i] == c;
      assert os[0].cells[i] in Offsets(v);
      RotateOffsetFillsRotatedBox(os[0].cells[i], r, v.size);
    }
    if InBox(c, box) {
      var x := BackInBox(c, r, v.size);
      var i :| 0 <= i < |Offsets(v)| && Offsets(v)[i] == x;
      assert os[r].cells[i] == c;
    }
  }

  lemma {:induction false} BackInBox(c: Vec, r: int, size: Vec) returns (x: Vec)
    requires InBox(c, RotatedSize(size, r))
    ensures InBox(x, size) && RotateOffset(x, r, size) == c
  {
    x := RotateOffset(c, -r, RotatedSize(size, r));
    TurnBack(c, r, size);
    RotateOffsetFillsRotatedBox(x, r, size);
  }

  lemma {:induction false} TurnBack(c: Vec, r: int, size: Vec)
    ensures RotateOffset(RotateOffset(c, -r, RotatedSize(size, r)), r, size) == c
  {
    var turned := RotatedSize(size, r);
    RotateOffsetAction(c, -r, r, turned);
    SizeBack(r, size);
    assert RotateOffset(c, 0, turned) == c;
  }

  lemma {:induction false} SizeBack(r: int, size: Vec)
    ensures RotatedSize(RotatedSize(size, r), -r) == size
  {
    RotatedSizeIsParity(size, r);
    RotatedSizeIsParity(RotatedSize(size, r), -r);
  }

  // ----- the number of ports, which decides what a block can be used for -----

  ghost function RouteClipsOn(u: BlockUnit, f: Quarter, clips: set<string>): nat {
    |Filter((clip: string) => clip in clips, ClipsOn(u, f))|
  }

  ghost function RouteClips(clips: set<string>): BlockUnit -> nat {
    u => RouteClipsOn(u, 0, clips) + RouteClipsOn(u, 1, clips) + RouteClipsOn(u, 2, clips) + RouteClipsOn(u, 3, clips)
  }

  function WithClip(clips: set<string>): UnitPort -> bool { (p: UnitPort) => p.clip in clips }

  lemma {:induction false} FacePortCount(u: BlockUnit, f: Quarter, clips: set<string>, names: seq<string>)
    ensures |Filter(WithClip(clips), Map(clip => UnitPort(u.offset, f, clip), names))|
         == |Filter((clip: string) => clip in clips, names)|
  {
    if names != [] {
      var n := |names| - 1;
      FacePortCount(u, f, clips, names[..n]);
      var ports := Map(clip => UnitPort(u.offset, f, clip), names);
      assert ports[..n] == Map(clip => UnitPort(u.offset, f, clip), names[..n]);
    }
  }

  lemma {:induction false} UnitPortCount(u: BlockUnit, clips: set<string>)
    ensures |Filter(WithClip(clips), UnitPorts(u))| == RouteClips(clips)(u)
  {
    var p := WithClip(clips);
    FilterAppend(p, FacePorts(u, 0) + FacePorts(u, 1) + FacePorts(u, 2), FacePorts(u, 3));
    FilterAppend(p, FacePorts(u, 0) + FacePorts(u, 1), FacePorts(u, 2));
    FilterAppend(p, FacePorts(u, 0), FacePorts(u, 1));
    forall f: Quarter ensures |Filter(p, FacePorts(u, f))| == RouteClipsOn(u, f, clips) {
      FacePortCount(u, f, clips, ClipsOn(u, f));
    }
  }

  lemma {:induction false} PortsCons(u: BlockUnit, rest: seq<BlockUnit>)
    ensures PortsOfUnits([u] + rest) == UnitPorts(u) + PortsOfUnits(rest)
  {
    assert ([u] + rest)[1..] == rest;
  }

  lemma {:induction false} UnitsPortCount(units: seq<BlockUnit>, clips: set<string>)
    ensures |Filter(WithClip(clips), PortsOfUnits(units))| == SumOver(RouteClips(clips), units)
  {
    if units != [] {
      var u, rest := units[0], units[1..];
      UnitsPortCount(rest, clips);
      assert units == [u] + rest;
      CountCons(u, rest, clips);
    }
  }

  lemma {:induction false} CountCons(u: BlockUnit, rest: seq<BlockUnit>, clips: set<string>)
    requires |Filter(WithClip(clips), PortsOfUnits(rest))| == SumOver(RouteClips(clips), rest)
    ensures |Filter(WithClip(clips), PortsOfUnits([u] + rest))| == SumOver(RouteClips(clips), [u] + rest)
  {
    PortsCons(u, rest);
    FilterAppend(WithClip(clips), UnitPorts(u), PortsOfUnits(rest));
    UnitPortCount(u, clips);
    SumOverCons(RouteClips(clips), u, rest);
  }

  lemma {:induction false} RoutePortCount(v: BlockVariant, clips: set<string>)
    ensures |RoutePorts(v, clips)| == SumOver(RouteClips(clips), v.units)
  {
    UnitsPortCount(v.units, clips);
    FilterSame(WithClip(clips), (p: UnitPort) => p.clip in clips, SidePorts(v));
  }

  /** An orientation has one port for every entry of a route clip on a side face. */
  lemma {:induction false} PortCount(block: BlockDef, clips: set<string>, o: Oriented)
    requires o in Orientations(block, clips)
    ensures GroundVariant(block).Some? && |o.ports| == SumOver(RouteClips(clips), GroundVariant(block).value.units)
  {
    RoutePortCount(GroundVariant(block).value, clips);
  }

  // ----- bounds and names -----

  /** The walker's bounds: 36 cells each way in the plane, the ground and ten cells above it. */
  lemma {:induction false} BoundsAre(cells: set<Vec>)
    ensures InBounds(cells) <==> forall c :: c in cells ==> 6 <= c.x <= 41 && 9 <= c.y <= 19 && 6 <= c.z <= 41
    ensures ORIGIN == Vec(24, 9, 24)
  {}

  lemma {:induction false} ContainsMeans(text: string, needle: string)
    ensures Contains(text, needle) <==> exists before: string, after: string :: text == before + needle + after
  {
    if Contains(text, needle) {
      var i :| 0 <= i <= |text| && OccursAt(text, needle, i);
      assert text == text[..i] + needle + text[i + |needle|..];
    }
    if before: string, after: string :| text == before + needle + after {
      assert OccursAt(text, needle, |before|);
    }
  }

  /** Checkpoints, start-finish lines, and blocks named Special or Penalty must face the way of travel. */
  lemma {:induction false} DirectionalMeans(o: Oriented)
    ensures IsDirectional(o) <==>
            || o.waypoint in {Checkpoint, StartFinish}
            || exists before: string, after: string ::
                 o.blockId == before + "Special" + after || o.blockId == before + "Penalty" + after
  {
    ContainsMeans(o.blockId, "Special");
    ContainsMeans(o.blockId, "Penalty");
  }
}
