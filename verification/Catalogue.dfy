/**
 The block catalogue: variants made of unit cells, and the clip ports on their side faces.
 */
module Catalogue {
  import opened Rotation
  import opened Collections

  /** One connectable face of one unit cell, in the block's own frame. */
  datatype UnitPort = UnitPort(offset: Vec, face: Quarter, clip: string)

  /** `clips` is keyed by face name: n, e, s, w, top, bottom. */
  datatype BlockUnit = BlockUnit(offset: Vec, clips: map<string, seq<string>>)

  datatype BlockVariant = BlockVariant(kind: string, index: int, size: Vec, units: seq<BlockUnit>)

  /** The waypoint kinds the walker tells apart; `NoWaypoint` is spelled "None" in the catalogue. */
  datatype Waypoint = Start | Finish | Checkpoint | StartFinish | NoWaypoint | OtherWaypoint(name: string)

  datatype BlockDef = BlockDef(blockId: string, waypoint: Waypoint, variants: seq<BlockVariant>)

  const SIDE_FACES := ["n", "e", "s", "w"]

  function ClipsOn(unit: BlockUnit, face: Quarter): seq<string> {
    var key := SIDE_FACES[face];
    if key in unit.clips then unit.clips[key] else []
  }

  function FacePorts(unit: BlockUnit, face: Quarter): seq<UnitPort> {
    Map(clip => UnitPort(unit.offset, face, clip), ClipsOn(unit, face))
  }

  function UnitPorts(unit: BlockUnit): seq<UnitPort> {
    FacePorts(unit, 0) + FacePorts(unit, 1) + FacePorts(unit, 2) + FacePorts(unit, 3)
  }

  function PortsOfUnits(units: seq<BlockUnit>): seq<UnitPort> {
    if units == [] then [] else UnitPorts(units[0]) + PortsOfUnits(units[1..])
  }

  function SidePorts(v: BlockVariant): seq<UnitPort> { PortsOfUnits(v.units) }

  /** The first variant of that kind and index. */
  function FindVariant(variants: seq<BlockVariant>, kind: string, index: int): Option<BlockVariant> {
    if variants == [] then None
    else if variants[0].kind == kind && variants[0].index == index then Some(variants[0])
    else FindVariant(variants[1..], kind, index)
  }

  function GroundVariant(block: BlockDef): Option<BlockVariant> {
    FindVariant(block.variants, "ground", 0)
  }

  ghost predicate IsVariant(v: BlockVariant, kind: string, index: int) { v.kind == kind && v.index == index }

  /** The variant found is the first of its kind and index, and none is found only when there is none. */
  lemma {:induction false} FindVariantFinds(variants: seq<BlockVariant>, kind: string, index: int)
    ensures match FindVariant(variants, kind, index)
            case None => forall v :: v in variants ==> !IsVariant(v, kind, index)
            case Some(v) => exists i :: 0 <= i < |variants| && variants[i] == v && IsVariant(v, kind, index)
                                        && forall u :: u in variants[..i] ==> !IsVariant(u, kind, index)
  {
    if variants != [] && !IsVariant(variants[0], kind, index) {
      var rest := variants[1..];
      FindVariantFinds(rest, kind, index);
      assert variants == [variants[0]] + rest;
      var found := FindVariant(rest, kind, index);
      if found.Some? {
        var i :| 0 <= i < |rest| && rest[i] == found.value && IsVariant(found.value, kind, index)
                 && forall u :: u in rest[..i] ==> !IsVariant(u, kind, index);
        assert variants[..i + 1] == [variants[0]] + rest[..i];
        assert variants[i + 1] == found.value;
      }
    } else if variants != [] {
      assert variants[..0] == [];
    }
  }

  /** The ground variant is the first one of kind "ground" with index zero. */
  lemma {:induction false} GroundVariantFinds(block: BlockDef)
    ensures match GroundVariant(block)
            case None => forall v :: v in block.variants ==> v.kind != "ground" || v.index != 0
            case Some(v) => exists i :: 0 <= i < |block.variants| && block.variants[i] == v && v.kind == "ground"
                                        && v.index == 0
                                        && forall u :: u in block.variants[..i] ==> u.kind != "ground" || u.index != 0
  {
    FindVariantFinds(block.variants, "ground", 0);
    var found := GroundVariant(block);
    if found.None? {
      forall v | v in block.variants ensures v.kind != "ground" || v.index != 0 {
        assert !IsVariant(v, "ground", 0);
      }
    } else {
      var i :| 0 <= i < |block.variants| && block.variants[i] == found.value && IsVariant(found.value, "ground", 0)
               && forall u :: u in block.variants[..i] ==> !IsVariant(u, "ground", 0);
      forall u | u in block.variants[..i] ensures u.kind != "ground" || u.index != 0 {
        assert !IsVariant(u, "ground", 0);
      }
    }
  }

  /** The four side faces are keyed north, east, south and west, in that order; a missing key has no clips. */
  lemma {:induction false} SideClipsByName(unit: BlockUnit)
    ensures ClipsOn(unit, 0) == (if "n" in unit.clips then unit.clips["n"] else [])
    ensures ClipsOn(unit, 1) == (if "e" in unit.clips then unit.clips["e"] else [])
    ensures ClipsOn(unit, 2) == (if "s" in unit.clips then unit.clips["s"] else [])
    ensures ClipsOn(unit, 3) == (if "w" in unit.clips then unit.clips["w"] else [])
  {}

  /** A port of a placed block: cell relative to the anchor, world face, clip. */
  datatype Port = Port(cell: Vec, face: Quarter, clip: string)

  function TurnPort(p: UnitPort, rotation: int, size: Vec): Port {
    Port(RotateOffset(p.offset, rotation, size), RotateFace(p.face, rotation), p.clip)
  }

  function TurnPorts(ports: seq<UnitPort>, rotation: int, size: Vec): seq<Port> {
    Map(p => TurnPort(p, rotation, size), ports)
  }

  function TurnCells(units: seq<BlockUnit>, rotation: int, size: Vec): seq<Vec> {
    Map((u: BlockUnit) => RotateOffset(u.offset, rotation, size), units)
  }

  /** Exactly the clips of the side faces become ports, one port per clip entry. */
  lemma {:induction false} SidePortsAre(units: seq<BlockUnit>, p: UnitPort)
    ensures p in PortsOfUnits(units) <==>
            exists u :: u in units && p.offset == u.offset && p.clip in ClipsOn(u, p.face)
  {
    if units != [] {
      SidePortsAre(units[1..], p);
      var u := units[0];
      assert p in UnitPorts(u) <==> p.offset == u.offset && p.clip in ClipsOn(u, p.face) by {
        forall f: Quarter ensures p in FacePorts(u, f) <==>
                                  p.face == f && p.offset == u.offset && p.clip in ClipsOn(u, f) {
          if p.face == f && p.offset == u.offset && p.clip in ClipsOn(u, f) {
            var i :| 0 <= i < |ClipsOn(u, f)| && ClipsOn(u, f)[i] == p.clip;
            assert FacePorts(u, f)[i] == p;
          }
        }
      }
      assert units == [u] + units[1..];
    }
  }

  /** Port `p` is a clip on face `f` of unit `u`, at its cell and face after the turn. */
  ghost predicate TurnedClip(u: BlockUnit, f: Quarter, r: int, size: Vec, p: Port) {
    p.clip in ClipsOn(u, f) && p.cell == RotateOffset(u.offset, r, size) && p.face == RotateFace(f, r)
  }

  ghost predicate TurnedClipOf(v: BlockVariant, r: int, p: Port) {
    exists u, f: Quarter :: u in v.units && TurnedClip(u, f, r, v.size, p)
  }

  /** The turned ports of the allowed clips are exactly the allowed clips on the side faces, turned. */
  lemma {:induction false} TurnedPortsAre(v: BlockVariant, keep: UnitPort -> bool, allowed: string -> bool, r: int,
                                          p: Port)
    requires forall q :: keep(q) == allowed(q.clip)
    ensures p in TurnPorts(Filter(keep, SidePorts(v)), r, v.size) <==> allowed(p.clip) && TurnedClipOf(v, r, p)
  {
    var ports := Filter(keep, SidePorts(v));
    if p in TurnPorts(ports, r, v.size) {
      var i :| 0 <= i < |ports| && TurnPort(ports[i], r, v.size) == p;
      assert ports[i] in SidePorts(v);
      SidePortsAre(v.units, ports[i]);
      var u :| u in v.units && ports[i].offset == u.offset && ports[i].clip in ClipsOn(u, ports[i].face);
      assert TurnedClip(u, ports[i].face, r, v.size, p);
    }
    if allowed(p.clip) && TurnedClipOf(v, r, p) {
      var u, f: Quarter :| u in v.units && TurnedClip(u, f, r, v.size, p);
      var q := UnitPort(u.offset, f, p.clip);
      SidePortsAre(v.units, q);
      var i :| 0 <= i < |ports| && ports[i] == q;
      assert TurnPorts(ports, r, v.size)[i] == p;
    }
  }

  /** A turned clip sits on a turned cell. */
  lemma {:induction false} TurnedClipOnCell(v: BlockVariant, r: int, p: Port)
    requires TurnedClipOf(v, r, p)
    ensures p.cell in TurnCells(v.units, r, v.size)
  {
    var u, f: Quarter :| u in v.units && TurnedClip(u, f, r, v.size, p);
    var i :| 0 <= i < |v.units| && v.units[i] == u;
    assert TurnCells(v.units, r, v.size)[i] == p.cell;
  }
}
