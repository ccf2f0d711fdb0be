/**
 Which placement owns which grid cell: the index the run and jump miners share.
 */
module Occupancy {
  import opened Rotation
  import opened Collections
  import opened Catalogue
  import opened Poses

  type Catalog = map<string, BlockDef>

  /** The world cells of a block with the given unit cells. */
  function WorldCells(units: seq<BlockUnit>, size: Vec, pose: Pose): seq<Vec> {
    Map((c: Vec) => Add(pose.at, c), TurnCells(units, pose.rot, size))
  }

  /** A block covers the cells of its units, each turned with the block and moved to its anchor. */
  lemma {:induction false} WorldCellsAre(units: seq<BlockUnit>, size: Vec, pose: Pose, c: Vec)
    ensures c in WorldCells(units, size, pose) <==>
            exists u :: u in units && c == Add(pose.at, RotateOffset(u.offset, pose.rot, size))
  {
    var world := WorldCells(units, size, pose);
    if c in world {
      var i :| 0 <= i < |world| && world[i] == c;
      assert units[i] in units;
    }
    if u :| u in units && c == Add(pose.at, RotateOffset(u.offset, pose.rot, size)) {
      var i :| 0 <= i < |units| && units[i] == u;
      assert world[i] == c;
    }
  }

  type Owners = map<Vec, nat>

  /** The last placement that covers `c`, among the first `n`. */
  function LastOwner(cells: seq<seq<Vec>>, n: nat, c: Vec): Option<nat>
    requires n <= |cells|
  {
    if n == 0 then None else if c in cells[n - 1] then Some(n - 1) else LastOwner(cells, n - 1, c)
  }

  /** The dictionary agrees with "last placement wins". */
  ghost predicate Indexes(owner: Owners, cells: seq<seq<Vec>>) {
    forall c :: LastOwner(cells, |cells|, c) == if c in owner then Some(owner[c]) else None
  }

  lemma {:induction false} LastOwnerCovers(cells: seq<seq<Vec>>, n: nat, c: Vec)
    requires n <= |cells|
    ensures LastOwner(cells, n, c).Some? ==>
              LastOwner(cells, n, c).value < n && c in cells[LastOwner(cells, n, c).value]
    ensures LastOwner(cells, n, c).None? <==> forall i :: 0 <= i < n ==> c !in cells[i]
  {
    if n > 0 {
      LastOwnerCovers(cells, n - 1, c);
    }
  }

  method BuildOwners(cells: seq<seq<Vec>>) returns (owner: Owners)
    ensures Indexes(owner, cells)
  {
    owner := map[];
    for i := 0 to |cells|
      invariant forall c :: LastOwner(cells, i, c) == if c in owner then Some(owner[c]) else None
    {
      for k := 0 to |cells[i]|
        invariant forall c :: (if c in cells[i][..k] then Some(i) else LastOwner(cells, i, c))
                           == if c in owner then Some(owner[c]) else None
      {
        assert cells[i][..k + 1] == cells[i][..k] + [cells[i][k]];
        owner := owner[cells[i][k] := i];
      }
      assert cells[i][..|cells[i]|] == cells[i];
    }
  }

  /** An owned cell is covered by its owner; an unowned cell by nobody. */
  lemma {:induction false} OwnerCovers(owner: Owners, cells: seq<seq<Vec>>, c: Vec)
    requires Indexes(owner, cells)
    ensures c in owner ==> owner[c] < |cells| && c in cells[owner[c]]
    ensures c !in owner <==> forall i :: 0 <= i < |cells| ==> c !in cells[i]
  {
    LastOwnerCovers(cells, |cells|, c);
    assert LastOwner(cells, |cells|, c) == if c in owner then Some(owner[c]) else None;
  }
}
