/**
 Mining how blocks are placed next to blocks: per map, a bit-packed sort-merge join over a
 neighbourhood of offsets; over the corpus, totals in a sorted-array counter.
 */
module PairMiner {
  import opened Rotation
  import opened Poses
  import opened Collections
  import opened PackedKeys
  import opened SortedCounter
  import Grammar

  type Move<B> = Grammar.Move<B>

  // ----- the neighbourhood -----

  predicate InNeighbourhood(o: Vec, rxz: nat, ry: nat) {
    0 - rxz <= o.x <= rxz && 0 - ry <= o.y <= ry && 0 - rxz <= o.z <= rxz
  }

  function Find(offsets: seq<Vec>, o: Vec): (i: nat)
    requires o in offsets
    ensures i < |offsets| && offsets[i] == o
  {
    if offsets[0] == o then 0 else 1 + Find(offsets[1..], o)
  }

  /** `rotMap[r][i]` is where the i-th offset lands when it is seen from a block at rotation `r`. */
  datatype OffsetTable = OffsetTable(rxz: nat, ry: nat, offsets: seq<Vec>, rotMap: seq<seq<nat>>)

  ghost predicate ValidTable(t: OffsetTable) {
    && Distinct(t.offsets)
    && (forall o :: o in t.offsets <==> InNeighbourhood(o, t.rxz, t.ry))
    && |t.rotMap| == 4
    && forall r :: 0 <= r < 4 ==> ValidRow(t.offsets, t.rotMap[r], r)
  }

  ghost predicate ValidRow(offsets: seq<Vec>, row: seq<nat>, r: int) {
    && |row| == |offsets|
    && forall i :: 0 <= i < |row| ==> row[i] < |offsets| && offsets[row[i]] == RotateVector(offsets[i], (4 - r) % 4)
  }

  /** The box is square in XZ, so turning an offset never leaves it. */
  lemma {:induction false} NeighbourhoodTurns(o: Vec, rxz: nat, ry: nat, d: int)
    ensures InNeighbourhood(RotateVector(o, d), rxz, ry) <==> InNeighbourhood(o, rxz, ry)
  {}

  predicate Before(o: Vec, x: int, y: int, z: int) {
    o.x < x || (o.x == x && (o.y < y || (o.y == y && o.z < z)))
  }

  method BuildTable(rxz: nat, ry: nat) returns (t: OffsetTable)
    ensures ValidTable(t) && t.rxz == rxz && t.ry == ry
  {
    var offsets: seq<Vec> := [];
    for x := 0 - rxz to rxz + 1
      invariant Distinct(offsets)
      invariant forall o :: o in offsets <==> InNeighbourhood(o, rxz, ry) && Before(o, x, 0 - ry, 0 - rxz)
    {
      for y := 0 - ry to ry + 1
        invariant Distinct(offsets)
        invariant forall o :: o in offsets <==> InNeighbourhood(o, rxz, ry) && Before(o, x, y, 0 - rxz)
      {
        for z := 0 - rxz to rxz + 1
          invariant Distinct(offsets)
          invariant forall o :: o in offsets <==> InNeighbourhood(o, rxz, ry) && Before(o, x, y, z)
        {
          assert Vec(x, y, z) !in offsets;
          offsets := offsets + [Vec(x, y, z)];
        }
      }
    }
    var rotMap: seq<seq<nat>> := [];
    for r := 0 to 4
      invariant |rotMap| == r
      invariant forall q :: 0 <= q < r ==> ValidRow(offsets, rotMap[q], q)
    {
      var row: seq<nat> := [];
      for i := 0 to |offsets|
        invariant |row| == i
        invariant forall j :: 0 <= j < i ==>
                                row[j] < |offsets| && offsets[row[j]] == RotateVector(offsets[j], (4 - r) % 4)
      {
        var local := RotateVector(offsets[i], (4 - r) % 4);
        assert offsets[i] in offsets;
        NeighbourhoodTurns(offsets[i], rxz, ry, (4 - r) % 4);
        row := row + [Find(offsets, local)];
      }
      rotMap := rotMap + [row];
    }
    t := OffsetTable(rxz, ry, offsets, rotMap);
  }

  // ----- what is mined from one map -----

  datatype Block = Block(kind: nat, pose: Pose)

  predicate Neighbours(a: Block, b: Block, t: OffsetTable) {
    InNeighbourhood(Sub(b.pose.at, a.pose.at), t.rxz, t.ry)
  }

  function MinedKey(a: Block, b: Block, t: OffsetTable): nat {
    var o := OffsetFrom(a.pose, b.pose);
    var at := if o in t.offsets then Find(t.offsets, o) else 0;
    Pack(PairKey(a.kind, b.kind, TurnFrom(a.pose, b.pose), at), |t.offsets|)
  }

  /** Ordered pairs of different placements in the neighbourhood of one another. */
  ghost function NeighbourPairs(ps: seq<Block>, t: OffsetTable): set<(nat, nat)> {
    set i: nat, j: nat | i < |ps| && j < |ps| && i != j && Neighbours(ps[i], ps[j], t) :: (i, j)
  }

  /** The naive reference: the neighbour pairs whose key is `k`. */
  ghost function PairsWithKey(ps: seq<Block>, t: OffsetTable, k: int): set<(nat, nat)> {
    set p | p in NeighbourPairs(ps, t) && MinedKey(ps[p.0], ps[p.1], t) == k
  }

  /**
   What 64-bit packing needs: type ids in 17 bits, at most 2^27 offsets, and every looked-up cell inside
   the bit fields.
   */
  ghost predicate Packable(ps: seq<Block>, t: OffsetTable) {
    && |t.offsets| <= MAX_OFFSETS
    && forall i :: 0 <= i < |ps| ==> ps[i].kind < MAX_TYPES && InField(ps[i].pose.at) && RoomAround(ps[i].pose.at, t)
  }

  ghost predicate RoomAround(at: Vec, t: OffsetTable) {
    forall o :: o in t.offsets ==> InField(Add(at, o))
  }

  // ----- the vectorised range expansion -----

  function SearchLeft(s: seq<int>, v: int): (i: nat)
    ensures i <= |s|
  {
    if s == [] || s[0] >= v then 0 else 1 + SearchLeft(s[1..], v)
  }

  function SearchRight(s: seq<int>, v: int): (i: nat)
    ensures i <= |s|
  {
    if s == [] || s[0] > v then 0 else 1 + SearchRight(s[1..], v)
  }

  /** In a sorted array, the positions between the two searches are exactly those holding `v`. */
  lemma {:induction false} SearchRange(s: seq<int>, v: int)
    requires NonDecreasing(s)
    ensures forall i :: 0 <= i < |s| ==> (i < SearchLeft(s, v) <==> s[i] < v)
    ensures forall i :: 0 <= i < |s| ==> (i < SearchRight(s, v) <==> s[i] <= v)
    ensures SearchLeft(s, v) <= SearchRight(s, v)
  {
    if s != [] {
      SearchRange(s[1..], v);
      assert forall i :: 1 <= i < |s| ==> s[i] == s[1..][i - 1];
    }
  }

  function Total(counts: seq<nat>): nat {
    if counts == [] then 0 else Total(counts[..|counts| - 1]) + counts[|counts| - 1]
  }

  /** `cumsum(counts) - counts`. */
  function Bases(counts: seq<nat>): seq<nat> {
    seq(|counts|, a requires 0 <= a < |counts| => Total(counts[..a]))
  }

  function Repeat(vals: seq<nat>, counts: seq<nat>): (r: seq<nat>)
    requires |vals| == |counts|
    ensures |r| == Total(counts)
  {
    if vals == [] then []
    else
      var n := |vals| - 1;
      Repeat(vals[..n], counts[..n]) + seq(counts[n], _ => vals[n])
  }

  lemma {:induction false} RepeatAt(vals: seq<nat>, counts: seq<nat>, a: nat, r: nat)
    requires |vals| == |counts| && a < |counts| && r < counts[a]
    ensures Total(counts[..a]) + r < Total(counts)
    ensures Repeat(vals, counts)[Total(counts[..a]) + r] == vals[a]
  {
    var n := |vals| - 1;
    if a < n {
      RepeatAt(vals[..n], counts[..n], a, r);
      assert counts[..n][..a] == counts[..a];
    }
  }

  lemma {:induction false} Locate(counts: seq<nat>, t: nat) returns (a: nat, r: nat)
    requires t < Total(counts)
    ensures a < |counts| && r < counts[a] && t == Total(counts[..a]) + r
  {
    var n := |counts| - 1;
    if t < Total(counts[..n]) {
      a, r := Locate(counts[..n], t);
      assert counts[..n][..a] == counts[..a];
    } else {
      a, r := n, t - Total(counts[..n]);
    }
  }

  /** The t-th expanded element, for every t: its source index, its range start, and its rank in the range. */
  lemma {:induction false} ExpansionAt(lo: seq<nat>, counts: seq<nat>, t: nat) returns (a: nat, r: nat)
    requires |lo| == |counts| && t < Total(counts)
    ensures a < |counts| && r < counts[a] && t == Total(counts[..a]) + r
    ensures Repeat(Range(|lo|), counts)[t] == a
    ensures Repeat(lo, counts)[t] == lo[a]
    ensures t - Repeat(Bases(counts), counts)[t] == r
  {
    a, r := Locate(counts, t);
    RepeatAt(Range(|lo|), counts, a, r);
    RepeatAt(lo, counts, a, r);
    RepeatAt(Bases(counts), counts, a, r);
  }

  function Zip(a: seq<nat>, b: seq<nat>): seq<(nat, nat)>
    requires |a| == |b|
  {
    seq(|a|, i requires 0 <= i < |a| => (a[i], b[i]))
  }

  /** For each `a`, the positions of the sorted array that hold `Target(cell[a], shift)`. */
  ghost predicate Ranges(cell: seq<int>, sorted: seq<int>, shift: int, lo: seq<nat>, counts: seq<nat>) {
    && |lo| == |counts| == |cell|
    && forall a :: 0 <= a < |cell| ==> IsRange(sorted, Target(cell[a], shift), lo[a], counts[a])
  }

  ghost predicate IsRange(sorted: seq<int>, v: int, lo: nat, count: nat) {
    && lo + count <= |sorted|
    && forall p :: 0 <= p < |sorted| ==> (lo <= p < lo + count <==> sorted[p] == v)
  }

  /** The pairs the source expands the ranges into, written with `repeat`, `cumsum` and `arange`. */
  ghost predicate Expanded(order: seq<nat>, lo: seq<nat>, counts: seq<nat>, aIdx: seq<nat>, bIdx: seq<nat>) {
    && |lo| == |counts| && |aIdx| == |bIdx| == Total(counts)
    && aIdx == Repeat(Range(|lo|), counts)
    && forall t :: 0 <= t < Total(counts) ==>
                     var p := Repeat(lo, counts)[t] + (t - Repeat(Bases(counts), counts)[t]);
                     0 <= p < |order| && bIdx[t] == order[p]
  }

  /** The t-th expanded pair is (a, order[lo[a] + r]). */
  lemma {:induction false} ExpandedAt(order: seq<nat>, lo: seq<nat>, counts: seq<nat>, aIdx: seq<nat>, bIdx: seq<nat>,
                                      t: nat)
    returns (a: nat, r: nat)
    requires Expanded(order, lo, counts, aIdx, bIdx) && t < Total(counts)
    ensures a < |counts| && r < counts[a] && t == Total(counts[..a]) + r
    ensures lo[a] + r < |order| && aIdx[t] == a && bIdx[t] == order[lo[a] + r]
  {
    a, r := ExpansionAt(lo, counts, t);
  }

  /** Different ranks of one range hit different positions, and different ranges differ in the first index. */
  lemma {:induction false} ExpandedDistinct(order: seq<nat>, lo: seq<nat>, counts: seq<nat>, aIdx: seq<nat>,
                                            bIdx: seq<nat>)
    requires Distinct(order) && Expanded(order, lo, counts, aIdx, bIdx)
    ensures Distinct(Zip(aIdx, bIdx))
  {
    var z := Zip(aIdx, bIdx);
    forall t, u | 0 <= t < u < |z| ensures z[t] != z[u] {
      var a, r := ExpandedAt(order, lo, counts, aIdx, bIdx, t);
      var b, s := ExpandedAt(order, lo, counts, aIdx, bIdx, u);
      if a == b {
        assert lo[a] + r != lo[b] + s;
      }
    }
  }

  /** No match is missed: the rank of `b`'s position in `a`'s range says where the pair is emitted. */
  lemma {:induction false} JoinFinds(cell: seq<int>, order: seq<nat>, shift: int, lo: seq<nat>, counts: seq<nat>,
                                     aIdx: seq<nat>, bIdx: seq<nat>, a: nat, b: nat)
    requires order == ArgSort(cell)
    requires Ranges(cell, Gather(cell, order), shift, lo, counts) && Expanded(order, lo, counts, aIdx, bIdx)
    requires a < |cell| && b < |cell| && cell[b] == Target(cell[a], shift)
    ensures (a, b) in Zip(aIdx, bIdx)
  {
    assert b in order by { ArgSortOrders(cell); }
    var p :| 0 <= p < |order| && order[p] == b;
    assert Gather(cell, order)[p] == cell[b];
    assert IsRange(Gather(cell, order), Target(cell[a], shift), lo[a], counts[a]);
    ExpandedHas(order, lo, counts, aIdx, bIdx, a, p - lo[a]);
  }

  lemma {:induction false} ExpandedHas(order: seq<nat>, lo: seq<nat>, counts: seq<nat>, aIdx: seq<nat>, bIdx: seq<nat>,
                                       a: nat, r: nat)
    requires Expanded(order, lo, counts, aIdx, bIdx) && a < |counts| && r < counts[a] && lo[a] + r < |order|
    ensures (a, order[lo[a] + r]) in Zip(aIdx, bIdx)
  {
    var t := Total(counts[..a]) + r;
    RepeatAt(Range(|lo|), counts, a, r);
    RepeatAt(lo, counts, a, r);
    RepeatAt(Bases(counts), counts, a, r);
    assert Zip(aIdx, bIdx)[t] == (a, order[lo[a] + r]);
  }

  /** Nothing else is emitted. */
  lemma {:induction false} JoinSound(cell: seq<int>, order: seq<nat>, shift: int, lo: seq<nat>, counts: seq<nat>,
                                     aIdx: seq<nat>, bIdx: seq<nat>, a: nat, b: nat)
    requires order == ArgSort(cell)
    requires Ranges(cell, Gather(cell, order), shift, lo, counts) && Expanded(order, lo, counts, aIdx, bIdx)
    requires (a, b) in Zip(aIdx, bIdx)
    ensures a < |cell| && b < |cell| && cell[b] == Target(cell[a], shift)
  {
    var t :| 0 <= t < |aIdx| && Zip(aIdx, bIdx)[t] == (a, b);
    var a', r := ExpandedAt(order, lo, counts, aIdx, bIdx, t);
    assert IsRange(Gather(cell, order), Target(cell[a], shift), lo[a], counts[a]);
    assert Gather(cell, order)[lo[a] + r] == At(cell, b);
    assert b < |cell| by { ArgSortOrders(cell); }
  }

  /** The two binary searches. */
  method SearchRanges(cell: seq<int>, sorted: seq<int>, shift: int) returns (lo: seq<nat>, counts: seq<nat>)
    requires NonDecreasing(sorted)
    ensures Ranges(cell, sorted, shift, lo, counts)
  {
    lo, counts := [], [];
    for a := 0 to |cell|
      invariant |lo| == |counts| == a
      invariant forall i :: 0 <= i < a ==> IsRange(sorted, Target(cell[i], shift), lo[i], counts[i])
    {
      SearchRange(sorted, Target(cell[a], shift));
      var left, right := SearchLeft(sorted, Target(cell[a], shift)), SearchRight(sorted, Target(cell[a], shift));
      lo, counts := lo + [left], counts + [right - left];
    }
  }

  /** The expansion of the ranges without a loop over them. */
  method Expand(order: seq<nat>, lo: seq<nat>, counts: seq<nat>) returns (aIdx: seq<nat>, bIdx: seq<nat>)
    requires |lo| == |counts|
    requires forall a :: 0 <= a < |lo| ==> lo[a] + counts[a] <= |order|
    ensures Expanded(order, lo, counts, aIdx, bIdx)
  {
    var total := Total(counts);
    aIdx := Repeat(Range(|lo|), counts);
    var starts := Repeat(lo, counts);
    var bases := Repeat(Bases(counts), counts);
    forall t | 0 <= t < total ensures 0 <= starts[t] + (t - bases[t]) < |order| {
      var a, r := ExpansionAt(lo, counts, t);
    }
    bIdx := seq(total, t requires 0 <= t < total => order[starts[t] + (t - bases[t])]);
  }

  /**
   One sort-merge join: all pairs (a, b) with `cell[b] == Target(cell[a], shift)`, each exactly once, by
   expanding the ranges [lo, hi) of a binary search with repeat, cumulative sums and ranks.
   */
  method Join(cell: seq<int>, order: seq<nat>, sorted: seq<int>, shift: int) returns (aIdx: seq<nat>, bIdx: seq<nat>)
    requires order == ArgSort(cell) && sorted == Gather(cell, order)
    ensures |aIdx| == |bIdx|
    ensures Distinct(Zip(aIdx, bIdx))
    ensures forall a: nat, b: nat :: (a, b) in Zip(aIdx, bIdx) <==>
                                     a < |cell| && b < |cell| && cell[b] == Target(cell[a], shift)
  {
    assert NonDecreasing(sorted) && Distinct(order) by { ArgSortOrders(cell); }
    var lo, counts := SearchRanges(cell, sorted, shift);
    forall a | 0 <= a < |lo| ensures lo[a] + counts[a] <= |order| {
      assert IsRange(sorted, Target(cell[a], shift), lo[a], counts[a]);
    }
    aIdx, bIdx := Expand(order, lo, counts);
    ExpandedDistinct(order, lo, counts, aIdx, bIdx);
    forall a: nat, b: nat
      ensures (a, b) in Zip(aIdx, bIdx) <==> a < |cell| && b < |cell| && cell[b] == Target(cell[a], shift)
    {
      if (a, b) in Zip(aIdx, bIdx) {
        JoinSound(cell, order, shift, lo, counts, aIdx, bIdx, a, b);
      } else if a < |cell| && b < |cell| && cell[b] == Target(cell[a], shift) {
        JoinFinds(cell, order, shift, lo, counts, aIdx, bIdx, a, b);
      }
    }
  }

  // ----- one map -----

  function DropSelf(z: seq<(nat, nat)>): seq<(nat, nat)> {
    if z == [] then [] else (if z[0].0 != z[0].1 then [z[0]] else []) + DropSelf(z[1..])
  }

  lemma {:induction false} DropSelfKeeps(z: seq<(nat, nat)>)
    requires Distinct(z)
    ensures Distinct(DropSelf(z))
    ensures forall p :: p in DropSelf(z) <==> p in z && p.0 != p.1
  {
    if z != [] {
      DropSelfKeeps(z[1..]);
      assert z == [z[0]] + z[1..];
      assert z[0] !in z[1..];
      assert z[0] !in DropSelf(z[1..]);
    }
  }

  ghost function KeyOf(ps: seq<Block>, t: OffsetTable, p: (nat, nat)): int {
    if p.0 < |ps| && p.1 < |ps| then MinedKey(ps[p.0], ps[p.1], t) else -1
  }

  /** The pairs of different placements that are displaced by exactly `d`. */
  ghost predicate PairsAt(ps: seq<Block>, d: Vec, z: seq<(nat, nat)>) {
    && Distinct(z)
    && forall p :: p in z <==> p.0 < |ps| && p.1 < |ps| && p.0 != p.1 && Sub(ps[p.1].pose.at, ps[p.0].pose.at) == d
  }

  function CellKeys(ps: seq<Block>): seq<int> { Map((b: Block) => CellKey(b.pose.at), ps) }

  /** The join on packed cells finds the displaced pairs, because no lookup leaves its bit field. */
  lemma {:induction false} JoinIsDisplacement(ps: seq<Block>, t: OffsetTable, d: Vec, z: seq<(nat, nat)>)
    requires Packable(ps, t) && d in t.offsets && Distinct(z)
    requires forall a: nat, b: nat :: (a, b) in z <==>
                                      a < |ps| && b < |ps| && CellKeys(ps)[b] == Target(CellKeys(ps)[a], ShiftKey(d))
    ensures PairsAt(ps, d, if d == Zero then DropSelf(z) else z)
  {
    DropSelfKeeps(z);
    forall p: (nat, nat) | p.0 < |ps| && p.1 < |ps|
      ensures p in z <==> Sub(ps[p.1].pose.at, ps[p.0].pose.at) == d
    {
      var a, b := ps[p.0].pose.at, ps[p.1].pose.at;
      assert p == (p.0, p.1);
      assert RoomAround(a, t);
      CellKeyShifts(a, d);
      if CellKey(b) == Target(CellKey(a), ShiftKey(d)) {
        CellKeyInjective(b, Add(a, d));
      }
      assert Sub(b, a) == d <==> b == Add(a, d);
    }
    forall p | p in z ensures p.0 < |ps| && p.1 < |ps| {
      assert p == (p.0, p.1);
    }
  }

  /** The key the join computes from the rotation table is the key of the pair. */
  lemma {:induction false} JoinKey(ps: seq<Block>, t: OffsetTable, oi: nat, p: (nat, nat))
    requires ValidTable(t) && oi < |t.offsets|
    requires p.0 < |ps| && p.1 < |ps| && Sub(ps[p.1].pose.at, ps[p.0].pose.at) == t.offsets[oi]
    ensures var a, b := ps[p.0], ps[p.1];
            var key := PairKey(a.kind, b.kind, (b.pose.rot - a.pose.rot) % 4, t.rotMap[a.pose.rot][oi]);
            KeyOf(ps, t, p) == Pack(key, |t.offsets|)
  {
    var a := ps[p.0];
    assert ValidRow(t.offsets, t.rotMap[a.pose.rot], a.pose.rot);
    var at := t.rotMap[a.pose.rot][oi];
    assert t.offsets[at] == OffsetFrom(a.pose, ps[p.1].pose);
    var f := Find(t.offsets, t.offsets[at]);
    assert f == at;
  }

  /** `np.unique(keys, return_counts=True)`. */
  method UniqueCounts(keys: seq<int>) returns (uk: seq<int>, counts: seq<int>)
    ensures |uk| == |counts| && Ascending(uk)
    ensures forall k :: k in uk <==> k in keys
    ensures forall i :: 0 <= i < |uk| ==> counts[i] == multiset(keys)[uk[i]]
  {
    var order := ArgSort(keys);
    ArgSortOrders(keys);
    uk, counts := SumRuns(Gather(keys, order), Gather(Ones(|keys|), order));
    SortedSums(keys, Ones(|keys|));
    forall i | 0 <= i < |uk| ensures counts[i] == multiset(keys)[uk[i]] {
      LookupIsSum(uk, counts, i);
      OnesAreMultiplicity(keys, uk[i]);
    }
  }

  lemma {:induction false} OnesAreMultiplicity(keys: seq<int>, k: int)
    ensures SumFor(Entries(keys, Ones(|keys|)), k) == multiset(keys)[k]
  {
    if keys != [] {
      var n := |keys| - 1;
      OnesAreMultiplicity(keys[..n], k);
      assert keys == keys[..n] + [keys[n]];
      assert Entries(keys, Ones(|keys|))[..n] == Entries(keys[..n], Ones(n));
    }
  }

  /** What one map contributes: strictly ascending keys, each with the number of its neighbour pairs. */
  ghost predicate Mined(ps: seq<Block>, t: OffsetTable, keys: seq<int>, counts: seq<int>) {
    && |keys| == |counts| && Ascending(keys)
    && (forall k :: k in keys <==> PairsWithKey(ps, t, k) != {})
    && (forall i :: 0 <= i < |keys| ==> counts[i] == |PairsWithKey(ps, t, keys[i])|)
  }

  /** All pairs at one offset: join on the packed cells, drop a block's pair with itself. */
  method OffsetPairs(ps: seq<Block>, t: OffsetTable, cell: seq<int>, order: seq<nat>, sorted: seq<int>, oi: nat)
    returns (pairs: seq<(nat, nat)>)
    requires Packable(ps, t) && oi < |t.offsets|
    requires cell == CellKeys(ps) && order == ArgSort(cell) && sorted == Gather(cell, order)
    ensures PairsAt(ps, t.offsets[oi], pairs)
  {
    var d := t.offsets[oi];
    var aIdx, bIdx := Join(cell, order, sorted, ShiftKey(d));
    pairs := Zip(aIdx, bIdx);
    JoinIsDisplacement(ps, t, d, pairs);
    if d == Zero {
      pairs := DropSelf(pairs);
    }
  }

  /** Their keys: the offset is looked up in A's frame, then everything is packed. */
  method OffsetKeys(ps: seq<Block>, t: OffsetTable, oi: nat, pairs: seq<(nat, nat)>) returns (found: seq<int>)
    requires ValidTable(t) && Packable(ps, t) && oi < |t.offsets| && PairsAt(ps, t.offsets[oi], pairs)
    ensures found == Map(p => KeyOf(ps, t, p), pairs)
  {
    found := [];
    for k := 0 to |pairs|
      invariant |found| == k
      invariant forall j :: 0 <= j < k ==> found[j] == KeyOf(ps, t, pairs[j])
    {
      assert pairs[k] in pairs;
      var a, b := ps[pairs[k].0], ps[pairs[k].1];
      assert ValidRow(t.offsets, t.rotMap[a.pose.rot], a.pose.rot);
      JoinKey(ps, t, oi, pairs[k]);
      var key := PairKey(a.kind, b.kind, (b.pose.rot - a.pose.rot) % 4, t.rotMap[a.pose.rot][oi]);
      PackFitsInt64(key, |t.offsets|);
      found := found + [Int64(Pack(key, |t.offsets|))];
    }
  }

  /** The packed sort-merge join counts exactly what the naive scan over all ordered pairs counts. */
  method MapPairs(ps: seq<Block>, t: OffsetTable) returns (keys: seq<int>, counts: seq<int>)
    requires ValidTable(t) && Packable(ps, t)
    ensures Mined(ps, t, keys, counts)
  {
    var cell := CellKeys(ps);
    var order := ArgSort(cell);
    var sorted := Gather(cell, order);
    var allKeys: seq<int> := [];
    ghost var pairs: seq<(nat, nat)> := [];
    for oi := 0 to |t.offsets|
      invariant Collected(ps, t.offsets[..oi], pairs)
      invariant allKeys == Map(p => KeyOf(ps, t, p), pairs)
    {
      var z := OffsetPairs(ps, t, cell, order, sorted, oi);
      var found := OffsetKeys(ps, t, oi, z);
      MapAppend(p => KeyOf(ps, t, p), pairs, z);
      CollectMore(ps, t.offsets, oi, pairs, z);
      allKeys := allKeys + found;
      pairs := pairs + z;
    }
    assert t.offsets[..|t.offsets|] == t.offsets;
    keys, counts := UniqueCounts(allKeys);
    forall k
      ensures k in keys <==> PairsWithKey(ps, t, k) != {}
      ensures multiset(allKeys)[k] == |PairsWithKey(ps, t, k)|
    {
      CollectedKeys(ps, t, pairs, k);
    }
  }

  ghost predicate Collected(ps: seq<Block>, offsets: seq<Vec>, pairs: seq<(nat, nat)>) {
    && Distinct(pairs)
    && forall p :: p in pairs <==>
                   p.0 < |ps| && p.1 < |ps| && p.0 != p.1 && Sub(ps[p.1].pose.at, ps[p.0].pose.at) in offsets
  }

  lemma {:induction false} CollectMore(ps: seq<Block>, offsets: seq<Vec>, oi: nat, pairs: seq<(nat, nat)>,
                                       z: seq<(nat, nat)>)
    requires Distinct(offsets) && oi < |offsets|
    requires Collected(ps, offsets[..oi], pairs) && PairsAt(ps, offsets[oi], z)
    ensures Collected(ps, offsets[..oi + 1], pairs + z)
  {
    assert offsets[..oi + 1] == offsets[..oi] + [offsets[oi]];
    assert offsets[oi] !in offsets[..oi];
    forall p | p in z ensures p !in pairs {}
  }

  lemma {:induction false} CollectedKeys(ps: seq<Block>, t: OffsetTable, pairs: seq<(nat, nat)>, k: int)
    requires ValidTable(t) && Collected(ps, t.offsets, pairs)
    ensures multiset(Map(p => KeyOf(ps, t, p), pairs))[k] == |PairsWithKey(ps, t, k)|
    ensures k in Map(p => KeyOf(ps, t, p), pairs) <==> PairsWithKey(ps, t, k) != {}
  {
    var keyOf := p => KeyOf(ps, t, p);
    MappedMultiplicity(keyOf, pairs, k);
    forall p ensures p in pairs <==> p in NeighbourPairs(ps, t) {
      assert p == (p.0, p.1);
    }
    assert Preimage(keyOf, pairs, k) == PairsWithKey(ps, t, k);
    assert k in Map(keyOf, pairs) <==> multiset(Map(keyOf, pairs))[k] > 0;
  }

  // ----- the corpus -----

  ghost function CorpusPairs(maps: seq<seq<Block>>, t: OffsetTable, k: int): nat {
    if maps == [] then 0 else CorpusPairs(maps[..|maps| - 1], t, k) + |PairsWithKey(maps[|maps| - 1], t, k)|
  }

  /** In how many maps the key occurs at all. */
  ghost function CorpusMaps(maps: seq<seq<Block>>, t: OffsetTable, k: int): nat {
    if maps == [] then 0
    else CorpusMaps(maps[..|maps| - 1], t, k) + if PairsWithKey(maps[|maps| - 1], t, k) != {} then 1 else 0
  }

  /** The batches a counter received stand for the maps scanned so far. */
  ghost predicate Represents(log: seq<Batch>, maps: seq<seq<Block>>, t: OffsetTable) {
    && WellShaped(log)
    && (forall b :: b in log ==> Distinct(b.keys))
    && (forall k :: KeyAgrees(log, maps, t, k))
  }

  ghost predicate KeyAgrees(log: seq<Batch>, maps: seq<seq<Block>>, t: OffsetTable, k: int)
    requires WellShaped(log)
  {
    && SumFor(AllPairs(log), k) == CorpusPairs(maps, t, k)
    && CallsWith(log, k) == CorpusMaps(maps, t, k)
    && (Mentions(log, k) <==> CorpusMaps(maps, t, k) > 0)
  }

  lemma {:induction false} RepresentsMore(log: seq<Batch>, maps: seq<seq<Block>>, t: OffsetTable, ps: seq<Block>,
                                          keys: seq<int>, counts: seq<int>)
    requires Represents(log, maps, t) && Mined(ps, t, keys, counts)
    ensures Represents(log + if keys == [] then [] else [Batch(keys, counts)], maps + [ps], t)
  {
    var log' := log + if keys == [] then [] else [Batch(keys, counts)];
    assert WellShaped(log') && forall b :: b in log' ==> Distinct(b.keys);
    forall k ensures KeyAgrees(log', maps + [ps], t, k) {
      assert KeyAgrees(log, maps, t, k);
      if keys == [] {
        assert log' == log;
        NothingMined(log, maps, t, ps, k);
      } else {
        BatchMined(log, maps, t, ps, keys, counts, k);
      }
    }
  }

  lemma {:induction false} CorpusMore(maps: seq<seq<Block>>, t: OffsetTable, ps: seq<Block>, k: int)
    ensures CorpusPairs(maps + [ps], t, k) == CorpusPairs(maps, t, k) + |PairsWithKey(ps, t, k)|
    ensures CorpusMaps(maps + [ps], t, k) == CorpusMaps(maps, t, k) + if PairsWithKey(ps, t, k) != {} then 1 else 0
  {
    assert (maps + [ps])[..|maps|] == maps;
  }

  lemma {:induction false} NothingMined(log: seq<Batch>, maps: seq<seq<Block>>, t: OffsetTable, ps: seq<Block>, k: int)
    requires WellShaped(log) && KeyAgrees(log, maps, t, k) && PairsWithKey(ps, t, k) == {}
    ensures KeyAgrees(log, maps + [ps], t, k)
  {
    CorpusMore(maps, t, ps, k);
  }

  lemma {:induction false} BatchMined(log: seq<Batch>, maps: seq<seq<Block>>, t: OffsetTable, ps: seq<Block>,
                                      keys: seq<int>, counts: seq<int>, k: int)
    requires WellShaped(log) && KeyAgrees(log, maps, t, k) && Mined(ps, t, keys, counts)
    ensures WellShaped(log + [Batch(keys, counts)]) && KeyAgrees(log + [Batch(keys, counts)], maps + [ps], t, k)
  {
    var b := Batch(keys, counts);
    CorpusMore(maps, t, ps, k);
    assert (log + [b])[..|log|] == log;
    SumForAppend(AllPairs(log), Entries(keys, counts), k);
    MinedSum(ps, t, keys, counts, k);
    MentionsMore(log, b, k);
    assert k in keys <==> PairsWithKey(ps, t, k) != {};
  }

  lemma {:induction false} MinedSum(ps: seq<Block>, t: OffsetTable, keys: seq<int>, counts: seq<int>, k: int)
    requires Mined(ps, t, keys, counts)
    ensures SumFor(Entries(keys, counts), k) == |PairsWithKey(ps, t, k)|
  {
    if k in keys {
      var i :| 0 <= i < |keys| && keys[i] == k;
      LookupIsSum(keys, counts, i);
    } else {
      NoKeyNoSum(Entries(keys, counts), k);
    }
  }

  /**
   The whole scan. Whatever the compaction threshold is, the result holds exactly the keys that
   occur, ascending, each with its number of pairs over the corpus and its number of maps.
   */
  method MineCorpus(maps: seq<seq<Block>>, t: OffsetTable, compactEvery: nat)
    returns (keys: seq<int>, pairCounts: seq<int>, mapCounts: seq<int>)
    requires ValidTable(t)
    requires forall m :: m in maps ==> Packable(m, t)
    ensures |keys| == |pairCounts| == |mapCounts| && Ascending(keys)
    ensures forall k :: k in keys <==> CorpusMaps(maps, t, k) > 0
    ensures forall i :: 0 <= i < |keys| ==> pairCounts[i] == CorpusPairs(maps, t, keys[i])
                                            && mapCounts[i] == CorpusMaps(maps, t, keys[i])
  {
    var counter := new Counter(compactEvery);
    for m := 0 to |maps|
      invariant fresh(counter) && counter.Valid()
      invariant Represents(counter.folded + counter.pending, maps[..m], t)
    {
      ghost var log := counter.folded + counter.pending;
      var k, c := MapPairs(maps[m], t);
      RepresentsMore(log, maps[..m], t, maps[m], k, c);
      assert maps[..m + 1] == maps[..m] + [maps[m]];
      counter.Add(k, c);
    }
    assert maps[..|maps|] == maps;
    counter.Compact();
    keys, pairCounts, mapCounts := counter.keys, counter.pairs, counter.maps;
    assert counter.folded + counter.pending == counter.folded;
    CorpusTotals(counter.folded, maps, t, keys, pairCounts, mapCounts);
  }

  lemma {:induction false} CorpusTotals(log: seq<Batch>, maps: seq<seq<Block>>, t: OffsetTable,
                                        keys: seq<int>, pairCounts: seq<int>, mapCounts: seq<int>)
    requires Totals(log, keys, pairCounts, mapCounts) && Represents(log, maps, t)
    ensures forall k :: k in keys <==> CorpusMaps(maps, t, k) > 0
    ensures forall i :: 0 <= i < |keys| ==> pairCounts[i] == CorpusPairs(maps, t, keys[i])
                                            && mapCounts[i] == CorpusMaps(maps, t, keys[i])
  {
    forall k ensures k in keys <==> CorpusMaps(maps, t, k) > 0 {
      assert KeyAgrees(log, maps, t, k);
    }
    forall i | 0 <= i < |keys|
      ensures pairCounts[i] == CorpusPairs(maps, t, keys[i]) && mapCounts[i] == CorpusMaps(maps, t, keys[i])
    {
      assert KeyAgrees(log, maps, t, keys[i]);
      MapsCountCalls(log, keys[i]);
    }
  }

  // ----- how large the totals can get -----

  /** No key occurs in more maps than there are, so 32-bit map totals do not wrap below 2^31 maps. */
  lemma {:induction false} MapTotalsBounded(maps: seq<seq<Block>>, t: OffsetTable, k: int)
    ensures CorpusMaps(maps, t, k) <= |maps|
  {
    if maps != [] {
      MapTotalsBounded(maps[..|maps| - 1], t, k);
    }
  }

  function Squares(maps: seq<seq<Block>>): nat {
    if maps == [] then 0 else Squares(maps[..|maps| - 1]) + |maps[|maps| - 1]| * |maps[|maps| - 1]|
  }

  ghost function Grid(n: nat, m: nat): set<(nat, nat)> { set i: nat, j: nat | i < n && j < m :: (i, j) }

  lemma {:induction false} GridSize(n: nat, m: nat)
    ensures |Grid(n, m)| == n * m
  {
    if n == 0 {
      assert Grid(n, m) == {};
    } else {
      GridSize(n - 1, m);
      RowSize(n - 1, m);
      assert Grid(n, m) == Grid(n - 1, m) + GridRow(n - 1, m) && Grid(n - 1, m) !! GridRow(n - 1, m);
      assert (n - 1) * m + m == n * m;
    }
  }

  ghost function GridRow(i: nat, m: nat): set<(nat, nat)> { set j: nat | j < m :: (i, j) }

  lemma {:induction false} RowSize(i: nat, m: nat)
    ensures |GridRow(i, m)| == m
  {
    if m == 0 {
      assert GridRow(i, m) == {};
    } else {
      RowSize(i, m - 1);
      assert GridRow(i, m) == GridRow(i, m - 1) + {(i, m - 1)};
    }
  }

  /**
   No key has more pairs than there are ordered pairs of blocks, so 64-bit totals do not wrap while those stay
   below 2^63.
   */
  lemma {:induction false} PairTotalsBounded(maps: seq<seq<Block>>, t: OffsetTable, k: int)
    ensures CorpusPairs(maps, t, k) <= Squares(maps)
  {
    if maps != [] {
      var ps := maps[|maps| - 1];
      PairTotalsBounded(maps[..|maps| - 1], t, k);
      GridSize(|ps|, |ps|);
      SubsetCardinality(PairsWithKey(ps, t, k), Grid(|ps|, |ps|));
    }
  }

  // ----- replay and symmetry -----

  /** The move that a mined key is read back as. */
  function DecodedMove(key: nat, t: OffsetTable, mapCount: int, pairCount: int, clipMatched: bool): Move<nat>
    requires t.offsets != []
  {
    var k := Unpack(key, |t.offsets|);
    Grammar.Move(k.b, t.offsets[k.offset], k.rel, mapCount, pairCount, clipMatched)
  }

  /** Unpacking the key mined from a pair gives its two kinds, and a move that rebuilds B's placement from A's. */
  lemma {:induction false} MinedMoveReplays(a: Block, b: Block, t: OffsetTable, mapCount: int, pairCount: int,
                                            clip: bool)
    requires ValidTable(t) && Neighbours(a, b, t) && b.kind < MAX_TYPES
    ensures t.offsets != []
    ensures Unpack(MinedKey(a, b, t), |t.offsets|).a == a.kind
    ensures var move := DecodedMove(MinedKey(a, b, t), t, mapCount, pairCount, clip);
            move.block == b.kind && move.Apply(a.pose) == b.pose
  {
    var o := OffsetFrom(a.pose, b.pose);
    assert o in t.offsets by { NeighbourhoodTurns(Sub(b.pose.at, a.pose.at), t.rxz, t.ry, (4 - a.pose.rot) % 4); }
    UnpackInvertsPack(PairKey(a.kind, b.kind, TurnFrom(a.pose, b.pose), Find(t.offsets, o)), |t.offsets|);
    Replays(a.pose, b.pose);
  }

  /** The observations (A, B, offset, relative rotation) of one map. */
  ghost function Observations(ps: seq<Block>, t: OffsetTable, a: nat, b: nat, o: Vec, r: int): set<(nat, nat)> {
    set p | p in NeighbourPairs(ps, t)
            && ps[p.0].kind == a && ps[p.1].kind == b
            && OffsetFrom(ps[p.0].pose, ps[p.1].pose) == o && TurnFrom(ps[p.0].pose, ps[p.1].pose) == r
  }

  /** A packed key stands for one (A, B, offset, relative rotation): its pairs are those observations. */
  lemma {:induction false} KeyMeansObservation(ps: seq<Block>, t: OffsetTable, a: nat, b: nat, i: nat, r: Quarter)
    requires ValidTable(t) && i < |t.offsets| && b < MAX_TYPES
    requires forall p :: p in ps ==> p.kind < MAX_TYPES
    ensures PairsWithKey(ps, t, Pack(PairKey(a, b, r, i), |t.offsets|)) == Observations(ps, t, a, b, t.offsets[i], r)
  {
    var n := |t.offsets|;
    forall p | p in NeighbourPairs(ps, t)
      ensures MinedKey(ps[p.0], ps[p.1], t) == Pack(PairKey(a, b, r, i), n) <==>
              ps[p.0].kind == a && ps[p.1].kind == b && OffsetFrom(ps[p.0].pose, ps[p.1].pose) == t.offsets[i]
              && TurnFrom(ps[p.0].pose, ps[p.1].pose) == r
    {
      var x, y := ps[p.0], ps[p.1];
      assert y in ps;
      var o := OffsetFrom(x.pose, y.pose);
      NeighbourhoodTurns(Sub(y.pose.at, x.pose.at), t.rxz, t.ry, (4 - x.pose.rot) % 4);
      assert o in t.offsets;
      UnpackInvertsPack(PairKey(x.kind, y.kind, TurnFrom(x.pose, y.pose), Find(t.offsets, o)), n);
      UnpackInvertsPack(PairKey(a, b, r, i), n);
      assert Find(t.offsets, o) == i <==> o == t.offsets[i];
    }
  }

  /** Every observation has its mirror: seen from B, A sits at the reversed offset and rotation. */
  lemma {:induction false} MiningSymmetric(ps: seq<Block>, t: OffsetTable, a: nat, b: nat, o: Vec, r: Quarter)
    ensures |Observations(ps, t, a, b, o, r)|
         == |Observations(ps, t, b, a, RotateVector(Neg(o), 0 - r), (0 - r) % 4)|
  {
    var s := Observations(ps, t, a, b, o, r);
    var u := Observations(ps, t, b, a, RotateVector(Neg(o), 0 - r), (0 - r) % 4);
    var swap := (p: (nat, nat)) => (p.1, p.0);
    forall p | p in s ensures swap(p) in u {
      SwappedObservation(ps, t, a, b, o, r, p);
    }
    forall q | q in u ensures exists p :: p in s && swap(p) == q {
      SwappedObservation(ps, t, b, a, RotateVector(Neg(o), 0 - r), (0 - r) % 4, q);
      DoubleReverse(o, r);
      assert swap(q) in s && swap(swap(q)) == q;
    }
    ImageCardinality(swap, s, u);
  }

  lemma {:induction false} SwappedObservation(ps: seq<Block>, t: OffsetTable, a: nat, b: nat, o: Vec, r: Quarter,
                                              p: (nat, nat))
    requires p in Observations(ps, t, a, b, o, r)
    ensures (p.1, p.0) in Observations(ps, t, b, a, RotateVector(Neg(o), 0 - r), (0 - r) % 4)
  {
    SeenFromOther(ps[p.0].pose, ps[p.1].pose);
    assert (p.1, p.0) in NeighbourPairs(ps, t);
  }

  /** The scene moved by a quarter-turn and a translation. */
  function MoveScene(ps: seq<Block>, d: int, shift: Vec): seq<Block> {
    Map((b: Block) => Block(b.kind, MovePose(b.pose, d, shift)), ps)
  }

  /** A pattern learned at one heading and place is the same observation at every other. */
  lemma {:induction false} MiningHeadingInvariant(ps: seq<Block>, t: OffsetTable, d: int, shift: Vec,
                                                  a: nat, b: nat, o: Vec, r: int)
    ensures Observations(MoveScene(ps, d, shift), t, a, b, o, r) == Observations(ps, t, a, b, o, r)
  {
    var qs := MoveScene(ps, d, shift);
    forall i: nat, j: nat | i < |ps| && j < |ps|
      ensures Neighbours(qs[i], qs[j], t) <==> Neighbours(ps[i], ps[j], t)
      ensures OffsetFrom(qs[i].pose, qs[j].pose) == OffsetFrom(ps[i].pose, ps[j].pose)
      ensures TurnFrom(qs[i].pose, qs[j].pose) == TurnFrom(ps[i].pose, ps[j].pose)
    {
      MovedTogether(ps[i].pose, ps[j].pose, d, shift);
      NeighbourhoodTurns(Sub(ps[j].pose.at, ps[i].pose.at), t.rxz, t.ry, d);
    }
    forall p: (nat, nat) ensures p in NeighbourPairs(qs, t) <==> p in NeighbourPairs(ps, t) {
      assert p == (p.0, p.1);
    }
  }
}
