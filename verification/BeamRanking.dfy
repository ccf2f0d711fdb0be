/**
 Which candidates and beams the search keeps: the best children of a beam, the best beams of a layer,
 the winner of an interval, and what a beam records of the blocks it placed.
 */
module BeamRanking {
  import opened Rotation
  import opened Collections
  import opened Layers
  import opened BeamSearch

  // ----- the children of a beam -----

  /** What the scorer says of an entry at the next cell of a beam. */
  function Worth(t: Task, b: Beam, e: Entry): real { t.score(b, e, t.occupied + b.intervalCells) }

  /** The beam continued with that entry, at that score. */
  function Successor(t: Task, b: Beam, e: Entry): Beam { ChildAt(b, t.dst, e, Worth(t, b, e)) }

  predicate NextFree(t: Task, b: Beam) {
    Step(b.current, t.dst) !in t.occupied && Step(b.current, t.dst) !in b.intervalCells
  }

  function AtWorth(t: Task, b: Beam, w: real): Entry -> bool { e => Worth(t, b, e) == w }

  function Prefers(t: Task, b: Beam): (Entry, Entry) -> bool { (e, f) => Worth(t, b, e) >= Worth(t, b, f) }

  lemma {:induction false} PrefersOrder(t: Task, b: Beam)
    ensures TotalPreorder(Prefers(t, b))
  {}

  lemma {:induction false} ByTotalOrder()
    ensures TotalPreorder(ByTotal)
  {}

  /** The catalogue from the best entry to the worst. */
  function Preferred(t: Task, b: Beam): seq<Entry> { Sort(Prefers(t, b), t.catalogue) }

  /**
   The children of a beam are the successors of the first `topN` entries of the catalogue in falling
   order of worth; the order is a rearrangement of the catalogue and leaves entries of equal worth as they were.
   */
  lemma {:induction false} ChildrenAre(t: Task, b: Beam)
    ensures Expander(t)(b) ==
            if NextFree(t, b) then Map(e => Successor(t, b, e), TakeAtMost(Preferred(t, b), t.topN)) else []
    ensures multiset(Preferred(t, b)) == multiset(t.catalogue)
    ensures forall i, j :: 0 <= i < j < |Preferred(t, b)| ==>
                             Worth(t, b, Preferred(t, b)[i]) >= Worth(t, b, Preferred(t, b)[j])
    ensures forall w :: Filter(AtWorth(t, b, w), Preferred(t, b)) == Filter(AtWorth(t, b, w), t.catalogue)
  {
    PrefersOrder(t, b);
    SortPermutes(Prefers(t, b), t.catalogue);
    SortSorts(Prefers(t, b), t.catalogue);
    forall w ensures Filter(AtWorth(t, b, w), Preferred(t, b)) == Filter(AtWorth(t, b, w), t.catalogue) {
      TiesKeepOrder(t, b, w);
    }
    if NextFree(t, b) {
      ExpansionSorted(t, b);
    }
  }

  lemma {:induction false} TiesKeepOrder(t: Task, b: Beam, w: real)
    ensures Filter(AtWorth(t, b, w), Preferred(t, b)) == Filter(AtWorth(t, b, w), t.catalogue)
  {
    var p := AtWorth(t, b, w);
    PrefersOrder(t, b);
    SortPermutes(Prefers(t, b), t.catalogue);
    if y :| y in t.catalogue && p(y) {
      SortStable(Prefers(t, b), t.catalogue, y);
      FilterSame(p, Ties(Prefers(t, b), y), t.catalogue);
      FilterSame(p, Ties(Prefers(t, b), y), Preferred(t, b));
    } else {
      FilterUniform(p, t.catalogue, false);
      FilterUniform(p, Preferred(t, b), false);
    }
  }

  lemma {:induction false} ExpansionSorted(t: Task, b: Beam)
    requires NextFree(t, b)
    ensures Expander(t)(b) == Map(e => Successor(t, b, e), TakeAtMost(Preferred(t, b), t.topN))
  {
    var scored := (e: Entry) => (t.score(b, e, t.occupied + b.intervalCells), e);
    SortMap(Prefers(t, b), ByScore, scored, t.catalogue);
    assert TakeAtMost(Sort(ByScore, Map(scored, t.catalogue)), t.topN)
        == Map(scored, TakeAtMost(Preferred(t, b), t.topN));
  }

  /** As many children as the catalogue and the limit allow. */
  lemma {:induction false} ChildCount(t: Task, b: Beam)
    ensures |Expander(t)(b)| == if !NextFree(t, b) then 0 else if t.topN < |t.catalogue| then t.topN else |t.catalogue|
  {
    ChildrenAre(t, b);
    SameMembers(Preferred(t, b), t.catalogue);
  }

  /** A child carries on its parent with some catalogue entry, at the score the scorer gave that entry. */
  lemma {:induction false} ChildCarriesWorth(t: Task, b: Beam, c: Beam) returns (e: Entry)
    requires c in Expander(t)(b)
    ensures e in t.catalogue && c == Successor(t, b, e) && NextFree(t, b)
  {
    ChildrenAre(t, b);
    SameMembers(Preferred(t, b), t.catalogue);
    var kept := TakeAtMost(Preferred(t, b), t.topN);
    var i :| 0 <= i < |kept| && Expander(t)(b)[i] == c;
    e := kept[i];
    assert e in Preferred(t, b);
  }

  /** An entry whose child is not among the children scores no more than any child kept. */
  lemma {:induction false} LeftOutScoresLess(t: Task, b: Beam, e: Entry, c: Beam)
    requires e in t.catalogue && c in Expander(t)(b) && Successor(t, b, e) !in Expander(t)(b)
    ensures c.scoreSum - b.scoreSum >= Worth(t, b, e)
    ensures |c.blocks| == |b.blocks| + 1 && c.blocks[|b.blocks|].score >= Worth(t, b, e)
  {
    ChildrenAre(t, b);
    var kept := TakeAtMost(Preferred(t, b), t.topN);
    var i :| 0 <= i < |kept| && Expander(t)(b)[i] == c;
    forall j | 0 <= j < |kept| ensures kept[j] != e {
      assert Expander(t)(b)[j] == Successor(t, b, kept[j]);
    }
    KeptIsPreferred(t, b, e, kept[i]);
  }

  lemma {:induction false} KeptIsPreferred(t: Task, b: Beam, e: Entry, f: Entry)
    requires e in t.catalogue && e !in TakeAtMost(Preferred(t, b), t.topN) && f in TakeAtMost(Preferred(t, b), t.topN)
    ensures Worth(t, b, f) >= Worth(t, b, e)
  {
    PrefersOrder(t, b);
    BestKept(Prefers(t, b), t.catalogue, t.topN);
    assert Prefers(t, b)(f, e);
  }

  // ----- the beams of a layer -----

  function Kids(t: Task, k: nat): seq<Beam> { FlatMap(Expander(t), Beams(t, k)) }

  ghost predicate Falling(s: seq<Beam>) { forall i, j :: 0 <= i < j < |s| ==> s[i].scoreSum >= s[j].scoreSum }

  /** None of the kept beams has a lower total than one that was left out. */
  ghost predicate KeepsHighest(kept: seq<Beam>, all: seq<Beam>) {
    && (forall y :: y in kept ==> y in all)
    && (forall x, y :: x in all && x !in kept && y in kept ==> y.scoreSum >= x.scoreSum)
  }

  lemma {:induction false} PruneKeepsHighest(s: seq<Beam>, width: nat)
    ensures |Prune(ByTotal, width, s)| == if width < |s| then width else |s|
    ensures Falling(Prune(ByTotal, width, s)) && KeepsHighest(Prune(ByTotal, width, s), s)
  {
    ByTotalOrder();
    BestKept(ByTotal, s, width);
    var kept := Prune(ByTotal, width, s);
    forall i, j | 0 <= i < j < |kept| ensures kept[i].scoreSum >= kept[j].scoreSum {
      assert ByTotal(kept[i], kept[j]);
    }
    forall x, y | x in s && x !in kept && y in kept ensures y.scoreSum >= x.scoreSum {
      assert ByTotal(y, x);
    }
  }

  /** The next layer holds as many children as the width allows, best total first, none below one left out. */
  lemma {:induction false} LayerKeepsBest(t: Task, k: nat)
    ensures |Beams(t, k + 1)| == if t.width < |Kids(t, k)| then t.width else |Kids(t, k)|
    ensures Falling(Beams(t, k + 1)) && KeepsHighest(Beams(t, k + 1), Kids(t, k))
  {
    PruneKeepsHighest(Kids(t, k), t.width);
  }

  /** Every beam of a layer carries on a beam of the layer before with a catalogue entry at its worth. */
  lemma {:induction false} Lineage(t: Task, k: nat, c: Beam) returns (b: Beam, e: Entry)
    requires c in Beams(t, k + 1)
    ensures b in Beams(t, k) && e in t.catalogue && c == Successor(t, b, e) && NextFree(t, b)
  {
    LayerKeepsBest(t, k);
    FlatMapMember(Expander(t), Beams(t, k), c);
    b :| b in Beams(t, k) && c in Expander(t)(b);
    e := ChildCarriesWorth(t, b, c);
  }

  lemma {:induction false} LayerDescends(t: Task, k: nat, i: nat)
    requires i < |Beams(t, k)|
    ensures Beams(t, k)[0].scoreSum >= Beams(t, k)[i].scoreSum
  {
    if k > 0 {
      LayerKeepsBest(t, k - 1);
    }
  }

  lemma {:induction false} MeanOrder(a: Beam, b: Beam)
    requires |a.blocks| == |b.blocks|
    ensures Mean(a) > Mean(b) <==> a.scoreSum > b.scoreSum
    ensures Better(a, b) <==> a.scoreSum > b.scoreSum
  {
    var d := (if |a.blocks| < 1 then 1 else |a.blocks|) as real;
    assert Mean(a) * d == a.scoreSum && Mean(b) * d == b.scoreSum && d > 0.0;
  }

  /** The beams of a layer are equally long, so the best mean is the best total, which is the first beam's. */
  lemma {:induction false} WinnerIsFirst(t: Task, k: nat, best: Beam)
    requires FirstBest(Beams(t, k), best)
    ensures Beams(t, k) != [] && best == Beams(t, k)[0]
    ensures forall c :: c in Beams(t, k) ==> best.scoreSum >= c.scoreSum && Mean(best) >= Mean(c)
  {
    var layer := Beams(t, k);
    var i: nat :| FirstMaxAt(Better, layer, i) && layer[i] == best;
    SameLength(t, k, layer[i], layer[0]);
    MeanOrder(layer[i], layer[0]);
    LayerDescends(t, k, i);
    assert !Better(layer[i], layer[0]);
    forall c | c in layer ensures best.scoreSum >= c.scoreSum && Mean(best) >= Mean(c) {
      var j :| 0 <= j < |layer| && layer[j] == c;
      LayerDescends(t, k, j);
      SameLength(t, k, c, best);
      MeanOrder(c, best);
    }
  }

  lemma {:induction false} SameLength(t: Task, k: nat, a: Beam, b: Beam)
    requires a in Beams(t, k) && b in Beams(t, k)
    ensures |a.blocks| == |b.blocks| == k
  {
    BeamsOnPath(t, k);
    assert Good(t, a, k) && Good(t, b, k);
  }

  /** What an interval shows is the first beam of the layer it ends in, whole or partial. */
  lemma {:induction false} OutcomeIsTopBeam(t: Task, maxDepth: int, r: Interval, won: Beam, k: nat)
    requires Searched(t, maxDepth, r, won, k) && t.width >= 1
    ensures var layer := Beams(t, if r.reject.None? then Needed(t.src, t.dst) else k);
            layer != [] && won == layer[0] && r.blocks == won.blocks && r.scoreSum == won.scoreSum
            && forall c :: c in layer ==> r.scoreSum >= c.scoreSum
  {
    WinnerIsFirst(t, if r.reject.None? then Needed(t.src, t.dst) else k, won);
  }

  // ----- width one is the greedy walk -----

  /** The best entry, and the first of the catalogue among those. */
  ghost predicate FirstPick(t: Task, b: Beam, e: Entry) { exists i: nat :: FirstPickAt(t, b, e, i) }

  ghost predicate FirstPickAt(t: Task, b: Beam, e: Entry, i: nat) {
    && i < |t.catalogue| && t.catalogue[i] == e
    && (forall f :: f in t.catalogue ==> Worth(t, b, f) <= Worth(t, b, e))
    && (forall f :: f in t.catalogue[..i] ==> Worth(t, b, f) < Worth(t, b, e))
  }

  lemma {:induction false} FirstOfTies(s: seq<Entry>, p: Entry -> bool, e: Entry) returns (i: nat)
    requires Filter(p, s) != [] && Filter(p, s)[0] == e
    ensures i < |s| && s[i] == e && p(e) && forall f :: f in s[..i] ==> !p(f)
  {
    var n := |s| - 1;
    if Filter(p, s[..n]) == [] {
      i := n;
      forall f | f in s[..n] ensures !p(f) {
        assert f !in Filter(p, s[..n]);
      }
    } else {
      i := FirstOfTies(s[..n], p, e);
      assert s[..n][..i] == s[..i];
    }
  }

  lemma {:induction false} PreferredHead(t: Task, b: Beam)
    requires t.catalogue != []
    ensures Preferred(t, b) != [] && FirstPick(t, b, Preferred(t, b)[0])
  {
    PrefersOrder(t, b);
    SortPermutes(Prefers(t, b), t.catalogue);
    var e := Preferred(t, b)[0];
    forall f | f in t.catalogue ensures Worth(t, b, f) <= Worth(t, b, e) {
      HeadIsBest(t, b, f);
    }
    var p := AtWorth(t, b, Worth(t, b, e));
    TiesKeepOrder(t, b, Worth(t, b, e));
    FilterHead(p, Preferred(t, b));
    var i := FirstOfTies(t.catalogue, p, e);
    forall f | f in t.catalogue[..i] ensures Worth(t, b, f) < Worth(t, b, e) {
      assert f in t.catalogue && !p(f);
    }
    assert FirstPickAt(t, b, e, i);
  }

  lemma {:induction false} HeadIsBest(t: Task, b: Beam, f: Entry)
    requires f in t.catalogue
    ensures Preferred(t, b) != [] && Worth(t, b, f) <= Worth(t, b, Preferred(t, b)[0])
  {
    PrefersOrder(t, b);
    SortPermutes(Prefers(t, b), t.catalogue);
    SortSorts(Prefers(t, b), t.catalogue);
    var j :| 0 <= j < |Preferred(t, b)| && Preferred(t, b)[j] == f;
    assert j == 0 || Prefers(t, b)(Preferred(t, b)[0], Preferred(t, b)[j]);
  }

  lemma {:induction false} FilterHead(p: Entry -> bool, s: seq<Entry>)
    requires s != [] && p(s[0])
    ensures Filter(p, s) != [] && Filter(p, s)[0] == s[0]
  {
    assert s == [s[0]] + s[1..];
    FilterCons(p, s[0], s[1..]);
  }

  /** A layer of width one after `b`: its successor by the first best entry, if the next cell is free. */
  lemma {:induction false} OneBeamOn(t: Task, b: Beam)
    requires t.topN >= 1
    ensures NextFree(t, b) && t.catalogue != [] ==>
              Preferred(t, b) != [] && Prune(ByTotal, 1, Expander(t)(b)) == [Successor(t, b, Preferred(t, b)[0])]
    ensures !(NextFree(t, b) && t.catalogue != []) ==> Prune(ByTotal, 1, Expander(t)(b)) == []
  {
    ChildrenAre(t, b);
    SameMembers(Preferred(t, b), t.catalogue);
    var kids := Expander(t)(b);
    forall i, j | 0 <= i < j < |kids| ensures ByTotal(kids[i], kids[j]) {
      assert Worth(t, b, Preferred(t, b)[i]) >= Worth(t, b, Preferred(t, b)[j]);
    }
    SortedIsFixed(ByTotal, kids);
  }

  /**
   Beam width one is the greedy walk: one beam at a time, carried on by the first best entry of the
   catalogue, however many children are looked at.
   */
  lemma {:induction false} WidthOneIsGreedy(t: Task, k: nat)
    requires t.width == 1 && t.topN >= 1
    ensures |Beams(t, k)| <= 1
    ensures Beams(t, k + 1) != [] <==> Beams(t, k) != [] && NextFree(t, Beams(t, k)[0]) && t.catalogue != []
    ensures Beams(t, k + 1) != [] ==>
              exists e :: FirstPick(t, Beams(t, k)[0], e) && Beams(t, k + 1) == [Successor(t, Beams(t, k)[0], e)]
  {
    LayerFits(Expander(t), ByTotal, 1, Initial(t), k);
    if Beams(t, k) == [] {
      assert Kids(t, k) == [];
      PruneNothing(ByTotal, t.width);
    } else {
      var b := Beams(t, k)[0];
      assert Beams(t, k) == [b];
      FlatMapSingle(Expander(t), b);
      OneBeamOn(t, b);
      if t.catalogue != [] {
        PreferredHead(t, b);
      }
    }
  }

  lemma {:induction false} WidthOneIgnoresTopN(t: Task, topN: nat, k: nat)
    requires t.width == 1 && t.topN >= 1 && topN >= 1
    ensures Beams(t, k) == Beams(t.(topN := topN), k)
  {
    var u := t.(topN := topN);
    forall layer: seq<Beam> ensures PrunedAlike(Expander(t), Expander(u), ByTotal, 1, layer) {
      SamePrune(t, u, layer);
    }
    LayersAgree(Expander(t), Expander(u), ByTotal, 1, Initial(t), k);
  }

  lemma {:induction false} SamePrune(t: Task, u: Task, layer: seq<Beam>)
    requires t.topN >= 1 && u.topN >= 1 && u == t.(topN := u.topN)
    ensures PrunedAlike(Expander(t), Expander(u), ByTotal, 1, layer)
  {
    if |layer| == 1 {
      var b := layer[0];
      assert layer == [b];
      FlatMapSingle(Expander(t), b);
      FlatMapSingle(Expander(u), b);
      OneBeamOn(t, b);
      OneBeamOn(u, b);
      SamePreferred(t, u, b);
    }
  }

  lemma {:induction false} SamePreferred(t: Task, u: Task, b: Beam)
    requires u == t.(topN := u.topN)
    ensures Preferred(t, b) == Preferred(u, b)
  {
    var id := (e: Entry) => e;
    assert Map(id, t.catalogue) == t.catalogue;
    SortMap(Prefers(t, b), Prefers(u, b), id, t.catalogue);
    assert Map(id, Preferred(t, b)) == Preferred(t, b);
  }

  // ----- what a beam records -----

  function Total(blocks: seq<Block>): real {
    if blocks == [] then 0.0 else Total(blocks[..|blocks| - 1]) + blocks[|blocks| - 1].score
  }

  function NameOf(b: Block): (string, string) { (b.family, b.name) }

  /** The block `back` places before the end, counting the source anchor's block as the one before the first. */
  function Earlier(t: Task, blocks: seq<Block>, back: nat): Option<(string, string)> {
    if back < |blocks| then Some(NameOf(blocks[|blocks| - 1 - back]))
    else if back == |blocks| then t.srcBlock
    else None
  }

  /** Block `i` was entry `e`, put one step along the rotation toward the destination. */
  ghost predicate PlacedAs(t: Task, b: Beam, entries: seq<Entry>, i: nat) {
    && i < |b.blocks| && |entries| == |b.blocks| && |b.pathCells| == |b.blocks| + 1
    && entries[i] in t.catalogue && NameOf(b.blocks[i]) == (entries[i].family, entries[i].name)
    && b.blocks[i].rotation == DirectionToward(b.pathCells[i], t.dst)
    && b.blocks[i].at == b.pathCells[i + 1] == Advance(b.pathCells[i], b.blocks[i].rotation)
  }

  ghost predicate Covers(b: Beam, entries: seq<Entry>, i: nat, cell: Vec) {
    && i < |b.blocks| && |entries| == |b.blocks|
    && cell in FootprintCells(b.blocks[i].at, b.blocks[i].rotation, entries[i].footprintX)
  }

  /**
   A beam's books: its total is the sum of its blocks' scores, the two blocks remembered are the last two,
   and the cells taken are the footprints of its blocks and nothing else.
   */
  ghost predicate Recorded(t: Task, b: Beam, entries: seq<Entry>) {
    && |entries| == |b.blocks| && |b.pathCells| == |b.blocks| + 1
    && b.pathCells[0] == t.src && b.current == b.pathCells[|b.blocks|]
    && b.scoreSum == Total(b.blocks)
    && b.prev == Earlier(t, b.blocks, 0) && b.prevPrev == Earlier(t, b.blocks, 1)
    && (forall i: nat :: i < |b.blocks| ==> PlacedAs(t, b, entries, i))
    && (forall cell :: cell in b.intervalCells <==> exists i: nat :: Covers(b, entries, i, cell))
  }

  lemma {:induction false} SuccessorCovers(t: Task, b: Beam, entries: seq<Entry>, e: Entry, cell: Vec)
    requires |entries| == |b.blocks|
    requires cell in b.intervalCells <==> exists i: nat :: Covers(b, entries, i, cell)
    ensures cell in Successor(t, b, e).intervalCells <==>
            exists i: nat :: Covers(Successor(t, b, e), entries + [e], i, cell)
  {
    var c, more, n := Successor(t, b, e), entries + [e], |b.blocks|;
    forall i: nat | i < n ensures Covers(c, more, i, cell) <==> Covers(b, entries, i, cell) {
      assert c.blocks[i] == b.blocks[i] && more[i] == entries[i];
    }
    var own := FootprintCells(Step(b.current, t.dst), DirectionToward(b.current, t.dst), e.footprintX);
    assert cell in c.intervalCells <==> cell in b.intervalCells || cell in own;
    assert Covers(c, more, n, cell) <==> cell in own;
    if exists i: nat :: Covers(c, more, i, cell) {
      var i: nat :| Covers(c, more, i, cell);
      assert i == n || Covers(b, entries, i, cell);
    }
    if i: nat :| Covers(b, entries, i, cell) {
      assert Covers(c, more, i, cell);
    }
  }

  lemma {:induction false} SuccessorPlaced(t: Task, b: Beam, entries: seq<Entry>, e: Entry, i: nat)
    requires e in t.catalogue && |entries| == |b.blocks| && |b.pathCells| == |b.blocks| + 1
    requires b.current == b.pathCells[|b.blocks|] && i <= |b.blocks|
    requires i < |b.blocks| ==> PlacedAs(t, b, entries, i)
    ensures PlacedAs(t, Successor(t, b, e), entries + [e], i)
  {
    var c, n := Successor(t, b, e), |b.blocks|;
    assert c.pathCells[n] == b.current && c.pathCells[n + 1] == Step(b.current, t.dst);
    if i < n {
      assert c.blocks[i] == b.blocks[i] && c.pathCells[i] == b.pathCells[i] && c.pathCells[i + 1] == b.pathCells[i + 1];
    }
  }

  lemma {:induction false} SuccessorRecorded(t: Task, b: Beam, entries: seq<Entry>, e: Entry)
    requires Recorded(t, b, entries) && e in t.catalogue
    ensures Recorded(t, Successor(t, b, e), entries + [e])
  {
    var c, n := Successor(t, b, e), |b.blocks|;
    assert c.blocks[..n] == b.blocks;
    forall i: nat | i < n + 1 ensures PlacedAs(t, c, entries + [e], i) {
      SuccessorPlaced(t, b, entries, e, i);
    }
    forall cell ensures cell in c.intervalCells <==> exists i: nat :: Covers(c, entries + [e], i, cell) {
      SuccessorCovers(t, b, entries, e, cell);
    }
  }

  lemma {:induction false} OnlyInitial(t: Task)
    ensures Beams(t, 0) == [Initial(t)]
  {}

  lemma {:induction false} InitialRecorded(t: Task)
    ensures Recorded(t, Initial(t), [])
  {}

  /** Every beam of every layer has its books in order. */
  lemma {:induction false} BeamsRecorded(t: Task, k: nat, c: Beam) returns (entries: seq<Entry>)
    requires c in Beams(t, k)
    ensures Recorded(t, c, entries)
  {
    if k == 0 {
      entries := [];
      OnlyInitial(t);
      InitialRecorded(t);
    } else {
      var b, e := Lineage(t, k - 1, c);
      entries := BeamsRecorded(t, k - 1, b);
      SuccessorRecorded(t, b, entries, e);
      entries := entries + [e];
    }
  }

  // ----- cells and directions -----

  function Ahead(rotation: Quarter): Vec -> Vec { cell => Advance(cell, rotation) }

  lemma {:induction false} ShadowIsAhead(origin: Vec, rotation: Quarter, i: nat)
    ensures ShadowCell(origin, rotation, i) == Iterate(Ahead(rotation), origin, i)
  {
    if i > 0 {
      ShadowIsAhead(origin, rotation, i - 1);
    }
  }

  /** A block takes its own cell and, if it is wider, the next ones in the direction of travel. */
  lemma {:induction false} FootprintIsAhead(origin: Vec, rotation: Quarter, footprintX: int, cell: Vec)
    ensures cell in FootprintCells(origin, rotation, footprintX) <==>
            exists i: nat :: i < (if footprintX <= 1 then 1 else footprintX)
                             && cell == Iterate(Ahead(rotation), origin, i)
  {
    forall i: nat ensures ShadowCell(origin, rotation, i) == Iterate(Ahead(rotation), origin, i) {
      ShadowIsAhead(origin, rotation, i);
    }
    assert origin == Iterate(Ahead(rotation), origin, 0);
    if footprintX > 1 && cell in FootprintCells(origin, rotation, footprintX) {
      var i: nat :| i < footprintX && cell == ShadowCell(origin, rotation, i);
      assert cell == Iterate(Ahead(rotation), origin, i);
    }
  }

  /** A step goes along the longer axis, x on a tie, and toward the destination. */
  lemma {:induction false} StepAlongLonger(cell: Vec, dst: Vec)
    ensures Step(cell, dst).z == cell.z <==> Abs(dst.x - cell.x) >= Abs(dst.z - cell.z)
    ensures Step(cell, dst).x == cell.x <==> Abs(dst.x - cell.x) < Abs(dst.z - cell.z)
    ensures Step(cell, dst).x > cell.x ==> dst.x >= cell.x
    ensures Step(cell, dst).x < cell.x ==> dst.x < cell.x
    ensures Step(cell, dst).z > cell.z ==> dst.z > cell.z
    ensures Step(cell, dst).z < cell.z ==> dst.z < cell.z
  {}
}
