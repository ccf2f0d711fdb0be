/**
 The generation-time view of the mined grammar: moves in the source block's own frame, and the
 vocabulary of route blocks grown from seed blocks by a bounded breadth-first search.
 */
module Grammar {
  import opened Rotation
  import opened Poses
  import opened Collections

  /** One observed placement of `block` relative to a source block. */
  datatype Move<B> = Move(block: B, offset: Vec, rel: int, mapCount: int, pairCount: int, clipMatched: bool) {

    predicate IsOverlay() { offset.x == 0 && offset.z == 0 }

    predicate IsGap() { offset.x < -1 || offset.x > 1 || offset.z < -1 || offset.z > 1 }

    /** Where and how the block lands, given the source placement. */
    function Apply(source: Pose): Pose { Displace(source, offset, rel) }
  }

  /** A filter left at `None` keeps both kinds; `Some(b)` keeps the moves for which the test is `b`. */
  datatype Filter = Filter(minMaps: int, allow: Option<set<string>>, overlays: Option<bool>, gaps: Option<bool>)

  predicate Keeps(f: Filter, m: Move<string>) {
    && m.mapCount >= f.minMaps
    && (f.allow.Some? ==> m.block in f.allow.value)
    && (f.overlays.Some? ==> m.IsOverlay() == f.overlays.value)
    && (f.gaps.Some? ==> m.IsGap() == f.gaps.value)
  }

  type Rules = map<string, seq<Move<string>>>

  function Successors(rules: Rules, block: string, f: Filter): seq<Move<string>> {
    if block in rules then Collections.Filter((m: Move<string>) => Keeps(f, m), rules[block]) else []
  }

  // ----- the vocabulary, said without the search -----

  /** The distinct targets of a move list, in the order of their first appearance. */
  function Targets(moves: seq<Move<string>>): seq<string> {
    if moves == [] then []
    else
      var front := Targets(moves[..|moves| - 1]);
      if moves[|moves| - 1].block in front then front else front + [moves[|moves| - 1].block]
  }

  /** The neighbours of a block: its `perBlock` strongest distinct targets. */
  ghost function Near(rules: Rules, f: Filter, perBlock: int, block: string): set<string> {
    set x | x in TakeAtMost(Targets(Successors(rules, block, f)), perBlock)
  }

  /** Which blocks follow which. */
  type Graph = string -> set<string>

  ghost function NearGraph(rules: Rules, f: Filter, perBlock: int): Graph { b => Near(rules, f, perBlock, b) }

  ghost function NearAll(near: Graph, blocks: set<string>): set<string> {
    set b, x | b in blocks && x in near(b) :: x
  }

  /** Everything within `n` steps of the seeds. */
  ghost function Reach(near: Graph, seeds: set<string>, n: nat): set<string> {
    Iterate(Widener(near), seeds, n)
  }

  ghost function Widener(near: Graph): set<string> -> set<string> { s => Widen(near, s) }

  ghost function Widen(near: Graph, s: set<string>): set<string> { s + NearAll(near, s) }

  function Rounds(rounds: int): nat { if rounds < 0 then 0 else rounds }

  lemma {:induction false} TargetsPrefix(moves: seq<Move<string>>, i: nat)
    requires i <= |moves|
    ensures Targets(moves[..i]) <= Targets(moves)
    decreases |moves| - i
  {
    if i < |moves| {
      assert moves[..i + 1][..i] == moves[..i];
      TargetsPrefix(moves, i + 1);
    } else {
      assert moves[..i] == moves;
    }
  }

  lemma {:induction false} TargetsDistinct(moves: seq<Move<string>>)
    ensures Distinct(Targets(moves))
    ensures forall x :: x in Targets(moves) <==> exists m :: m in moves && m.block == x
  {
    if moves != [] {
      var n := |moves| - 1;
      TargetsDistinct(moves[..n]);
      assert moves == moves[..n] + [moves[n]];
    }
  }

  // ----- the search -----

  lemma {:induction false} ScanStops(moves: seq<Move<string>>, i: nat, perBlock: int)
    requires i < |moves| && moves[i].block !in Targets(moves[..i])
    requires |Targets(moves[..i])| <= perBlock || i == 0
    requires |Targets(moves[..i])| + 1 > perBlock
    ensures TakeAtMost(Targets(moves), perBlock) == Targets(moves[..i])
  {
    var all, here := Targets(moves), Targets(moves[..i]);
    TargetsPrefix(moves, i);
    TargetsPrefix(moves, i + 1);
    assert moves[..i + 1][..i] == moves[..i];
    assert Targets(moves[..i + 1]) == here + [moves[i].block];
    assert all[..|here|] == here;
  }

  /** The scan has passed `i` moves without filling up. */
  ghost predicate Scanning(moves: seq<Move<string>>, i: nat, perBlock: int, seen: set<string>)
    requires i <= |moves|
  {
    seen == Elements(Targets(moves[..i])) && (|Targets(moves[..i])| <= perBlock || i == 0)
  }

  /** What the scan will have seen when it ends. */
  ghost function FirstTargets(moves: seq<Move<string>>, perBlock: int): set<string> {
    Elements(TakeAtMost(Targets(moves), perBlock))
  }

  lemma {:induction false} ScanStep(moves: seq<Move<string>>, i: nat, perBlock: int, seen: set<string>)
    requires i < |moves| && Scanning(moves, i, perBlock, seen)
    ensures var more := seen + {moves[i].block};
            if more == seen || |more| <= perBlock then Scanning(moves, i + 1, perBlock, more)
            else FirstTargets(moves, perBlock) == seen
  {
    NextTarget(moves, i);
    if moves[i].block !in seen && |seen + {moves[i].block}| > perBlock {
      ScanStops(moves, i, perBlock);
    }
  }

  /** The inner scan: the new ones among the first `perBlock` distinct targets. */
  method ScanTargets(moves: seq<Move<string>>, vocab: set<string>, perBlock: int) returns (grown: set<string>)
    ensures grown == FirstTargets(moves, perBlock) - vocab
  {
    var seen: set<string> := {};
    grown := {};
    var i, full := 0, false;
    while i < |moves| && !full
      invariant i <= |moves|
      invariant grown == seen - vocab
      invariant if full then seen == FirstTargets(moves, perBlock) else Scanning(moves, i, perBlock, seen)
    {
      var x := moves[i].block;
      ScanStep(moves, i, perBlock, seen);
      GrownMore(seen, vocab, x);
      if x !in seen {
        if |seen + {x}| > perBlock {
          full := true;
        } else {
          seen := seen + {x};
          if x !in vocab {
            grown := grown + {x};
          }
        }
      }
      i := i + 1;
    }
    if !full {
      ScanEnds(moves, perBlock, seen);
    }
  }

  lemma {:induction false} GrownMore(seen: set<string>, vocab: set<string>, x: string)
    ensures x in seen ==> seen + {x} == seen
    ensures (seen + {x}) - vocab == (seen - vocab) + if x in vocab then {} else {x}
  {}

  lemma {:induction false} ScanEnds(moves: seq<Move<string>>, perBlock: int, seen: set<string>)
    requires Scanning(moves, |moves|, perBlock, seen)
    ensures FirstTargets(moves, perBlock) == seen
  {
    assert moves[..|moves|] == moves;
  }

  lemma {:induction false} NextTarget(moves: seq<Move<string>>, i: nat)
    requires i < |moves|
    ensures var x, before, after := moves[i].block, Targets(moves[..i]), Targets(moves[..i + 1]);
            && (x in Elements(before) ==> after == before)
            && (x !in Elements(before) ==> |after| == |before| + 1 == |Elements(before) + {x}|
                                           && Elements(after) == Elements(before) + {x} && x !in before)
  {
    assert moves[..i + 1][..i] == moves[..i];
    TargetsDistinct(moves[..i + 1]);
    DistinctCardinality(Targets(moves[..i + 1]));
    var x, before := moves[i].block, Targets(moves[..i]);
    if x !in before {
      assert Elements(before + [x]) == Elements(before) + {x};
    }
  }

  /**
   The vocabulary is exactly what the seeds reach in at most `rounds` steps, although only the newest blocks
   expand.
   */
  method RouteVocabulary(rules: Rules, seeds: seq<string>, allow: set<string>, minMaps: int, rounds: int, perBlock: int)
    returns (vocab: set<string>)
    ensures vocab == Reach(NearGraph(rules, RouteFilter(allow, minMaps), perBlock), Elements(seeds), Rounds(rounds))
  {
    var f := RouteFilter(allow, minMaps);
    vocab := GrowFrom(rules, f, perBlock, Elements(seeds), Rounds(rounds), NearGraph(rules, f, perBlock));
  }

  method GrowFrom(rules: Rules, f: Filter, perBlock: int, seeds: set<string>, rounds: nat, ghost near: Graph)
    returns (vocab: set<string>)
    requires near == NearGraph(rules, f, perBlock)
    ensures vocab == Reach(near, seeds, rounds)
  {
    vocab := seeds;
    var frontier := seeds;
    var k := 0;
    while k < rounds && frontier != {}
      invariant k <= rounds
      invariant vocab == Reach(near, seeds, k)
      invariant frontier <= vocab
      invariant NearAll(near, vocab - frontier) <= vocab
    {
      var grown := ExpandFrontier(rules, f, perBlock, vocab, frontier);
      Round(near, seeds, k, vocab, frontier, grown);
      vocab := vocab + grown;
      frontier := grown;
      k := k + 1;
    }
    if k < rounds {
      assert vocab - frontier == vocab && Widener(near)(vocab) == vocab;
      IterateStable(Widener(near), seeds, k, rounds);
    }
  }

  /** Expanding the frontier is as good as expanding everything found so far. */
  lemma {:induction false} Round(near: Graph, seeds: set<string>, k: nat, vocab: set<string>, frontier: set<string>,
                                 grown: set<string>)
    requires vocab == Reach(near, seeds, k) && frontier <= vocab
    requires NearAll(near, vocab - frontier) <= vocab
    requires grown == NearAll(near, frontier) - vocab
    ensures Reach(near, seeds, k + 1) == vocab + grown
    ensures NearAll(near, (vocab + grown) - grown) <= vocab + grown
  {
    NearAllUnion(near, vocab - frontier, frontier);
    assert (vocab - frontier) + frontier == vocab;
    assert (vocab + grown) - grown == vocab;
  }

  /** The filter of the route vocabulary: allowed targets, no overlays, no gaps. */
  function RouteFilter(allow: set<string>, minMaps: int): Filter {
    Filter(minMaps, Some(allow), Some(false), Some(false))
  }

  lemma {:induction false} NearAllUnion(near: Graph, a: set<string>, b: set<string>)
    ensures NearAll(near, a + b) == NearAll(near, a) + NearAll(near, b)
  {}

  method ExpandFrontier(rules: Rules, f: Filter, perBlock: int, vocab: set<string>, frontier: set<string>)
    returns (grown: set<string>)
    ensures grown == NearAll(NearGraph(rules, f, perBlock), frontier) - vocab
  {
    ghost var near := NearGraph(rules, f, perBlock);
    grown := {};
    var todo := frontier;
    while todo != {}
      invariant todo <= frontier
      invariant grown == NearAll(near, frontier - todo) - vocab
    {
      var block :| block in todo;
      var more := ScanTargets(Successors(rules, block, f), vocab, perBlock);
      assert more == near(block) - vocab;
      NearAllUnion(near, frontier - todo, {block});
      assert NearAll(near, {block}) == near(block);
      assert frontier - (todo - {block}) == (frontier - todo) + {block};
      grown := grown + more;
      todo := todo - {block};
    }
    assert frontier - todo == frontier;
  }

  // ----- what the vocabulary is -----

  ghost predicate IsPath(near: Graph, seeds: set<string>, path: seq<string>) {
    && path != [] && path[0] in seeds
    && forall i :: 0 < i < |path| ==> path[i] in near(path[i - 1])
  }

  /** Membership is the existence of a short enough path of observed moves from a seed. */
  lemma {:induction false} ReachIsPaths(near: Graph, seeds: set<string>, n: nat, x: string)
    ensures x in Reach(near, seeds, n) <==>
            exists path :: IsPath(near, seeds, path) && |path| <= n + 1 && path[|path| - 1] == x
  {
    if x in Reach(near, seeds, n) {
      var path := PathTo(near, seeds, n, x);
    }
    if path :| IsPath(near, seeds, path) && |path| <= n + 1 && path[|path| - 1] == x {
      PathStays(near, seeds, n, path);
    }
  }

  lemma {:induction false} PathTo(near: Graph, seeds: set<string>, n: nat, x: string)
    returns (path: seq<string>)
    requires x in Reach(near, seeds, n)
    ensures IsPath(near, seeds, path) && |path| <= n + 1 && path[|path| - 1] == x
  {
    if n == 0 {
      path := [x];
    } else {
      var before := Reach(near, seeds, n - 1);
      if x in before {
        path := PathTo(near, seeds, n - 1, x);
      } else {
        var b :| b in before && x in near(b);
        var p := PathTo(near, seeds, n - 1, b);
        path := p + [x];
        ExtendPath(near, seeds, p, x);
      }
    }
  }

  lemma {:induction false} ExtendPath(near: Graph, seeds: set<string>, p: seq<string>, x: string)
    requires IsPath(near, seeds, p) && x in near(p[|p| - 1])
    ensures IsPath(near, seeds, p + [x])
  {
    var q := p + [x];
    forall i | 0 < i < |q| ensures q[i] in near(q[i - 1]) {
      assert q[i - 1] == p[i - 1];
      assert i < |p| ==> p[i] in near(p[i - 1]);
    }
  }

  lemma {:induction false} PathStays(near: Graph, seeds: set<string>, n: nat, path: seq<string>)
    requires IsPath(near, seeds, path) && |path| <= n + 1
    ensures path[|path| - 1] in Reach(near, seeds, n)
    decreases n
  {
    var k := |path| - 1;
    if n > 0 {
      if k == 0 {
        PathStays(near, seeds, n - 1, path);
      } else {
        PathStays(near, seeds, n - 1, path[..k]);
        assert path[k - 1] == path[..k][k - 1];
        assert path[k] in near(path[k - 1]);
      }
    }
  }

  /** More rounds and more successors only add blocks. */
  lemma {:induction false} ReachMonotone(near: Graph, wide: Graph, seeds: set<string>, m: nat, n: nat)
    requires m <= n && forall b :: near(b) <= wide(b)
    ensures Reach(near, seeds, m) <= Reach(wide, seeds, n)
  {
    ReachWider(near, wide, seeds, m);
    ReachLonger(wide, seeds, m, n);
  }

  lemma {:induction false} ReachLonger(near: Graph, seeds: set<string>, m: nat, n: nat)
    requires m <= n
    ensures Reach(near, seeds, m) <= Reach(near, seeds, n)
    decreases n
  {
    if m < n {
      ReachLonger(near, seeds, m, n - 1);
      ReachStep(near, seeds, n - 1);
    }
  }

  lemma {:induction false} ReachWider(near: Graph, wide: Graph, seeds: set<string>, n: nat)
    requires forall b :: near(b) <= wide(b)
    ensures Reach(near, seeds, n) <= Reach(wide, seeds, n)
  {
    var within := (a: set<string>, b: set<string>) => a <= b;
    forall a, b | within(a, b) ensures within(Widener(near)(a), Widener(wide)(b)) {
      WidenMonotone(near, wide, a, b);
    }
    IterateRelated(Widener(near), Widener(wide), seeds, n, within);
  }

  lemma {:induction false} ReachStep(near: Graph, seeds: set<string>, n: nat)
    ensures Reach(near, seeds, n + 1) == Widen(near, Reach(near, seeds, n)) >= Reach(near, seeds, n)
  {}

  lemma {:induction false} WidenMonotone(near: Graph, wide: Graph, a: set<string>, b: set<string>)
    requires a <= b && forall x :: near(x) <= wide(x)
    ensures Widen(near, a) <= Widen(wide, b)
  {
    forall x | x in NearAll(near, a) ensures x in NearAll(wide, b) {
      var y :| y in a && x in near(y);
      assert x in wide(y);
    }
  }

  /** The vocabulary is monotone in `rounds` and in `perBlock`, and stays within the seeds and the allowed blocks. */
  lemma {:induction false} VocabularyBounds(rules: Rules, f: Filter, seeds: set<string>, p: int, q: int, m: nat, n: nat)
    requires f.allow.Some? && p <= q && m <= n
    ensures Reach(NearGraph(rules, f, p), seeds, m) <= Reach(NearGraph(rules, f, q), seeds, n)
    ensures seeds <= Reach(NearGraph(rules, f, p), seeds, m) <= seeds + f.allow.value
  {
    var near, wide := NearGraph(rules, f, p), NearGraph(rules, f, q);
    forall b ensures near(b) <= wide(b) && near(b) <= f.allow.value {
      var ts := Targets(Successors(rules, b, f));
      TargetsDistinct(Successors(rules, b, f));
      assert forall x :: x in TakeAtMost(ts, p) ==> x in TakeAtMost(ts, q) && x in ts;
    }
    ReachMonotone(near, wide, seeds, m, n);
    ReachMonotone(near, near, seeds, 0, m);
    ReachWithin(near, seeds, f.allow.value, m);
  }

  lemma {:induction false} ReachWithin(near: Graph, seeds: set<string>, allow: set<string>, n: nat)
    requires forall b :: near(b) <= allow
    ensures Reach(near, seeds, n) <= seeds + allow
  {
    if n > 0 {
      ReachWithin(near, seeds, allow, n - 1);
    }
  }

  // ----- what the route filter lets through -----

  /** Seen in enough maps, to an allowed block, beside the source: one cell away along x or z, whatever the height. */
  ghost predicate RouteMove(allow: set<string>, minMaps: int, m: Move<string>) {
    && m.mapCount >= minMaps && m.block in allow
    && !(m.offset.x == 0 && m.offset.z == 0)
    && Abs(m.offset.x) <= 1 && Abs(m.offset.z) <= 1
  }

  /** The route filter leaves out rare moves, blocks not allowed, overlays and gaps, and nothing else. */
  lemma {:induction false} RouteSuccessors(rules: Rules, allow: set<string>, minMaps: int, block: string,
                                           m: Move<string>)
    ensures m in Successors(rules, block, RouteFilter(allow, minMaps)) <==>
            block in rules && m in rules[block] && RouteMove(allow, minMaps, m)
  {}

  /** The place of a target among the distinct ones is that of its first move. */
  lemma {:induction false} FirstMoveTo(moves: seq<Move<string>>, x: string) returns (i: nat)
    requires x in Targets(moves)
    ensures i < |moves| && moves[i].block == x && x !in Targets(moves[..i])
    ensures |Targets(moves[..i])| < |Targets(moves)| && Targets(moves)[|Targets(moves[..i])|] == x
  {
    var n := |moves| - 1;
    if x in Targets(moves[..n]) {
      i := FirstMoveTo(moves[..n], x);
      assert moves[..n][..i] == moves[..i];
      TargetsPrefix(moves, n);
    } else {
      i := n;
    }
  }

  /** A target is among the first `n` if a move leads to it before which fewer than `n` other targets occur. */
  ghost predicate EarlyMove(moves: seq<Move<string>>, n: int, x: string, i: nat) {
    i < |moves| && moves[i].block == x && |Elements(Targets(moves[..i])) - {x}| < n
  }

  lemma {:induction false} EarlyTargets(moves: seq<Move<string>>, n: int, x: string)
    ensures x in TakeAtMost(Targets(moves), n) <==> exists i: nat :: EarlyMove(moves, n, x, i)
  {
    TargetsDistinct(moves);
    if x in TakeAtMost(Targets(moves), n) {
      assert x in Targets(moves);
      var i := FirstMoveTo(moves, x);
      TargetsDistinct(moves[..i]);
      DistinctCardinality(Targets(moves[..i]));
      assert Elements(Targets(moves[..i])) - {x} == Elements(Targets(moves[..i]));
      assert EarlyMove(moves, n, x, i);
    }
    if i: nat :| EarlyMove(moves, n, x, i) {
      EarlyIsTaken(moves, n, x, i);
    }
  }

  lemma {:induction false} EarlyIsTaken(moves: seq<Move<string>>, n: int, x: string, i: nat)
    requires EarlyMove(moves, n, x, i)
    ensures x in TakeAtMost(Targets(moves), n)
  {
    var upto := Targets(moves[..i + 1]);
    TargetsPrefix(moves, i + 1);
    FewTargets(moves, n, x, i);
    var k :| 0 <= k < |upto| && upto[k] == x;
    assert TakeAtMost(Targets(moves), n)[k] == x;
  }

  lemma {:induction false} FewTargets(moves: seq<Move<string>>, n: int, x: string, i: nat)
    requires EarlyMove(moves, n, x, i)
    ensures |Targets(moves[..i + 1])| <= n && x in Targets(moves[..i + 1])
  {
    var before := Targets(moves[..i]);
    TargetsDistinct(moves[..i]);
    DistinctCardinality(before);
    assert moves[..i + 1][..i] == moves[..i];
    if x in before {
      assert Elements(before) == (Elements(before) - {x}) + {x};
    } else {
      assert Elements(before) == Elements(before) - {x};
    }
  }

  /**
   The neighbours of a block on the route: the targets of its route moves, as far as fewer than `perBlock` others
   come before them in the list.
   */
  lemma {:induction false} RouteNeighbours(rules: Rules, allow: set<string>, minMaps: int, perBlock: int, block: string,
                                           x: string)
    ensures var moves := Successors(rules, block, RouteFilter(allow, minMaps));
            x in Near(rules, RouteFilter(allow, minMaps), perBlock, block) <==>
            exists i: nat :: EarlyMove(moves, perBlock, x, i) && RouteMove(allow, minMaps, moves[i])
  {
    var moves := Successors(rules, block, RouteFilter(allow, minMaps));
    EarlyTargets(moves, perBlock, x);
    forall i: nat | i < |moves| ensures RouteMove(allow, minMaps, moves[i]) {
      assert moves[i] in moves;
      RouteSuccessors(rules, allow, minMaps, block, moves[i]);
    }
  }
}
