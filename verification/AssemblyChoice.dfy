/**
 Which corridor an assembly takes: the ranking is the order of the source's key tuples, the digest decides the place
 in it, and the order of the anchors decides the order of the intervals.
 */
module AssemblyChoice {
  import opened Rotation
  import opened Collections
  import opened Lexicographic
  import opened Assembly

  // ----- the ranking keys as tuples -----

  predicate RealLt(a: real, b: real) { a < b }

  /** A score to be ranked from high to low; an absent one stands for -1. */
  function Falling(s: Option<real>): real { if s.Some? then -s.value else 1.0 }

  function LengthAndId(c: Candidate): seq<real> { [c.pathLength as real] + [c.id as real] }

  function CombinedKey(c: Candidate): seq<real> { [Falling(c.combined)] + LengthAndId(c) }

  /** Learned score, combined score, length, id. */
  function TieKey(c: Candidate): seq<real> { [Falling(c.learned)] + CombinedKey(c) }

  function ValidationKey(c: Candidate): seq<real> { [Falling(c.validation)] + CombinedKey(c) }

  function FloorKey(c: Candidate): seq<real> { [if c.validation == Some(0.0) then 1.0 else 0.0] + ValidationKey(c) }

  /** Learned score, whether validation scored zero, validation score, combined score, length, id. */
  function ValidatedKey(c: Candidate): seq<real> { [Falling(c.learned)] + FloorKey(c) }

  lemma {:induction false} LengthAndIdOrder(a: Candidate, b: Candidate)
    ensures ShorterFirst(a, b) <==> LexLeq(RealLt, LengthAndId(a), LengthAndId(b))
  {
    LexCons(RealLt, a.pathLength as real, [a.id as real], b.pathLength as real, [b.id as real]);
    assert [a.id as real] == [a.id as real] + [] && [b.id as real] == [b.id as real] + [];
    LexCons(RealLt, a.id as real, [], b.id as real, []);
  }

  lemma {:induction false} CombinedOrder(a: Candidate, b: Candidate)
    ensures CombinedFirst(a, b) <==> LexLeq(RealLt, CombinedKey(a), CombinedKey(b))
  {
    LengthAndIdOrder(a, b);
    LexCons(RealLt, Falling(a.combined), LengthAndId(a), Falling(b.combined), LengthAndId(b));
  }

  /** The ranking without validation is the order of the key tuples. */
  lemma {:induction false} TieBreakIsKeyOrder(a: Candidate, b: Candidate)
    ensures TieBreak(a, b) <==> LexLeq(RealLt, TieKey(a), TieKey(b))
  {
    CombinedOrder(a, b);
    LexCons(RealLt, Falling(a.learned), CombinedKey(a), Falling(b.learned), CombinedKey(b));
  }

  lemma {:induction false} ValidationOrder(a: Candidate, b: Candidate)
    ensures ValidationFirst(a, b) <==> LexLeq(RealLt, FloorKey(a), FloorKey(b))
  {
    CombinedOrder(a, b);
    LexCons(RealLt, Falling(a.validation), CombinedKey(a), Falling(b.validation), CombinedKey(b));
    LexCons(RealLt, FloorKey(a)[0], ValidationKey(a), FloorKey(b)[0], ValidationKey(b));
  }

  /** So is the ranking with validation. */
  lemma {:induction false} ValidatedIsKeyOrder(a: Candidate, b: Candidate)
    ensures TieBreakValidated(a, b) <==> LexLeq(RealLt, ValidatedKey(a), ValidatedKey(b))
  {
    ValidationOrder(a, b);
    LexCons(RealLt, Falling(a.learned), FloorKey(a), Falling(b.learned), FloorKey(b));
  }

  /** Candidates that tie in the whole key keep the order in which they came. */
  lemma {:induction false} RankingStable(pool: seq<Candidate>, c: Candidate)
    ensures Filter(Ties(TieBreak, c), Ranked(pool, false)) == Filter(Ties(TieBreak, c), pool)
  {
    RankingsAreOrders();
    SortStable(TieBreak, pool, c);
  }

  // ----- which of the top K -----

  /** From how many corridors the digest chooses. */
  function Spread(inp: Inputs, i: nat): nat
    requires i + 1 < |inp.anchors|
  {
    Min(Max(1, inp.topK), |Pool(inp.candidates, IntervalKey(inp, i))|)
  }

  lemma {:induction false} PickReaches(digest: (int, int) -> nat, seed: int, interval: int, poolSize: nat, topK: int,
                                       p: nat)
    requires p < Min(Max(1, topK), poolSize) && digest(seed, interval) == p
    ensures Pick(digest, seed, interval, poolSize, topK) == p
  {}

  lemma {:induction false} PickCongruent(d: (int, int) -> nat, e: (int, int) -> nat, seed: int, other: int,
                                         interval: int, poolSize: nat, topK: int)
    requires poolSize > 0
    requires d(seed, interval) % Min(Max(1, topK), poolSize) == e(other, interval) % Min(Max(1, topK), poolSize)
    ensures Pick(d, seed, interval, poolSize, topK) == Pick(e, other, interval, poolSize, topK)
  {}

  /** Each of the best min(max(1, k), pool) corridors can be the choice: the `p`-th is, for the digest `p`. */
  lemma {:induction false} ChoiceReaches(inp: Inputs, digest: (int, int) -> nat, i: nat, p: nat)
    requires i + 1 < |inp.anchors| && Covered(inp, i) && p < Spread(inp, i) && digest(inp.seed, i) == p
    ensures var ranked := Ranked(Pool(inp.candidates, IntervalKey(inp, i)), inp.useValidation);
            p < |ranked| && Choice(inp, digest, i) == ranked[p]
  {
    var pool := Pool(inp.candidates, IntervalKey(inp, i));
    RankedPermutes(pool, inp.useValidation);
    PickReaches(digest, inp.seed, i, |pool|, inp.topK, p);
  }

  /** Seeds and digests matter only through the digest's remainder: congruent ones choose the same corridor. */
  lemma {:induction false} ChoiceCongruent(a: Inputs, b: Inputs, d: (int, int) -> nat, e: (int, int) -> nat, i: nat)
    requires i + 1 < |a.anchors| && Covered(a, i) && b == a.(seed := b.seed)
    requires Spread(a, i) > 0 && d(a.seed, i) % Spread(a, i) == e(b.seed, i) % Spread(a, i)
    ensures Covered(b, i) && Choice(a, d, i) == Choice(b, e, i)
  {
    PickCongruent(d, e, a.seed, b.seed, i, |Pool(a.candidates, IntervalKey(a, i))|, a.topK);
  }

  /** Without a spread, the best corridor is taken for every seed. */
  lemma {:induction false} TopOneIsBest(inp: Inputs, digest: (int, int) -> nat, i: nat)
    requires i + 1 < |inp.anchors| && Covered(inp, i) && inp.topK <= 1
    ensures var leq := if inp.useValidation then TieBreakValidated else TieBreak;
            forall c :: c in inp.candidates && KeyOf(c) == IntervalKey(inp, i) && Scored(c) ==>
                          leq(Choice(inp, digest, i), c)
  {
    var pool := Pool(inp.candidates, IntervalKey(inp, i));
    var ranked, leq := Ranked(pool, inp.useValidation), if inp.useValidation then TieBreakValidated else TieBreak;
    RankedPermutes(pool, inp.useValidation);
    RankingsAreOrders();
    forall c | c in inp.candidates && KeyOf(c) == IntervalKey(inp, i) && Scored(c)
      ensures leq(Choice(inp, digest, i), c)
    {
      assert InPool(IntervalKey(inp, i))(c);
      assert c in ranked;
      var j :| 0 <= j < |ranked| && ranked[j] == c;
      assert j == 0 || leq(ranked[0], ranked[j]);
    }
  }

  // ----- the order of the intervals -----

  /** Interval keys compare by source order, then destination order, then source tag, then destination tag. */
  lemma {:induction false} KeyTiers(a: Key, b: Key)
    ensures a.srcOrder != b.srcOrder ==> (KeyLeq(a, b) <==> a.srcOrder < b.srcOrder)
    ensures a.srcOrder == b.srcOrder && a.dstOrder != b.dstOrder ==> (KeyLeq(a, b) <==> a.dstOrder < b.dstOrder)
    ensures a.srcOrder == b.srcOrder && a.dstOrder == b.dstOrder && a.srcTag != b.srcTag ==>
              (KeyLeq(a, b) <==> StringLeq(a.srcTag, b.srcTag))
    ensures a.srcOrder == b.srcOrder && a.dstOrder == b.dstOrder && a.srcTag == b.srcTag ==>
              (KeyLeq(a, b) <==> StringLeq(a.dstTag, b.dstTag))
  {}

  /** On a route whose anchors come in rising order, the intervals are validated in the order of the route. */
  lemma {:induction false} RisingRouteSorted(inp: Inputs)
    requires forall h, i :: 0 <= h < i < |inp.anchors| ==> inp.anchors[h].order < inp.anchors[i].order
    ensures RouteSorted(inp)
  {
    forall h, i | 0 <= h < i && i + 1 < |inp.anchors| ensures Precedes(inp, h, i) {
      KeyTiers(IntervalKey(inp, h), IntervalKey(inp, i));
    }
  }

  /** Path ends continue each other when one is the other moved by at most one cell along each axis. */
  lemma {:induction false} ContinuousIsOneStep(a: Vec, b: Vec)
    ensures Continuous(a, b) <==>
            exists d: Vec :: -1 <= d.x <= 1 && -1 <= d.y <= 1 && -1 <= d.z <= 1 && b == Add(a, d)
  {
    if Continuous(a, b) {
      var d := Vec(b.x - a.x, b.y - a.y, b.z - a.z);
      assert b == Add(a, d);
    }
  }
}
