/**
 Two further results about assembling with a validator: the order of the candidates does not matter, and
 an empty path that hangs on a tie does let the validator change the verdict.
 */
module ValidatedAssembly {
  import opened Rotation
  import opened Collections
  import opened Assembly

  // ----- the validator pass, said without places -----

  ghost predicate DistinctIds(cs: seq<Candidate>) {
    forall i, j :: 0 <= i < j < |cs| ==> cs[i].id != cs[j].id
  }

  /** The candidates of `c`'s interval that rank before it. */
  ghost function RankedBefore(cs: seq<Candidate>, c: Candidate): set<Candidate> {
    set d | d in cs && KeyOf(d) == KeyOf(c) && TieBreak(d, c) && d != c
  }

  /** What the validator pass makes of a candidate: the first `cap` of an interval are asked for. */
  ghost function ScoredValue(cs: seq<Candidate>, v: Validator, cap: nat, c: Candidate): Candidate {
    var score := v(c, |KeysBelow(cs, KeyOf(c))|);
    if |RankedBefore(cs, c)| < cap && Scored(c) && score.Some? then c.(validation := score) else c
  }

  ghost function Scorer(cs: seq<Candidate>, v: Validator, cap: nat): Candidate -> Candidate {
    c => ScoredValue(cs, v, cap, c)
  }

  /** The places of one interval in ranking order. */
  ghost function RankedPlaces(cs: seq<Candidate>, k: Key): seq<nat> {
    Sort(PlaceOrder(cs), Filter(PlaceIn(cs, k), Range(|cs|)))
  }

  lemma {:induction false} FilterDistinct(p: nat -> bool, s: seq<nat>)
    requires Distinct(s)
    ensures Distinct(Filter(p, s))
  {
    if s != [] {
      var n := |s| - 1;
      FilterDistinct(p, s[..n]);
      assert s == s[..n] + [s[n]] && s[n] !in s[..n];
    }
  }

  lemma {:induction false} PlacesListed(cs: seq<Candidate>, k: Key)
    ensures var sp := RankedPlaces(cs, k);
            && Distinct(sp) && Sorted(PlaceOrder(cs), sp)
            && forall i: nat :: i in sp <==> i < |cs| && KeyOf(cs[i]) == k
  {
    var places := Filter(PlaceIn(cs, k), Range(|cs|));
    RankingsAreOrders();
    SortPermutes(PlaceOrder(cs), places);
    SortSorts(PlaceOrder(cs), places);
    FilterDistinct(PlaceIn(cs, k), Range(|cs|));
    PermutationDistinct(places, RankedPlaces(cs, k));
    forall i: nat ensures i in places <==> i < |cs| && KeyOf(cs[i]) == k {
      if i < |cs| {
        assert Range(|cs|)[i] == i;
      }
    }
  }

  /** With distinct ids, two candidates that rank before each other are one and the same place. */
  lemma {:induction false} TieBreakStrict(cs: seq<Candidate>, i: nat, j: nat)
    requires DistinctIds(cs) && i < |cs| && j < |cs| && TieBreak(cs[i], cs[j]) && TieBreak(cs[j], cs[i])
    ensures i == j
  {
    assert cs[i].id == cs[j].id;
  }

  /** The position of a place in its interval's ranking is the number of candidates that rank before it. */
  lemma {:induction false} PositionIsRank(cs: seq<Candidate>, k: Key, p: nat)
    requires DistinctIds(cs) && p < |RankedPlaces(cs, k)|
    ensures RankedPlaces(cs, k)[p] < |cs|
    ensures |RankedBefore(cs, cs[RankedPlaces(cs, k)[p]])| == p
  {
    var sp := RankedPlaces(cs, k);
    PlacesListed(cs, k);
    assert sp[p] in sp;
    var c := cs[sp[p]];
    var before := CandidatesAt(cs, sp[..p]);
    forall d ensures d in RankedBefore(cs, c) <==> d in before {
      BeforeInRanking(cs, k, p, d);
    }
    assert RankedBefore(cs, c) == Elements(before);
    forall q, r | 0 <= q < r < p ensures before[q] != before[r] {
      assert sp[q] in sp && sp[r] in sp && sp[q] != sp[r];
      assert before[q].id != before[r].id;
    }
    DistinctCardinality(before);
  }

  function CandidateAt(cs: seq<Candidate>, i: nat): Candidate
    requires cs != []
  {
    if i < |cs| then cs[i] else cs[0]
  }

  function CandidatesAt(cs: seq<Candidate>, places: seq<nat>): seq<Candidate>
    requires cs != []
  {
    Map((i: nat) => CandidateAt(cs, i), places)
  }

  lemma {:induction false} BeforeInRanking(cs: seq<Candidate>, k: Key, p: nat, d: Candidate)
    requires cs != [] && DistinctIds(cs) && p < |RankedPlaces(cs, k)| && RankedPlaces(cs, k)[p] < |cs|
    ensures d in RankedBefore(cs, cs[RankedPlaces(cs, k)[p]]) <==> d in CandidatesAt(cs, RankedPlaces(cs, k)[..p])
  {
    var sp := RankedPlaces(cs, k);
    PlacesListed(cs, k);
    var i := sp[p];
    assert i in sp;
    var before := CandidatesAt(cs, sp[..p]);
    if d in before {
      var q :| 0 <= q < p && before[q] == d;
      assert sp[q] in sp && PlaceOrder(cs)(sp[q], i) && sp[q] != i;
      assert cs[sp[q]] == d && d.id != cs[i].id;
    }
    if d in RankedBefore(cs, cs[i]) {
      var j :| 0 <= j < |cs| && cs[j] == d;
      assert j in sp;
      var q :| 0 <= q < |sp| && sp[q] == j;
      assert q > p ==> PlaceOrder(cs)(i, j);
      if q > p {
        TieBreakStrict(cs, i, j);
      }
      assert q < p && before[q] == d;
    }
  }

  /** A place is among the first `cap` of its interval exactly when fewer than `cap` candidates rank before it. */
  lemma {:induction false} TopIsRank(cs: seq<Candidate>, i: nat, cap: nat)
    requires DistinctIds(cs) && i < |cs|
    ensures i in TopPlaces(cs, KeyOf(cs[i]), cap) <==> |RankedBefore(cs, cs[i])| < cap
  {
    var sp := RankedPlaces(cs, KeyOf(cs[i]));
    PlacesListed(cs, KeyOf(cs[i]));
    var p :| 0 <= p < |sp| && sp[p] == i;
    PositionIsRank(cs, KeyOf(cs[i]), p);
    var top := TopPlaces(cs, KeyOf(cs[i]), cap);
    assert top == TakeAtMost(sp, cap);
    if p < cap {
      assert top[p] == i;
    }
    if i in top {
      var q :| 0 <= q < |top| && top[q] == i;
      assert sp[q] == sp[p];
    }
  }

  lemma {:induction false} ScoredByValue(inp: Inputs, v: Validator, xs: seq<Candidate>)
    requires DistinctIds(inp.candidates) && ScoredBy(inp, Some(v), xs)
    ensures xs == Map(Scorer(inp.candidates, v, Max(inp.topK, VALIDATOR_CAP)), inp.candidates)
  {
    var cs, cap := inp.candidates, Max(inp.topK, VALIDATOR_CAP);
    var order := IntervalOrder(cs);
    OrderedKeys(cs);
    forall i | 0 <= i < |cs| ensures xs[i] == ScoredValue(cs, v, cap, cs[i]) {
      assert cs[i] in cs;
      assert KeyOf(cs[i]) in order;
      var d :| 0 <= d < |order| && order[d] == KeyOf(cs[i]);
      assert xs[i] == Validated(cs, v, cap, d, i);
      IndexIsRank(cs, d);
      TopIsRank(cs, i, cap);
    }
  }

  lemma {:induction false} SameScorer(cs: seq<Candidate>, ds: seq<Candidate>, v: Validator, cap: nat, c: Candidate)
    requires forall x :: x in cs <==> x in ds
    ensures ScoredValue(cs, v, cap, c) == ScoredValue(ds, v, cap, c)
  {
    assert RankedBefore(cs, c) == RankedBefore(ds, c);
    assert KeysBelow(cs, KeyOf(c)) == KeysBelow(ds, KeyOf(c));
  }

  lemma {:induction false} ScoredSame(a: Inputs, b: Inputs, v: Option<Validator>, xs: seq<Candidate>,
                                      ys: seq<Candidate>)
    requires DistinctIds(a.candidates) && DistinctIds(b.candidates) && multiset(a.candidates) == multiset(b.candidates)
    requires b == a.(candidates := b.candidates) && ScoredBy(a, v, xs) && ScoredBy(b, v, ys)
    ensures multiset(xs) == multiset(ys)
  {
    if v.Some? {
      var cap := Max(a.topK, VALIDATOR_CAP);
      var f, g := Scorer(a.candidates, v.value, cap), Scorer(b.candidates, v.value, cap);
      ScoredByValue(a, v.value, xs);
      ScoredByValue(b, v.value, ys);
      forall x ensures x in a.candidates <==> x in b.candidates {
        assert x in a.candidates <==> x in multiset(a.candidates);
      }
      forall c ensures f(c) == g(c) {
        SameScorer(a.candidates, b.candidates, v.value, cap, c);
      }
      assert Map(f, b.candidates) == Map(g, b.candidates);
      MapKeepsMultiset(f, a.candidates, b.candidates);
    }
  }

  lemma {:induction false} IdsKept(inp: Inputs, v: Option<Validator>, xs: seq<Candidate>)
    requires DistinctIds(inp.candidates) && ScoredBy(inp, v, xs)
    ensures UniqueIds(xs)
  {
    forall c, d | c in xs && d in xs && c.id == d.id ensures c == d {
      var i :| 0 <= i < |xs| && xs[i] == c;
      var j :| 0 <= j < |xs| && xs[j] == d;
      assert c == inp.candidates[i].(validation := c.validation) && d == inp.candidates[j].(validation := d.validation);
      assert i == j;
    }
  }

  lemma {:induction false} IdsPermute(cs: seq<Candidate>, ds: seq<Candidate>)
    requires DistinctIds(cs) && multiset(cs) == multiset(ds)
    ensures DistinctIds(ds)
  {
    var id := (c: Candidate) => c.id;
    MapKeepsMultiset(id, cs, ds);
    assert Distinct(Map(id, cs));
    PermutationDistinct(Map(id, cs), Map(id, ds));
    forall i, j | 0 <= i < j < |ds| ensures ds[i].id != ds[j].id {
      assert Map(id, ds)[i] != Map(id, ds)[j];
    }
  }

  /** With unique ids, the same candidates in any order give the same outcome, validator pass included. */
  lemma {:induction false} ValidatedOrderIndependent(a: Inputs, b: Inputs, v: Option<Validator>,
                                                     digest: (int, int) -> nat, time: int -> int, ra: Outcome,
                                                     rb: Outcome)
    requires DistinctIds(a.candidates) && multiset(a.candidates) == multiset(b.candidates)
    requires b == a.(candidates := b.candidates)
    requires AssembledWith(a, v, digest, time, ra) && AssembledWith(b, v, digest, time, rb)
    ensures ra == rb
  {
    var xs :| ScoredBy(a, v, xs) && Assembles(a.(candidates := xs, useValidation := v.Some?), digest, time, ra);
    var ys :| ScoredBy(b, v, ys) && Assembles(b.(candidates := ys, useValidation := v.Some?), digest, time, rb);
    IdsPermute(a.candidates, b.candidates);
    ScoredSame(a, b, v, xs, ys);
    IdsKept(a, v, xs);
    var x, y := a.(candidates := xs, useValidation := v.Some?), b.(candidates := ys, useValidation := v.Some?);
    AssemblyOrderIndependent(x, y, digest, time, ra, rb);
  }

  // ----- an empty path on a tie -----

  function Ranking(use: bool): (Candidate, Candidate) -> bool { if use then TieBreakValidated else TieBreak }

  /** Without mutation, the candidate that no other ranks before is the choice. */
  lemma {:induction false} BestIsChosen(inp: Inputs, digest: (int, int) -> nat, i: nat, x: Candidate)
    requires i + 1 < |inp.anchors| && inp.topK <= 1 && x in Pool(inp.candidates, IntervalKey(inp, i))
    requires forall y :: y in Pool(inp.candidates, IntervalKey(inp, i)) && y != x ==> !Ranking(inp.useValidation)(y, x)
    ensures Covered(inp, i) && Choice(inp, digest, i) == x
  {
    var pool := Pool(inp.candidates, IntervalKey(inp, i));
    var ranked := Ranked(pool, inp.useValidation);
    RankedPermutes(pool, inp.useValidation);
    var j :| 0 <= j < |ranked| && ranked[j] == x;
    assert ranked[0] in ranked;
    assert j > 0 ==> Ranking(inp.useValidation)(ranked[0], ranked[j]);
    assert ranked[0] == x;
  }

  const SPAWN := Anchor("Spawn", 0, None)
  const CHECKPOINT := Anchor("LinkedCheckpoint", 1, None)
  const GOAL := Anchor("Goal", 2, None)

  function Corridor(id: int, src: Anchor, dst: Anchor, cells: seq<Vec>, validation: Option<real>): Candidate {
    Candidate(id, 0, src, dst, cells, 1, false, None, Some(0.9), None, validation)
  }

  /** Two corridors for the first interval, tied on the learned score, the second of them without cells. */
  function TiedRoute(validation: Option<real>): Inputs {
    var full, empty := Corridor(1, SPAWN, CHECKPOINT, [Zero], None), Corridor(2, SPAWN, CHECKPOINT, [], validation);
    Inputs(0, true, [SPAWN, CHECKPOINT, GOAL], [full, empty, Corridor(3, CHECKPOINT, GOAL, [Zero], None)], 0, 1,
           validation.Some?)
  }

  /** A validator that prefers the empty corridor turns a clean route into a rejected one. */
  lemma {:induction false} EmptyPathInterferes(digest: (int, int) -> nat, time: int -> int, ra: Outcome, rb: Outcome)
    requires Assembles(TiedRoute(None), digest, time, ra) && Assembles(TiedRoute(Some(1.0)), digest, time, rb)
    ensures SameUpToValidator(TiedRoute(None), TiedRoute(Some(1.0))) && !SameVerdict(ra, rb)
  {
    SameTiedRoute();
    TiedBroken(None, digest);
    TiedBroken(Some(1.0), digest);
    InterferenceExact(TiedRoute(None), TiedRoute(Some(1.0)), digest, time, ra, rb);
  }

  lemma {:induction false} SameTiedRoute()
    ensures SameUpToValidator(TiedRoute(None), TiedRoute(Some(1.0)))
  {}

  lemma {:induction false} TiedBroken(validation: Option<real>, digest: (int, int) -> nat)
    requires validation.Some? ==> validation.value == 1.0
    ensures Broken(TiedRoute(validation), digest) <==> validation.Some?
  {
    var inp := TiedRoute(validation);
    TiedFirst(validation, digest);
    TiedSecond(validation, digest);
    assert CoveredUpTo(inp, 2);
    var cs := Choices(inp, digest, 2);
    assert cs == [Choice(inp, digest, 0), Choice(inp, digest, 1)];
    assert cs[0] in cs;
  }

  lemma {:induction false} TiedFirst(validation: Option<real>, digest: (int, int) -> nat)
    requires validation.Some? ==> validation.value == 1.0
    ensures var inp := TiedRoute(validation);
            Covered(inp, 0) && (Choice(inp, digest, 0).pathCells == [] <==> validation.Some?)
  {
    var inp := TiedRoute(validation);
    var cs, k := inp.candidates, IntervalKey(inp, 0);
    var best := if validation.Some? then cs[1] else cs[0];
    assert InPool(k)(best) && best in cs;
    forall y | y in Pool(cs, k) && y != best ensures !Ranking(inp.useValidation)(y, best) {
      assert InPool(k)(y) && y in cs;
    }
    BestIsChosen(inp, digest, 0, best);
  }

  lemma {:induction false} TiedSecond(validation: Option<real>, digest: (int, int) -> nat)
    ensures var inp := TiedRoute(validation);
            Covered(inp, 1) && Choice(inp, digest, 1).pathCells != []
  {
    var inp := TiedRoute(validation);
    var cs, k := inp.candidates, IntervalKey(inp, 1);
    assert InPool(k)(cs[2]) && cs[2] in cs;
    forall y | y in Pool(cs, k) ensures y == cs[2] {
      assert InPool(k)(y) && y in cs;
    }
    BestIsChosen(inp, digest, 1, cs[2]);
  }
}
