/**
 Route assembly: one corridor per anchor interval, picked from the top of a ranked pool, then the
 finishability verdict. Digests and travel times are arbitrary functions.
 */
module Assembly {
  import opened Rotation
  import opened Collections
  import opened Lexicographic

  datatype Anchor = Anchor(tag: string, order: int, cell: Option<Vec>)

  datatype Candidate = Candidate(
    id: int, mapId: int, src: Anchor, dst: Anchor, pathCells: seq<Vec>, pathLength: int, isVirtual: bool,
    confidence: Option<real>, learned: Option<real>, combined: Option<real>, validation: Option<real>)

  datatype Inputs = Inputs(mapId: int, linked: bool, anchors: seq<Anchor>, candidates: seq<Candidate>,
                           seed: int, topK: int, useValidation: bool)

  /** An interval is named by the tags and orders of its two ends. */
  datatype Key = Key(srcTag: string, srcOrder: int, dstTag: string, dstOrder: int)

  function KeyBetween(src: Anchor, dst: Anchor): Key { Key(src.tag, src.order, dst.tag, dst.order) }

  function KeyOf(c: Candidate): Key { KeyBetween(c.src, c.dst) }

  // ----- ranking -----

  /** A missing score counts as -1. */
  function Score(s: Option<real>): real { if s.Some? then s.value else -1.0 }

  predicate ShorterFirst(a: Candidate, b: Candidate) {
    a.pathLength < b.pathLength || (a.pathLength == b.pathLength && a.id <= b.id)
  }

  predicate CombinedFirst(a: Candidate, b: Candidate) {
    Score(a.combined) > Score(b.combined) || (Score(a.combined) == Score(b.combined) && ShorterFirst(a, b))
  }

  /** Higher learned score, higher combined score, shorter, lower id. */
  predicate TieBreak(a: Candidate, b: Candidate) {
    Score(a.learned) > Score(b.learned) || (Score(a.learned) == Score(b.learned) && CombinedFirst(a, b))
  }

  function ZeroFloor(c: Candidate): int { if c.validation == Some(0.0) then 1 else 0 }

  predicate ValidationFirst(a: Candidate, b: Candidate) {
    || ZeroFloor(a) < ZeroFloor(b)
    || (ZeroFloor(a) == ZeroFloor(b)
        && (Score(a.validation) > Score(b.validation)
            || (Score(a.validation) == Score(b.validation) && CombinedFirst(a, b))))
  }

  /** As `TieBreak`, with the validation tiers right after the learned score. */
  predicate TieBreakValidated(a: Candidate, b: Candidate) {
    Score(a.learned) > Score(b.learned) || (Score(a.learned) == Score(b.learned) && ValidationFirst(a, b))
  }

  lemma {:induction false} RankingsAreOrders()
    ensures TotalPreorder(TieBreak) && TotalPreorder(TieBreakValidated)
  {}

  predicate Scored(c: Candidate) { c.learned.Some? }

  function InPool(k: Key): Candidate -> bool { c => KeyOf(c) == k && Scored(c) }

  /** The learned-scored candidates of one interval. */
  function Pool(candidates: seq<Candidate>, k: Key): seq<Candidate> { Filter(InPool(k), candidates) }

  function Ranked(pool: seq<Candidate>, useValidation: bool): seq<Candidate> {
    var byLearned := Sort(TieBreak, pool);
    if useValidation then Sort(TieBreakValidated, byLearned) else byLearned
  }

  function Min(a: int, b: int): int { if a < b then a else b }

  function Max(a: int, b: int): int { if a < b then b else a }

  /** An index into the top K, from a digest of seed and interval. */
  function Pick(digest: (int, int) -> nat, seed: int, interval: int, poolSize: nat, topK: int): nat {
    var k := Min(Max(1, topK), Max(1, poolSize));
    if k <= 1 then 0 else digest(seed, interval) % k
  }

  lemma {:induction false} PickInRange(digest: (int, int) -> nat, seed: int, interval: int, poolSize: nat, topK: int)
    requires poolSize > 0
    ensures Pick(digest, seed, interval, poolSize, topK) < Min(Max(1, topK), poolSize)
  {}

  lemma {:induction false} RankedPermutes(pool: seq<Candidate>, useValidation: bool)
    ensures multiset(Ranked(pool, useValidation)) == multiset(pool)
    ensures |Ranked(pool, useValidation)| == |pool|
    ensures forall c :: c in Ranked(pool, useValidation) <==> c in pool
    ensures Sorted(if useValidation then TieBreakValidated else TieBreak, Ranked(pool, useValidation))
  {
    RankingsAreOrders();
    var byLearned := Sort(TieBreak, pool);
    SortPermutes(TieBreak, pool);
    SortSorts(TieBreak, pool);
    if useValidation {
      SortPermutes(TieBreakValidated, byLearned);
      SortSorts(TieBreakValidated, byLearned);
    }
  }

  // ----- the result of an assembly -----

  datatype Reason =
    EmptyCorridors | PlainCpNotSupported | MissingCorridor | InvalidSchema | ChainBroken | ConfidenceBelowFloor

  datatype Outcome =
    | Route(mapId: int, anchors: seq<Anchor>, chosen: seq<Candidate>, cellsTotal: int, timeMs: int, confidence: real)
    | Error(reason: Reason, interval: Option<nat>)

  function IntervalKey(inp: Inputs, i: nat): Key
    requires i + 1 < |inp.anchors|
  {
    KeyBetween(inp.anchors[i], inp.anchors[i + 1])
  }

  /** The candidate of interval `i`. */
  function Choice(inp: Inputs, digest: (int, int) -> nat, i: nat): Candidate
    requires i + 1 < |inp.anchors| && Pool(inp.candidates, IntervalKey(inp, i)) != []
  {
    var pool := Pool(inp.candidates, IntervalKey(inp, i));
    RankedPermutes(pool, inp.useValidation);
    PickInRange(digest, inp.seed, i, |pool|, inp.topK);
    Ranked(pool, inp.useValidation)[Pick(digest, inp.seed, i, |pool|, inp.topK)]
  }

  predicate Covered(inp: Inputs, i: nat)
    requires i + 1 < |inp.anchors|
  {
    Pool(inp.candidates, IntervalKey(inp, i)) != []
  }

  ghost predicate CoveredUpTo(inp: Inputs, n: nat)
    requires n < |inp.anchors|
  {
    forall i :: 0 <= i < n ==> Covered(inp, i)
  }

  ghost function Choices(inp: Inputs, digest: (int, int) -> nat, n: nat): seq<Candidate>
    requires n < |inp.anchors| && CoveredUpTo(inp, n)
  {
    seq(n, i requires 0 <= i < n => assert Covered(inp, i); Choice(inp, digest, i))
  }

  predicate SharesAnchor(a: Candidate, b: Candidate) { a.dst.tag == b.src.tag && a.dst.order == b.src.order }

  predicate Continuous(a: Vec, b: Vec) { Abs(a.x - b.x) <= 1 && Abs(a.y - b.y) <= 1 && Abs(a.z - b.z) <= 1 }

  function SumScores(cs: seq<Candidate>): real {
    if cs == [] then 0.0 else SumScores(cs[..|cs| - 1]) + Score(cs[|cs| - 1].learned)
  }

  function SumLengths(cs: seq<Candidate>): int {
    if cs == [] then 0 else SumLengths(cs[..|cs| - 1]) + cs[|cs| - 1].pathLength
  }

  function SumTimes(time: int -> int, cs: seq<Candidate>): int {
    if cs == [] then 0 else SumTimes(time, cs[..|cs| - 1]) + time(cs[|cs| - 1].pathLength)
  }

  ghost predicate AllPathed(cs: seq<Candidate>) { forall c :: c in cs ==> c.pathCells != [] }

  predicate Pathed(a: Candidate, b: Candidate) { a.pathCells != [] && b.pathCells != [] }

  /** The first neighbouring pair in which a corridor has no cells. */
  ghost predicate SchemaBreak(cs: seq<Candidate>, i: nat) {
    && i + 1 < |cs| && !Pathed(cs[i], cs[i + 1])
    && forall j :: 0 <= j < i ==> Pathed(cs[j], cs[j + 1])
  }

  /** What an assembly returns when every interval has a choice. */
  ghost predicate FromChoices(inp: Inputs, time: int -> int, cs: seq<Candidate>, r: Outcome)
    requires cs != []
  {
    match r
    case Error(reason, interval) => reason == InvalidSchema && interval.Some? && SchemaBreak(cs, interval.value)
    case Route(mapId, anchors, chosen, cellsTotal, timeMs, confidence) =>
      && mapId == inp.mapId && anchors == inp.anchors && chosen == cs
      && (|cs| > 1 ==> AllPathed(cs))
      && cellsTotal == SumLengths(cs) && timeMs == SumTimes(time, cs)
      && confidence == SumScores(cs) / |cs| as real
  }

  /** What it returns otherwise: the first interval without a scored corridor. */
  ghost predicate MissingAt(inp: Inputs, n: nat, r: Outcome)
    requires n < |inp.anchors|
  {
    && r.Error? && r.reason == MissingCorridor && r.interval.Some? && r.interval.value < n
    && !Covered(inp, r.interval.value) && CoveredUpTo(inp, r.interval.value)
  }

  /** What an assembly must return, said in terms of the choices. */
  ghost predicate Assembles(inp: Inputs, digest: (int, int) -> nat, time: int -> int, r: Outcome) {
    var n := |inp.anchors| - 1;
    if n < 1 then r == Error(EmptyCorridors, None)
    else if !inp.linked then r == Error(PlainCpNotSupported, None)
    else if inp.candidates == [] then r == Error(EmptyCorridors, None)
    else if CoveredUpTo(inp, n) then FromChoices(inp, time, Choices(inp, digest, n), r)
    else MissingAt(inp, n, r)
  }

  /** Candidates of an interval agree with it at both ends. */
  lemma {:induction false} ChoiceFits(inp: Inputs, digest: (int, int) -> nat, i: nat)
    requires i + 1 < |inp.anchors| && Covered(inp, i)
    ensures var c := Choice(inp, digest, i);
            c in inp.candidates && KeyOf(c) == IntervalKey(inp, i) && Scored(c)
  {
    var pool := Pool(inp.candidates, IntervalKey(inp, i));
    RankedPermutes(pool, inp.useValidation);
    PickInRange(digest, inp.seed, i, |pool|, inp.topK);
    assert Choice(inp, digest, i) in Ranked(pool, inp.useValidation);
    assert InPool(IntervalKey(inp, i))(Choice(inp, digest, i));
  }

  // ----- the assembly pass -----

  function InInterval(k: Key): Candidate -> bool { c => KeyOf(c) == k }

  function ListAt(m: map<Key, seq<Candidate>>, k: Key): seq<Candidate> { if k in m then m[k] else [] }

  ghost predicate IndexedAt(m: map<Key, seq<Candidate>>, k: Key, candidates: seq<Candidate>) {
    ListAt(m, k) == Filter(InInterval(k), candidates)
  }

  ghost predicate IndexedBy(m: map<Key, seq<Candidate>>, candidates: seq<Candidate>) {
    forall k :: IndexedAt(m, k, candidates)
  }

  /** The dictionary of candidates by interval. */
  method IndexByInterval(candidates: seq<Candidate>) returns (m: map<Key, seq<Candidate>>)
    ensures IndexedBy(m, candidates)
  {
    m := map[];
    for i := 0 to |candidates|
      invariant IndexedBy(m, candidates[..i])
    {
      var c := candidates[i];
      IndexedMore(m, candidates[..i], c);
      assert candidates[..i + 1] == candidates[..i] + [c];
      m := m[KeyOf(c) := ListAt(m, KeyOf(c)) + [c]];
    }
    assert candidates[..|candidates|] == candidates;
  }

  lemma {:induction false} IndexedMore(m: map<Key, seq<Candidate>>, cs: seq<Candidate>, c: Candidate)
    requires IndexedBy(m, cs)
    ensures IndexedBy(m[KeyOf(c) := ListAt(m, KeyOf(c)) + [c]], cs + [c])
  {
    var n := m[KeyOf(c) := ListAt(m, KeyOf(c)) + [c]];
    forall k ensures IndexedAt(n, k, cs + [c]) {
      assert IndexedAt(m, k, cs);
      FilterSnoc(InInterval(k), cs, c);
    }
  }

  lemma {:induction false} FilterTwice(candidates: seq<Candidate>, k: Key)
    ensures Filter(Scored, Filter(InInterval(k), candidates)) == Pool(candidates, k)
  {
    FilterCompose(Scored, InInterval(k), InPool(k), candidates);
  }

  /** One turn of the selection loop. */
  method ChooseOne(inp: Inputs, digest: (int, int) -> nat, byInterval: map<Key, seq<Candidate>>, i: nat)
    returns (top: Option<Candidate>)
    requires i + 1 < |inp.anchors| && IndexedBy(byInterval, inp.candidates)
    ensures top.Some? <==> Covered(inp, i)
    ensures top.Some? ==> top.value == Choice(inp, digest, i)
  {
    var key := IntervalKey(inp, i);
    var scored := Filter(Scored, ListAt(byInterval, key));
    assert scored == Pool(inp.candidates, key) by {
      assert IndexedAt(byInterval, key, inp.candidates);
      FilterTwice(inp.candidates, key);
    }
    if scored == [] {
      top := None;
    } else {
      var ranked := Ranked(scored, inp.useValidation);
      RankedPermutes(scored, inp.useValidation);
      PickInRange(digest, inp.seed, i, |ranked|, inp.topK);
      top := Some(ranked[Pick(digest, inp.seed, i, |ranked|, inp.topK)]);
    }
  }

  lemma {:induction false} ChoicesGrow(inp: Inputs, digest: (int, int) -> nat, i: nat)
    requires i + 1 < |inp.anchors| && CoveredUpTo(inp, i) && Covered(inp, i)
    ensures CoveredUpTo(inp, i + 1)
    ensures Choices(inp, digest, i + 1) == Choices(inp, digest, i) + [Choice(inp, digest, i)]
  {}

  /** The selection loop; `missing` is the first interval without a scored corridor. */
  method ChooseAll(inp: Inputs, digest: (int, int) -> nat) returns (chosen: seq<Candidate>, missing: Option<nat>)
    requires |inp.anchors| >= 2
    ensures missing.None? ==> CoveredUpTo(inp, |inp.anchors| - 1) && chosen == Choices(inp, digest, |inp.anchors| - 1)
    ensures missing.Some? ==> missing.value < |inp.anchors| - 1 && !Covered(inp, missing.value)
    ensures missing.Some? ==> CoveredUpTo(inp, missing.value)
  {
    var byInterval := IndexByInterval(inp.candidates);
    chosen, missing := [], None;
    var i := 0;
    while i < |inp.anchors| - 1 && missing.None?
      invariant 0 <= i <= |inp.anchors| - 1
      invariant CoveredUpTo(inp, i)
      invariant missing.None? ==> chosen == Choices(inp, digest, i)
      invariant missing.Some? ==> missing.value == i < |inp.anchors| - 1 && !Covered(inp, i)
      decreases |inp.anchors| - i, missing.None?
    {
      var top := ChooseOne(inp, digest, byInterval, i);
      if top.None? {
        missing := Some(i);
      } else {
        ChoicesGrow(inp, digest, i);
        chosen := chosen + [top.value];
        i := i + 1;
      }
    }
  }

  // ----- chain continuity -----

  predicate Linked(a: Candidate, b: Candidate) {
    Pathed(a, b) && (SharesAnchor(a, b) || Continuous(a.pathCells[|a.pathCells| - 1], b.pathCells[0]))
  }

  ghost predicate LinkedUpTo(chosen: seq<Candidate>, n: int) {
    forall i :: 0 <= i < n && i + 1 < |chosen| ==> Linked(chosen[i], chosen[i + 1])
  }

  ghost predicate BreaksAt(chosen: seq<Candidate>, broken: Option<(nat, Reason)>) {
    match broken
    case None => LinkedUpTo(chosen, |chosen|)
    case Some((i, reason)) =>
      && i + 1 < |chosen| && LinkedUpTo(chosen, i) && !Linked(chosen[i], chosen[i + 1])
      && reason == if Pathed(chosen[i], chosen[i + 1]) then ChainBroken else InvalidSchema
  }

  /** The continuity loop, on any choice of corridors: the first pair that does not link, and why. */
  method FirstBreak(chosen: seq<Candidate>) returns (broken: Option<(nat, Reason)>)
    ensures BreaksAt(chosen, broken)
  {
    broken := None;
    var i := 0;
    while i < |chosen| - 1
      invariant 0 <= i && (i <= |chosen| - 1 || i == 0)
      invariant LinkedUpTo(chosen, i)
    {
      if !Linked(chosen[i], chosen[i + 1]) {
        return Some((i, if Pathed(chosen[i], chosen[i + 1]) then ChainBroken else InvalidSchema));
      }
      i := i + 1;
    }
  }

  /** Neighbouring choices name the anchor between them, so no chain is ever broken for lack of continuity. */
  lemma {:induction false} ChoicesShareAnchors(inp: Inputs, digest: (int, int) -> nat, i: nat)
    requires i + 2 < |inp.anchors| && Covered(inp, i) && Covered(inp, i + 1)
    ensures SharesAnchor(Choice(inp, digest, i), Choice(inp, digest, i + 1))
    ensures Linked(Choice(inp, digest, i), Choice(inp, digest, i + 1)) <==>
            Pathed(Choice(inp, digest, i), Choice(inp, digest, i + 1))
  {
    ChoiceFits(inp, digest, i);
    ChoiceFits(inp, digest, i + 1);
  }

  /** The assembly, step by step. */
  method AssembleRoute(inp: Inputs, digest: (int, int) -> nat, time: int -> int) returns (r: Outcome)
    ensures Assembles(inp, digest, time, r)
  {
    if |inp.anchors| < 2 {
      return Error(EmptyCorridors, None);
    }
    if !inp.linked {
      return Error(PlainCpNotSupported, None);
    }
    if inp.candidates == [] {
      return Error(EmptyCorridors, None);
    }
    var chosen, missing := ChooseAll(inp, digest);
    if missing.Some? {
      assert !CoveredUpTo(inp, |inp.anchors| - 1);
      return Error(MissingCorridor, missing);
    }
    var broken := FirstBreak(chosen);
    ChoicesLinkByPaths(inp, digest, chosen);
    BreakIsSchema(chosen, broken);
    if broken.Some? {
      return Error(broken.value.1, Some(broken.value.0));
    }
    var cells, ms, scores := Totals(chosen, time);
    r := Route(inp.mapId, inp.anchors, chosen, cells, ms, scores / |chosen| as real);
  }

  /** The three sums over the chosen corridors. */
  method Totals(chosen: seq<Candidate>, time: int -> int) returns (cells: int, ms: int, scores: real)
    ensures cells == SumLengths(chosen) && ms == SumTimes(time, chosen) && scores == SumScores(chosen)
  {
    cells, ms, scores := 0, 0, 0.0;
    for i := 0 to |chosen|
      invariant cells == SumLengths(chosen[..i]) && ms == SumTimes(time, chosen[..i])
      invariant scores == SumScores(chosen[..i])
    {
      var c := chosen[i];
      assert chosen[..i + 1][..i] == chosen[..i] && chosen[..i + 1][i] == c;
      cells, ms, scores := cells + c.pathLength, ms + time(c.pathLength), scores + Score(c.learned);
    }
    assert chosen[..|chosen|] == chosen;
  }

  ghost predicate LinksArePaths(chosen: seq<Candidate>) {
    forall i :: 0 <= i && i + 1 < |chosen| ==> (Linked(chosen[i], chosen[i + 1]) <==> Pathed(chosen[i], chosen[i + 1]))
  }

  lemma {:induction false} ChoicesLinkByPaths(inp: Inputs, digest: (int, int) -> nat, chosen: seq<Candidate>)
    requires |inp.anchors| >= 2 && CoveredUpTo(inp, |inp.anchors| - 1)
    requires chosen == Choices(inp, digest, |inp.anchors| - 1)
    ensures LinksArePaths(chosen)
  {
    forall i | 0 <= i && i + 1 < |chosen|
      ensures Linked(chosen[i], chosen[i + 1]) <==> Pathed(chosen[i], chosen[i + 1])
    {
      assert Covered(inp, i) && Covered(inp, i + 1);
      var c, d := Choice(inp, digest, i), Choice(inp, digest, i + 1);
      assert chosen[i] == c && chosen[i + 1] == d;
      assert Linked(c, d) <==> Pathed(c, d) by { ChoicesShareAnchors(inp, digest, i); }
    }
  }

  /** On the choices of an assembly, the only possible break is an empty path. */
  lemma {:induction false} BreakIsSchema(chosen: seq<Candidate>, broken: Option<(nat, Reason)>)
    requires LinksArePaths(chosen) && BreaksAt(chosen, broken)
    ensures broken.None? && |chosen| > 1 ==> AllPathed(chosen)
    ensures broken.Some? ==> broken.value.1 == InvalidSchema && SchemaBreak(chosen, broken.value.0)
  {
    if broken.None? && |chosen| > 1 {
      forall c | c in chosen ensures c.pathCells != [] {
        var i :| 0 <= i < |chosen| && chosen[i] == c;
        var j := if i > 0 then i - 1 else i;
        assert Linked(chosen[j], chosen[j + 1]);
      }
    }
  }

  // ----- the finishability gate -----

  const CONFIDENCE_FLOOR := 0.30

  datatype Verdict = Verdict(verified: bool, timeMs: Option<int>, confidence: Option<real>, reject: Option<Reason>)

  function Gate(r: Outcome): Verdict {
    match r
    case Error(reason, _) => Verdict(false, None, None, Some(reason))
    case Route(_, _, _, _, timeMs, confidence) =>
      if confidence < CONFIDENCE_FLOOR then Verdict(false, Some(timeMs), Some(confidence), Some(ConfidenceBelowFloor))
      else Verdict(true, Some(timeMs), Some(confidence), None)
  }

  // ----- the validator cannot change the verdict -----

  /** The same candidates in the same places, up to their validation scores. */
  ghost predicate SameButValidation(xs: seq<Candidate>, ys: seq<Candidate>) {
    && |xs| == |ys|
    && forall i :: 0 <= i < |xs| ==> ys[i] == xs[i].(validation := ys[i].validation)
  }

  lemma {:induction false} PoolsSameButValidation(xs: seq<Candidate>, ys: seq<Candidate>, k: Key)
    requires SameButValidation(xs, ys)
    ensures SameButValidation(Pool(xs, k), Pool(ys, k))
  {
    if xs != [] {
      var n := |xs| - 1;
      PoolsSameButValidation(xs[..n], ys[..n], k);
      assert ys[n] == xs[n].(validation := ys[n].validation);
    }
  }

  function LearnedOf(c: Candidate): real { Score(c.learned) }

  predicate Descending(x: real, y: real) { x >= y }

  /** Both rankings list the learned scores in the same, descending, order. */
  lemma {:induction false} RankedScores(xs: seq<Candidate>, ys: seq<Candidate>, useX: bool, useY: bool)
    requires SameButValidation(xs, ys)
    ensures Map(LearnedOf, Ranked(xs, useX)) == Map(LearnedOf, Ranked(ys, useY))
  {
    assert Map(LearnedOf, xs) == Map(LearnedOf, ys);
    RankedDescends(xs, useX);
    RankedDescends(ys, useY);
    SortedUnique(Descending, Map(LearnedOf, Ranked(xs, useX)), Map(LearnedOf, Ranked(ys, useY)));
  }

  lemma {:induction false} RankedDescends(xs: seq<Candidate>, use: bool)
    ensures Sorted(Descending, Map(LearnedOf, Ranked(xs, use)))
    ensures multiset(Map(LearnedOf, Ranked(xs, use))) == multiset(Map(LearnedOf, xs))
  {
    RankedPermutes(xs, use);
    MapKeepsMultiset(LearnedOf, Ranked(xs, use), xs);
    var leq := if use then TieBreakValidated else TieBreak;
    forall i, j | 0 <= i < j < |xs| ensures LearnedOf(Ranked(xs, use)[i]) >= LearnedOf(Ranked(xs, use)[j]) {
      assert leq(Ranked(xs, use)[i], Ranked(xs, use)[j]);
    }
  }

  /** The same assembly inputs, up to validation scores and the use made of them. */
  ghost predicate SameUpToValidator(a: Inputs, b: Inputs) {
    && SameButValidation(a.candidates, b.candidates)
    && b == a.(candidates := b.candidates, useValidation := b.useValidation)
  }

  lemma {:induction false} ChoiceScores(a: Inputs, b: Inputs, digest: (int, int) -> nat, i: nat)
    requires SameUpToValidator(a, b) && i + 1 < |a.anchors|
    ensures Covered(a, i) <==> Covered(b, i)
    ensures Covered(a, i) ==> LearnedOf(Choice(a, digest, i)) == LearnedOf(Choice(b, digest, i))
  {
    var k := IntervalKey(a, i);
    var xs, ys := Pool(a.candidates, k), Pool(b.candidates, k);
    PoolsSameButValidation(a.candidates, b.candidates, k);
    if xs != [] {
      RankedScores(xs, ys, a.useValidation, b.useValidation);
      RankedPermutes(xs, a.useValidation);
      RankedPermutes(ys, b.useValidation);
      PickInRange(digest, a.seed, i, |xs|, a.topK);
      var p := Pick(digest, a.seed, i, |xs|, a.topK);
      assert Map(LearnedOf, Ranked(xs, a.useValidation))[p] == Map(LearnedOf, Ranked(ys, b.useValidation))[p];
    }
  }

  lemma {:induction false} SumScoresEqual(xs: seq<Candidate>, ys: seq<Candidate>)
    requires |xs| == |ys| && forall i :: 0 <= i < |xs| ==> LearnedOf(xs[i]) == LearnedOf(ys[i])
    ensures SumScores(xs) == SumScores(ys)
  {
    if xs != [] {
      SumScoresEqual(xs[..|xs| - 1], ys[..|ys| - 1]);
    }
  }

  /** The verdict in closed form, for corridors that all have cells: reject reason and confidence. */
  ghost function PathedVerdict(inp: Inputs, digest: (int, int) -> nat): (Option<Reason>, Option<real>) {
    var n := |inp.anchors| - 1;
    if n < 1 then (Some(EmptyCorridors), None)
    else if !inp.linked then (Some(PlainCpNotSupported), None)
    else if inp.candidates == [] then (Some(EmptyCorridors), None)
    else if !CoveredUpTo(inp, n) then (Some(MissingCorridor), None)
    else
      FloorVerdict(SumScores(Choices(inp, digest, n)) / n as real)
  }

  ghost function FloorVerdict(confidence: real): (Option<Reason>, Option<real>) {
    (if confidence < 0.3 then Some(ConfidenceBelowFloor) else None, Some(confidence))
  }

  /** The route is rejected for an empty path: there is a neighbouring pair to check, and some choice has no cells. */
  ghost predicate Broken(inp: Inputs, digest: (int, int) -> nat) {
    var n := |inp.anchors| - 1;
    n >= 2 && inp.linked && inp.candidates != [] && CoveredUpTo(inp, n) && !AllPathed(Choices(inp, digest, n))
  }

  /** The gate's verdict in closed form, on all inputs. */
  lemma {:induction false} GateClosedForm(inp: Inputs, digest: (int, int) -> nat, time: int -> int, r: Outcome)
    requires Assembles(inp, digest, time, r)
    ensures (Gate(r).reject, Gate(r).confidence)
         == if Broken(inp, digest) then (Some(InvalidSchema), None) else PathedVerdict(inp, digest)
    ensures Gate(r).verified <==> Gate(r).reject.None?
    ensures Gate(r).timeMs == if r.Route? then Some(SumTimes(time, r.chosen)) else None
  {
    var n := |inp.anchors| - 1;
    if n >= 1 && inp.linked && inp.candidates != [] {
      if CoveredUpTo(inp, n) {
        CoveredBroken(inp, digest, n);
        CoveredPathed(inp, digest, n);
        RouteVerdict(inp, time, Choices(inp, digest, n), r);
      } else {
        assert MissingAt(inp, n, r);
      }
    }
  }

  lemma {:induction false} CoveredBroken(inp: Inputs, digest: (int, int) -> nat, n: nat)
    requires |inp.anchors| == n + 1 >= 2 && inp.linked && inp.candidates != [] && CoveredUpTo(inp, n)
    ensures Broken(inp, digest) <==> n >= 2 && !AllPathed(Choices(inp, digest, n))
  {}

  lemma {:induction false} CoveredPathed(inp: Inputs, digest: (int, int) -> nat, n: nat)
    requires |inp.anchors| == n + 1 >= 2 && inp.linked && inp.candidates != [] && CoveredUpTo(inp, n)
    ensures PathedVerdict(inp, digest) == FloorVerdict(SumScores(Choices(inp, digest, n)) / n as real)
  {}

  lemma {:induction false} RouteVerdict(inp: Inputs, time: int -> int, cs: seq<Candidate>, r: Outcome)
    requires cs != [] && FromChoices(inp, time, cs, r)
    ensures Gate(r).verified <==> Gate(r).reject.None?
    ensures if |cs| >= 2 && !AllPathed(cs) then (Gate(r).reject, Gate(r).confidence) == (Some(InvalidSchema), None)
            else (Gate(r).reject, Gate(r).confidence) == FloorVerdict(SumScores(cs) / |cs| as real)
  {
    ErrorIsEmptyPath(inp, time, cs, r);
  }

  lemma {:induction false} ErrorIsEmptyPath(inp: Inputs, time: int -> int, cs: seq<Candidate>, r: Outcome)
    requires cs != [] && FromChoices(inp, time, cs, r)
    ensures r.Error? <==> |cs| >= 2 && !AllPathed(cs)
    ensures r.Error? ==> r.reason == InvalidSchema
    ensures r.Route? ==> r.confidence == SumScores(cs) / |cs| as real
  {
    if r.Error? {
      var i := r.interval.value;
      assert !Pathed(cs[i], cs[i + 1]) && cs[i] in cs && cs[i + 1] in cs;
    }
  }

  lemma {:induction false} PathedVerdictSame(a: Inputs, b: Inputs, digest: (int, int) -> nat)
    requires SameUpToValidator(a, b)
    ensures PathedVerdict(a, digest) == PathedVerdict(b, digest)
  {
    var n := |a.anchors| - 1;
    if n >= 1 {
      CoverageSame(a, b, digest, n);
      if CoveredUpTo(a, n) {
        ChoicesScoreSame(a, b, digest, n);
      }
    }
  }

  /**
   Interference, exactly: the gate's decision, reason and confidence are the same under two uses of the
   validator if and only if both or neither of them chooses a corridor without cells where that matters.
   */
  lemma {:induction false} InterferenceExact(a: Inputs, b: Inputs, digest: (int, int) -> nat, time: int -> int,
                                             ra: Outcome, rb: Outcome)
    requires SameUpToValidator(a, b)
    requires Assembles(a, digest, time, ra) && Assembles(b, digest, time, rb)
    ensures SameVerdict(ra, rb) <==> (Broken(a, digest) <==> Broken(b, digest))
  {
    GateClosedForm(a, digest, time, ra);
    GateClosedForm(b, digest, time, rb);
    PathedVerdictSame(a, b, digest);
  }

  ghost predicate SameVerdict(ra: Outcome, rb: Outcome) {
    && Gate(ra).verified == Gate(rb).verified
    && Gate(ra).reject == Gate(rb).reject
    && Gate(ra).confidence == Gate(rb).confidence
  }

  /**
   Nothing hangs on a tie: the route is one interval, or candidates of one interval with equal learned scores
   all have cells or all have none.
   */
  ghost predicate PathsSettled(inp: Inputs) {
    || |inp.anchors| <= 2
    || forall c, d :: c in inp.candidates && d in inp.candidates && Tied(c, d) ==> SamePathedness(c, d)
  }

  predicate Tied(c: Candidate, d: Candidate) { KeyOf(c) == KeyOf(d) && Scored(c) && c.learned == d.learned }

  predicate SamePathedness(c: Candidate, d: Candidate) { c.pathCells == [] <==> d.pathCells == [] }

  lemma {:induction false} AllPathedSettles(inp: Inputs)
    requires AllPathed(inp.candidates)
    ensures PathsSettled(inp)
  {}

  /**
   Non-interference: whatever the validator scores and whether or not its tie-break is used, the
   gate's decision, its reason and its confidence are the same, as long as no empty path hangs on a tie.
   */
  lemma {:induction false} ValidatorCannotInterfere(a: Inputs, b: Inputs, digest: (int, int) -> nat, time: int -> int,
                                                    ra: Outcome, rb: Outcome)
    requires SameUpToValidator(a, b) && PathsSettled(a)
    requires Assembles(a, digest, time, ra) && Assembles(b, digest, time, rb)
    ensures SameVerdict(ra, rb)
  {
    BrokenSame(a, b, digest);
    InterferenceExact(a, b, digest, time, ra, rb);
  }

  lemma {:induction false} BrokenSame(a: Inputs, b: Inputs, digest: (int, int) -> nat)
    requires SameUpToValidator(a, b) && PathsSettled(a)
    ensures Broken(a, digest) <==> Broken(b, digest)
  {
    var n := |a.anchors| - 1;
    if n >= 2 {
      CoverageSame(a, b, digest, n);
      if CoveredUpTo(a, n) {
        ChoicesPathedSame(a, b, digest, n);
      }
    }
  }

  lemma {:induction false} ChoicesPathedSame(a: Inputs, b: Inputs, digest: (int, int) -> nat, n: nat)
    requires SameUpToValidator(a, b) && PathsSettled(a) && n == |a.anchors| - 1 >= 2
    requires CoveredUpTo(a, n) && CoveredUpTo(b, n)
    ensures AllPathed(Choices(a, digest, n)) <==> AllPathed(Choices(b, digest, n))
  {
    var xs, ys := Choices(a, digest, n), Choices(b, digest, n);
    forall i | 0 <= i < n ensures SamePathedness(xs[i], ys[i]) {
      assert Covered(a, i) && Covered(b, i);
      ChoicePathedSame(a, b, digest, i);
    }
    PointwisePathed(xs, ys);
  }

  lemma {:induction false} PointwisePathed(xs: seq<Candidate>, ys: seq<Candidate>)
    requires |xs| == |ys| && forall i :: 0 <= i < |xs| ==> SamePathedness(xs[i], ys[i])
    ensures AllPathed(xs) <==> AllPathed(ys)
  {
    if AllPathed(xs) {
      forall c | c in ys ensures c.pathCells != [] {
        var i :| 0 <= i < |ys| && ys[i] == c;
        assert xs[i] in xs;
      }
    }
    if AllPathed(ys) {
      forall c | c in xs ensures c.pathCells != [] {
        var i :| 0 <= i < |xs| && xs[i] == c;
        assert ys[i] in ys;
      }
    }
  }

  lemma {:induction false} ChoicePathedSame(a: Inputs, b: Inputs, digest: (int, int) -> nat, i: nat)
    requires SameUpToValidator(a, b) && PathsSettled(a) && 2 < |a.anchors| && i + 1 < |a.anchors|
    requires Covered(a, i) && Covered(b, i)
    ensures SamePathedness(Choice(a, digest, i), Choice(b, digest, i))
  {
    var c, d := Choice(a, digest, i), Choice(b, digest, i);
    ChoiceScores(a, b, digest, i);
    ChoiceFits(a, digest, i);
    ChoiceFits(b, digest, i);
    var j :| 0 <= j < |b.candidates| && b.candidates[j] == d;
    var e := a.candidates[j];
    assert d == e.(validation := d.validation);
    assert e in a.candidates && Tied(c, e);
  }

  lemma {:induction false} CoverageSame(a: Inputs, b: Inputs, digest: (int, int) -> nat, n: nat)
    requires SameUpToValidator(a, b) && n < |a.anchors|
    ensures CoveredUpTo(a, n) <==> CoveredUpTo(b, n)
  {
    forall i | 0 <= i < n ensures Covered(a, i) <==> Covered(b, i) {
      ChoiceScores(a, b, digest, i);
    }
  }

  lemma {:induction false} ChoicesScoreSame(a: Inputs, b: Inputs, digest: (int, int) -> nat, n: nat)
    requires SameUpToValidator(a, b)
    requires n == |a.anchors| - 1 && CoveredUpTo(a, n) && CoveredUpTo(b, n)
    ensures SumScores(Choices(a, digest, n)) == SumScores(Choices(b, digest, n))
  {
    var xs, ys := Choices(a, digest, n), Choices(b, digest, n);
    forall i | 0 <= i < n ensures LearnedOf(xs[i]) == LearnedOf(ys[i]) {
      assert Covered(a, i) && Covered(b, i);
      ChoiceScores(a, b, digest, i);
    }
    SumScoresEqual(xs, ys);
  }

  // ----- the validator pass -----

  /** The score a validator gives a candidate of the interval with the given index, if any. */
  type Validator = (Candidate, nat) -> Option<real>

  /** The order in which intervals are validated: by source order, destination order, then tags. */
  predicate KeyLeq(a: Key, b: Key) {
    || a.srcOrder < b.srcOrder
    || (a.srcOrder == b.srcOrder
        && (a.dstOrder < b.dstOrder
            || (a.dstOrder == b.dstOrder
                && (StringLt(a.srcTag, b.srcTag) || (a.srcTag == b.srcTag && StringLeq(a.dstTag, b.dstTag))))))
  }

  function DistinctKeys(cs: seq<Candidate>): (r: seq<Key>)
    ensures forall k :: k in r <==> exists c :: c in cs && KeyOf(c) == k
    ensures Distinct(r)
  {
    if cs == [] then []
    else
      var front := DistinctKeys(cs[..|cs| - 1]);
      assert cs == cs[..|cs| - 1] + [cs[|cs| - 1]];
      if KeyOf(cs[|cs| - 1]) in front then front else front + [KeyOf(cs[|cs| - 1])]
  }

  function IntervalOrder(cs: seq<Candidate>): seq<Key> { Sort(KeyLeq, DistinctKeys(cs)) }

  function PlaceIn(cs: seq<Candidate>, k: Key): nat -> bool { (i: nat) => i < |cs| && KeyOf(cs[i]) == k }

  /** Places in the order of their candidates. */
  function PlaceOrder(cs: seq<Candidate>): (nat, nat) -> bool {
    (i: nat, j: nat) => j >= |cs| || (i < |cs| && TieBreak(cs[i], cs[j]))
  }

  /** The places of the candidates of one interval, best first, at most `cap` of them. */
  function TopPlaces(cs: seq<Candidate>, k: Key, cap: nat): seq<nat> {
    TakeAtMost(Sort(PlaceOrder(cs), Filter(PlaceIn(cs, k), Range(|cs|))), cap)
  }

  lemma {:induction false} TopPlacesFit(cs: seq<Candidate>, k: Key, cap: nat)
    ensures forall i :: i in TopPlaces(cs, k, cap) ==> i < |cs| && KeyOf(cs[i]) == k
  {
    var places := Filter(PlaceIn(cs, k), Range(|cs|));
    SortPermutes(PlaceOrder(cs), places);
    forall i | i in TopPlaces(cs, k, cap) ensures i < |cs| && KeyOf(cs[i]) == k {
      assert i in Sort(PlaceOrder(cs), places);
      assert PlaceIn(cs, k)(i);
    }
  }

  /** The candidate at place `i` after its interval, the `idx`-th, has been validated. */
  function Validated(cs: seq<Candidate>, validator: Validator, cap: nat, idx: nat, i: nat): Candidate
    requires i < |cs|
  {
    if i in TopPlaces(cs, KeyOf(cs[i]), cap) && Scored(cs[i]) && validator(cs[i], idx).Some?
    then cs[i].(validation := validator(cs[i], idx)) else cs[i]
  }

  ghost predicate IntervalScored(cs: seq<Candidate>, validator: Validator, cap: nat, idx: nat, k: Key,
                                 before: seq<Candidate>, after: seq<Candidate>)
    requires |cs| == |before| == |after|
  {
    && (forall i :: 0 <= i < |cs| && KeyOf(cs[i]) != k ==> after[i] == before[i])
    && (forall i :: 0 <= i < |cs| && KeyOf(cs[i]) == k ==> after[i] == Validated(cs, validator, cap, idx, i))
  }

  /** The inner loop: one interval is validated. */
  method ScoreInterval(cs: seq<Candidate>, validator: Validator, cap: nat, idx: nat, k: Key, sofar: seq<Candidate>)
    returns (out: seq<Candidate>)
    requires |sofar| == |cs|
    requires forall i :: 0 <= i < |cs| && KeyOf(cs[i]) == k ==> sofar[i] == cs[i]
    ensures |out| == |cs| && IntervalScored(cs, validator, cap, idx, k, sofar, out)
  {
    out := sofar;
    var top := TopPlaces(cs, k, cap);
    TopPlacesFit(cs, k, cap);
    for j := 0 to |top|
      invariant |out| == |cs|
      invariant forall i :: 0 <= i < |cs| && KeyOf(cs[i]) != k ==> out[i] == sofar[i]
      invariant forall i :: 0 <= i < |cs| && KeyOf(cs[i]) == k ==>
                              out[i] == if i in top[..j] then Validated(cs, validator, cap, idx, i) else cs[i]
    {
      var p := top[j];
      assert p in top;
      assert top[..j + 1] == top[..j] + [p];
      if Scored(cs[p]) && validator(cs[p], idx).Some? {
        out := out[p := cs[p].(validation := validator(cs[p], idx))];
      }
    }
    assert top[..|top|] == top;
  }

  /** Every candidate carries the validation of its own interval. */
  ghost predicate ValidatedUpTo(cs: seq<Candidate>, validator: Validator, cap: nat, order: seq<Key>,
                                n: nat, out: seq<Candidate>)
    requires n <= |order| && |cs| == |out|
  {
    && (forall i :: 0 <= i < |cs| && KeyOf(cs[i]) !in order[..n] ==> out[i] == cs[i])
    && forall i, d :: 0 <= i < |cs| && 0 <= d < n && KeyOf(cs[i]) == order[d] ==>
                        out[i] == Validated(cs, validator, cap, d, i)
  }

  /**
   Only the scored candidates among the first `cap` of an interval are asked for, and only their validation
   changes.
   */
  method ScoreTop(cs: seq<Candidate>, validator: Validator, cap: nat) returns (out: seq<Candidate>)
    ensures |out| == |cs| && ValidatedUpTo(cs, validator, cap, IntervalOrder(cs), |IntervalOrder(cs)|, out)
    ensures SameButValidation(cs, out)
  {
    var order := IntervalOrder(cs);
    SortPermutes(KeyLeq, DistinctKeys(cs));
    PermutationDistinct(DistinctKeys(cs), order);
    out := cs;
    for idx := 0 to |order|
      invariant |out| == |cs| && ValidatedUpTo(cs, validator, cap, order, idx, out)
    {
      ghost var before := out;
      assert order[idx] !in order[..idx];
      out := ScoreInterval(cs, validator, cap, idx, order[idx], out);
      ValidatedStep(cs, validator, cap, order, idx, before, out);
    }
    OnlyValidationChanged(cs, validator, cap, order, out);
  }

  lemma {:induction false} ValidatedStep(cs: seq<Candidate>, validator: Validator, cap: nat,
                                         order: seq<Key>, idx: nat, before: seq<Candidate>, after: seq<Candidate>)
    requires idx < |order| && Distinct(order) && |cs| == |before| == |after|
    requires ValidatedUpTo(cs, validator, cap, order, idx, before)
    requires IntervalScored(cs, validator, cap, idx, order[idx], before, after)
    ensures ValidatedUpTo(cs, validator, cap, order, idx + 1, after)
  {
    assert order[..idx + 1] == order[..idx] + [order[idx]];
  }

  lemma {:induction false} OnlyValidationChanged(cs: seq<Candidate>, validator: Validator, cap: nat,
                                                 order: seq<Key>, out: seq<Candidate>)
    requires |out| == |cs| && ValidatedUpTo(cs, validator, cap, order, |order|, out)
    ensures SameButValidation(cs, out)
  {
    forall i | 0 <= i < |cs| ensures out[i] == cs[i].(validation := out[i].validation) {
      if KeyOf(cs[i]) in order[..|order|] {
        var d :| 0 <= d < |order| && order[d] == KeyOf(cs[i]);
        assert out[i] == Validated(cs, validator, cap, d, i);
      }
    }
  }

  // ----- the index the validator is given -----

  lemma {:induction false} KeyOrder(a: Key, b: Key, c: Key)
    ensures KeyLeq(a, b) || KeyLeq(b, a)
    ensures KeyLeq(a, b) && KeyLeq(b, a) ==> a == b
    ensures KeyLeq(a, b) && KeyLeq(b, c) ==> KeyLeq(a, c)
  {
    StringOrder(a.srcTag, b.srcTag, c.srcTag);
    StringOrder(b.srcTag, c.srcTag, a.srcTag);
    StringOrder(a.dstTag, b.dstTag, c.dstTag);
  }

  /** The intervals with candidates that sort before `k`. */
  ghost function KeysBelow(cs: seq<Candidate>, k: Key): set<Key> {
    set c | c in cs && KeyLeq(KeyOf(c), k) && KeyOf(c) != k :: KeyOf(c)
  }

  lemma {:induction false} OrderedKeys(cs: seq<Candidate>)
    ensures var order := IntervalOrder(cs);
            && Distinct(order) && Sorted(KeyLeq, order)
            && forall k :: k in order <==> exists c :: c in cs && KeyOf(c) == k
  {
    forall a, b, c
      ensures KeyLeq(a, b) || KeyLeq(b, a)
      ensures KeyLeq(a, b) && KeyLeq(b, c) ==> KeyLeq(a, c)
    {
      KeyOrder(a, b, c);
    }
    SortPermutes(KeyLeq, DistinctKeys(cs));
    SortSorts(KeyLeq, DistinctKeys(cs));
    PermutationDistinct(DistinctKeys(cs), IntervalOrder(cs));
  }

  /** The validator is given the number of intervals with candidates that sort before this one. */
  lemma {:induction false} IndexIsRank(cs: seq<Candidate>, d: nat)
    requires d < |IntervalOrder(cs)|
    ensures |KeysBelow(cs, IntervalOrder(cs)[d])| == d
  {
    var order := IntervalOrder(cs);
    OrderedKeys(cs);
    forall k ensures k in KeysBelow(cs, order[d]) <==> k in order[..d] {
      if k in order[..d] {
        var i :| 0 <= i < d && order[i] == k;
        assert KeyLeq(order[i], order[d]) && order[i] != order[d];
        assert k in order;
      }
      if k in KeysBelow(cs, order[d]) {
        assert k in order;
        var i :| 0 <= i < |order| && order[i] == k;
        if i > d {
          KeyOrder(order[d], order[i], k);
        }
      }
    }
    assert KeysBelow(cs, order[d]) == Elements(order[..d]);
    DistinctCardinality(order[..d]);
  }

  /**
   So the index agrees with the one the assembly loop uses for interval `i` if and only if exactly `i` intervals
   with candidates sort before it; an interval without candidates, or one off the route, shifts the ones after it.
   */
  lemma {:induction false} IndexAgrees(inp: Inputs, i: nat, d: nat)
    requires i + 1 < |inp.anchors| && d < |IntervalOrder(inp.candidates)|
    requires IntervalOrder(inp.candidates)[d] == IntervalKey(inp, i)
    ensures d == i <==> |KeysBelow(inp.candidates, IntervalKey(inp, i))| == i
  {
    IndexIsRank(inp.candidates, d);
  }

  /** One interval without candidates, and the index of the next one is off by one. */
  lemma {:induction false} IndexShifted(inp: Inputs, c: Candidate)
    requires |inp.anchors| == 3 && inp.candidates == [c] && KeyOf(c) == IntervalKey(inp, 1)
    ensures IntervalOrder(inp.candidates) == [IntervalKey(inp, 1)]
  {
    var order := IntervalOrder([c]);
    OrderedKeys([c]);
    assert c in [c];
    forall d | 0 <= d < |order| ensures order[d] == KeyOf(c) {
      assert order[d] in order;
    }
    DistinctCardinality(order);
    assert Elements(order) == {KeyOf(c)};
  }

  /** The intervals up to `n`, in the order of the route. */
  ghost function RouteKeys(inp: Inputs, n: nat): seq<Key>
    requires n < |inp.anchors|
  {
    seq(n, h requires 0 <= h < n => IntervalKey(inp, h))
  }

  /** The intervals of the route sort in the order of the route. */
  ghost predicate RouteSorted(inp: Inputs) {
    forall h, i :: 0 <= h < i && i + 1 < |inp.anchors| ==> Precedes(inp, h, i)
  }

  ghost predicate Precedes(inp: Inputs, h: nat, i: nat)
    requires h < |inp.anchors| - 1 && i < |inp.anchors| - 1
  {
    KeyLeq(IntervalKey(inp, h), IntervalKey(inp, i)) && IntervalKey(inp, h) != IntervalKey(inp, i)
  }

  ghost predicate HasCandidate(inp: Inputs, h: nat)
    requires h + 1 < |inp.anchors|
  {
    exists c :: c in inp.candidates && KeyOf(c) == IntervalKey(inp, h)
  }

  ghost predicate OnRoute(inp: Inputs, c: Candidate) {
    exists h :: 0 <= h && h + 1 < |inp.anchors| && KeyOf(c) == IntervalKey(inp, h)
  }

  /**
   The two indices agree when the route's intervals sort in route order, every interval up to this one has a
   candidate, and no candidate is off the route.
   */
  lemma {:induction false} IndexOnFullRoute(inp: Inputs, i: nat, d: nat)
    requires i + 1 < |inp.anchors| && d < |IntervalOrder(inp.candidates)|
    requires IntervalOrder(inp.candidates)[d] == IntervalKey(inp, i)
    requires RouteSorted(inp) && forall h :: 0 <= h <= i ==> HasCandidate(inp, h)
    requires forall c :: c in inp.candidates ==> OnRoute(inp, c)
    ensures d == i
  {
    var keys, k := RouteKeys(inp, i), IntervalKey(inp, i);
    forall x ensures x in KeysBelow(inp.candidates, k) <==> x in keys {
      BelowOnRoute(inp, i, x);
    }
    assert KeysBelow(inp.candidates, k) == Elements(keys);
    forall g, h | 0 <= g < h < |keys| ensures keys[g] != keys[h] {
      assert Precedes(inp, g, h);
    }
    DistinctCardinality(keys);
    IndexIsRank(inp.candidates, d);
  }

  lemma {:induction false} BelowOnRoute(inp: Inputs, i: nat, x: Key)
    requires i + 1 < |inp.anchors| && RouteSorted(inp) && forall h :: 0 <= h <= i ==> HasCandidate(inp, h)
    requires forall c :: c in inp.candidates ==> OnRoute(inp, c)
    ensures x in KeysBelow(inp.candidates, IntervalKey(inp, i)) <==> x in RouteKeys(inp, i)
  {
    var k, keys := IntervalKey(inp, i), RouteKeys(inp, i);
    if x in keys {
      var h :| 0 <= h < i && keys[h] == x;
      assert Precedes(inp, h, i) && HasCandidate(inp, h);
    }
    if x in KeysBelow(inp.candidates, k) {
      var c :| c in inp.candidates && KeyOf(c) == x && KeyLeq(x, k) && x != k;
      assert OnRoute(inp, c);
      var h :| 0 <= h && h + 1 < |inp.anchors| && x == IntervalKey(inp, h);
      if h > i {
        assert Precedes(inp, i, h);
        KeyOrder(x, k, x);
      } else {
        assert h < i && keys[h] == x;
      }
    }
  }

  // ----- assembly with and without a validator -----

  const VALIDATOR_CAP := 10

  /** What assembling with an optional validator may return. */
  ghost predicate AssembledWith(inp: Inputs, validator: Option<Validator>, digest: (int, int) -> nat, time: int -> int,
                                r: Outcome) {
    exists cs :: ScoredBy(inp, validator, cs)
                 && Assembles(inp.(candidates := cs, useValidation := validator.Some?), digest, time, r)
  }

  ghost predicate ScoredBy(inp: Inputs, validator: Option<Validator>, cs: seq<Candidate>) {
    && |cs| == |inp.candidates| && SameButValidation(inp.candidates, cs)
    && match validator
       case None => cs == inp.candidates
       case Some(v) =>
         var order := IntervalOrder(inp.candidates);
         ValidatedUpTo(inp.candidates, v, Max(inp.topK, 10), order, |order|, cs)
  }

  /** The validator pass, when there is a validator, followed by the assembly. */
  method AssembleWithValidator(inp: Inputs, validator: Option<Validator>, digest: (int, int) -> nat, time: int -> int)
    returns (r: Outcome)
    ensures AssembledWith(inp, validator, digest, time, r)
  {
    var cs := inp.candidates;
    if validator.Some? {
      cs := ScoreTop(inp.candidates, validator.value, Max(inp.topK, VALIDATOR_CAP));
    }
    assert ScoredBy(inp, validator, cs);
    r := AssembleRoute(inp.(candidates := cs, useValidation := validator.Some?), digest, time);
  }

  lemma {:induction false} SameThroughBase(base: seq<Candidate>, xs: seq<Candidate>, ys: seq<Candidate>)
    requires SameButValidation(base, xs) && SameButValidation(base, ys)
    ensures SameButValidation(xs, ys)
  {
    forall i | 0 <= i < |xs| ensures ys[i] == xs[i].(validation := ys[i].validation) {
      assert xs[i] == base[i].(validation := xs[i].validation) && ys[i] == base[i].(validation := ys[i].validation);
    }
  }

  /**
   Any two validators, or a validator and none, lead to the same verdict, reason and confidence when no empty
   path hangs on a tie.
   */
  lemma {:induction false} VerdictIgnoresValidator(inp: Inputs, v: Option<Validator>, w: Option<Validator>,
                                                   digest: (int, int) -> nat, time: int -> int, rv: Outcome,
                                                   rw: Outcome)
    requires PathsSettled(inp)
    requires AssembledWith(inp, v, digest, time, rv) && AssembledWith(inp, w, digest, time, rw)
    ensures SameVerdict(rv, rw)
  {
    var xs :| ScoredBy(inp, v, xs) && Assembles(inp.(candidates := xs, useValidation := v.Some?), digest, time, rv);
    var ys :| ScoredBy(inp, w, ys) && Assembles(inp.(candidates := ys, useValidation := w.Some?), digest, time, rw);
    var a, b := inp.(candidates := xs, useValidation := v.Some?), inp.(candidates := ys, useValidation := w.Some?);
    SameThroughBase(inp.candidates, xs, ys);
    SettledSame(inp, a);
    ValidatorCannotInterfere(a, b, digest, time, rv, rw);
  }

  lemma {:induction false} SettledSame(a: Inputs, b: Inputs)
    requires SameUpToValidator(a, b) && PathsSettled(a)
    ensures PathsSettled(b)
  {
    if |b.anchors| > 2 {
      forall c, d | c in b.candidates && d in b.candidates && Tied(c, d) ensures SamePathedness(c, d) {
        var i :| 0 <= i < |b.candidates| && b.candidates[i] == c;
        var j :| 0 <= j < |b.candidates| && b.candidates[j] == d;
        var e, f := a.candidates[i], a.candidates[j];
        assert c == e.(validation := c.validation) && d == f.(validation := d.validation);
        assert e in a.candidates && f in a.candidates && Tied(e, f);
      }
    }
  }

  // ----- order independence and bounds -----

  ghost predicate UniqueIds(cs: seq<Candidate>) {
    forall c, d :: c in cs && d in cs && c.id == d.id ==> c == d
  }

  /** With unique ids, the ranking does not depend on the order the candidates came in. */
  lemma {:induction false} RankedOrderIndependent(xs: seq<Candidate>, ys: seq<Candidate>, use: bool)
    requires multiset(xs) == multiset(ys) && UniqueIds(xs)
    ensures Ranked(xs, use) == Ranked(ys, use)
  {
    RankingsAreOrders();
    RankedPermutes(xs, use);
    RankedPermutes(ys, use);
    SortedUnique(if use then TieBreakValidated else TieBreak, Ranked(xs, use), Ranked(ys, use));
  }

  /** Order independence: the same candidates in any order give the same outcome. */
  lemma {:induction false} AssemblyOrderIndependent(a: Inputs, b: Inputs, digest: (int, int) -> nat, time: int -> int,
                                                    ra: Outcome, rb: Outcome)
    requires UniqueIds(a.candidates) && multiset(a.candidates) == multiset(b.candidates)
    requires b == a.(candidates := b.candidates)
    requires Assembles(a, digest, time, ra) && Assembles(b, digest, time, rb)
    ensures ra == rb
  {
    var n := |a.anchors| - 1;
    assert |multiset(a.candidates)| == |a.candidates| && |multiset(b.candidates)| == |b.candidates|;
    if n >= 1 && a.linked && a.candidates != [] {
      ChoicesOrderIndependent(a, b, digest, n);
      if CoveredUpTo(a, n) {
        OutcomeDetermined(a, b, time, Choices(a, digest, n), ra, rb);
      } else {
        MissingDetermined(a, b, digest, n, ra, rb);
      }
    }
  }

  lemma {:induction false} ChoicesOrderIndependent(a: Inputs, b: Inputs, digest: (int, int) -> nat, n: nat)
    requires UniqueIds(a.candidates) && multiset(a.candidates) == multiset(b.candidates)
    requires b == a.(candidates := b.candidates) && n < |a.anchors|
    ensures CoveredUpTo(a, n) <==> CoveredUpTo(b, n)
    ensures CoveredUpTo(a, n) ==> Choices(a, digest, n) == Choices(b, digest, n)
  {
    forall i | 0 <= i < n ensures Covered(a, i) <==> Covered(b, i) {
      ChoiceOrderIndependent(a, b, digest, i);
    }
    if CoveredUpTo(a, n) {
      forall i | 0 <= i < n ensures Choices(a, digest, n)[i] == Choices(b, digest, n)[i] {
        assert Covered(a, i);
        ChoiceOrderIndependent(a, b, digest, i);
      }
    }
  }

  lemma {:induction false} MissingDetermined(a: Inputs, b: Inputs, digest: (int, int) -> nat, n: nat, ra: Outcome,
                                             rb: Outcome)
    requires UniqueIds(a.candidates) && multiset(a.candidates) == multiset(b.candidates)
    requires b == a.(candidates := b.candidates) && n < |a.anchors|
    requires MissingAt(a, n, ra) && MissingAt(b, n, rb)
    ensures ra == rb
  {
    var i, j := ra.interval.value, rb.interval.value;
    ChoiceOrderIndependent(a, b, digest, i);
    ChoiceOrderIndependent(a, b, digest, j);
    assert i == j;
  }

  lemma {:induction false} OutcomeDetermined(a: Inputs, b: Inputs, time: int -> int, cs: seq<Candidate>, ra: Outcome,
                                             rb: Outcome)
    requires cs != [] && b == a.(candidates := b.candidates)
    requires FromChoices(a, time, cs, ra) && FromChoices(b, time, cs, rb)
    ensures ra == rb
  {
    if ra.Error? && rb.Error? {
      var i, j := ra.interval.value, rb.interval.value;
      assert i == j;
    }
  }

  lemma {:induction false} ChoiceOrderIndependent(a: Inputs, b: Inputs, digest: (int, int) -> nat, i: nat)
    requires UniqueIds(a.candidates) && multiset(a.candidates) == multiset(b.candidates)
    requires b == a.(candidates := b.candidates) && i + 1 < |a.anchors|
    ensures Covered(a, i) <==> Covered(b, i)
    ensures Covered(a, i) ==> Choice(a, digest, i) == Choice(b, digest, i)
  {
    var k := IntervalKey(a, i);
    FilterPermutes(InPool(k), a.candidates, b.candidates);
    var xs, ys := Pool(a.candidates, k), Pool(b.candidates, k);
    assert |multiset(xs)| == |xs| && |multiset(ys)| == |ys|;
    RankedOrderIndependent(xs, ys, a.useValidation);
  }

  /** A chosen corridor is one of the best min(k, pool) of its own interval. */
  lemma {:induction false} ChoiceIsTop(inp: Inputs, digest: (int, int) -> nat, i: nat)
    requires i + 1 < |inp.anchors| && Covered(inp, i)
    ensures var pool := Pool(inp.candidates, IntervalKey(inp, i));
            var leq := if inp.useValidation then TieBreakValidated else TieBreak;
            exists ranked, p :: multiset(ranked) == multiset(pool) && Sorted(leq, ranked)
                                && 0 <= p < Min(Max(1, inp.topK), |pool|) && p < |ranked|
                                && ranked[p] == Choice(inp, digest, i)
  {
    var pool := Pool(inp.candidates, IntervalKey(inp, i));
    RankedPermutes(pool, inp.useValidation);
    PickInRange(digest, inp.seed, i, |pool|, inp.topK);
    var ranked, p := Ranked(pool, inp.useValidation), Pick(digest, inp.seed, i, |pool|, inp.topK);
    assert ranked[p] == Choice(inp, digest, i);
  }

  /** The confidence is a mean: it lies between the smallest and the largest chosen score. */
  lemma {:induction false} ConfidenceBounded(inp: Inputs, digest: (int, int) -> nat, time: int -> int, r: Outcome,
                                             lo: real, hi: real)
    requires Assembles(inp, digest, time, r) && r.Route?
    requires forall c :: c in r.chosen ==> lo <= LearnedOf(c) <= hi
    ensures lo <= r.confidence <= hi
  {
    RouteIsMean(inp, digest, time, r);
    ScoresMeanBounded(r.chosen, lo, hi);
  }

  lemma {:induction false} ScoresMeanBounded(cs: seq<Candidate>, lo: real, hi: real)
    requires cs != [] && forall c :: c in cs ==> lo <= LearnedOf(c) <= hi
    ensures lo <= SumScores(cs) / |cs| as real <= hi
  {
    SumBounded(cs, lo, hi);
    MeanBounded(SumScores(cs), |cs| as real, lo, hi);
  }

  lemma {:induction false} RouteIsMean(inp: Inputs, digest: (int, int) -> nat, time: int -> int, r: Outcome)
    requires Assembles(inp, digest, time, r) && r.Route?
    ensures r.chosen != [] && r.confidence == SumScores(r.chosen) / |r.chosen| as real
  {}

  lemma {:induction false} MeanBounded(sum: real, m: real, lo: real, hi: real)
    requires m > 0.0 && lo * m <= sum <= hi * m
    ensures lo <= sum / m <= hi
  {
    var q := sum / m;
    assert q * m == sum;
    if q < lo {
      ScaleStrict(q, lo, m);
    } else if hi < q {
      ScaleStrict(hi, q, m);
    }
  }

  lemma {:induction false} ScaleStrict(a: real, b: real, m: real)
    requires a < b && m > 0.0
    ensures a * m < b * m
  {
    assert (b - a) * m > 0.0;
  }

  lemma {:induction false} SumBounded(cs: seq<Candidate>, lo: real, hi: real)
    requires forall c :: c in cs ==> lo <= LearnedOf(c) <= hi
    ensures lo * |cs| as real <= SumScores(cs) <= hi * |cs| as real
  {
    if cs != [] {
      var n := |cs| - 1;
      SumBounded(cs[..n], lo, hi);
      assert cs[n] in cs;
      assert (n + 1) as real == n as real + 1.0;
    }
  }
}
