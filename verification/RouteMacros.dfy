/**
 The canonical form of a run of blocks: a run and its reverse, at any place and heading, are one macro.
 */
module RouteMacros {
  import opened Rotation
  import opened Poses
  import opened Collections
  import opened Lexicographic

  /** The next placement relative to the previous one, in the previous block's frame. */
  datatype Step = Step(offset: Vec, rel: Quarter)

  datatype Encoding = Encoding(blocks: seq<string>, steps: seq<Step>)

  function StepBetween(a: Placed, b: Placed): Step {
    Step(OffsetFrom(a.pose, b.pose), TurnFrom(a.pose, b.pose))
  }

  function Names(run: seq<Placed>): seq<string> { Map((p: Placed) => p.name, run) }

  function StepsOf(run: seq<Placed>): seq<Step> {
    if |run| < 2 then []
    else StepsOf(run[..|run| - 1]) + [StepBetween(run[|run| - 2], run[|run| - 1])]
  }

  function Encode(run: seq<Placed>): Encoding { Encoding(Names(run), StepsOf(run)) }

  lemma {:induction false} StepsAt(run: seq<Placed>)
    ensures |StepsOf(run)| == if run == [] then 0 else |run| - 1
    ensures forall i :: 0 <= i < |StepsOf(run)| ==> StepsOf(run)[i] == StepBetween(run[i], run[i + 1])
  {
    if |run| >= 2 {
      var n := |run| - 1;
      StepsAt(run[..n]);
      forall i | 0 <= i < n ensures StepsOf(run)[i] == StepBetween(run[i], run[i + 1]) {
        if i < n - 1 {
          assert StepsOf(run)[i] == StepsOf(run[..n])[i];
        }
      }
    }
  }

  /** `encode`, with its loop over neighbouring pairs. */
  method EncodeRun(run: seq<Placed>) returns (e: Encoding)
    ensures e == Encode(run)
  {
    var blocks: seq<string> := [];
    for i := 0 to |run|
      invariant blocks == Names(run[..i])
    {
      blocks := blocks + [run[i].name];
    }
    assert run[..|run|] == run;
    var steps: seq<Step> := [];
    for i := 0 to |run|
      invariant steps == StepsOf(run[..i])
    {
      if i > 0 {
        assert run[..i + 1][..i] == run[..i];
        steps := steps + [StepBetween(run[i - 1], run[i])];
      }
    }
    e := Encoding(blocks, steps);
  }

  // ----- order on encodings -----

  function StepInts(s: Step): seq<int> { [s.offset.x, s.offset.y, s.offset.z, s.rel] }

  function StepLists(steps: seq<Step>): seq<seq<int>> { Map(StepInts, steps) }

  /** Python's tuple order: first the block lists, then the step lists. */
  predicate Leq(a: Encoding, b: Encoding) {
    || (a.blocks != b.blocks && LexLeq(StringLt, a.blocks, b.blocks))
    || (a.blocks == b.blocks && LexLeq(IntsLt, StepLists(a.steps), StepLists(b.steps)))
  }

  lemma {:induction false} StepListsInjective(a: seq<Step>, b: seq<Step>)
    requires StepLists(a) == StepLists(b)
    ensures a == b
  {
    assert |a| == |StepLists(a)| == |b|;
    forall i | 0 <= i < |a| ensures a[i] == b[i] {
      var x, y := StepInts(a[i]), StepInts(b[i]);
      assert x == StepLists(a)[i] == StepLists(b)[i] == y;
      assert x[0] == y[0] && x[1] == y[1] && x[2] == y[2] && x[3] == y[3];
    }
  }

  lemma {:induction false} LeqTotal(a: Encoding, b: Encoding)
    ensures Leq(a, b) || Leq(b, a)
    ensures Leq(a, b) && Leq(b, a) ==> a == b
  {
    StringLtStrictTotal();
    IntsLtStrictTotal();
    LexTotal(StringLt, a.blocks, b.blocks);
    LexTotal(IntsLt, StepLists(a.steps), StepLists(b.steps));
    if a.blocks == b.blocks && StepLists(a.steps) == StepLists(b.steps) {
      StepListsInjective(a.steps, b.steps);
    }
  }

  /** The smaller of the run's encoding and its reverse's; the first wins a tie. */
  function Canonical(run: seq<Placed>): Encoding {
    var fwd, rev := Encode(run), Encode(Reversed(run));
    if Leq(fwd, rev) then fwd else rev
  }

  /** The canonical form is one of the two encodings and at most both. */
  lemma {:induction false} CanonicalLeast(run: seq<Placed>)
    ensures Canonical(run) == Encode(run) || Canonical(run) == Encode(Reversed(run))
    ensures Leq(Canonical(run), Encode(run)) && Leq(Canonical(run), Encode(Reversed(run)))
  {
    LeqTotal(Encode(run), Encode(Reversed(run)));
    LeqTotal(Encode(run), Encode(run));
    LeqTotal(Encode(Reversed(run)), Encode(Reversed(run)));
  }

  /** Steps compare by x, then y, then z, then turn. */
  predicate StepLt(s: Step, t: Step) {
    if s.offset.x != t.offset.x then s.offset.x < t.offset.x
    else if s.offset.y != t.offset.y then s.offset.y < t.offset.y
    else if s.offset.z != t.offset.z then s.offset.z < t.offset.z
    else s.rel < t.rel
  }

  lemma {:induction false} StepOrder(s: Step, t: Step)
    ensures IntsLt(StepInts(s), StepInts(t)) <==> StepLt(s, t)
  {
    var a, b := s.offset, t.offset;
    assert StepInts(s) == [a.x] + ([a.y] + ([a.z] + ([s.rel] + [])));
    assert StepInts(t) == [b.x] + ([b.y] + ([b.z] + ([t.rel] + [])));
    LexCons(IntLt, s.rel, [], t.rel, []);
    LexCons(IntLt, a.z, [s.rel] + [], b.z, [t.rel] + []);
    LexCons(IntLt, a.y, [a.z] + ([s.rel] + []), b.y, [b.z] + ([t.rel] + []));
    LexCons(IntLt, a.x, [a.y] + ([a.z] + ([s.rel] + [])), b.x, [b.y] + ([b.z] + ([t.rel] + [])));
    SameInts(s, t);
  }

  lemma {:induction false} SameInts(s: Step, t: Step)
    ensures StepInts(s) == StepInts(t) <==> s == t
  {
    if StepInts(s) == StepInts(t) {
      assert StepInts(s)[0] == StepInts(t)[0] && StepInts(s)[1] == StepInts(t)[1];
      assert StepInts(s)[2] == StepInts(t)[2] && StepInts(s)[3] == StepInts(t)[3];
    }
  }

  /** The first block name that differs decides; with equal names, the first step that differs. */
  lemma {:induction false} LeqMeans(a: Encoding, b: Encoding)
    ensures a.blocks != b.blocks ==>
              (Leq(a, b) <==> a.blocks <= b.blocks || exists k: nat :: DiffersAt(StringLt, a.blocks, b.blocks, k))
    ensures a.blocks == b.blocks && |a.steps| == |b.steps| ==>
              (Leq(a, b) <==> a.steps == b.steps || exists k: nat :: DiffersAt(StepLt, a.steps, b.steps, k))
  {
    FirstDifference(StringLt, a.blocks, b.blocks);
    if a.blocks == b.blocks && |a.steps| == |b.steps| {
      var x, y := StepLists(a.steps), StepLists(b.steps);
      FirstDifference(IntsLt, x, y);
      assert x <= y <==> a.steps == b.steps by {
        if x <= y {
          assert x == y;
          StepListsInjective(a.steps, b.steps);
        }
      }
      forall k: nat ensures DiffersAt(IntsLt, x, y, k) <==> DiffersAt(StepLt, a.steps, b.steps, k) {
        DiffersAlike(a.steps, b.steps, k);
      }
    }
  }

  lemma {:induction false} DiffersAlike(a: seq<Step>, b: seq<Step>, k: nat)
    ensures DiffersAt(IntsLt, StepLists(a), StepLists(b), k) <==> DiffersAt(StepLt, a, b, k)
  {
    if k < |a| && k < |b| {
      StepOrder(a[k], b[k]);
      assert StepLists(a)[..k] == StepLists(a[..k]) && StepLists(b)[..k] == StepLists(b[..k]);
      if StepLists(a[..k]) == StepLists(b[..k]) {
        StepListsInjective(a[..k], b[..k]);
      }
    }
  }

  method CanonicalMacro(run: seq<Placed>) returns (chosen: Encoding)
    ensures chosen == Canonical(run)
  {
    var fwd := EncodeRun(run);
    var rev := EncodeRun(Reversed(run));
    chosen := if Leq(fwd, rev) then fwd else rev;
  }

  // ----- replay -----

  function Apply(p: Placed, s: Step, name: string): Placed { Placed(name, Displace(p.pose, s.offset, s.rel)) }

  /** Rebuild the first `n + 1` placements of a run from its first one. */
  function Replay(first: Placed, e: Encoding, n: nat): (r: seq<Placed>)
    requires n < |e.blocks| && n <= |e.steps|
    ensures |r| == n + 1
  {
    if n == 0 then [first]
    else
      var before := Replay(first, e, n - 1);
      before + [Apply(before[n - 1], e.steps[n - 1], e.blocks[n])]
  }

  /** Replaying the steps from the first placement rebuilds the run. */
  lemma {:induction false} ReplayRebuilds(run: seq<Placed>, n: nat)
    requires n < |run|
    ensures n <= |Encode(run).steps|
    ensures Replay(run[0], Encode(run), n) == run[..n + 1]
  {
    StepsAt(run);
    if n > 0 {
      ReplayRebuilds(run, n - 1);
      Replays(run[n - 1].pose, run[n].pose);
      assert run[..n + 1] == run[..n] + [run[n]];
      assert run[..n][n - 1] == run[n - 1];
    }
  }

  // ----- what the canonical form identifies -----

  function MovePlacement(p: Placed, d: int, shift: Vec): Placed { Placed(p.name, MovePose(p.pose, d, shift)) }

  function MoveRun(run: seq<Placed>, d: int, shift: Vec): seq<Placed> {
    Map((p: Placed) => MovePlacement(p, d, shift), run)
  }

  /** One run is the other moved by a quarter-turn and a translation. */
  ghost predicate Congruent(r: seq<Placed>, s: seq<Placed>) {
    exists d, shift :: s == MoveRun(r, d, shift)
  }

  /** Moving a run does not change its encoding. */
  lemma {:induction false} EncodeMoves(run: seq<Placed>, d: int, shift: Vec)
    ensures Encode(MoveRun(run, d, shift)) == Encode(run)
  {
    var moved := MoveRun(run, d, shift);
    StepsAt(run);
    StepsAt(moved);
    assert Names(moved) == Names(run);
    forall i | 0 <= i < |StepsOf(run)| ensures StepsOf(moved)[i] == StepsOf(run)[i] {
      MovedTogether(run[i].pose, run[i + 1].pose, d, shift);
    }
  }

  /** Runs with the same encoding are moved copies: the motion that aligns the first placements aligns all. */
  lemma {:induction false} SameEncodingCongruent(r: seq<Placed>, s: seq<Placed>)
    requires Encode(r) == Encode(s)
    ensures Congruent(r, s)
  {
    assert |Names(r)| == |r| && |Names(s)| == |s|;
    if r == [] {
      assert s == MoveRun(r, 0, Zero);
    } else {
      var d := s[0].pose.rot - r[0].pose.rot;
      var shift := Sub(s[0].pose.at, RotateVector(r[0].pose.at, d));
      forall i | 0 <= i < |r| ensures s[i] == MovePlacement(r[i], d, shift) {
        Aligned(r, s, d, shift, i);
      }
      assert s == MoveRun(r, d, shift);
    }
  }

  lemma {:induction false} Aligned(r: seq<Placed>, s: seq<Placed>, d: int, shift: Vec, i: nat)
    requires Encode(r) == Encode(s) && |r| == |s| && i < |r|
    requires d == s[0].pose.rot - r[0].pose.rot && shift == Sub(s[0].pose.at, RotateVector(r[0].pose.at, d))
    ensures s[i] == MovePlacement(r[i], d, shift)
  {
    assert Names(r)[i] == Names(s)[i];
    if i == 0 {
      MoveOnto(r[0].pose, s[0].pose);
    } else {
      Aligned(r, s, d, shift, i - 1);
      StepsAt(r);
      StepsAt(s);
      assert StepsOf(r)[i - 1] == StepsOf(s)[i - 1];
      Replays(r[i - 1].pose, r[i].pose);
      Replays(s[i - 1].pose, s[i].pose);
      DisplaceMoves(r[i - 1].pose, StepsOf(r)[i - 1].offset, StepsOf(r)[i - 1].rel, d, shift);
    }
  }

  lemma {:induction false} EncodingIffCongruent(r: seq<Placed>, s: seq<Placed>)
    ensures Encode(r) == Encode(s) <==> Congruent(r, s)
  {
    if Encode(r) == Encode(s) {
      SameEncodingCongruent(r, s);
    }
    if Congruent(r, s) {
      var d, shift :| s == MoveRun(r, d, shift);
      EncodeMoves(r, d, shift);
    }
  }

  lemma {:induction false} CongruentReversed(r: seq<Placed>, s: seq<Placed>)
    ensures Congruent(r, s) <==> Congruent(Reversed(r), Reversed(s))
    ensures Reversed(Reversed(r)) == r
  {
    if Congruent(r, s) {
      ReversedCongruent(r, s);
    }
    if Congruent(Reversed(r), Reversed(s)) {
      ReversedCongruent(Reversed(r), Reversed(s));
      assert Reversed(Reversed(r)) == r && Reversed(Reversed(s)) == s;
    }
  }

  lemma {:induction false} ReversedCongruent(r: seq<Placed>, s: seq<Placed>)
    requires Congruent(r, s)
    ensures Congruent(Reversed(r), Reversed(s))
  {
    var d, shift :| s == MoveRun(r, d, shift);
    assert Reversed(s) == MoveRun(Reversed(r), d, shift);
  }

  /**
   The canonical form is a complete invariant: two runs have the same one exactly when one is a moved
   copy of the other or of the other's reverse.
   */
  lemma {:induction false} CanonicalComplete(r: seq<Placed>, s: seq<Placed>)
    ensures Canonical(r) == Canonical(s) <==> Congruent(r, s) || Congruent(r, Reversed(s))
  {
    var f, g := Encode(r), Encode(Reversed(r));
    var h, k := Encode(s), Encode(Reversed(s));
    EncodingIffCongruent(r, s);
    EncodingIffCongruent(r, Reversed(s));
    EncodingIffCongruent(Reversed(r), s);
    EncodingIffCongruent(Reversed(r), Reversed(s));
    CongruentReversed(r, s);
    CongruentReversed(r, Reversed(s));
    assert Reversed(Reversed(s)) == s by { CongruentReversed(s, s); }
    assert f == h <==> g == k;
    assert f == k <==> g == h;
    LeqTotal(f, g);
    LeqTotal(h, k);
  }
}
