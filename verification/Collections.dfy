/**
 Facts about sequences, multisets, finite counting and sorting that the models share.
 */
module Collections {

  datatype Option<+T> = None | Some(value: T)

  function Range(n: nat): seq<nat> { seq(n, i requires 0 <= i < n => i) }

  function Elements<T>(s: seq<T>): set<T> { set x | x in s }

  function Reversed<T>(s: seq<T>): seq<T> { seq(|s|, i requires 0 <= i < |s| => s[|s| - 1 - i]) }

  // ----- sequences without repetition, and mapped multisets -----

  ghost predicate Distinct<T>(s: seq<T>) {
    forall i, j :: 0 <= i < j < |s| ==> s[i] != s[j]
  }

  function Map<T, U>(f: T -> U, s: seq<T>): (r: seq<U>)
    ensures |r| == |s|
    ensures forall i :: 0 <= i < |s| ==> r[i] == f(s[i])
  {
    seq(|s|, i requires 0 <= i < |s| => f(s[i]))
  }

  lemma {:induction false} MapAppend<T, U>(f: T -> U, s: seq<T>, t: seq<T>)
    ensures Map(f, s + t) == Map(f, s) + Map(f, t)
  {}

  lemma {:induction false} RemoveAt<T>(s: seq<T>, i: nat)
    requires i < |s|
    ensures multiset(s) == multiset(s[..i] + s[i + 1..]) + multiset{s[i]}
  {
    assert s == s[..i] + [s[i]] + s[i + 1..];
  }

  lemma {:induction false} Cancel<T>(a: multiset<T>, b: multiset<T>, x: T)
    requires multiset{x} + a == b + multiset{x}
    ensures a == b
  {
    assert a == (multiset{x} + a) - multiset{x};
    assert b == (b + multiset{x}) - multiset{x};
  }

  /** Two rearrangements of the same elements stay rearrangements after mapping. */
  lemma {:induction false} MapKeepsMultiset<T, U>(f: T -> U, s: seq<T>, t: seq<T>)
    requires multiset(s) == multiset(t)
    ensures multiset(Map(f, s)) == multiset(Map(f, t))
    decreases |s|
  {
    if s == [] {
      assert multiset(t) == multiset{};
      assert |t| == |multiset(t)|;
    } else {
      var i := HeadElsewhere(s, t);
      MapKeepsMultiset(f, s[1..], t[..i] + t[i + 1..]);
      MapCons(f, s);
      MapRemoveAt(f, t, i);
    }
  }

  lemma {:induction false} MapCons<T, U>(f: T -> U, s: seq<T>)
    requires s != []
    ensures Map(f, s) == [f(s[0])] + Map(f, s[1..])
  {}

  lemma {:induction false} MapRemoveAt<T, U>(f: T -> U, t: seq<T>, i: nat)
    requires i < |t|
    ensures multiset(Map(f, t)) == multiset{f(t[i])} + multiset(Map(f, t[..i] + t[i + 1..]))
  {
    var m := Map(f, t);
    assert Map(f, t[..i] + t[i + 1..]) == m[..i] + m[i + 1..];
    RemoveAt(m, i);
  }

  lemma {:induction false} DistinctCardinality<T>(s: seq<T>)
    requires Distinct(s)
    ensures |Elements(s)| == |s|
  {
    if s != [] {
      var n := |s| - 1;
      DistinctCardinality(s[..n]);
      assert Elements(s) == Elements(s[..n]) + {s[n]};
    }
  }

  lemma {:induction false} DistinctMultiplicity<T>(s: seq<T>, x: T)
    requires Distinct(s)
    ensures multiset(s)[x] == if x in s then 1 else 0
  {
    if x in s {
      var i :| 0 <= i < |s| && s[i] == x;
      RemoveAt(s, i);
      assert x !in s[..i] + s[i + 1..];
    }
  }

  lemma {:induction false} RepeatedMultiplicity<T>(s: seq<T>, i: nat, j: nat)
    requires i < j < |s| && s[i] == s[j]
    ensures multiset(s)[s[i]] >= 2
  {
    RemoveAt(s, j);
    assert s[i] == (s[..j] + s[j + 1..])[i];
  }

  /** A rearrangement of a repetition-free sequence is repetition-free. */
  lemma {:induction false} PermutationDistinct<T>(s: seq<T>, t: seq<T>)
    requires Distinct(s) && multiset(s) == multiset(t)
    ensures Distinct(t)
  {
    forall i, j | 0 <= i < j < |t| ensures t[i] != t[j] {
      DistinctMultiplicity(s, t[i]);
      if t[i] == t[j] {
        RepeatedMultiplicity(t, i, j);
      }
    }
  }

  /** Repetition-free sequences with the same elements are rearrangements of each other. */
  lemma {:induction false} DistinctSameElements<T>(s: seq<T>, t: seq<T>)
    requires Distinct(s) && Distinct(t)
    requires forall x :: x in s <==> x in t
    ensures multiset(s) == multiset(t)
  {
    forall x ensures multiset(s)[x] == multiset(t)[x] {
      DistinctMultiplicity(s, x);
      DistinctMultiplicity(t, x);
    }
  }

  ghost function Preimage<T, U>(f: T -> U, s: seq<T>, k: U): set<T> {
    set x | x in s && f(x) == k
  }

  /** In a repetition-free sequence, the number of elements mapped to `k` is a set cardinality. */
  lemma {:induction false} MappedMultiplicity<T, U>(f: T -> U, s: seq<T>, k: U)
    requires Distinct(s)
    ensures multiset(Map(f, s))[k] == |Preimage(f, s, k)|
  {
    if s == [] {
      assert Preimage(f, s, k) == {};
    } else {
      var rest := s[1..];
      assert s == [s[0]] + rest && s[0] !in rest;
      MappedMultiplicity(f, rest, k);
      PreimageCons(f, s[0], rest, k);
      MapCons(f, s);
      ConsMultiplicity(f(s[0]), Map(f, rest), k);
    }
  }

  lemma {:induction false} ConsMultiplicity<T>(x: T, s: seq<T>, k: T)
    ensures multiset([x] + s)[k] == multiset(s)[k] + if x == k then 1 else 0
  {}

  lemma {:induction false} PreimageCons<T, U>(f: T -> U, x: T, s: seq<T>, k: U)
    requires x !in s
    ensures |Preimage(f, [x] + s, k)| == |Preimage(f, s, k)| + if f(x) == k then 1 else 0
  {
    if f(x) == k {
      assert Preimage(f, [x] + s, k) == Preimage(f, s, k) + {x};
    } else {
      assert Preimage(f, [x] + s, k) == Preimage(f, s, k);
    }
  }

  /** An injective image has as many elements as its source. */
  lemma {:induction false} ImageCardinality<T, U>(f: T -> U, s: set<T>, t: set<U>)
    requires forall x, y :: x in s && y in s && f(x) == f(y) ==> x == y
    requires forall x :: x in s ==> f(x) in t
    requires forall u :: u in t ==> exists x :: x in s && f(x) == u
    ensures |s| == |t|
    decreases s
  {
    if s == {} {
      assert t == {};
    } else {
      var x :| x in s;
      ImageCardinality(f, s - {x}, t - {f(x)});
    }
  }

  lemma {:induction false} SubsetCardinality<T>(a: set<T>, b: set<T>)
    requires a <= b
    ensures |a| <= |b|
    ensures |a| == |b| ==> a == b
    decreases a
  {
    if a == {} {
      if |b| == 0 {}
    } else {
      var x :| x in a;
      SubsetCardinality(a - {x}, b - {x});
    }
  }

  // ----- stable sorting -----

  ghost predicate TotalPreorder<T(!new)>(leq: (T, T) -> bool) {
    && (forall a, b :: leq(a, b) || leq(b, a))
    && (forall a, b, c :: leq(a, b) && leq(b, c) ==> leq(a, c))
  }

  ghost predicate Sorted<T>(leq: (T, T) -> bool, s: seq<T>) {
    forall i, j :: 0 <= i < j < |s| ==> leq(s[i], s[j])
  }

  function Insert<T>(leq: (T, T) -> bool, x: T, s: seq<T>): seq<T> {
    if s == [] || leq(x, s[0]) then [x] + s else [s[0]] + Insert(leq, x, s[1..])
  }

  /** Python's `sorted`: a stable sort; an element goes in front of the later ones it ties with. */
  function Sort<T>(leq: (T, T) -> bool, s: seq<T>): seq<T> {
    if s == [] then [] else Insert(leq, s[0], Sort(leq, s[1..]))
  }

  lemma {:induction false} InsertPermutes<T>(leq: (T, T) -> bool, x: T, s: seq<T>)
    ensures multiset(Insert(leq, x, s)) == multiset{x} + multiset(s)
  {
    if !(s == [] || leq(x, s[0])) {
      InsertPermutes(leq, x, s[1..]);
      assert s == [s[0]] + s[1..];
    }
  }

  lemma {:induction false} SortPermutes<T>(leq: (T, T) -> bool, s: seq<T>)
    ensures multiset(Sort(leq, s)) == multiset(s)
    ensures |Sort(leq, s)| == |s|
    ensures forall x :: x in Sort(leq, s) <==> x in s
  {
    if s != [] {
      SortPermutes(leq, s[1..]);
      InsertPermutes(leq, s[0], Sort(leq, s[1..]));
      assert s == [s[0]] + s[1..];
    }
    SameMembers(Sort(leq, s), s);
  }

  lemma {:induction false} SameMembers<T>(s: seq<T>, t: seq<T>)
    requires multiset(s) == multiset(t)
    ensures |s| == |t| && forall x :: x in s <==> x in t
  {
    assert |multiset(s)| == |s| && |multiset(t)| == |t|;
    forall x ensures x in s <==> x in t {
      assert x in s <==> x in multiset(s);
      assert x in t <==> x in multiset(t);
    }
  }

  lemma {:induction false} InsertSorts<T(!new)>(leq: (T, T) -> bool, x: T, s: seq<T>)
    requires TotalPreorder(leq) && Sorted(leq, s)
    ensures Sorted(leq, Insert(leq, x, s))
  {
    if !(s == [] || leq(x, s[0])) {
      InsertSorts(leq, x, s[1..]);
      var r := Insert(leq, x, s[1..]);
      InsertPermutes(leq, x, s[1..]);
      forall j | 0 <= j < |r| ensures leq(s[0], r[j]) {
        assert r[j] in multiset(r);
        assert r[j] == x || r[j] in s[1..];
      }
    }
  }

  lemma {:induction false} SortSorts<T(!new)>(leq: (T, T) -> bool, s: seq<T>)
    requires TotalPreorder(leq)
    ensures Sorted(leq, Sort(leq, s))
  {
    if s != [] {
      SortSorts(leq, s[1..]);
      InsertSorts(leq, s[0], Sort(leq, s[1..]));
    }
  }

  /** Two sorted rearrangements agree position by position, up to ties. */
  lemma {:induction false} SortedRearrangementsTie<T(!new)>(leq: (T, T) -> bool, s: seq<T>, t: seq<T>, k: nat)
    requires TotalPreorder(leq) && Sorted(leq, s) && Sorted(leq, t)
    requires multiset(s) == multiset(t)
    requires k < |s|
    ensures |s| == |t| && leq(s[k], t[k]) && leq(t[k], s[k])
  {
    assert |multiset(s)| == |s| && |multiset(t)| == |t|;
    SortedBelow(leq, s, t, k);
    SortedBelow(leq, t, s, k);
  }

  lemma {:induction false} SortedBelow<T(!new)>(leq: (T, T) -> bool, s: seq<T>, t: seq<T>, k: nat)
    requires TotalPreorder(leq) && Sorted(leq, s) && Sorted(leq, t)
    requires multiset(s) == multiset(t) && |s| == |t| && k < |s|
    ensures leq(s[k], t[k])
  {
    var i, j := Crossing(s, t, k);
    assert i == k || leq(t[i], t[k]);
    assert j == k || leq(s[k], s[j]);
  }

  /** Some element among the first `k + 1` of `t` is not among the first `k` of `s`. */
  lemma {:induction false} Crossing<T>(s: seq<T>, t: seq<T>, k: nat) returns (i: nat, j: nat)
    requires multiset(s) == multiset(t) && |s| == |t| && k < |s|
    ensures i <= k <= j < |s| && t[i] == s[j]
  {
    var low, high := t[..k + 1], s[k..];
    var x := Excess(multiset(low), multiset(s[..k]));
    assert multiset(t)[x] >= multiset(low)[x] by { assert t == low + t[k + 1..]; }
    assert multiset(s)[x] == multiset(s[..k])[x] + multiset(high)[x] by { assert s == s[..k] + high; }
    assert x in low && x in high;
    i :| 0 <= i < |low| && low[i] == x;
    var h :| 0 <= h < |high| && high[h] == x;
    j := k + h;
  }

  lemma {:induction false} MultisetBelow<T>(a: multiset<T>, b: multiset<T>)
    requires a <= b
    ensures |a| <= |b|
  {
    assert b == a + (b - a);
  }

  lemma {:induction false} Excess<T>(a: multiset<T>, b: multiset<T>) returns (x: T)
    requires |a| > |b|
    ensures a[x] > b[x]
  {
    assert !(a <= b) by {
      if a <= b {
        MultisetBelow(a, b);
      }
    }
    x :| a[x] > b[x];
  }

  /** Under an antisymmetric order the sorted rearrangement is unique. */
  lemma {:induction false} SortedUnique<T(!new)>(leq: (T, T) -> bool, s: seq<T>, t: seq<T>)
    requires TotalPreorder(leq) && Sorted(leq, s) && Sorted(leq, t)
    requires multiset(s) == multiset(t)
    requires forall x, y :: x in s && y in s && leq(x, y) && leq(y, x) ==> x == y
    ensures s == t
  {
    assert |multiset(s)| == |s| && |multiset(t)| == |t|;
    forall k | 0 <= k < |s| ensures s[k] == t[k] {
      SortedRearrangementsTie(leq, s, t, k);
      assert t[k] in multiset(t);
      assert t[k] in s;
    }
  }

  // ----- the first maximum -----

  /** What beats another element beats everything that does not beat that one. */
  ghost predicate StrictWeak<T(!new)>(better: (T, T) -> bool) {
    && (forall a :: !better(a, a))
    && (forall a, b, c :: better(a, b) && !better(c, b) ==> better(a, c) && !better(c, a))
  }

  ghost predicate FirstMaxAt<T>(better: (T, T) -> bool, s: seq<T>, i: nat) {
    && i < |s|
    && (forall j :: 0 <= j < |s| ==> !better(s[j], s[i]))
    && (forall j :: 0 <= j < i ==> better(s[i], s[j]))
  }

  ghost predicate FirstMax<T>(better: (T, T) -> bool, s: seq<T>, x: T) {
    exists i: nat :: FirstMaxAt(better, s, i) && s[i] == x
  }

  lemma {:induction false} OnlyIsMax<T(!new)>(better: (T, T) -> bool, x: T)
    requires StrictWeak(better)
    ensures FirstMax(better, [x], x)
  {
    assert FirstMaxAt(better, [x], 0);
  }

  lemma {:induction false} FirstMaxMore<T(!new)>(better: (T, T) -> bool, s: seq<T>, best: T, x: T)
    requires StrictWeak(better) && FirstMax(better, s, best)
    ensures FirstMax(better, s + [x], if better(x, best) then x else best)
  {
    var k: nat :| FirstMaxAt(better, s, k) && s[k] == best;
    assert FirstMaxAt(better, s + [x], if better(x, best) then |s| else k);
  }

  /** Python's `max`: the first element that no other beats. */
  method MaxBy<T(!new)>(better: (T, T) -> bool, s: seq<T>) returns (best: T)
    requires s != [] && StrictWeak(better)
    ensures best in s && FirstMax(better, s, best)
  {
    best := s[0];
    OnlyIsMax(better, best);
    assert s[..1] == [best];
    for i := 1 to |s|
      invariant best in s && FirstMax(better, s[..i], best)
    {
      FirstMaxMore(better, s[..i], best, s[i]);
      assert s[..i + 1] == s[..i] + [s[i]];
      if better(s[i], best) {
        best := s[i];
      }
    }
    assert s[..|s|] == s;
  }

  // ----- filtering and flattening -----

  function Filter<T(!new)>(p: T -> bool, s: seq<T>): (r: seq<T>)
    ensures forall x :: x in r <==> x in s && p(x)
  {
    if s == [] then [] else Filter(p, s[..|s| - 1]) + if p(s[|s| - 1]) then [s[|s| - 1]] else []
  }

  lemma {:induction false} FilterUniform<T(!new)>(p: T -> bool, s: seq<T>, all: bool)
    requires forall x :: x in s ==> p(x) == all
    ensures Filter(p, s) == if all then s else []
  {
    if s != [] {
      FilterUniform(p, s[..|s| - 1], all);
      assert s == s[..|s| - 1] + [s[|s| - 1]];
      assert s[|s| - 1] in s;
    }
  }

  lemma {:induction false} FilterSame<T(!new)>(p: T -> bool, q: T -> bool, s: seq<T>)
    requires forall x :: x in s ==> p(x) == q(x)
    ensures Filter(p, s) == Filter(q, s)
  {
    if s != [] {
      FilterSame(p, q, s[..|s| - 1]);
      assert s[|s| - 1] in s;
    }
  }

  lemma {:induction false} FilterSnoc<T(!new)>(p: T -> bool, s: seq<T>, x: T)
    ensures Filter(p, s + [x]) == Filter(p, s) + if p(x) then [x] else []
  {
    assert (s + [x])[..|s|] == s;
  }

  lemma {:induction false} FilterCompose<T(!new)>(p: T -> bool, q: T -> bool, both: T -> bool, s: seq<T>)
    requires forall x :: both(x) <==> p(x) && q(x)
    ensures Filter(p, Filter(q, s)) == Filter(both, s)
  {
    if s != [] {
      var front, x := s[..|s| - 1], s[|s| - 1];
      FilterCompose(p, q, both, front);
      var kept := Filter(q, front);
      if q(x) {
        assert Filter(q, s) == kept + [x];
        FilterSnoc(p, kept, x);
      } else {
        assert Filter(q, s) == kept;
      }
    }
  }

  lemma {:induction false} FilterAppend<T(!new)>(p: T -> bool, a: seq<T>, b: seq<T>)
    ensures Filter(p, a + b) == Filter(p, a) + Filter(p, b)
  {
    if b == [] {
      assert a + b == a;
    } else {
      var front, x := b[..|b| - 1], b[|b| - 1];
      assert b == front + [x] && a + b == (a + front) + [x];
      FilterSnoc(p, front, x);
      FilterSnoc(p, a + front, x);
      FilterAppend(p, a, front);
    }
  }

  lemma {:induction false} FilterPermutes<T(!new)>(p: T -> bool, s: seq<T>, t: seq<T>)
    requires multiset(s) == multiset(t)
    ensures multiset(Filter(p, s)) == multiset(Filter(p, t))
  {
    forall x ensures multiset(Filter(p, s))[x] == multiset(Filter(p, t))[x] {
      FilterMultiplicity(p, s, x);
      FilterMultiplicity(p, t, x);
    }
  }

  lemma {:induction false} FilterMultiplicity<T(!new)>(p: T -> bool, s: seq<T>, x: T)
    ensures multiset(Filter(p, s))[x] == if p(x) then multiset(s)[x] else 0
  {
    if s != [] {
      var n := |s| - 1;
      FilterMultiplicity(p, s[..n], x);
      assert s == s[..n] + [s[n]];
    }
  }

  // ----- what sorting and cutting keep -----

  /** The elements that tie with `y`. */
  function Ties<T>(leq: (T, T) -> bool, y: T): T -> bool { x => leq(x, y) && leq(y, x) }

  lemma {:induction false} FilterCons<T(!new)>(p: T -> bool, x: T, s: seq<T>)
    ensures Filter(p, [x] + s) == (if p(x) then [x] else []) + Filter(p, s)
  {
    FilterAppend(p, [x], s);
    FilterUniform(p, [x], p(x));
  }

  lemma {:induction false} FilterSkip<T(!new)>(p: T -> bool, x: T, s: seq<T>)
    requires !p(x)
    ensures Filter(p, [x] + s) == Filter(p, s)
  {
    FilterCons(p, x, s);
  }

  lemma {:induction false} FilterPast<T(!new)>(p: T -> bool, x: T, z: T, s: seq<T>)
    requires !p(x)
    ensures Filter(p, [x] + ([z] + s)) == Filter(p, [z] + ([x] + s))
  {
    FilterSkip(p, x, [z] + s);
    FilterSkip(p, x, s);
    FilterCons(p, z, s);
    FilterCons(p, z, [x] + s);
  }

  lemma {:induction false} FilterSwap<T(!new)>(p: T -> bool, x: T, z: T, s: seq<T>)
    requires !p(x) || !p(z)
    ensures Filter(p, [x] + ([z] + s)) == Filter(p, [z] + ([x] + s))
  {
    if !p(x) {
      FilterPast(p, x, z, s);
    } else {
      FilterPast(p, z, x, s);
    }
  }

  lemma {:induction false} InsertStable<T(!new)>(leq: (T, T) -> bool, x: T, s: seq<T>, y: T)
    requires TotalPreorder(leq)
    ensures Filter(Ties(leq, y), Insert(leq, x, s)) == Filter(Ties(leq, y), [x] + s)
  {
    if !(s == [] || leq(x, s[0])) {
      var p, z, rest := Ties(leq, y), s[0], s[1..];
      InsertStable(leq, x, rest, y);
      FilterCons(p, z, Insert(leq, x, rest));
      FilterCons(p, z, [x] + rest);
      assert s == [z] + rest;
      FilterSwap(p, x, z, rest);
    }
  }

  /** The sort is stable: elements that tie keep their order. */
  lemma {:induction false} SortStable<T(!new)>(leq: (T, T) -> bool, s: seq<T>, y: T)
    requires TotalPreorder(leq)
    ensures Filter(Ties(leq, y), Sort(leq, s)) == Filter(Ties(leq, y), s)
  {
    if s != [] {
      var p, rest := Ties(leq, y), s[1..];
      SortStable(leq, rest, y);
      InsertStable(leq, s[0], Sort(leq, rest), y);
      FilterCons(p, s[0], Sort(leq, rest));
      FilterCons(p, s[0], rest);
      assert s == [s[0]] + rest;
    }
  }

  lemma {:induction false} SortedIsFixed<T(!new)>(leq: (T, T) -> bool, s: seq<T>)
    requires Sorted(leq, s)
    ensures Sort(leq, s) == s
  {
    if s != [] {
      SortedIsFixed(leq, s[1..]);
      assert |s| > 1 ==> leq(s[0], s[1..][0]);
    }
  }

  lemma {:induction false} InsertMap<T(!new), U>(leq: (T, T) -> bool, over: (U, U) -> bool, f: T -> U, x: T, s: seq<T>)
    requires forall a, b :: over(f(a), f(b)) == leq(a, b)
    ensures Insert(over, f(x), Map(f, s)) == Map(f, Insert(leq, x, s))
  {
    if s == [] || leq(x, s[0]) {
      MapAppend(f, [x], s);
      assert Map(f, [x]) == [f(x)];
    } else {
      InsertMap(leq, over, f, x, s[1..]);
      MapCons(f, s);
      MapAppend(f, [s[0]], Insert(leq, x, s[1..]));
      assert Map(f, [s[0]]) == [f(s[0])];
    }
  }

  /** Sorting by a key is sorting the keyed elements. */
  lemma {:induction false} SortMap<T(!new), U>(leq: (T, T) -> bool, over: (U, U) -> bool, f: T -> U, s: seq<T>)
    requires forall a, b :: over(f(a), f(b)) == leq(a, b)
    ensures Sort(over, Map(f, s)) == Map(f, Sort(leq, s))
  {
    if s != [] {
      MapCons(f, s);
      SortMap(leq, over, f, s[1..]);
      InsertMap(leq, over, f, s[0], Sort(leq, s[1..]));
    }
  }

  /** What a cut after sorting keeps: as many as it may, in order, none of them worse than one left out. */
  lemma {:induction false} BestKept<T(!new)>(leq: (T, T) -> bool, s: seq<T>, n: nat)
    requires TotalPreorder(leq)
    ensures |TakeAtMost(Sort(leq, s), n)| == if n < |s| then n else |s|
    ensures Sorted(leq, TakeAtMost(Sort(leq, s), n))
    ensures forall y :: y in TakeAtMost(Sort(leq, s), n) ==> y in s
    ensures forall x, y :: x in s && x !in TakeAtMost(Sort(leq, s), n) && y in TakeAtMost(Sort(leq, s), n) ==> leq(y, x)
  {
    var all, kept := Sort(leq, s), TakeAtMost(Sort(leq, s), n);
    SortSorts(leq, s);
    SortPermutes(leq, s);
    forall x, y | x in s && x !in kept && y in kept ensures leq(y, x) {
      var j :| 0 <= j < |kept| && kept[j] == y;
      var i :| 0 <= i < |all| && all[i] == x;
      assert i >= |kept| && all[j] == y;
    }
  }

  function FlatMap<T, U>(f: T -> seq<U>, s: seq<T>): seq<U> {
    if s == [] then [] else FlatMap(f, s[..|s| - 1]) + f(s[|s| - 1])
  }

  lemma {:induction false} FlatMapMember<T, U>(f: T -> seq<U>, s: seq<T>, y: U)
    ensures y in FlatMap(f, s) <==> exists x :: x in s && y in f(x)
  {
    if s != [] {
      FlatMapMember(f, s[..|s| - 1], y);
      assert s == s[..|s| - 1] + [s[|s| - 1]];
    }
  }

  lemma {:induction false} FlatMapEmpty<T, U>(f: T -> seq<U>, s: seq<T>)
    ensures FlatMap(f, s) == [] <==> forall x :: x in s ==> f(x) == []
  {
    if s != [] {
      FlatMapEmpty(f, s[..|s| - 1]);
      assert s == s[..|s| - 1] + [s[|s| - 1]];
    }
  }

  // ----- sums -----

  ghost function SumOver<T>(f: T -> nat, s: seq<T>): nat {
    if s == [] then 0 else SumOver(f, s[..|s| - 1]) + f(s[|s| - 1])
  }

  lemma {:induction false} SumOverSame<T>(f: T -> nat, g: T -> nat, s: seq<T>)
    requires forall x :: x in s ==> f(x) == g(x)
    ensures SumOver(f, s) == SumOver(g, s)
  {
    if s != [] {
      SumOverSame(f, g, s[..|s| - 1]);
      assert s[|s| - 1] in s;
    }
  }

  lemma {:induction false} SumOverSnoc<T>(f: T -> nat, s: seq<T>, x: T)
    ensures SumOver(f, s + [x]) == SumOver(f, s) + f(x)
  {
    assert (s + [x])[..|s|] == s;
  }

  lemma {:induction false} SumOverAppend<T>(f: T -> nat, a: seq<T>, b: seq<T>)
    ensures SumOver(f, a + b) == SumOver(f, a) + SumOver(f, b)
  {
    if b == [] {
      assert a + b == a;
    } else {
      var front, x := b[..|b| - 1], b[|b| - 1];
      SumOverAppend(f, a, front);
      SumOverSnoc(f, a + front, x);
      assert a + b == (a + front) + [x];
    }
  }

  lemma {:induction false} SumOverCons<T>(f: T -> nat, x: T, s: seq<T>)
    ensures SumOver(f, [x] + s) == f(x) + SumOver(f, s)
  {
    SumOverAppend(f, [x], s);
    assert [x][..0] == [];
  }

  lemma {:induction false} SumOverPrefix<T>(f: T -> nat, s: seq<T>, i: nat)
    requires i < |s|
    ensures SumOver(f, s[..i + 1]) == SumOver(f, s[..i]) + f(s[i]) <= SumOver(f, s)
  {
    assert s[..i + 1] == s[..i] + [s[i]] && s == s[..i + 1] + s[i + 1..];
    SumOverSnoc(f, s[..i], s[i]);
    SumOverAppend(f, s[..i + 1], s[i + 1..]);
  }

  lemma {:induction false} SumOverRemove<T>(f: T -> nat, s: seq<T>, i: nat)
    requires i < |s|
    ensures SumOver(f, s) == SumOver(f, s[..i] + s[i + 1..]) + f(s[i])
  {
    assert s == (s[..i] + [s[i]]) + s[i + 1..];
    SumOverAppend(f, s[..i] + [s[i]], s[i + 1..]);
    SumOverSnoc(f, s[..i], s[i]);
    SumOverAppend(f, s[..i], s[i + 1..]);
  }

  /** A sum does not depend on the order. */
  lemma {:induction false} SumOverPermutes<T>(f: T -> nat, s: seq<T>, t: seq<T>)
    requires multiset(s) == multiset(t)
    ensures SumOver(f, s) == SumOver(f, t)
    decreases |s|
  {
    SameMembers(s, t);
    if s != [] {
      var i := HeadElsewhere(s, t);
      SumOverPermutes(f, s[1..], t[..i] + t[i + 1..]);
      assert s[..0] + s[1..] == s[1..];
      SumOverRemove(f, s, 0);
      SumOverRemove(f, t, i);
    }
  }

  /** The first element of `s` is somewhere in `t`, and the rest of `s` is the rest of `t`. */
  lemma {:induction false} HeadElsewhere<T>(s: seq<T>, t: seq<T>) returns (i: nat)
    requires multiset(s) == multiset(t) && s != []
    ensures i < |t| && t[i] == s[0] && multiset(s[1..]) == multiset(t[..i] + t[i + 1..])
  {
    assert s[0] in multiset(t);
    i :| 0 <= i < |t| && t[i] == s[0];
    RemoveAt(s, 0);
    RemoveAt(t, i);
    assert s[..0] + s[1..] == s[1..];
    Cancel(multiset(s[1..]), multiset(t[..i] + t[i + 1..]), s[0]);
  }

  ghost function SumTo(f: nat -> nat, n: nat): nat { if n == 0 then 0 else SumTo(f, n - 1) + f(n - 1) }

  lemma {:induction false} SumToGrows(f: nat -> nat, e: nat, n: nat)
    requires e < n
    ensures SumTo(f, e + 1) == SumTo(f, e) + f(e) <= SumTo(f, n)
    decreases n
  {
    if e + 1 < n {
      SumToGrows(f, e, n - 1);
    }
  }

  lemma {:induction false} SumToSame(f: nat -> nat, g: nat -> nat, n: nat)
    requires forall i: nat :: f(i) == g(i)
    ensures SumTo(f, n) == SumTo(g, n)
  {
    if n > 0 {
      SumToSame(f, g, n - 1);
    }
  }

  // ----- iteration and slices -----

  ghost function Iterate<T>(f: T -> T, x: T, n: nat): T { if n == 0 then x else f(Iterate(f, x, n - 1)) }

  /** A step that changes nothing is the last one that could. */
  lemma {:induction false} IterateStable<T>(f: T -> T, x: T, k: nat, n: nat)
    requires k <= n && f(Iterate(f, x, k)) == Iterate(f, x, k)
    ensures Iterate(f, x, n) == Iterate(f, x, k)
    decreases n
  {
    if k < n {
      IterateStable(f, x, k, n - 1);
    }
  }

  /** A relation that one step of each side keeps holds after any number of steps. */
  lemma {:induction false} IterateRelated<T(!new)>(f: T -> T, g: T -> T, x: T, n: nat, rel: (T, T) -> bool)
    requires rel(x, x) && forall a, b :: rel(a, b) ==> rel(f(a), g(b))
    ensures rel(Iterate(f, x, n), Iterate(g, x, n))
  {
    if n > 0 {
      IterateRelated(f, g, x, n - 1, rel);
    }
  }

  /** The slice `s[:n]`, for a count that is not negative; nothing for one that is. */
  function TakeAtMost<T>(s: seq<T>, n: int): seq<T> { if n <= 0 then [] else if n < |s| then s[..n] else s }
}
