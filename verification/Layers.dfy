/**
 A beam search seen as layers: expand every element of a layer, sort the children, keep the first
 few. The elements, their expansion and the sort order are arbitrary.
 */
module Layers {
  import opened Collections

  function Prune<T>(leq: (T, T) -> bool, width: nat, s: seq<T>): seq<T> { TakeAtMost(Sort(leq, s), width) }

  /** Layer `k` of a beam search: expand every element, sort, keep the first `width`. */
  function Layer<T>(expand: T -> seq<T>, leq: (T, T) -> bool, width: nat, init: T, k: nat): seq<T> {
    if k == 0 then [init] else Prune(leq, width, FlatMap(expand, Layer(expand, leq, width, init, k - 1)))
  }

  lemma {:induction false} PruneSelects<T>(leq: (T, T) -> bool, width: nat, s: seq<T>)
    ensures forall x :: x in Prune(leq, width, s) ==> x in s
    ensures Prune(leq, width, s) == [] <==> s == [] || width == 0
  {
    SortPermutes(leq, s);
    forall x | x in Prune(leq, width, s) ensures x in s {
      assert x in multiset(Sort(leq, s));
      assert x in multiset(s);
    }
  }

  /** What the initial element has and every expansion step keeps, every element of every layer has. */
  lemma {:induction false} LayerInvariant<T(!new)>(expand: T -> seq<T>, leq: (T, T) -> bool, width: nat, init: T,
                                                   k: nat, inv: (T, nat) -> bool)
    requires inv(init, 0)
    requires forall b, i: nat, c :: inv(b, i) && c in expand(b) ==> inv(c, i + 1)
    ensures forall c :: c in Layer(expand, leq, width, init, k) ==> inv(c, k)
  {
    if k > 0 {
      LayerInvariant(expand, leq, width, init, k - 1, inv);
      var before := Layer(expand, leq, width, init, k - 1);
      PruneSelects(leq, width, FlatMap(expand, before));
      forall c | c in Layer(expand, leq, width, init, k) ensures inv(c, k) {
        FlatMapMember(expand, before, c);
        var b :| b in before && c in expand(b);
        assert inv(b, k - 1);
      }
    }
  }

  lemma {:induction false} LayerFits<T>(expand: T -> seq<T>, leq: (T, T) -> bool, width: nat, init: T, k: nat)
    requires width >= 1
    ensures |Layer(expand, leq, width, init, k)| <= width
  {}

  ghost predicate PrunedAlike<T>(expand: T -> seq<T>, other: T -> seq<T>, leq: (T, T) -> bool, width: nat,
                                 layer: seq<T>) {
    |layer| <= width ==> Prune(leq, width, FlatMap(expand, layer)) == Prune(leq, width, FlatMap(other, layer))
  }

  /** Expansions that agree on what a prune keeps of any layer have the same layers. */
  lemma {:induction false} LayersAgree<T(!new)>(expand: T -> seq<T>, other: T -> seq<T>, leq: (T, T) -> bool,
                                                width: nat, init: T, k: nat)
    requires width >= 1 && forall layer: seq<T> :: PrunedAlike(expand, other, leq, width, layer)
    ensures Layer(expand, leq, width, init, k) == Layer(other, leq, width, init, k)
  {
    if k > 0 {
      LayersAgree(expand, other, leq, width, init, k - 1);
      LayerFits(expand, leq, width, init, k - 1);
      assert PrunedAlike(expand, other, leq, width, Layer(expand, leq, width, init, k - 1));
    }
  }

  lemma {:induction false} LayerDies<T>(expand: T -> seq<T>, leq: (T, T) -> bool, width: nat, init: T, k: nat)
    ensures Layer(expand, leq, width, init, k + 1) == [] <==>
            width == 0 || forall b :: b in Layer(expand, leq, width, init, k) ==> expand(b) == []
  {
    var here := Layer(expand, leq, width, init, k);
    PruneSelects(leq, width, FlatMap(expand, here));
    FlatMapEmpty(expand, here);
  }

  lemma {:induction false} PruneNothing<T>(leq: (T, T) -> bool, width: nat)
    ensures Prune(leq, width, []) == []
  {
    PruneSelects(leq, width, []);
  }

  lemma {:induction false} LayersStayEmpty<T>(expand: T -> seq<T>, leq: (T, T) -> bool, width: nat, init: T, k: nat,
                                              n: nat)
    requires Layer(expand, leq, width, init, k) == [] && k <= n
    ensures Layer(expand, leq, width, init, n) == []
    decreases n
  {
    if k < n {
      LayersStayEmpty(expand, leq, width, init, k, n - 1);
      PruneNothing(leq, width);
      assert FlatMap(expand, []) == [];
    }
  }

  /** An empty or childless layer leaves nothing further down. */
  lemma {:induction false} Stuck<T>(expand: T -> seq<T>, leq: (T, T) -> bool, width: nat, init: T, k: nat, n: nat)
    requires k <= n
    ensures Layer(expand, leq, width, init, k) == [] ==> Layer(expand, leq, width, init, n) == []
    ensures k < n && FlatMap(expand, Layer(expand, leq, width, init, k)) == [] ==>
              Layer(expand, leq, width, init, n) == []
  {
    if Layer(expand, leq, width, init, k) == [] {
      LayersStayEmpty(expand, leq, width, init, k, n);
    } else if k < n && FlatMap(expand, Layer(expand, leq, width, init, k)) == [] {
      PruneSelects(leq, width, []);
      LayersStayEmpty(expand, leq, width, init, k + 1, n);
    }
  }

  /** Every element of a layer expands, or none does. */
  ghost predicate ExpandsIff<T(!new)>(expand: T -> seq<T>, layer: seq<T>, free: bool) {
    forall b :: b in layer ==> (expand(b) != [] <==> free)
  }

  /**
   If whether an element expands depends on its depth only, one more layer is inhabited exactly when that
   depth allows it.
   */
  lemma {:induction false} NextInhabited<T(!new)>(expand: T -> seq<T>, leq: (T, T) -> bool, width: nat, init: T,
                                                  k: nat, free: bool)
    requires width >= 1 && ExpandsIff(expand, Layer(expand, leq, width, init, k), free)
    ensures Layer(expand, leq, width, init, k + 1) != [] <==> Layer(expand, leq, width, init, k) != [] && free
  {
    LayerDies(expand, leq, width, init, k);
    var here := Layer(expand, leq, width, init, k);
    if here != [] {
      assert here[0] in here;
    }
  }

  /** Every element of a layer has arrived, or none has. */
  ghost predicate ReachesIff<T(!new)>(reached: T -> bool, layer: seq<T>, arrived: bool) {
    forall b :: b in layer ==> reached(b) == arrived
  }

  ghost predicate ArrivesAt<T(!new)>(expand: T -> seq<T>, leq: (T, T) -> bool, width: nat, init: T, reached: T -> bool,
                                     n: nat) {
    forall i: nat :: i <= n ==> ReachesIff(reached, Layer(expand, leq, width, init, i), i == n)
  }

  /** Expanding a layer: nothing is left to expand once it has arrived. */
  method Children<T(!new)>(expand: T -> seq<T>, live: seq<T>, reached: T -> bool, ghost arrived: bool)
    returns (kids: seq<T>)
    requires ReachesIff(reached, live, arrived)
    ensures kids == if arrived then [] else FlatMap(expand, live)
  {
    var waiting := Filter(b => !reached(b), live);
    FilterUniform(b => !reached(b), live, !arrived);
    kids := FlatMap(expand, waiting);
  }

  /** Where the descent stands: at layer `k`, within the cap. */
  ghost predicate Standing<T>(expand: T -> seq<T>, leq: (T, T) -> bool, width: nat, init: T, maxDepth: int,
                              live: seq<T>, k: nat) {
    && live == Layer(expand, leq, width, init, k) && (k == 0 || k <= maxDepth)
    && (width >= 1 ==> live != []) && (k > 0 ==> expand(init) != [])
  }

  lemma {:induction false} OneDown<T>(expand: T -> seq<T>, leq: (T, T) -> bool, width: nat, init: T, maxDepth: int,
                                      live: seq<T>, k: nat)
    requires Standing(expand, leq, width, init, maxDepth, live, k) && k < maxDepth && FlatMap(expand, live) != []
    ensures Standing(expand, leq, width, init, maxDepth, Prune(leq, width, FlatMap(expand, live)), k + 1)
  {
    PruneSelects(leq, width, FlatMap(expand, live));
    FlatMapSingle(expand, init);
  }

  /** What the descent has found when it ends at layer `k`. */
  ghost predicate Descended<T>(expand: T -> seq<T>, leq: (T, T) -> bool, width: nat, init: T, maxDepth: int, n: nat,
                               live: seq<T>, any: bool, k: nat) {
    && k <= n && live == Layer(expand, leq, width, init, k)
    && (k == 0 || k <= maxDepth) && (width >= 1 ==> live != [])
    && (any <==> maxDepth > 0 && expand(init) != [])
    && (k == n && live != [] <==> n <= maxDepth && Layer(expand, leq, width, init, n) != [])
    && (k < n ==> k >= maxDepth || Layer(expand, leq, width, init, k + 1) == [])
  }

  lemma {:induction false} DescentEnds<T>(expand: T -> seq<T>, leq: (T, T) -> bool, width: nat, init: T, maxDepth: int,
                                          n: nat, live: seq<T>, k: nat)
    requires 0 < n && k <= n && Standing(expand, leq, width, init, maxDepth, live, k)
    requires k >= maxDepth || k == n || FlatMap(expand, live) == []
    ensures Descended(expand, leq, width, init, maxDepth, n, live, k > 0, k)
  {
    Stuck(expand, leq, width, init, k, n);
    FlatMapSingle(expand, init);
    if k < n && k < maxDepth {
      PruneNothing(leq, width);
    }
  }

  /**
   The depth loop: it walks down the layers until one has arrived, none is left, or the cap is
   reached. Layers are assumed to arrive as a whole, at depth `n`.
   */
  method Descend<T(!new)>(expand: T -> seq<T>, leq: (T, T) -> bool, width: nat, init: T, maxDepth: int,
                          reached: T -> bool, ghost n: nat)
    returns (live: seq<T>, any: bool, ghost k: nat)
    requires n > 0
    requires ArrivesAt(expand, leq, width, init, reached, n)
    ensures Descended(expand, leq, width, init, maxDepth, n, live, any, k)
  {
    live, any, k := [init], false, 0;
    var depth, stop := 0, false;
    while depth < maxDepth && !stop
      invariant 0 <= depth == k <= n && any == (k > 0)
      invariant Standing(expand, leq, width, init, maxDepth, live, k)
      invariant stop ==> k == n || FlatMap(expand, live) == []
      decreases maxDepth - depth, !stop
    {
      assert ReachesIff(reached, live, k == n);
      var kids := Children(expand, live, reached, k == n);
      if kids == [] {
        stop := true;
      } else {
        OneDown(expand, leq, width, init, maxDepth, live, k);
        any, live := true, Prune(leq, width, kids);
        depth, k := depth + 1, k + 1;
      }
    }
    DescentEnds(expand, leq, width, init, maxDepth, n, live, k);
  }

  lemma {:induction false} FlatMapSingle<T, U>(f: T -> seq<U>, x: T)
    ensures FlatMap(f, [x]) == f(x)
  {
    assert [x][..0] == [];
    assert FlatMap(f, []) == [];
  }
}
