/**
 The sorted-array counter of the placement-grammar miner. Key batches are appended to pending
 lists and folded into running totals from time to time; the totals do not depend on when.
 */
module SortedCounter {
  import opened Collections

  // ----- keyed sums over (key, value) entries -----

  function Entries(keys: seq<int>, vals: seq<int>): seq<(int, int)>
    requires |keys| == |vals|
  {
    seq(|keys|, i requires 0 <= i < |keys| => (keys[i], vals[i]))
  }

  /** The sum of the values stored under `k`. */
  function SumFor(es: seq<(int, int)>, k: int): int {
    if es == [] then 0
    else SumFor(es[..|es| - 1], k) + if es[|es| - 1].0 == k then es[|es| - 1].1 else 0
  }

  function Value(e: (int, int), k: int): int { if e.0 == k then e.1 else 0 }

  lemma {:induction false} SumForSnoc(es: seq<(int, int)>, e: (int, int), k: int)
    ensures SumFor(es + [e], k) == SumFor(es, k) + Value(e, k)
  {
    assert (es + [e])[..|es|] == es;
  }

  lemma {:induction false} SumForAppend(a: seq<(int, int)>, b: seq<(int, int)>, k: int)
    ensures SumFor(a + b, k) == SumFor(a, k) + SumFor(b, k)
  {
    if b == [] {
      assert a + b == a;
    } else {
      SumForAppend(a, b[..|b| - 1], k);
      assert (a + b)[..|a + b| - 1] == a + b[..|b| - 1];
    }
  }

  lemma {:induction false} SumForRemove(es: seq<(int, int)>, i: nat, k: int)
    requires i < |es|
    ensures SumFor(es, k) == SumFor(es[..i] + es[i + 1..], k) + Value(es[i], k)
  {
    assert es == (es[..i] + [es[i]]) + es[i + 1..];
    SumForAppend(es[..i] + [es[i]], es[i + 1..], k);
    SumForSnoc(es[..i], es[i], k);
    SumForAppend(es[..i], es[i + 1..], k);
  }

  lemma {:induction false} SumForPermutation(a: seq<(int, int)>, b: seq<(int, int)>, k: int)
    requires multiset(a) == multiset(b)
    ensures SumFor(a, k) == SumFor(b, k)
    decreases |a|
  {
    if a == [] {
      assert |multiset(b)| == |b|;
    } else {
      var i := HeadElsewhere(a, b);
      SumForPermutation(a[1..], b[..i] + b[i + 1..], k);
      assert a[..0] + a[1..] == a[1..];
      SumForRemove(a, 0, k);
      SumForRemove(b, i, k);
    }
  }

  ghost predicate HasKey(es: seq<(int, int)>, k: int) {
    exists i :: 0 <= i < |es| && es[i].0 == k
  }

  lemma {:induction false} NoKeyNoSum(es: seq<(int, int)>, k: int)
    requires !HasKey(es, k)
    ensures SumFor(es, k) == 0
  {
    if es != [] {
      NoKeyNoSum(es[..|es| - 1], k);
    }
  }

  // ----- stable argsort and gathering -----

  function At(keys: seq<int>, i: nat): int { if i < |keys| then keys[i] else 0 }

  function ArgSort(keys: seq<int>): seq<nat> {
    Sort((i: nat, j: nat) => At(keys, i) <= At(keys, j), Range(|keys|))
  }

  function Gather(s: seq<int>, order: seq<nat>): seq<int> {
    Map(i => At(s, i), order)
  }

  ghost predicate NonDecreasing(keys: seq<int>) {
    forall i, j :: 0 <= i < j < |keys| ==> keys[i] <= keys[j]
  }

  ghost predicate Ascending(keys: seq<int>) {
    forall i, j :: 0 <= i < j < |keys| ==> keys[i] < keys[j]
  }

  /** `argsort` lists every index once, in key order. */
  lemma {:induction false} ArgSortOrders(keys: seq<int>)
    ensures var order := ArgSort(keys);
            && multiset(order) == multiset(Range(|keys|)) && |order| == |keys|
            && Distinct(order)
            && (forall i :: 0 <= i < |order| ==> order[i] < |keys|)
            && (forall k :: 0 <= k < |keys| ==> k in order)
            && NonDecreasing(Gather(keys, order))
  {
    var leq := (i: nat, j: nat) => At(keys, i) <= At(keys, j);
    var order := ArgSort(keys);
    SortPermutes(leq, Range(|keys|));
    SortSorts(leq, Range(|keys|));
    forall k | 0 <= k < |keys| ensures k in order {
      assert Range(|keys|)[k] == k;
    }
    forall i | 0 <= i < |order| ensures order[i] < |keys| {
      assert order[i] in Range(|keys|);
    }
    PermutationDistinct(Range(|keys|), order);
    forall i, j | 0 <= i < j < |order| ensures Gather(keys, order)[i] <= Gather(keys, order)[j] {
      assert leq(order[i], order[j]);
    }
  }

  lemma {:induction false} GatherEntries(keys: seq<int>, vals: seq<int>, k: int)
    requires |keys| == |vals|
    ensures var order := ArgSort(keys);
            && |order| == |keys|
            && SumFor(Entries(Gather(keys, order), Gather(vals, order)), k) == SumFor(Entries(keys, vals), k)
            && (k in Gather(keys, order) <==> k in keys)
  {
    ArgSortOrders(keys);
    var order := ArgSort(keys);
    var f := (i: nat) => (At(keys, i), At(vals, i));
    MapKeepsMultiset(f, order, Range(|keys|));
    assert Map(f, order) == Entries(Gather(keys, order), Gather(vals, order));
    assert Map(f, Range(|keys|)) == Entries(keys, vals);
    SumForPermutation(Map(f, order), Map(f, Range(|keys|)), k);
    if k in keys {
      var i :| 0 <= i < |keys| && keys[i] == k;
      assert i in order;
      var j :| 0 <= j < |order| && order[j] == i;
      assert Gather(keys, order)[j] == k;
    }
  }

  // ----- summing runs of equal keys -----

  lemma {:induction false} EntriesSnoc(keys: seq<int>, vals: seq<int>, x: int, v: int)
    requires |keys| == |vals|
    ensures Entries(keys + [x], vals + [v]) == Entries(keys, vals) + [(x, v)]
  {}

  lemma {:induction false} BumpLast(keys: seq<int>, vals: seq<int>, v: int, k: int)
    requires |keys| == |vals| > 0
    ensures var n := |keys| - 1;
            SumFor(Entries(keys, vals[n := vals[n] + v]), k) == SumFor(Entries(keys, vals), k) + Value((keys[n], v), k)
  {
    var n := |keys| - 1;
    assert Entries(keys, vals[n := vals[n] + v])[..n] == Entries(keys, vals)[..n];
  }

  /** The same keys, and under each of them the same sum. */
  ghost predicate SameSums(ks: seq<int>, vs: seq<int>, ls: seq<int>, ws: seq<int>)
    requires |ks| == |vs| && |ls| == |ws|
  {
    && (forall k :: k in ks <==> k in ls)
    && (forall k :: SumFor(Entries(ks, vs), k) == SumFor(Entries(ls, ws), k))
  }

  /** The runs of the first `i` keys have been summed. */
  ghost predicate Summed(keys: seq<int>, vals: seq<int>, i: nat, uk: seq<int>, uv: seq<int>)
    requires |keys| == |vals| && i <= |keys|
  {
    && |uk| == |uv| && Ascending(uk)
    && (i == 0 <==> uk == []) && (i > 0 ==> uk != [] && uk[|uk| - 1] == keys[i - 1])
    && SameSums(uk, uv, keys[..i], vals[..i])
  }

  lemma {:induction false} PrefixMore(keys: seq<int>, vals: seq<int>, i: nat, k: int)
    requires |keys| == |vals| && i < |keys|
    ensures SumFor(Entries(keys[..i + 1], vals[..i + 1]), k)
         == SumFor(Entries(keys[..i], vals[..i]), k) + Value((keys[i], vals[i]), k)
    ensures k in keys[..i + 1] <==> k in keys[..i] || k == keys[i]
  {
    assert keys[..i + 1] == keys[..i] + [keys[i]] && vals[..i + 1] == vals[..i] + [vals[i]];
    EntriesSnoc(keys[..i], vals[..i], keys[i], vals[i]);
    SumForSnoc(Entries(keys[..i], vals[..i]), (keys[i], vals[i]), k);
  }

  lemma {:induction false} NewRun(keys: seq<int>, vals: seq<int>, i: nat, uk: seq<int>, uv: seq<int>)
    requires |keys| == |vals| && i < |keys| && NonDecreasing(keys) && Summed(keys, vals, i, uk, uv)
    requires i == 0 || keys[i] != keys[i - 1]
    ensures Summed(keys, vals, i + 1, uk + [keys[i]], uv + [vals[i]])
  {
    forall k
      ensures k in uk + [keys[i]] <==> k in keys[..i + 1]
      ensures SumFor(Entries(uk + [keys[i]], uv + [vals[i]]), k) == SumFor(Entries(keys[..i + 1], vals[..i + 1]), k)
    {
      PrefixMore(keys, vals, i, k);
      EntriesSnoc(uk, uv, keys[i], vals[i]);
      SumForSnoc(Entries(uk, uv), (keys[i], vals[i]), k);
    }
  }

  lemma {:induction false} SameRun(keys: seq<int>, vals: seq<int>, i: nat, uk: seq<int>, uv: seq<int>)
    requires |keys| == |vals| && 0 < i < |keys| && Summed(keys, vals, i, uk, uv) && keys[i] == keys[i - 1]
    ensures var n := |uv| - 1; Summed(keys, vals, i + 1, uk, uv[n := uv[n] + vals[i]])
  {
    var n := |uv| - 1;
    var w := uv[n := uv[n] + vals[i]];
    assert keys[i] == uk[n] && uk[n] in uk;
    forall k
      ensures k in uk <==> k in keys[..i + 1]
      ensures SumFor(Entries(uk, w), k) == SumFor(Entries(keys[..i + 1], vals[..i + 1]), k)
    {
      PrefixMore(keys, vals, i, k);
      BumpLast(uk, uv, vals[i], k);
    }
  }

  /**
   Sums each run of equal keys: the boundary mask, `flatnonzero` and `reduceat` of the source in one
   pass. The keys come out strictly ascending and no keyed sum changes.
   */
  method SumRuns(keys: seq<int>, vals: seq<int>) returns (uk: seq<int>, uv: seq<int>)
    requires |keys| == |vals| && NonDecreasing(keys)
    ensures |uk| == |uv| && Ascending(uk)
    ensures SameSums(uk, uv, keys, vals)
  {
    uk, uv := [], [];
    for i := 0 to |keys|
      invariant Summed(keys, vals, i, uk, uv)
    {
      if i == 0 || keys[i] != keys[i - 1] {
        NewRun(keys, vals, i, uk, uv);
        uk, uv := uk + [keys[i]], uv + [vals[i]];
      } else {
        SameRun(keys, vals, i, uk, uv);
        uv := uv[|uv| - 1 := uv[|uv| - 1] + vals[i]];
      }
    }
    assert keys[..|keys|] == keys && vals[..|keys|] == vals;
  }

  /** Sort once by key, then sum the runs of both value columns. */
  method Fold(keys: seq<int>, pairs: seq<int>, maps: seq<int>) returns (uk: seq<int>, up: seq<int>, um: seq<int>)
    requires |keys| == |pairs| == |maps|
    ensures |uk| == |up| == |um| && Ascending(uk)
    ensures SameSums(uk, up, keys, pairs) && SameSums(uk, um, keys, maps)
  {
    var order := ArgSort(keys);
    ArgSortOrders(keys);
    uk, up := SumRuns(Gather(keys, order), Gather(pairs, order));
    var heads;
    heads, um := SumRuns(Gather(keys, order), Gather(maps, order));
    AscendingDetermined(uk, heads);
    SortedSums(keys, pairs);
    SortedSums(keys, maps);
  }

  lemma {:induction false} SortedSums(keys: seq<int>, vals: seq<int>)
    requires |keys| == |vals|
    ensures |ArgSort(keys)| == |keys| && SameSums(Gather(keys, ArgSort(keys)), Gather(vals, ArgSort(keys)), keys, vals)
  {
    ArgSortOrders(keys);
    forall k
      ensures k in Gather(keys, ArgSort(keys)) <==> k in keys
      ensures SumFor(Entries(Gather(keys, ArgSort(keys)), Gather(vals, ArgSort(keys))), k)
           == SumFor(Entries(keys, vals), k)
    {
      GatherEntries(keys, vals, k);
    }
  }

  /** With strictly ascending keys, the value stored at a position is the keyed sum. */
  lemma {:induction false} LookupIsSum(keys: seq<int>, vals: seq<int>, i: nat)
    requires |keys| == |vals| && Ascending(keys) && i < |keys|
    ensures SumFor(Entries(keys, vals), keys[i]) == vals[i]
  {
    var es := Entries(keys, vals);
    SumForRemove(es, i, keys[i]);
    var rest := es[..i] + es[i + 1..];
    assert !HasKey(rest, keys[i]) by {
      forall j | 0 <= j < |rest| ensures rest[j].0 != keys[i] {
        assert rest[j] == if j < i then es[j] else es[j + 1];
      }
    }
    NoKeyNoSum(rest, keys[i]);
  }

  // ----- the counter -----

  datatype Batch = Batch(keys: seq<int>, counts: seq<int>)

  ghost predicate WellShaped(log: seq<Batch>) {
    forall i :: 0 <= i < |log| ==> |log[i].keys| == |log[i].counts|
  }

  function KeyLists(log: seq<Batch>): seq<seq<int>> { Map((b: Batch) => b.keys, log) }

  function CountLists(log: seq<Batch>): seq<seq<int>> { Map((b: Batch) => b.counts, log) }

  function Ones(n: nat): seq<int> { seq(n, _ => 1) }

  /** All (key, count) entries of a series of batches. */
  ghost function AllPairs(log: seq<Batch>): seq<(int, int)>
    requires WellShaped(log)
  {
    if log == [] then [] else AllPairs(log[..|log| - 1]) + Entries(log[|log| - 1].keys, log[|log| - 1].counts)
  }

  /** One entry (key, 1) for each key of each batch. */
  ghost function AllOnes(log: seq<Batch>): seq<(int, int)> {
    if log == [] then []
    else AllOnes(log[..|log| - 1]) + Entries(log[|log| - 1].keys, Ones(|log[|log| - 1].keys|))
  }

  ghost predicate Mentions(log: seq<Batch>, k: int) {
    exists b :: b in log && k in b.keys
  }

  /** The running totals a counter must reach after the given `add` calls, whatever it did in between. */
  ghost predicate Totals(log: seq<Batch>, keys: seq<int>, pairs: seq<int>, maps: seq<int>) {
    && WellShaped(log)
    && |keys| == |pairs| == |maps|
    && Ascending(keys)
    && (forall k :: k in keys <==> Mentions(log, k))
    && (forall i :: 0 <= i < |keys| ==> pairs[i] == SumFor(AllPairs(log), keys[i]))
    && (forall i :: 0 <= i < |keys| ==> maps[i] == SumFor(AllOnes(log), keys[i]))
  }

  class Counter {
    const compactEvery: nat
    var keys: seq<int>
    var pairs: seq<int>
    var maps: seq<int>
    var pendingKeys: seq<seq<int>>
    var pendingPairs: seq<seq<int>>
    var pendingSize: nat
    /** The non-empty batches added so far, split into those folded and those pending. */
    ghost var folded: seq<Batch>
    ghost var pending: seq<Batch>

    ghost predicate Valid()
      reads this
    {
      && WellShaped(pending)
      && Totals(folded, keys, pairs, maps)
      && pendingKeys == KeyLists(pending)
      && pendingPairs == CountLists(pending)
    }

    constructor (compactEvery: nat)
      ensures Valid() && folded == [] && pending == []
    {
      this.compactEvery := compactEvery;
      keys, pairs, maps := [], [], [];
      pendingKeys, pendingPairs, pendingSize := [], [], 0;
      folded, pending := [], [];
    }

    method Add(batchKeys: seq<int>, counts: seq<int>)
      requires Valid() && |batchKeys| == |counts|
      modifies this
      ensures Valid()
      ensures folded + pending == old(folded + pending) + if batchKeys == [] then [] else [Batch(batchKeys, counts)]
    {
      if batchKeys == [] {
        return;
      }
      pendingKeys := pendingKeys + [batchKeys];
      pendingPairs := pendingPairs + [counts];
      pendingSize := pendingSize + |batchKeys|;
      pending := pending + [Batch(batchKeys, counts)];
      assert folded + pending == old(folded + pending) + [Batch(batchKeys, counts)];
      if pendingSize >= compactEvery {
        Compact();
      }
    }

    method Compact()
      requires Valid()
      modifies this
      ensures Valid() && pending == [] && folded == old(folded + pending)
    {
      if pendingKeys == [] {
        assert |pending| == 0;
        assert folded + pending == folded;
        return;
      }
      var allKeys, allPairs, allMaps := Concatenate(keys, pairs, maps, pendingKeys, pendingPairs, folded, pending);
      folded, pending := folded + pending, [];
      pendingKeys, pendingPairs, pendingSize := [], [], 0;
      keys, pairs, maps := Fold(allKeys, allPairs, allMaps);
      FoldedTotals(folded, allKeys, allPairs, allMaps, keys, pairs, maps);
    }
  }

  /** The entries carry, key by key, the sums of all batches. */
  ghost predicate Carries(log: seq<Batch>, keys: seq<int>, pairs: seq<int>, maps: seq<int>) {
    && WellShaped(log) && |keys| == |pairs| == |maps|
    && (forall k :: k in keys <==> Mentions(log, k))
    && (forall k :: SumFor(Entries(keys, pairs), k) == SumFor(AllPairs(log), k))
    && (forall k :: SumFor(Entries(keys, maps), k) == SumFor(AllOnes(log), k))
  }

  lemma {:induction false} FoldedTotals(log: seq<Batch>, allKeys: seq<int>, allPairs: seq<int>, allMaps: seq<int>,
                                        keys: seq<int>, pairs: seq<int>, maps: seq<int>)
    requires Carries(log, allKeys, allPairs, allMaps)
    requires |keys| == |pairs| == |maps| && Ascending(keys)
    requires SameSums(keys, pairs, allKeys, allPairs) && SameSums(keys, maps, allKeys, allMaps)
    ensures Totals(log, keys, pairs, maps)
  {
    forall i | 0 <= i < |keys|
      ensures pairs[i] == SumFor(AllPairs(log), keys[i]) && maps[i] == SumFor(AllOnes(log), keys[i])
    {
      LookupIsSum(keys, pairs, i);
      LookupIsSum(keys, maps, i);
    }
  }

  /** The three `np.concatenate` calls: running totals followed by the pending arrays, a 1 per pending key. */
  method Concatenate(keys: seq<int>, pairs: seq<int>, maps: seq<int>,
                     pendingKeys: seq<seq<int>>, pendingPairs: seq<seq<int>>,
                     ghost folded: seq<Batch>, ghost pending: seq<Batch>)
    returns (allKeys: seq<int>, allPairs: seq<int>, allMaps: seq<int>)
    requires Totals(folded, keys, pairs, maps) && WellShaped(pending)
    requires pendingKeys == KeyLists(pending)
    requires pendingPairs == CountLists(pending)
    ensures Carries(folded + pending, allKeys, allPairs, allMaps)
  {
    allKeys, allPairs, allMaps := keys, pairs, maps;
    TotalsCarry(folded, keys, pairs, maps);
    assert folded + pending[..0] == folded;
    for i := 0 to |pendingKeys|
      invariant Carries(folded + pending[..i], allKeys, allPairs, allMaps)
    {
      AppendPending(folded, pending, i, allKeys, allPairs, allMaps);
      allKeys := allKeys + pendingKeys[i];
      allPairs := allPairs + pendingPairs[i];
      allMaps := allMaps + Ones(|pendingKeys[i]|);
    }
    assert pending[..|pending|] == pending;
  }

  lemma {:induction false} AppendPending(folded: seq<Batch>, pending: seq<Batch>, i: nat,
                                         keys: seq<int>, pairs: seq<int>, maps: seq<int>)
    requires WellShaped(pending) && i < |pending| && Carries(folded + pending[..i], keys, pairs, maps)
    ensures Carries(folded + pending[..i + 1], keys + KeyLists(pending)[i], pairs + CountLists(pending)[i],
                    maps + Ones(|KeyLists(pending)[i]|))
  {
    var b := pending[i];
    assert folded + pending[..i + 1] == (folded + pending[..i]) + [b];
    AppendBatch(folded + pending[..i], b, keys, pairs, maps);
  }

  lemma {:induction false} TotalsCarry(log: seq<Batch>, keys: seq<int>, pairs: seq<int>, maps: seq<int>)
    requires Totals(log, keys, pairs, maps)
    ensures Carries(log, keys, pairs, maps)
  {
    forall k
      ensures SumFor(Entries(keys, pairs), k) == SumFor(AllPairs(log), k)
      ensures SumFor(Entries(keys, maps), k) == SumFor(AllOnes(log), k)
    {
      TotalsSum(log, keys, pairs, maps, k);
    }
  }

  lemma {:induction false} TotalsSum(log: seq<Batch>, keys: seq<int>, pairs: seq<int>, maps: seq<int>, k: int)
    requires Totals(log, keys, pairs, maps)
    ensures SumFor(Entries(keys, pairs), k) == SumFor(AllPairs(log), k)
    ensures SumFor(Entries(keys, maps), k) == SumFor(AllOnes(log), k)
  {
    if k in keys {
      var i :| 0 <= i < |keys| && keys[i] == k;
      LookupIsSum(keys, pairs, i);
      LookupIsSum(keys, maps, i);
    } else {
      NoKeyNoSum(Entries(keys, pairs), k);
      NoKeyNoSum(Entries(keys, maps), k);
      Unmentioned(log, k);
    }
  }

  lemma {:induction false} Unmentioned(log: seq<Batch>, k: int)
    requires WellShaped(log)
    requires !Mentions(log, k)
    ensures SumFor(AllPairs(log), k) == 0 == SumFor(AllOnes(log), k)
  {
    if log != [] {
      var front, b := log[..|log| - 1], log[|log| - 1];
      assert b in log;
      Unmentioned(front, k);
      NoKeyNoSum(Entries(b.keys, b.counts), k);
      NoKeyNoSum(Entries(b.keys, Ones(|b.keys|)), k);
      SumForAppend(AllPairs(front), Entries(b.keys, b.counts), k);
      SumForAppend(AllOnes(front), Entries(b.keys, Ones(|b.keys|)), k);
    }
  }

  lemma {:induction false} EntriesAppend(ks: seq<int>, vs: seq<int>, ls: seq<int>, ws: seq<int>)
    requires |ks| == |vs| && |ls| == |ws|
    ensures Entries(ks + ls, vs + ws) == Entries(ks, vs) + Entries(ls, ws)
  {}

  lemma {:induction false} AppendBatch(log: seq<Batch>, b: Batch, keys: seq<int>, pairs: seq<int>, maps: seq<int>)
    requires Carries(log, keys, pairs, maps) && |b.keys| == |b.counts|
    ensures Carries(log + [b], keys + b.keys, pairs + b.counts, maps + Ones(|b.keys|))
  {
    assert WellShaped(log + [b]);
    forall k
      ensures k in keys + b.keys <==> Mentions(log + [b], k)
      ensures SumFor(Entries(keys + b.keys, pairs + b.counts), k) == SumFor(AllPairs(log + [b]), k)
      ensures SumFor(Entries(keys + b.keys, maps + Ones(|b.keys|)), k) == SumFor(AllOnes(log + [b]), k)
    {
      MentionsMore(log, b, k);
      AppendSums(keys, pairs, b.keys, b.counts, k);
      AppendSums(keys, maps, b.keys, Ones(|b.keys|), k);
      LogSums(log, b, k);
    }
  }

  lemma {:induction false} MentionsMore(log: seq<Batch>, b: Batch, k: int)
    ensures Mentions(log + [b], k) <==> Mentions(log, k) || k in b.keys
  {
    if Mentions(log, k) {
      var c :| c in log && k in c.keys;
      assert c in log + [b];
    }
    if k in b.keys {
      assert b in log + [b];
    }
  }

  lemma {:induction false} AppendSums(ks: seq<int>, vs: seq<int>, ls: seq<int>, ws: seq<int>, k: int)
    requires |ks| == |vs| && |ls| == |ws|
    ensures SumFor(Entries(ks + ls, vs + ws), k) == SumFor(Entries(ks, vs), k) + SumFor(Entries(ls, ws), k)
  {
    EntriesAppend(ks, vs, ls, ws);
    SumForAppend(Entries(ks, vs), Entries(ls, ws), k);
  }

  lemma {:induction false} LogSums(log: seq<Batch>, b: Batch, k: int)
    requires WellShaped(log) && |b.keys| == |b.counts|
    ensures WellShaped(log + [b])
    ensures SumFor(AllPairs(log + [b]), k) == SumFor(AllPairs(log), k) + SumFor(Entries(b.keys, b.counts), k)
    ensures SumFor(AllOnes(log + [b]), k) == SumFor(AllOnes(log), k) + SumFor(Entries(b.keys, Ones(|b.keys|)), k)
  {
    assert (log + [b])[..|log|] == log;
    SumForAppend(AllPairs(log), Entries(b.keys, b.counts), k);
    SumForAppend(AllOnes(log), Entries(b.keys, Ones(|b.keys|)), k);
  }

  // ----- what the totals mean -----

  /** The totals are a function of the batches alone: no compaction schedule can change them. */
  lemma {:induction false} ScheduleIndependent(log: seq<Batch>, k1: seq<int>, p1: seq<int>, m1: seq<int>,
                                               k2: seq<int>, p2: seq<int>, m2: seq<int>)
    requires Totals(log, k1, p1, m1) && Totals(log, k2, p2, m2)
    ensures k1 == k2 && p1 == p2 && m1 == m2
  {
    AscendingDetermined(k1, k2);
  }

  lemma {:induction false} AscendingDetermined(s: seq<int>, t: seq<int>)
    requires Ascending(s) && Ascending(t)
    requires forall k :: k in s <==> k in t
    ensures s == t
  {
    forall x ensures x in s <==> x in t {}
    DistinctSameElements(s, t);
    SortedUnique((a: int, b: int) => a <= b, s, t);
  }

  ghost function CallsWith(log: seq<Batch>, k: int): nat {
    if log == [] then 0 else CallsWith(log[..|log| - 1], k) + if k in log[|log| - 1].keys then 1 else 0
  }

  /** When no call repeats a key, the map total is the number of calls that contain it. */
  lemma {:induction false} MapsCountCalls(log: seq<Batch>, k: int)
    requires forall b :: b in log ==> Distinct(b.keys)
    ensures SumFor(AllOnes(log), k) == CallsWith(log, k)
  {
    if log != [] {
      var front, b := log[..|log| - 1], log[|log| - 1];
      assert b in log;
      MapsCountCalls(front, k);
      SumForAppend(AllOnes(front), Entries(b.keys, Ones(|b.keys|)), k);
      OnesSum(b.keys, k);
    }
  }

  lemma {:induction false} OnesSum(keys: seq<int>, k: int)
    requires Distinct(keys)
    ensures SumFor(Entries(keys, Ones(|keys|)), k) == if k in keys then 1 else 0
  {
    if k in keys {
      var i :| 0 <= i < |keys| && keys[i] == k;
      var es := Entries(keys, Ones(|keys|));
      SumForRemove(es, i, k);
      var rest := es[..i] + es[i + 1..];
      assert !HasKey(rest, k) by {
        forall j | 0 <= j < |rest| ensures rest[j].0 != k {
          assert rest[j] == if j < i then es[j] else es[j + 1];
        }
      }
      NoKeyNoSum(rest, k);
    } else {
      NoKeyNoSum(Entries(keys, Ones(|keys|)), k);
    }
  }
}
