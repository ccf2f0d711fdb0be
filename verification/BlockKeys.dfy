/**
 Block identities of the constraint graph, the strings they are stored under, and the order that makes
 an unordered pair of blocks one edge.
 */
module BlockKeys {
  import opened Collections
  import opened Lexicographic

  const SEP := '|'

  datatype BlockKey = BlockKey(family: string, kind: string, variant: string)

  /** What the constructor accepts; it raises on anything else. */
  predicate WellFormed(k: BlockKey) {
    k.family != [] && k.kind != [] && SEP !in k.family && SEP !in k.kind && SEP !in k.variant
  }

  function NewKey(family: string, kind: string, variant: string): Option<BlockKey> {
    var k := BlockKey(family, kind, variant);
    if WellFormed(k) then Some(k) else None
  }

  function Normalized(k: BlockKey): string { k.family + [SEP] + k.kind + [SEP] + k.variant }

  /** Python's `split`: one more part than there are separators. */
  function Split(s: string): (parts: seq<string>)
    ensures parts != []
  {
    if s == [] then [[]]
    else
      var rest := Split(s[1..]);
      if s[0] == SEP then [[]] + rest else [[s[0]] + rest[0]] + rest[1..]
  }

  function FromNormalized(key: string): Option<BlockKey> {
    var parts := Split(key);
    if |parts| != 3 then None else NewKey(parts[0], parts[1], parts[2])
  }

  lemma {:induction false} SplitPlain(a: string)
    requires SEP !in a
    ensures Split(a) == [a]
  {
    if a != [] {
      SplitPlain(a[1..]);
      assert a == [a[0]] + a[1..];
    }
  }

  lemma {:induction false} SplitAtSeparator(a: string, rest: string)
    requires SEP !in a
    ensures Split(a + [SEP] + rest) == [a] + Split(rest)
  {
    var s := a + [SEP] + rest;
    if a == [] {
      assert s[1..] == rest;
    } else {
      assert s[1..] == a[1..] + [SEP] + rest;
      SplitAtSeparator(a[1..], rest);
      assert a == [a[0]] + a[1..];
    }
  }

  function Join(parts: seq<string>): string
    requires parts != []
  {
    if |parts| == 1 then parts[0] else parts[0] + [SEP] + Join(parts[1..])
  }

  lemma {:induction false} JoinPrefix(c: char, head: string, tail: seq<string>)
    ensures Join([[c] + head] + tail) == [c] + Join([head] + tail)
  {
    if tail != [] {
      assert ([[c] + head] + tail)[1..] == tail && ([head] + tail)[1..] == tail;
      assert ([c] + head) + [SEP] + Join(tail) == [c] + (head + [SEP] + Join(tail));
    }
  }

  lemma {:induction false} JoinSplit(s: string)
    ensures Join(Split(s)) == s
    ensures forall p :: p in Split(s) ==> SEP !in p
  {
    if s != [] {
      JoinSplit(s[1..]);
      var rest := Split(s[1..]);
      assert s == [s[0]] + s[1..];
      if s[0] == SEP {
        assert ([[]] + rest)[1..] == rest;
      } else {
        JoinPrefix(s[0], rest[0], rest[1..]);
        assert [rest[0]] + rest[1..] == rest;
        assert SEP !in [s[0]] + rest[0];
      }
    }
  }

  /** Storing and reading back gives the same key. */
  lemma {:induction false} KeyRoundTrip(k: BlockKey)
    requires WellFormed(k)
    ensures FromNormalized(Normalized(k)) == Some(k)
  {
    assert Normalized(k) == k.family + [SEP] + (k.kind + [SEP] + k.variant);
    SplitAtSeparator(k.family, k.kind + [SEP] + k.variant);
    SplitAtSeparator(k.kind, k.variant);
    SplitPlain(k.variant);
  }

  /** Whatever string is read as a key is the string that key is stored under. */
  lemma {:induction false} StringRoundTrip(s: string)
    ensures FromNormalized(s).Some? ==> WellFormed(FromNormalized(s).value) && Normalized(FromNormalized(s).value) == s
  {
    var parts := Split(s);
    if |parts| == 3 {
      JoinSplit(s);
      assert parts == [parts[0], parts[1], parts[2]];
      assert Join([parts[1], parts[2]]) == parts[1] + [SEP] + parts[2];
      assert parts[1..] == [parts[1], parts[2]];
      assert Join(parts) == parts[0] + [SEP] + (parts[1] + [SEP] + parts[2]);
    }
  }

  lemma {:induction false} NormalizedInjective(a: BlockKey, b: BlockKey)
    requires WellFormed(a) && WellFormed(b) && Normalized(a) == Normalized(b)
    ensures a == b
  {
    KeyRoundTrip(a);
    KeyRoundTrip(b);
  }

  // ----- unordered pairs -----

  function OrderPair(a: BlockKey, b: BlockKey): (BlockKey, BlockKey) {
    if StringLeq(Normalized(a), Normalized(b)) then (a, b) else (b, a)
  }

  type PairId = (string, string)

  function IdOf(p: (BlockKey, BlockKey)): PairId { (Normalized(p.0), Normalized(p.1)) }

  /** An unordered pair is stored one way only, smaller key first. */
  lemma {:induction false} OrderPairCanonical(a: BlockKey, b: BlockKey)
    requires WellFormed(a) && WellFormed(b)
    ensures OrderPair(a, b) == OrderPair(b, a)
    ensures StringLeq(IdOf(OrderPair(a, b)).0, IdOf(OrderPair(a, b)).1)
  {
    StringOrder(Normalized(a), Normalized(b), Normalized(a));
    if StringLeq(Normalized(a), Normalized(b)) && StringLeq(Normalized(b), Normalized(a)) {
      NormalizedInjective(a, b);
    }
  }

  /** Two unordered pairs get the same identity exactly when they are the same unordered pair. */
  lemma {:induction false} SamePair(a: BlockKey, b: BlockKey, c: BlockKey, d: BlockKey)
    requires WellFormed(a) && WellFormed(b) && WellFormed(c) && WellFormed(d)
    ensures IdOf(OrderPair(a, b)) == IdOf(OrderPair(c, d)) <==> (a == c && b == d) || (a == d && b == c)
  {
    OrderPairCanonical(a, b);
    if IdOf(OrderPair(a, b)) == IdOf(OrderPair(c, d)) {
      var p, q := OrderPair(a, b), OrderPair(c, d);
      NormalizedInjective(p.0, q.0);
      NormalizedInjective(p.1, q.1);
    }
  }
}
