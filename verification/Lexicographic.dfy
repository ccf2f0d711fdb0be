/**
 Lexicographic comparison of sequences, as Python compares strings, lists and tuples.
 */
module Lexicographic {

  ghost predicate StrictTotal<T(!new)>(lt: (T, T) -> bool) {
    && (forall a, b :: lt(a, b) || lt(b, a) || a == b)
    && (forall a, b :: lt(a, b) ==> !lt(b, a) && a != b)
    && (forall a, b, c :: lt(a, b) && lt(b, c) ==> lt(a, c))
  }

  predicate LexLeq<T(==)>(lt: (T, T) -> bool, a: seq<T>, b: seq<T>) {
    || a == []
    || (b != [] && (lt(a[0], b[0]) || (a[0] == b[0] && LexLeq(lt, a[1..], b[1..]))))
  }

  lemma {:induction false} LexTotal<T(!new)>(lt: (T, T) -> bool, a: seq<T>, b: seq<T>)
    requires StrictTotal(lt)
    ensures LexLeq(lt, a, b) || LexLeq(lt, b, a)
    ensures LexLeq(lt, a, b) && LexLeq(lt, b, a) ==> a == b
  {
    if a != [] && b != [] && a[0] == b[0] {
      LexTotal(lt, a[1..], b[1..]);
      assert a == [a[0]] + a[1..] && b == [b[0]] + b[1..];
    }
  }

  lemma {:induction false} LexTransitive<T(!new)>(lt: (T, T) -> bool, a: seq<T>, b: seq<T>, c: seq<T>)
    requires StrictTotal(lt) && LexLeq(lt, a, b) && LexLeq(lt, b, c)
    ensures LexLeq(lt, a, c)
  {
    if a != [] && a[0] == b[0] == c[0] {
      LexTransitive(lt, a[1..], b[1..], c[1..]);
    }
  }

  ghost predicate DiffersAt<T>(lt: (T, T) -> bool, a: seq<T>, b: seq<T>, k: nat) {
    k < |a| && k < |b| && a[..k] == b[..k] && lt(a[k], b[k])
  }

  /** The first difference decides, and a prefix comes first. */
  lemma {:induction false} FirstDifference<T>(lt: (T, T) -> bool, a: seq<T>, b: seq<T>)
    ensures LexLeq(lt, a, b) <==> a <= b || exists k: nat :: DiffersAt(lt, a, b, k)
  {
    if a != [] && b != [] {
      assert DiffersAt(lt, a, b, 0) <==> lt(a[0], b[0]);
      forall k: nat | k > 0 && DiffersAt(lt, a, b, k) ensures a[0] == b[0] && DiffersAt(lt, a[1..], b[1..], k - 1) {
        assert a[..k][0] == b[..k][0];
        ShiftedDifference(lt, a, b, k - 1);
      }
      if a[0] == b[0] {
        FirstDifference(lt, a[1..], b[1..]);
        assert a <= b <==> a[1..] <= b[1..];
        forall k: nat | DiffersAt(lt, a[1..], b[1..], k) ensures DiffersAt(lt, a, b, k + 1) {
          ShiftedDifference(lt, a, b, k);
        }
      }
    }
  }

  lemma {:induction false} ShiftedDifference<T>(lt: (T, T) -> bool, a: seq<T>, b: seq<T>, k: nat)
    requires a != [] && b != [] && a[0] == b[0]
    ensures DiffersAt(lt, a, b, k + 1) <==> DiffersAt(lt, a[1..], b[1..], k)
  {
    if k < |a| - 1 && k < |b| - 1 {
      assert a[..k + 1] == [a[0]] + a[1..][..k] && b[..k + 1] == [b[0]] + b[1..][..k];
    }
  }

  /** Strings compare by the first character in which they differ. */
  lemma {:induction false} StringLeqMeans(a: string, b: string)
    ensures StringLeq(a, b) <==> a <= b || exists k: nat :: k < |a| && k < |b| && a[..k] == b[..k] && a[k] < b[k]
  {
    FirstDifference(CharLt, a, b);
    if StringLeq(a, b) && !(a <= b) {
      var k: nat :| DiffersAt(CharLt, a, b, k);
      assert a[k] < b[k];
    }
    if k: nat :| k < |a| && k < |b| && a[..k] == b[..k] && a[k] < b[k] {
      assert DiffersAt(CharLt, a, b, k);
    }
  }

  lemma {:induction false} LexCons<T>(lt: (T, T) -> bool, x: T, s: seq<T>, y: T, t: seq<T>)
    ensures LexLeq(lt, [x] + s, [y] + t) <==> lt(x, y) || (x == y && LexLeq(lt, s, t))
  {
    assert ([x] + s)[1..] == s && ([y] + t)[1..] == t;
  }

  // ----- strings, and lists of lists -----

  predicate CharLt(a: char, b: char) { a < b }

  predicate IntLt(a: int, b: int) { a < b }

  predicate StringLeq(a: string, b: string) { LexLeq(CharLt, a, b) }

  predicate StringLt(a: string, b: string) { a != b && StringLeq(a, b) }

  predicate IntsLt(a: seq<int>, b: seq<int>) { a != b && LexLeq(IntLt, a, b) }

  lemma {:induction false} StringOrder(a: string, b: string, c: string)
    ensures StringLeq(a, b) || StringLeq(b, a)
    ensures StringLeq(a, b) && StringLeq(b, a) ==> a == b
    ensures StringLeq(a, b) && StringLeq(b, c) ==> StringLeq(a, c)
  {
    LexTotal(CharLt, a, b);
    if StringLeq(a, b) && StringLeq(b, c) {
      LexTransitive(CharLt, a, b, c);
    }
  }

  lemma {:induction false} StringLtStrictTotal()
    ensures StrictTotal(StringLt)
  {
    forall a, b, c
      ensures StringLt(a, b) || StringLt(b, a) || a == b
      ensures StringLt(a, b) ==> !StringLt(b, a)
      ensures StringLt(a, b) && StringLt(b, c) ==> StringLt(a, c)
    {
      StringOrder(a, b, c);
      StringOrder(b, a, c);
    }
  }

  lemma {:induction false} IntsLtStrictTotal()
    ensures StrictTotal(IntsLt)
  {
    forall a, b, c
      ensures IntsLt(a, b) || IntsLt(b, a) || a == b
      ensures IntsLt(a, b) ==> !IntsLt(b, a)
      ensures IntsLt(a, b) && IntsLt(b, c) ==> IntsLt(a, c)
    {
      LexTotal(IntLt, a, b);
      if IntsLt(a, b) && IntsLt(b, c) {
        LexTransitive(IntLt, a, b, c);
      }
    }
  }
}
