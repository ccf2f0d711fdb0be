/**
 The integer packings of the placement-grammar miner: a grid cell in one sortable integer, and a
 mined (type, type, relative rotation, offset) key in one 64-bit integer.
 */
module PackedKeys {
  import opened Rotation

  const MAX_TYPES := 0x20000        // 2^17
  const MAX_OFFSETS := 0x800_0000   // 2^27
  const BIAS := 0x80000             // 2^19
  const FIELD := 0x100000           // 2^20
  const FIELD_SQUARED := 0x100_0000_0000  // 2^40
  const X_HALF := 0x80_0000         // 2^23
  const X_FIELD := 0x100_0000       // 2^24
  const TWO_63 := 0x8000_0000_0000_0000
  const TWO_64 := 0x1_0000_0000_0000_0000

  // ----- mined keys -----

  datatype PairKey = PairKey(a: nat, b: nat, rel: nat, offset: nat)

  predicate WellFormed(k: PairKey, nOff: nat) {
    k.b < MAX_TYPES && k.rel < 4 && k.offset < nOff
  }

  /** `ta << 17 | tb` is a sum because `tb` fits in the low 17 bits; see `OrIsPlus`. */
  function Pack(k: PairKey, nOff: nat): nat {
    ((k.a * MAX_TYPES + k.b) * 4 + k.rel) * nOff + k.offset
  }

  function Unpack(key: nat, nOff: nat): PairKey
    requires nOff > 0
  {
    var rest := key / nOff;
    PairKey(rest / 4 / MAX_TYPES, rest / 4 % MAX_TYPES, rest % 4, key % nOff)
  }

  lemma OrIsPlus(a: bv64, b: bv64)
    requires b < 0x20000
    ensures (a << 17) | b == (a << 17) + b
  {}

  lemma {:induction false} ScaleMonotone(p: nat, q: nat, n: nat)
    requires p <= q
    ensures p * n <= q * n
  {}

  lemma {:induction false} DivModUnique(q: nat, n: nat, r: nat)
    requires r < n
    ensures (q * n + r) / n == q && (q * n + r) % n == r
  {
    var k := q * n + r;
    var p := k / n;
    assert p * n + k % n == k;
    if p < q {
      ScaleMonotone(p + 1, q, n);
    } else if p > q {
      ScaleMonotone(q + 1, p, n);
    }
  }

  /** Unpacking inverts packing, and packing inverts unpacking. */
  lemma {:induction false} UnpackInvertsPack(k: PairKey, nOff: nat)
    requires WellFormed(k, nOff)
    ensures Unpack(Pack(k, nOff), nOff) == k
  {
    var types := k.a * MAX_TYPES + k.b;
    var rest := types * 4 + k.rel;
    DivModUnique(rest, nOff, k.offset);
    DivModUnique(types, 4, k.rel);
    DivModUnique(k.a, MAX_TYPES, k.b);
  }

  lemma {:induction false} PackInvertsUnpack(key: nat, nOff: nat)
    requires nOff > 0
    ensures WellFormed(Unpack(key, nOff), nOff)
    ensures Pack(Unpack(key, nOff), nOff) == key
  {
    var rest := key / nOff;
    assert rest == (rest / 4) * 4 + rest % 4;
    assert rest / 4 == (rest / 4 / MAX_TYPES) * MAX_TYPES + rest / 4 % MAX_TYPES;
  }

  /** Keys never overflow a signed 64-bit integer while the neighbourhood has at most 2^27 offsets. */
  lemma {:induction false} PackFitsInt64(k: PairKey, nOff: nat)
    requires WellFormed(k, nOff) && k.a < MAX_TYPES && nOff <= MAX_OFFSETS
    ensures Pack(k, nOff) < TWO_63 && Int64(Pack(k, nOff)) == Pack(k, nOff)
  {
    var rest := (k.a * MAX_TYPES + k.b) * 4 + k.rel;
    assert rest <= 0x10_0000_0000 - 1;
    assert (rest + 1) * nOff <= 0x10_0000_0000 * nOff <= 0x10_0000_0000 * 0x800_0000;
    assert rest * nOff + k.offset < (rest + 1) * nOff;
    SmallInt64(Pack(k, nOff));
  }

  // ----- packed cells -----

  /** The value of a signed 64-bit integer: arithmetic on it wraps around. */
  function Int64(n: int): int { (n + TWO_63) % TWO_64 - TWO_63 }

  function RawKey(v: Vec): int {
    (v.x + BIAS) * FIELD_SQUARED + (v.y + BIAS) * FIELD + (v.z + BIAS)
  }

  /** The packed cell, as 64-bit shifts and additions compute it. */
  function CellKey(v: Vec): int { Int64(RawKey(v)) }

  /** What is added to a cell key to look a neighbour up. */
  function ShiftKey(d: Vec): int {
    d.x * FIELD_SQUARED + d.y * FIELD + d.z
  }

  /** The key that is looked up. */
  function Target(key: int, shift: int): int { Int64(key + shift) }

  /** Two coordinates have 20 bits each; the 24 bits above them, one of them the sign, are for x. */
  predicate InField(v: Vec) {
    && -X_HALF <= v.x + BIAS < X_HALF
    && 0 <= v.y + BIAS < FIELD && 0 <= v.z + BIAS < FIELD
  }

  lemma {:induction false} CongruentInt64(m: int, n: int, q: int)
    requires m == n + q * TWO_64
    ensures Int64(m) == Int64(n)
  {
    assert (m + TWO_63) % TWO_64 == (n + TWO_63) % TWO_64;
  }

  lemma {:induction false} SmallInt64(n: int)
    requires -TWO_63 <= n < TWO_63
    ensures Int64(n) == n
  {}

  /** The key of a cell inside the fields does not wrap. */
  lemma {:induction false} CellKeyFitsInt64(v: Vec)
    requires InField(v)
    ensures -TWO_63 <= RawKey(v) < TWO_63 && CellKey(v) == RawKey(v)
  {
    SmallInt64(RawKey(v));
  }

  lemma {:induction false} CellKeyInjective(u: Vec, v: Vec)
    requires InField(u) && InField(v) && CellKey(u) == CellKey(v)
    ensures u == v
  {
    CellKeyFitsInt64(u);
    CellKeyFitsInt64(v);
    var dz := u.z - v.z;
    var q := (v.x - u.x) * FIELD + (v.y - u.y);
    assert dz == q * FIELD;
    assert q == 0;
  }

  /** Looking up a key plus an offset is looking up the displaced cell, whether or not either wraps. */
  lemma {:induction false} CellKeyShifts(a: Vec, d: Vec)
    ensures Target(CellKey(a), ShiftKey(d)) == CellKey(Add(a, d))
  {
    var raw := RawKey(a);
    var q := (raw + TWO_63) / TWO_64;
    assert CellKey(a) == raw - q * TWO_64;
    assert RawKey(Add(a, d)) == raw + ShiftKey(d);
    CongruentInt64(CellKey(a) + ShiftKey(d), raw + ShiftKey(d), -q);
  }

  /** Carrying the low fields into range, and wrapping the high one, keeps the key. */
  lemma {:induction false} Normalise(v: Vec) returns (b: Vec)
    ensures InField(b) && CellKey(b) == CellKey(v)
  {
    var z := v.z + BIAS;
    var y := v.y + BIAS + z / FIELD;
    var x := v.x + BIAS + y / FIELD;
    var q := (x + X_HALF) / X_FIELD;
    b := Vec(x - q * X_FIELD - BIAS, y % FIELD - BIAS, z % FIELD - BIAS);
    assert RawKey(b) == RawKey(v) + (-q) * TWO_64;
    CongruentInt64(RawKey(b), RawKey(v), -q);
  }

  /**
   Looking up the neighbour at offset `d` finds exactly the cell `a + d`, if and only if that cell itself
   stays inside the fields: outside them some other cell has the same key.
   */
  lemma {:induction false} LookupExact(a: Vec, d: Vec)
    ensures (forall b :: InField(b) ==> (CellKey(b) == Target(CellKey(a), ShiftKey(d)) <==> b == Add(a, d)))
            <==> InField(Add(a, d))
  {
    CellKeyShifts(a, d);
    if InField(Add(a, d)) {
      forall b | InField(b) && CellKey(b) == CellKey(Add(a, d)) ensures b == Add(a, d) {
        CellKeyInjective(b, Add(a, d));
      }
    } else {
      var b := Normalise(Add(a, d));
      assert InField(b) && CellKey(b) == Target(CellKey(a), ShiftKey(d)) && b != Add(a, d);
    }
  }

  /** One cell above the top of the z field is the bottom of the next row; 2^24 cells along x is the same cell again. */
  lemma {:induction false} LookupAliases()
    ensures CellKey(Vec(0, 0, BIAS)) == CellKey(Vec(0, 1, -BIAS))
    ensures CellKey(Vec(X_FIELD, 0, 0)) == CellKey(Vec(0, 0, 0)) && InField(Vec(0, 0, 0))
  {}
}
