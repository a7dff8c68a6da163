/** Packing and parsing the version numbers of graphics drivers. */
module DriverVersions {
  import opened BasicTypes

  // ----- Packing four fields -----

  function Pow2(k: nat): (p: nat)
    ensures p > 0
  {
    if k == 0 then 1 else 2 * Pow2(k - 1)
  }

  /** Bitwise or. */
  function Or(x: nat, y: nat): nat
    decreases x + y
  {
    if x == 0 && y == 0 then 0
    else (if x % 2 == 1 || y % 2 == 1 then 1 else 0) + 2 * Or(x / 2, y / 2)
  }

  function ShiftLeft(x: nat, k: nat): uint64 {
    (x * Pow2(k)) % UINT64_RANGE
  }

  /** GFX_DRIVER_VERSION. Fields wider than 16 bits run into each other. */
  function Pack(a: uint32, b: uint32, c: uint32, d: uint32): nat {
    Or(Or(Or(ShiftLeft(a, 48), ShiftLeft(b, 32)), ShiftLeft(c, 16)), d)
  }

  const FIELD_RANGE := UINT16_RANGE

  predicate IsField(n: int) { 0 <= n < FIELD_RANGE }

  lemma {:induction false} OrOfDisjoint(high: nat, k: nat, low: nat)
    requires low < Pow2(k)
    ensures Or(high * Pow2(k), low) == high * Pow2(k) + low
    decreases k
  {
    if k == 0 {
      OrWithZero(high);
    } else {
      var h := high * Pow2(k - 1);
      assert high * Pow2(k) == 2 * h by { assert Pow2(k) == 2 * Pow2(k - 1); DoubleProduct(high, Pow2(k - 1)); }
      OrOfDisjoint(high, k - 1, low / 2);
      assert (2 * h) / 2 == h && (2 * h) % 2 == 0;
      if 2 * h != 0 || low != 0 {
        assert Or(2 * h, low) == low % 2 + 2 * Or(h, low / 2);
      }
    }
  }

  lemma DoubleProduct(x: nat, y: nat)
    ensures x * (2 * y) == 2 * (x * y)
  {
  }

  lemma {:induction false} OrWithZero(x: nat)
    ensures Or(x, 0) == x
    decreases x
  {
    if x == 0 {
    } else {
      OrWithZero(x / 2);
    }
  }

  lemma Powers()
    ensures Pow2(16) == 0x1_0000 && Pow2(32) == 0x1_0000_0000 && Pow2(48) == 0x1_0000_0000_0000
  {
    assert Pow2(8) == 256;
    PowersAdd(8, 8);
    PowersAdd(16, 16);
    PowersAdd(32, 16);
  }

  lemma {:induction false} PowersAdd(i: nat, j: nat)
    ensures Pow2(i + j) == Pow2(i) * Pow2(j)
  {
    if j == 0 {
    } else {
      PowersAdd(i, j - 1);
      assert Pow2(i + j) == 2 * Pow2(i + (j - 1));
      DoubleProduct(Pow2(i), Pow2(j - 1));
    }
  }

  lemma ShiftedFits(n: nat, k: nat)
    requires IsField(n) && (k == 16 || k == 32 || k == 48)
    ensures ShiftLeft(n, k) == n * Pow2(k)
  {
    Powers();
  }

  function Packed(a: int, b: int, c: int, d: int): int {
    ((a * FIELD_RANGE + b) * FIELD_RANGE + c) * FIELD_RANGE + d
  }

  /** Fields of 16 bits are packed side by side. */
  lemma PackIsPositional(a: uint32, b: uint32, c: uint32, d: uint32)
    requires IsField(a) && IsField(b) && IsField(c) && IsField(d)
    ensures Pack(a, b, c, d) == Packed(a, b, c, d)
  {
    Powers();
    ShiftedFits(a, 48);
    ShiftedFits(b, 32);
    ShiftedFits(c, 16);
    var ab := a * FIELD_RANGE + b;
    var abc := ab * FIELD_RANGE + c;
    OrOfDisjoint(a, 48, ShiftLeft(b, 32));
    assert Or(ShiftLeft(a, 48), ShiftLeft(b, 32)) == ab * Pow2(32);
    OrOfDisjoint(ab, 32, ShiftLeft(c, 16));
    assert Or(ab * Pow2(32), ShiftLeft(c, 16)) == abc * Pow2(16);
    OrOfDisjoint(abc, 16, d);
  }

  /** Fields of 16 bits can be told apart again, and the packed numbers compare like
      the fields one after another. */
  lemma PackedOrder(a: int, b: int, c: int, d: int, p: int, q: int, r: int, s: int)
    requires IsField(a) && IsField(b) && IsField(c) && IsField(d)
    requires IsField(p) && IsField(q) && IsField(r) && IsField(s)
    ensures Packed(a, b, c, d) < Packed(p, q, r, s)
            <==> a < p || (a == p && (b < q || (b == q && (c < r || (c == r && d < s)))))
    ensures Packed(a, b, c, d) == Packed(p, q, r, s) <==> a == p && b == q && c == r && d == s
  {
  }

  /** One 16-bit field of a packed number, counted from the right. */
  function Field(v: uint64, k: nat): (f: int)
    ensures IsField(f)
  {
    (v / Pow2(16 * k)) % FIELD_RANGE
  }

  lemma FieldsOfNumber(v: uint64)
    ensures v == Packed(Field(v, 3), Field(v, 2), Field(v, 1), Field(v, 0))
  {
    FieldsAreDigits(v);
    var v1 := v / FIELD_RANGE;
    var v2 := v1 / FIELD_RANGE;
    assert v == v1 * FIELD_RANGE + v % FIELD_RANGE;
    assert v1 == v2 * FIELD_RANGE + v1 % FIELD_RANGE;
  }

  lemma FieldsAreDigits(v: uint64)
    ensures Field(v, 0) == v % FIELD_RANGE
    ensures Field(v, 1) == (v / FIELD_RANGE) % FIELD_RANGE
    ensures Field(v, 2) == (v / FIELD_RANGE / FIELD_RANGE) % FIELD_RANGE
    ensures Field(v, 3) == v / FIELD_RANGE / FIELD_RANGE / FIELD_RANGE
  {
    Powers();
    DivideTwice(v, FIELD_RANGE);
    DivideTwice(v, FIELD_RANGE * FIELD_RANGE);
  }

  lemma DivideTwice(v: nat, m: nat)
    requires m == FIELD_RANGE || m == FIELD_RANGE * FIELD_RANGE
    ensures (v / m) / FIELD_RANGE == v / (m * FIELD_RANGE)
  {
  }

  // ----- Building a number from components -----

  /** Ten times the component until it has four decimal digits; 0 stays. */
  function PadNumber(n: uint32): uint32
    decreases if 0 < n < 1000 then 1000 - n else 0
  {
    if 0 < n < 1000 then PadNumber(n * 10) else n
  }

  lemma {:induction false} PaddedRange(n: uint32)
    ensures PadNumber(n) == n || 1000 <= PadNumber(n) <= 9999
    ensures PadNumber(n) == n <==> n == 0 || 1000 <= n
    decreases if 0 < n < 1000 then 1000 - n else 0
  {
    if n == 0 || 1000 <= n {
    } else {
      PaddedRange(n * 10);
    }
  }

  function Built(a: uint32, b: uint32, c: uint32, d: uint32): nat {
    Pack(a, PadNumber(b), PadNumber(c), PadNumber(d))
  }

  lemma BuiltIsPositional(a: uint32, b: uint32, c: uint32, d: uint32)
    requires IsField(a) && IsField(b) && IsField(c) && IsField(d)
    ensures IsField(PadNumber(b)) && IsField(PadNumber(c)) && IsField(PadNumber(d))
    ensures Built(a, b, c, d) == Packed(a, PadNumber(b), PadNumber(c), PadNumber(d)) < UINT64_RANGE
  {
    PaddedRange(b);
    PaddedRange(c);
    PaddedRange(d);
    PackIsPositional(a, PadNumber(b), PadNumber(c), PadNumber(d));
  }

  /** The version number of a blocklist entry. */
  method V(a: uint32, b: uint32, c: uint32, d: uint32) returns (v: nat)
    ensures v == Built(a, b, c, d)
  {
    var b': uint32, c': uint32, d': uint32 := b, c, d;
    while 0 < b' < 1000
      invariant PadNumber(b') == PadNumber(b)
      decreases if 0 < b' then 1000 - b' else 0
    {
      b' := b' * 10;
    }
    while 0 < c' < 1000
      invariant PadNumber(c') == PadNumber(c)
      decreases if 0 < c' then 1000 - c' else 0
    {
      c' := c' * 10;
    }
    while 0 < d' < 1000
      invariant PadNumber(d') == PadNumber(d)
      decreases if 0 < d' then 1000 - d' else 0
    {
      d' := d' * 10;
    }
    v := Pack(a, b', c', d');
  }
}
