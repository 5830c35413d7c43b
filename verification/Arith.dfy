/** Integer facts shared by the arithmetic parts of the model: powers of two and
    congruence modulo a positive number. */
module Arith {

  type Byte = x: int | 0 <= x < 0x100
  type U32 = x: int | 0 <= x < 0x1_0000_0000
  type U64 = x: int | 0 <= x < 0x1_0000_0000_0000_0000
  type I64 = x: int | -0x8000_0000_0000_0000 <= x < 0x8000_0000_0000_0000

  const TWO128: int := 0x1_0000_0000_0000_0000_0000_0000_0000_0000

  /** The two's complement reading of a word whose sign bit is worth `half`. */
  function Signed(w: int, half: int): (v: int)
  {
    if w >= half then w - 2 * half else w
  }

  function Pow2(n: nat): (r: nat)
    ensures r > 0
  {
    if n == 0 then 1 else 2 * Pow2(n - 1)
  }

  lemma {:induction false} Pow2Add(a: nat, b: nat)
    ensures Pow2(a + b) == Pow2(a) * Pow2(b)
  {
    if a > 0 {
      Pow2Add(a - 1, b);
      assert Pow2(a + b) == 2 * (Pow2(a - 1) * Pow2(b));
    }
  }

  lemma {:induction false} Pow2Monotone(a: nat, b: nat)
    requires a <= b
    ensures Pow2(a) <= Pow2(b)
    decreases b
  {
    if a < b {
      Pow2Monotone(a, b - 1);
    }
  }

  lemma Pow2Values()
    ensures Pow2(4) == 0x10 && Pow2(6) == 0x40 && Pow2(8) == 0x100
    ensures Pow2(16) == 0x1_0000 && Pow2(24) == 0x100_0000 && Pow2(26) == 0x400_0000
    ensures Pow2(32) == 0x1_0000_0000 && Pow2(64) == 0x1_0000_0000_0000_0000
  {
    assert Pow2(4) == 16;
    assert Pow2(2) == 4;
    Pow2Add(4, 2);
    Pow2Add(4, 4);
    Pow2Add(8, 8);
    Pow2Add(16, 8);
    Pow2Add(24, 2);
    Pow2Add(16, 16);
    Pow2Add(32, 32);
  }

  lemma MulBound(a: int, b: int, hiA: int, hiB: int)
    requires 0 <= a <= hiA && 0 <= b <= hiB
    ensures 0 <= a * b <= hiA * hiB
  {
    assert a * b <= hiA * b <= hiA * hiB;
  }

  /** Quotient and remainder are determined by the defining equation. */
  lemma DivModUnique(x: int, q: int, r: int, m: int)
    requires 0 <= r < m
    requires x == q * m + r
    ensures x / m == q && x % m == r
  {
    var q', r' := x / m, x % m;
    assert x == q' * m + r';
    assert (q - q') * m == r' - r;
    assert q - q' >= 1 ==> (q - q') * m >= m;
    assert q - q' <= -1 ==> (q - q') * m <= -m;
  }

  /** Adding a multiple of the modulus does not change the residue. */
  lemma ModAddMultiple(x: int, k: int, m: int)
    requires m > 0
    ensures (x + k * m) % m == x % m
  {
    var q, r := x / m, x % m;
    assert x + k * m == (q + k) * m + r;
    DivModUnique(x + k * m, q + k, r, m);
  }

  lemma ModAdd(x: int, y: int, m: int)
    requires m > 0
    ensures (x + y) % m == (x % m + y % m) % m
  {
    var q := x / m + y / m;
    assert x + y == (x % m + y % m) + q * m;
    ModAddMultiple(x % m + y % m, q, m);
  }

  lemma ModSub(x: int, y: int, m: int)
    requires m > 0
    ensures (x - y) % m == (x % m - y % m) % m
  {
    var q := x / m - y / m;
    assert x - y == (x % m - y % m) + q * m;
    ModAddMultiple(x % m - y % m, q, m);
  }

  lemma Expand(a: int, r: int, m: int, b: int, s: int)
    ensures (a * m + r) * (b * m + s) == r * s + (a * (b * m + s) + r * b) * m
  {
    var y := b * m + s;
    assert (a * m + r) * y == a * m * y + r * y;
    assert r * y == r * (b * m) + r * s;
    assert r * (b * m) == (r * b) * m;
    assert a * m * y == (a * y) * m;
  }

  lemma ModMul(x: int, y: int, m: int)
    requires m > 0
    ensures (x * y) % m == ((x % m) * (y % m)) % m
  {
    var a, b, r, s := x / m, y / m, x % m, y % m;
    var q := a * y + r * b;
    assert x == a * m + r && y == b * m + s;
    Expand(a, r, m, b, s);
    ModAddMultiple(r * s, q, m);
  }

  /** Dividing twice is dividing by the product. */
  lemma DivDiv(x: int, a: int, b: int)
    requires a > 0 && b > 0
    ensures a * b > 0 && (x / a) / b == x / (a * b)
  {
    var q, r := x / (a * b), x % (a * b);
    assert a * b > 0;
    var r1, r0 := r / a, r % a;
    assert x == (q * b + r1) * a + r0 by {
      assert x == q * (a * b) + r;
      assert r == r1 * a + r0;
      assert q * (a * b) == (q * b) * a;
    }
    DivModUnique(x, q * b + r1, r0, a);
    assert r1 < b by {
      assert r1 >= b ==> r1 * a >= b * a;
    }
    assert r1 >= 0;
    DivModUnique(q * b + r1, q, r1, b);
  }

  /** A shifted number cut to a word keeps its low part above the shift. */
  lemma ShiftResidue(v: nat, x: nat, a: nat, b: nat)
    requires v < a && b > 0
    ensures a * b > 0 && (v + x * a) % (a * b) == v + a * (x % b)
  {
    var q, r := x / b, x % b;
    assert a * b > 0;
    assert x * a == q * (a * b) + r * a by {
      assert x == q * b + r;
      assert (q * b + r) * a == q * (a * b) + r * a;
    }
    MulBound(r, a, b - 1, a);
    assert (b - 1) * a == a * b - a;
    DivModUnique(v + x * a, q, v + r * a, a * b);
  }
}
