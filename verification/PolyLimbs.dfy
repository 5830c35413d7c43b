/** Radix 2^26 arithmetic behind Poly1305, on integers. */
module PolyLimbs {
  import opened Arith

  /** 2^130 - 5 */
  const P1305: int := 0x3_ffff_ffff_ffff_ffff_ffff_ffff_ffff_fffb

  function Val5(a0: int, a1: int, a2: int, a3: int, a4: int): (v: int)
  {
    a0 + 0x400_0000 * a1 + 0x10_0000_0000_0000 * a2 + 0x4000_0000_0000_0000_0000 * a3
    + 0x100_0000_0000_0000_0000_0000_0000 * a4
  }

  /** Multiplication distributes over the limbs. */
  lemma ScaleVal5(x: int, a0: int, a1: int, a2: int, a3: int, a4: int)
    ensures x * Val5(a0, a1, a2, a3, a4) == Val5(x * a0, x * a1, x * a2, x * a3, x * a4)
  {
    Distribute(x, a0, 0x400_0000, a1);
    Distribute(x, a0 + 0x400_0000 * a1, 0x10_0000_0000_0000, a2);
    Distribute(x, a0 + 0x400_0000 * a1 + 0x10_0000_0000_0000 * a2, 0x4000_0000_0000_0000_0000, a3);
    Distribute(x, a0 + 0x400_0000 * a1 + 0x10_0000_0000_0000 * a2 + 0x4000_0000_0000_0000_0000 * a3,
               0x100_0000_0000_0000_0000_0000_0000, a4);
  }

  lemma Distribute(x: int, a: int, k: int, b: int)
    ensures x * (a + k * b) == x * a + k * (x * b)
  {
  }

  /** The 25 partial products, folded at 2^130 with weight 5. */
  lemma FoldProducts(p00: int, p01: int, p02: int, p03: int, p04: int,
                     p10: int, p11: int, p12: int, p13: int, p14: int,
                     p20: int, p21: int, p22: int, p23: int, p24: int,
                     p30: int, p31: int, p32: int, p33: int, p34: int,
                     p40: int, p41: int, p42: int, p43: int, p44: int)
    ensures Val5(Val5(p00, p01, p02, p03, p04), Val5(p10, p11, p12, p13, p14), Val5(p20, p21, p22, p23, p24),
                 Val5(p30, p31, p32, p33, p34), Val5(p40, p41, p42, p43, p44))
         == Val5(p00 + 5 * p14 + 5 * p23 + 5 * p32 + 5 * p41,
                 p01 + p10 + 5 * p24 + 5 * p33 + 5 * p42,
                 p02 + p11 + p20 + 5 * p34 + 5 * p43,
                 p03 + p12 + p21 + p30 + 5 * p44,
                 p04 + p13 + p22 + p31 + p40)
            + 0x3_ffff_ffff_ffff_ffff_ffff_ffff_ffff_fffb
              * Val5(p14 + p23 + p32 + p41, p24 + p33 + p42, p34 + p43, p44, 0)
  {
  }

  ghost predicate RLimbs(r0: int, r1: int, r2: int, r3: int, r4: int)
  {
    0 <= r0 <= 0x3ffffff && 0 <= r1 <= 0x3ffff03 && 0 <= r2 <= 0x3ffc0ff && 0 <= r3 <= 0x3f03fff && 0 <= r4 <= 0xfffff
  }

  /** The accumulator between blocks. */
  ghost predicate HLimbs(h0: int, h1: int, h2: int, h3: int, h4: int)
  {
    && 0 <= h0 < 0x400_0000 && 0 <= h1 < 0x400_0000 + 64 && 0 <= h2 < 0x400_0000
    && 0 <= h3 < 0x400_0000 && 0 <= h4 < 0x400_0000
  }

  /** The accumulator after a message block was added. */
  ghost predicate SumLimbs(h0: int, h1: int, h2: int, h3: int, h4: int)
  {
    && 0 <= h0 < 0x800_0000 && 0 <= h1 < 0x800_0000 + 64 && 0 <= h2 < 0x800_0000
    && 0 <= h3 < 0x800_0000 && 0 <= h4 < 0x600_0000
  }

  /** The products of one row stay small enough for 64-bit sums. */
  lemma RowBounds(x: int, hi: int, r0: int, r1: int, r2: int, r3: int, r4: int)
    requires 0 <= x <= hi && RLimbs(r0, r1, r2, r3, r4)
    ensures 0 <= x * r0 <= hi * 0x3ffffff && 0 <= x * r1 <= hi * 0x3ffff03
    ensures 0 <= x * r2 <= hi * 0x3ffc0ff && 0 <= x * r3 <= hi * 0x3f03fff
    ensures 0 <= x * r4 <= hi * 0xfffff
    ensures x * (r1 * 5) == 5 * (x * r1) && x * (r2 * 5) == 5 * (x * r2)
    ensures x * (r3 * 5) == 5 * (x * r3) && x * (r4 * 5) == 5 * (x * r4)
  {
    MulBound(x, r0, hi, 0x3ffffff);
    MulBound(x, r1, hi, 0x3ffff03);
    MulBound(x, r2, hi, 0x3ffc0ff);
    MulBound(x, r3, hi, 0x3f03fff);
    MulBound(x, r4, hi, 0xfffff);
  }

  /** The five column sums of h * r; none exceeds 2^63. */
  method Multiply(h0: U32, h1: U32, h2: U32, h3: U32, h4: U32, r0: U32, r1: U32, r2: U32, r3: U32, r4: U32)
    returns (d0: U64, d1: U64, d2: U64, d3: U64, d4: U64)
    requires SumLimbs(h0, h1, h2, h3, h4) && RLimbs(r0, r1, r2, r3, r4)
    ensures d0 < 0x300_0000_0000_0000 && d1 < 0x300_0000_0000_0000 && d2 < 0x300_0000_0000_0000
    ensures d3 < 0x300_0000_0000_0000 && d4 < 0x80_0000_0000_0000
    ensures (Val5(h0, h1, h2, h3, h4) * Val5(r0, r1, r2, r3, r4)) % P1305 == Val5(d0, d1, d2, d3, d4) % P1305
  {
    var s1: U32, s2: U32, s3: U32, s4: U32 := r1 * 5, r2 * 5, r3 * 5, r4 * 5;
    RowBounds(h0, 0x800_0040, r0, r1, r2, r3, r4);
    RowBounds(h1, 0x800_0040, r0, r1, r2, r3, r4);
    RowBounds(h2, 0x800_0040, r0, r1, r2, r3, r4);
    RowBounds(h3, 0x800_0040, r0, r1, r2, r3, r4);
    RowBounds(h4, 0x600_0000, r0, r1, r2, r3, r4);
    d0 := h0 * r0 + h1 * s4 + h2 * s3 + h3 * s2 + h4 * s1;
    d1 := h0 * r1 + h1 * r0 + h2 * s4 + h3 * s3 + h4 * s2;
    d2 := h0 * r2 + h1 * r1 + h2 * r0 + h3 * s4 + h4 * s3;
    d3 := h0 * r3 + h1 * r2 + h2 * r1 + h3 * r0 + h4 * s4;
    d4 := h0 * r4 + h1 * r3 + h2 * r2 + h3 * r1 + h4 * r0;
    ProductRows(h0, h1, h2, h3, h4, r0, r1, r2, r3, r4);
    RowsResidue(h0 * r0, h0 * r1, h0 * r2, h0 * r3, h0 * r4,
                h1 * r0, h1 * r1, h1 * r2, h1 * r3, h1 * r4,
                h2 * r0, h2 * r1, h2 * r2, h2 * r3, h2 * r4,
                h3 * r0, h3 * r1, h3 * r2, h3 * r3, h3 * r4,
                h4 * r0, h4 * r1, h4 * r2, h4 * r3, h4 * r4, d0, d1, d2, d3, d4);
  }

  /** The product of two five-limb numbers is the sum of its scaled rows. */
  lemma ProductRows(h0: int, h1: int, h2: int, h3: int, h4: int, r0: int, r1: int, r2: int, r3: int, r4: int)
    ensures Val5(h0, h1, h2, h3, h4) * Val5(r0, r1, r2, r3, r4)
         == Val5(Val5(h0 * r0, h0 * r1, h0 * r2, h0 * r3, h0 * r4), Val5(h1 * r0, h1 * r1, h1 * r2, h1 * r3, h1 * r4),
                 Val5(h2 * r0, h2 * r1, h2 * r2, h2 * r3, h2 * r4), Val5(h3 * r0, h3 * r1, h3 * r2, h3 * r3, h3 * r4),
                 Val5(h4 * r0, h4 * r1, h4 * r2, h4 * r3, h4 * r4))
  {
    var R := Val5(r0, r1, r2, r3, r4);
    Commute5(R, h0, h1, h2, h3, h4);
    ScaleVal5(h0, r0, r1, r2, r3, r4);
    ScaleVal5(h1, r0, r1, r2, r3, r4);
    ScaleVal5(h2, r0, r1, r2, r3, r4);
    ScaleVal5(h3, r0, r1, r2, r3, r4);
    ScaleVal5(h4, r0, r1, r2, r3, r4);
  }

  lemma Commute5(x: int, a0: int, a1: int, a2: int, a3: int, a4: int)
    ensures Val5(a0, a1, a2, a3, a4) * x == Val5(a0 * x, a1 * x, a2 * x, a3 * x, a4 * x)
  {
    ScaleVal5(x, a0, a1, a2, a3, a4);
    assert x * a0 == a0 * x && x * a1 == a1 * x && x * a2 == a2 * x && x * a3 == a3 * x && x * a4 == a4 * x;
  }

  lemma RowsResidue(p00: int, p01: int, p02: int, p03: int, p04: int,
                    p10: int, p11: int, p12: int, p13: int, p14: int,
                    p20: int, p21: int, p22: int, p23: int, p24: int,
                    p30: int, p31: int, p32: int, p33: int, p34: int,
                    p40: int, p41: int, p42: int, p43: int, p44: int,
                    d0: int, d1: int, d2: int, d3: int, d4: int)
    requires d0 == p00 + 5 * p14 + 5 * p23 + 5 * p32 + 5 * p41
    requires d1 == p01 + p10 + 5 * p24 + 5 * p33 + 5 * p42
    requires d2 == p02 + p11 + p20 + 5 * p34 + 5 * p43
    requires d3 == p03 + p12 + p21 + p30 + 5 * p44
    requires d4 == p04 + p13 + p22 + p31 + p40
    ensures Val5(Val5(p00, p01, p02, p03, p04), Val5(p10, p11, p12, p13, p14), Val5(p20, p21, p22, p23, p24),
                 Val5(p30, p31, p32, p33, p34), Val5(p40, p41, p42, p43, p44)) % P1305
         == Val5(d0, d1, d2, d3, d4) % P1305
  {
    FoldProducts(p00, p01, p02, p03, p04, p10, p11, p12, p13, p14, p20, p21, p22, p23, p24,
                 p30, p31, p32, p33, p34, p40, p41, p42, p43, p44);
    ModAddMultiple(Val5(d0, d1, d2, d3, d4),
                   Val5(p14 + p23 + p32 + p41, p24 + p33 + p42, p34 + p43, p44, 0), P1305);
  }

  /** The partial reduction: carries from d0 up, the last one wrapping with weight 5. */
  method CarryBlock(e0: U64, e1: U64, e2: U64, e3: U64, e4: U64)
    returns (h0: U32, h1: U32, h2: U32, h3: U32, h4: U32)
    requires e0 < 0x300_0000_0000_0000 && e1 < 0x300_0000_0000_0000 && e2 < 0x300_0000_0000_0000
    requires e3 < 0x300_0000_0000_0000 && e4 < 0x80_0000_0000_0000
    ensures HLimbs(h0, h1, h2, h3, h4)
    ensures Val5(h0, h1, h2, h3, h4) % P1305 == Val5(e0, e1, e2, e3, e4) % P1305
  {
    var c: U32 := e0 / 0x400_0000;
    h0 := e0 % 0x400_0000;
    var d1: U64 := e1 + c;
    c := d1 / 0x400_0000;
    h1 := d1 % 0x400_0000;
    var d2: U64 := e2 + c;
    c := d2 / 0x400_0000;
    h2 := d2 % 0x400_0000;
    var d3: U64 := e3 + c;
    c := d3 / 0x400_0000;
    h3 := d3 % 0x400_0000;
    var d4: U64 := e4 + c;
    c := d4 / 0x400_0000;
    h4 := d4 % 0x400_0000;
    ghost var top := c;
    var c5: U32 := c * 5;
    h0 := h0 + c5;
    c := h0 / 0x400_0000;
    h0 := h0 % 0x400_0000;
    h1 := h1 + c;
    CarryResidue(Val5(e0, e1, e2, e3, e4), Val5(h0, h1, h2, h3, h4), top);
  }

  lemma CarryResidue(v: int, w: int, top: int)
    requires v == w + top * 0x3_ffff_ffff_ffff_ffff_ffff_ffff_ffff_fffb
    ensures w % P1305 == v % P1305
  {
    ModAddMultiple(w, top, P1305);
  }
}
