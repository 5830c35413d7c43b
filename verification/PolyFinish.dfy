/** The final reduction and packing of Poly1305. */
module PolyFinish {
  import opened Arith
  import opened PolyLimbs
  import Bits

  ghost predicate Digits(h0: int, h1: int, h2: int, h3: int, h4: int)
  {
    && 0 <= h0 < 0x400_0000 && 0 <= h1 < 0x400_0000 && 0 <= h2 < 0x400_0000
    && 0 <= h3 < 0x400_0000 && 0 <= h4 < 0x400_0000
  }

  /** Carries from limb 1 up and back into limb 0. A carry that wraps came through
      limb 1, which was then just reduced below 64, so limb 1 cannot overflow again. */
  method FullCarry(x0: U32, x1: U32, x2: U32, x3: U32, x4: U32)
    returns (h0: U32, h1: U32, h2: U32, h3: U32, h4: U32)
    requires HLimbs(x0, x1, x2, x3, x4)
    ensures Digits(h0, h1, h2, h3, h4)
    ensures Val5(h0, h1, h2, h3, h4) % P1305 == Val5(x0, x1, x2, x3, x4) % P1305
  {
    h0, h1, h2, h3, h4 := x0, x1, x2, x3, x4;
    var c: U32 := h1 / 0x400_0000;
    h1 := h1 % 0x400_0000;
    h2 := h2 + c;
    c := h2 / 0x400_0000;
    h2 := h2 % 0x400_0000;
    h3 := h3 + c;
    c := h3 / 0x400_0000;
    h3 := h3 % 0x400_0000;
    h4 := h4 + c;
    c := h4 / 0x400_0000;
    h4 := h4 % 0x400_0000;
    ghost var top := c;
    h0 := h0 + c * 5;
    c := h0 / 0x400_0000;
    h0 := h0 % 0x400_0000;
    h1 := h1 + c;
    CarryResidue(Val5(x0, x1, x2, x3, x4), Val5(h0, h1, h2, h3, h4), top);
  }

  const TWO32: int := 0x1_0000_0000

  /** (h & ~mask) | (g & mask) for a mask of all zeros or all ones. */
  function Choose(mask: U32, h: U32, g: U32): (r: nat)
  {
    Bits.Or(Bits.And(h, TWO32 - 1 - mask), Bits.And(g, mask))
  }

  lemma ChooseValue(mask: U32, h: U32, g: U32)
    requires mask == 0 || mask == TWO32 - 1
    ensures Choose(mask, h, g) == if mask == 0 then h else g
  {
    KeepAll(h);
    KeepAll(g);
    Bits.OrZero(h, 0);
    Bits.OrZero(g, 0);
  }

  lemma KeepAll(x: U32)
    ensures Bits.And(x, TWO32 - 1) == x && Bits.And(x, 0) == 0
  {
    Pow2Values();
    Bits.AndMask(x, 32);
  }

  /** h + 5 - 2^130 by limbs, its sign turned into a mask, and the masked choice:
      the full reduction modulo 2^130 - 5. */
  method Reduce(x0: U32, x1: U32, x2: U32, x3: U32, x4: U32)
    returns (h0: U32, h1: U32, h2: U32, h3: U32, h4: U32)
    requires Digits(x0, x1, x2, x3, x4)
    ensures Digits(h0, h1, h2, h3, h4)
    ensures Val5(h0, h1, h2, h3, h4) == Val5(x0, x1, x2, x3, x4) % P1305
  {
    var g0: U32 := x0 + 5;
    var c: U32 := g0 / 0x400_0000;
    g0 := g0 % 0x400_0000;
    var g1: U32 := x1 + c;
    c := g1 / 0x400_0000;
    g1 := g1 % 0x400_0000;
    var g2: U32 := x2 + c;
    c := g2 / 0x400_0000;
    g2 := g2 % 0x400_0000;
    var g3: U32 := x3 + c;
    c := g3 / 0x400_0000;
    g3 := g3 % 0x400_0000;
    var difference := x4 as int + c as int - 0x400_0000;
    var g4: U32 := difference % TWO32;
    var mask: U32 := (g4 / 0x8000_0000 + TWO32 - 1) % TWO32;
    SignMask(difference, g4, mask);
    ChooseValue(mask, x0, g0);
    ChooseValue(mask, x1, g1);
    ChooseValue(mask, x2, g2);
    ChooseValue(mask, x3, g3);
    ChooseValue(mask, x4, g4);
    h0, h1, h2, h3, h4 := Choose(mask, x0, g0), Choose(mask, x1, g1), Choose(mask, x2, g2), Choose(mask, x3, g3), Choose(mask, x4, g4);
    Residue(Val5(x0, x1, x2, x3, x4), Val5(g0, g1, g2, g3, difference));
  }

  lemma SignMask(d: int, g4: int, mask: int)
    requires -0x400_0000 <= d <= 0
    requires g4 == d % TWO32 && mask == (g4 / 0x8000_0000 + TWO32 - 1) % TWO32
    ensures d < 0 ==> mask == 0
    ensures d >= 0 ==> mask == TWO32 - 1 && g4 == d
  {
  }

  lemma Residue(v: int, g: int)
    requires 0 <= v < 2 * P1305 && g == v - P1305
    ensures g < 0 ==> v % P1305 == v
    ensures g >= 0 ==> v % P1305 == g
  {
    if g < 0 {
      DivModUnique(v, 0, v, P1305);
    } else {
      DivModUnique(v, 1, g, P1305);
    }
  }

  function Val4(w0: int, w1: int, w2: int, w3: int): (v: int)
  {
    w0 + 0x1_0000_0000 * w1 + 0x1_0000_0000_0000_0000 * w2 + 0x1_0000_0000_0000_0000_0000_0000 * w3
  }

  /** lo | (hi << k) in 32 bits, with lo below 2^k. */
  function Join(lo: nat, hi: nat, k: nat): (w: nat)
    requires k <= 32
  {
    Bits.Or(lo, (hi * Pow2(k)) % TWO32)
  }

  lemma JoinValue(lo: nat, hi: nat, k: nat)
    requires k <= 32 && lo < Pow2(k)
    ensures Join(lo, hi, k) == lo + Pow2(k) * (hi % Pow2(32 - k))
  {
    Pow2Values();
    Pow2Add(k, 32 - k);
    ShiftResidue(0, hi, Pow2(k), Pow2(32 - k));
    Bits.OrDisjoint(lo, hi % Pow2(32 - k), k);
  }

  /** Five 26-bit limbs to four 32-bit words: the number modulo 2^128. */
  method Repack(h0: U32, h1: U32, h2: U32, h3: U32, h4: U32)
    returns (w0: U32, w1: U32, w2: U32, w3: U32)
    requires Digits(h0, h1, h2, h3, h4)
    ensures Val4(w0, w1, w2, w3) == Val5(h0, h1, h2, h3, h4) % TWO128
  {
    JoinPowers();
    JoinValue(h0, h1, 26);
    JoinValue(h1 / 0x40, h2, 20);
    JoinValue(h2 / 0x1000, h3, 14);
    JoinValue(h3 / 0x4_0000, h4, 8);
    w0 := Join(h0, h1, 26);
    w1 := Join(h1 / 0x40, h2, 20);
    w2 := Join(h2 / 0x1000, h3, 14);
    w3 := Join(h3 / 0x4_0000, h4, 8);
    RepackValue(h0, h1, h2, h3, h4);
  }

  lemma JoinPowers()
    ensures Pow2(26) == 0x400_0000 && Pow2(20) == 0x10_0000 && Pow2(14) == 0x4000 && Pow2(8) == 0x100
    ensures Pow2(6) == 0x40 && Pow2(12) == 0x1000 && Pow2(18) == 0x4_0000 && Pow2(24) == 0x100_0000
  {
    Pow2Values();
    Pow2Add(6, 6);
    Pow2Add(6, 8);
    Pow2Add(6, 12);
    Pow2Add(6, 14);
  }

  lemma RepackValue(h0: int, h1: int, h2: int, h3: int, h4: int)
    requires Digits(h0, h1, h2, h3, h4)
    ensures Val4(h0 + 0x400_0000 * (h1 % 0x40), h1 / 0x40 + 0x10_0000 * (h2 % 0x1000),
                 h2 / 0x1000 + 0x4000 * (h3 % 0x4_0000), h3 / 0x4_0000 + 0x100 * (h4 % 0x100_0000))
         == Val5(h0, h1, h2, h3, h4) % TWO128
  {
    var r := Val4(h0 + 0x400_0000 * (h1 % 0x40), h1 / 0x40 + 0x10_0000 * (h2 % 0x1000),
                  h2 / 0x1000 + 0x4000 * (h3 % 0x4_0000), h3 / 0x4_0000 + 0x100 * (h4 % 0x100_0000));
    var q := h4 / 0x100_0000;
    assert Val5(h0, h1, h2, h3, h4) == q * 0x1_0000_0000_0000_0000_0000_0000_0000_0000 + r;
    DivModUnique(Val5(h0, h1, h2, h3, h4), q, r, TWO128);
  }

  /** mac = (h + pad) mod 2^128 by 32-bit words. */
  method AddPad(h0: U32, h1: U32, h2: U32, h3: U32, p0: U32, p1: U32, p2: U32, p3: U32)
    returns (w0: U32, w1: U32, w2: U32, w3: U32)
    ensures Val4(w0, w1, w2, w3) == (Val4(h0, h1, h2, h3) + Val4(p0, p1, p2, p3)) % TWO128
  {
    var f: U64 := h0 as int + p0 as int;
    w0 := f % TWO32;
    f := h1 as int + p1 as int + f / TWO32;
    w1 := f % TWO32;
    f := h2 as int + p2 as int + f / TWO32;
    w2 := f % TWO32;
    f := h3 as int + p3 as int + f / TWO32;
    w3 := f % TWO32;
    DivModUnique(Val4(h0, h1, h2, h3) + Val4(p0, p1, p2, p3), f / TWO32, Val4(w0, w1, w2, w3), TWO128);
  }
}
