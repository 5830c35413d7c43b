/** Loading 16-byte strings into 26-bit limbs: message blocks and the clamped key. */
module PolyLoad {
  import opened Arith
  import opened Bytes
  import opened PolyLimbs
  import Bits

  /** u8to32(m + o) >> s */
  function Window(m: seq<Byte>, o: nat, s: nat): (w: nat)
    requires o + 4 <= |m|
  {
    Bits.Shr(Load32(m[o], m[o + 1], m[o + 2], m[o + 3]), s)
  }

  lemma WindowValue(m: seq<Byte>, o: nat, s: nat)
    requires o + 4 <= |m|
    ensures Window(m, o, s) == Word32(m[o], m[o + 1], m[o + 2], m[o + 3]) / Pow2(s)
  {
    Load32Value(m[o], m[o + 1], m[o + 2], m[o + 3]);
    Bits.ShrIsDiv(Word32(m[o], m[o + 1], m[o + 2], m[o + 3]), s);
  }

  function Limb(m: seq<Byte>, i: nat): (t: nat)
    requires |m| == 16 && i < 4
  {
    Bits.And(Window(m, 3 * i, 2 * i), 0x3ffffff)
  }

  lemma LimbValue(m: seq<Byte>, i: nat)
    requires |m| == 16 && i < 4
    ensures Limb(m, i) == Window(m, 3 * i, 2 * i) % 0x400_0000
    ensures Limb(m, i) == (Word32(m[3 * i], m[3 * i + 1], m[3 * i + 2], m[3 * i + 3]) / Pow2(2 * i)) % 0x400_0000
  {
    WindowValue(m, 3 * i, 2 * i);
    Pow2Values();
    Bits.AndMask(Window(m, 3 * i, 2 * i), 26);
  }

  lemma TopLimb(m: seq<Byte>)
    requires |m| == 16
    ensures Window(m, 12, 8) == Word32(m[13], m[14], m[15], 0) < 0x100_0000
  {
    hide Window;
    WindowValue(m, 12, 8);
    Pow2Values();
    DivModUnique(Word32(m[12], m[13], m[14], m[15]), Word32(m[13], m[14], m[15], 0), m[12], 256);
  }

  lemma FirstLimbs(m: seq<Byte>)
    requires |m| == 16
    ensures Limb(m, 0) == Word32(m[0], m[1], m[2], m[3]) % 0x400_0000
    ensures Limb(m, 1) == (Word32(m[3], m[4], m[5], m[6]) / 4) % 0x400_0000
  {
    hide Window, Limb, Word32;
    LimbValue(m, 0);
    LimbValue(m, 1);
    assert Pow2(0) == 1 && Pow2(2) == 4;
  }

  lemma LastLimbs(m: seq<Byte>)
    requires |m| == 16
    ensures Limb(m, 2) == (Word32(m[6], m[7], m[8], m[9]) / 16) % 0x400_0000
    ensures Limb(m, 3) == (Word32(m[9], m[10], m[11], m[12]) / 64) % 0x400_0000
  {
    hide Window, Limb, Word32;
    LimbValue(m, 2);
    LimbValue(m, 3);
    Pow2Values();
  }

  /** The four masked windows and the top window are the radix 2^26 digits of the block. */
  lemma BlockLimbs(m: seq<Byte>)
    requires |m| == 16
    ensures Val5(Limb(m, 0), Limb(m, 1), Limb(m, 2), Limb(m, 3), Window(m, 12, 8)) == LeVal(m)
    ensures Limb(m, 0) < 0x400_0000 && Limb(m, 1) < 0x400_0000 && Limb(m, 2) < 0x400_0000
    ensures Limb(m, 3) < 0x400_0000 && Window(m, 12, 8) < 0x100_0000
  {
    hide Window, Limb, LeVal, Word32, Val5, Pow2;
    FirstLimbs(m);
    LastLimbs(m);
    TopLimb(m);
    LimbDigits(m[0], m[1], m[2], m[3], m[4], m[5], m[6], m[7], m[8], m[9], m[10], m[11], m[12], m[13], m[14], m[15]);
    LeValSixteen(m);
  }

  function Val16(b0: int, b1: int, b2: int, b3: int, b4: int, b5: int, b6: int, b7: int,
                 b8: int, b9: int, b10: int, b11: int, b12: int, b13: int, b14: int, b15: int): (v: int)
  {
    Word32(b0, b1, b2, b3) + 0x1_0000_0000 * Word32(b4, b5, b6, b7)
    + 0x1_0000_0000_0000_0000 * Word32(b8, b9, b10, b11)
    + 0x1_0000_0000_0000_0000_0000_0000 * Word32(b12, b13, b14, b15)
  }

  lemma LimbDigits(b0: Byte, b1: Byte, b2: Byte, b3: Byte, b4: Byte, b5: Byte, b6: Byte, b7: Byte,
                   b8: Byte, b9: Byte, b10: Byte, b11: Byte, b12: Byte, b13: Byte, b14: Byte, b15: Byte)
    ensures Val5(Word32(b0, b1, b2, b3) % 0x400_0000,
                 (Word32(b3, b4, b5, b6) / 4) % 0x400_0000,
                 (Word32(b6, b7, b8, b9) / 16) % 0x400_0000,
                 (Word32(b9, b10, b11, b12) / 64) % 0x400_0000,
                 Word32(b13, b14, b15, 0))
         == Val16(b0, b1, b2, b3, b4, b5, b6, b7, b8, b9, b10, b11, b12, b13, b14, b15)
  {
    Cut0(b0, b1, b2, b3);
    Cut1(b3, b4, b5, b6);
    Cut2(b6, b7, b8, b9);
    Cut3(b9, b10, b11, b12);
    Regroup(b0, b1, b2, b3 % 4, b3 / 4, b4, b5, b6 % 16, b6 / 16, b7, b8, b9 % 64, b9 / 64, b10, b11, b12,
            Word32(b13, b14, b15, 0));
  }

  /** The bytes cut between limbs, put back together. */
  lemma Regroup(b0: int, b1: int, b2: int, r3: int, q3: int, b4: int, b5: int, r6: int, q6: int,
                b7: int, b8: int, r9: int, q9: int, b10: int, b11: int, b12: int, top: int)
    ensures Val5(b0 + 0x100 * b1 + 0x1_0000 * b2 + 0x100_0000 * r3, q3 + 0x40 * b4 + 0x4000 * b5 + 0x40_0000 * r6,
                 q6 + 0x10 * b7 + 0x1000 * b8 + 0x10_0000 * r9, q9 + 4 * b10 + 0x400 * b11 + 0x4_0000 * b12, top)
         == Word32(b0, b1, b2, 4 * q3 + r3) + 0x1_0000_0000 * Word32(b4, b5, 16 * q6 + r6, b7)
            + 0x1_0000_0000_0000_0000 * Word32(b8, 64 * q9 + r9, b10, b11)
            + 0x1_0000_0000_0000_0000_0000_0000 * (b12 + 0x100 * top)
  {
  }

  // The 26-bit windows of four bytes: the first byte loses its low part, the last its high part.

  lemma Cut0(b0: int, b1: int, b2: int, b3: int)
    requires 0 <= b0 < 256 && 0 <= b1 < 256 && 0 <= b2 < 256 && 0 <= b3 < 256
    ensures Word32(b0, b1, b2, b3) % 0x400_0000 == b0 + 0x100 * b1 + 0x1_0000 * b2 + 0x100_0000 * (b3 % 4)
  {
    DivModUnique(Word32(b0, b1, b2, b3), b3 / 4, b0 + 0x100 * b1 + 0x1_0000 * b2 + 0x100_0000 * (b3 % 4), 0x400_0000);
  }

  lemma Cut1(b0: int, b1: int, b2: int, b3: int)
    requires 0 <= b0 < 256 && 0 <= b1 < 256 && 0 <= b2 < 256 && 0 <= b3 < 256
    ensures (Word32(b0, b1, b2, b3) / 4) % 0x400_0000 == b0 / 4 + 0x40 * b1 + 0x4000 * b2 + 0x40_0000 * (b3 % 16)
  {
    var w := b0 / 4 + 0x40 * b1 + 0x4000 * b2 + 0x40_0000 * b3;
    DivModUnique(Word32(b0, b1, b2, b3), w, b0 % 4, 4);
    DivModUnique(w, b3 / 16, b0 / 4 + 0x40 * b1 + 0x4000 * b2 + 0x40_0000 * (b3 % 16), 0x400_0000);
  }

  lemma Cut2(b0: int, b1: int, b2: int, b3: int)
    requires 0 <= b0 < 256 && 0 <= b1 < 256 && 0 <= b2 < 256 && 0 <= b3 < 256
    ensures (Word32(b0, b1, b2, b3) / 16) % 0x400_0000 == b0 / 16 + 0x10 * b1 + 0x1000 * b2 + 0x10_0000 * (b3 % 64)
  {
    var w := b0 / 16 + 0x10 * b1 + 0x1000 * b2 + 0x10_0000 * b3;
    DivModUnique(Word32(b0, b1, b2, b3), w, b0 % 16, 16);
    DivModUnique(w, b3 / 64, b0 / 16 + 0x10 * b1 + 0x1000 * b2 + 0x10_0000 * (b3 % 64), 0x400_0000);
  }

  lemma Cut3(b0: int, b1: int, b2: int, b3: int)
    requires 0 <= b0 < 256 && 0 <= b1 < 256 && 0 <= b2 < 256 && 0 <= b3 < 256
    ensures (Word32(b0, b1, b2, b3) / 64) % 0x400_0000 == b0 / 64 + 4 * b1 + 0x400 * b2 + 0x4_0000 * b3
  {
    var w := b0 / 64 + 4 * b1 + 0x400 * b2 + 0x4_0000 * b3;
    DivModUnique(Word32(b0, b1, b2, b3), w, b0 % 64, 64);
    DivModUnique(w, 0, w, 0x400_0000);
  }

  lemma {:induction false} LeValFour(m: seq<int>)
    requires |m| >= 4
    ensures LeVal(m) == Word32(m[0], m[1], m[2], m[3]) + 0x1_0000_0000 * LeVal(m[4..])
  {
    var m1, m2, m3 := m[1..], m[2..], m[3..];
    assert m1[1..] == m2 && m2[1..] == m3 && m3[1..] == m[4..];
    assert LeVal(m) == m[0] + 256 * LeVal(m1);
    assert LeVal(m1) == m[1] + 256 * LeVal(m2);
    assert LeVal(m2) == m[2] + 256 * LeVal(m3);
    assert LeVal(m3) == m[3] + 256 * LeVal(m[4..]);
  }

  lemma {:induction false} LeValSixteen(m: seq<int>)
    requires |m| == 16
    ensures LeVal(m) == Val16(m[0], m[1], m[2], m[3], m[4], m[5], m[6], m[7],
                              m[8], m[9], m[10], m[11], m[12], m[13], m[14], m[15])
  {
    LeValFour(m);
    LeValFour(m[4..]);
    LeValFour(m[4..][4..]);
    LeValFour(m[4..][4..][4..]);
    assert LeVal(m[4..][4..][4..][4..]) == 0;
  }

  // ----- clamping -----

  /** The mask of section 2.5 of RFC 8439. */
  const CLAMP: nat := 0x0fff_fffc_0fff_fffc_0fff_fffc_0fff_ffff

  /** A masked window is the same mask applied to the low 26 bits. */
  lemma MaskLow(x: nat, mask: nat, k: nat)
    requires mask < Pow2(k)
    ensures Bits.And(x, mask) == Bits.And(x % Pow2(k), mask)
  {
    Bits.AndLow(x, mask, k);
    Bits.LowIsMod(x, k);
    Bits.LowIsMod(Bits.And(x, mask), k);
    Bits.LowIsMod(mask, k);
    DivModUnique(mask, 0, mask, Pow2(k));
    DivModUnique(Bits.And(x, mask), 0, Bits.And(x, mask), Pow2(k));
  }

  /** Conjunction works digit group by digit group. */
  lemma AndCat(x0: nat, x1: nat, m0: nat, m1: nat, k: nat)
    requires x0 < Pow2(k) && m0 < Pow2(k)
    ensures Bits.And(x0 + Pow2(k) * x1, m0 + Pow2(k) * m1) == Bits.And(x0, m0) + Pow2(k) * Bits.And(x1, m1)
  {
    hide Bits.And, Bits.Low, Bits.Shr, Pow2;
    var b := Pow2(k);
    var z := Bits.And(x0 + b * x1, m0 + b * m1);
    Bits.AndLow(x0 + b * x1, m0 + b * m1, k);
    Bits.AndShift(x0 + b * x1, m0 + b * m1, k);
    CatParts(x0, x1, k);
    CatParts(m0, m1, k);
    Bits.LowIsMod(z, k);
    Bits.ShrIsDiv(z, k);
    Recompose(z, b);
  }

  lemma Recompose(z: int, b: int)
    requires b > 0
    ensures z == z % b + b * (z / b)
  {
  }

  lemma CatParts(x0: nat, x1: nat, k: nat)
    requires x0 < Pow2(k)
    ensures Bits.Low(x0 + Pow2(k) * x1, k) == x0 && Bits.Shr(x0 + Pow2(k) * x1, k) == x1
  {
    Bits.LowIsMod(x0 + Pow2(k) * x1, k);
    Bits.ShrIsDiv(x0 + Pow2(k) * x1, k);
    DivModUnique(x0 + Pow2(k) * x1, x1, x0, Pow2(k));
  }

  lemma AndCat26(x0: nat, x1: nat, m0: nat, m1: nat)
    requires x0 < 0x400_0000 && m0 < 0x400_0000
    ensures Bits.And(x0 + 0x400_0000 * x1, m0 + 0x400_0000 * m1) == Bits.And(x0, m0) + 0x400_0000 * Bits.And(x1, m1)
  {
    Pow2Values();
    AndCat(x0, x1, m0, m1, 26);
  }

  lemma AndDigits26(t0: nat, t1: nat, t2: nat, t3: nat, t4: nat, m0: nat, m1: nat, m2: nat, m3: nat, m4: nat)
    requires t0 < 0x400_0000 && t1 < 0x400_0000 && t2 < 0x400_0000 && t3 < 0x400_0000
    requires m0 < 0x400_0000 && m1 < 0x400_0000 && m2 < 0x400_0000 && m3 < 0x400_0000
    ensures Val5(Bits.And(t0, m0), Bits.And(t1, m1), Bits.And(t2, m2), Bits.And(t3, m3), Bits.And(t4, m4))
         == Bits.And(Val5(t0, t1, t2, t3, t4), Val5(m0, m1, m2, m3, m4))
  {
    hide Bits.And;
    var x, y := t2 + 0x400_0000 * t3 + 0x10_0000_0000_0000 * t4, m2 + 0x400_0000 * m3 + 0x10_0000_0000_0000 * m4;
    assert Val5(t0, t1, t2, t3, t4) == t0 + 0x400_0000 * t1 + 0x10_0000_0000_0000 * x;
    assert Val5(m0, m1, m2, m3, m4) == m0 + 0x400_0000 * m1 + 0x10_0000_0000_0000 * y;
    assert Bits.And(Val5(t0, t1, t2, t3, t4), Val5(m0, m1, m2, m3, m4))
        == Bits.And(t0, m0) + 0x400_0000 * Bits.And(t1, m1) + 0x10_0000_0000_0000 * Bits.And(x, y) by {
      AndTwo(t0, t1, x, m0, m1, y);
    }
    assert Bits.And(x, y)
        == Bits.And(t2, m2) + 0x400_0000 * Bits.And(t3, m3) + 0x10_0000_0000_0000 * Bits.And(t4, m4) by {
      AndTwo(t2, t3, t4, m2, m3, m4);
    }
  }

  lemma AndTwo(t0: nat, t1: nat, x: nat, m0: nat, m1: nat, y: nat)
    requires t0 < 0x400_0000 && t1 < 0x400_0000 && m0 < 0x400_0000 && m1 < 0x400_0000
    ensures Bits.And(t0 + 0x400_0000 * t1 + 0x10_0000_0000_0000 * x, m0 + 0x400_0000 * m1 + 0x10_0000_0000_0000 * y)
         == Bits.And(t0, m0) + 0x400_0000 * Bits.And(t1, m1) + 0x10_0000_0000_0000 * Bits.And(x, y)
  {
    hide Bits.And;
    AndCat26(t1, x, m1, y);
    AndCat26(t0, t1 + 0x400_0000 * x, m0, m1 + 0x400_0000 * y);
    assert t0 + 0x400_0000 * (t1 + 0x400_0000 * x) == t0 + 0x400_0000 * t1 + 0x10_0000_0000_0000 * x;
    assert m0 + 0x400_0000 * (m1 + 0x400_0000 * y) == m0 + 0x400_0000 * m1 + 0x10_0000_0000_0000 * y;
  }

  lemma ClampMask()
    ensures Val5(0x3ffffff, 0x3ffff03, 0x3ffc0ff, 0x3f03fff, 0x00fffff) == CLAMP
  {
  }

  /** The five key words the program masks are the limbs of the clamped key. */
  lemma KeyLimbs(k: seq<Byte>)
    requires |k| == 16
    ensures LeVal(k) >= 0
    ensures Val5(Bits.And(Window(k, 0, 0), 0x3ffffff), Bits.And(Window(k, 3, 2), 0x3ffff03),
                 Bits.And(Window(k, 6, 4), 0x3ffc0ff), Bits.And(Window(k, 9, 6), 0x3f03fff),
                 Bits.And(Window(k, 12, 8), 0x00fffff))
         == Bits.And(LeVal(k), CLAMP)
  {
    BlockLimbs(k);
    LimbValue(k, 0);
    LimbValue(k, 1);
    LimbValue(k, 2);
    LimbValue(k, 3);
    Pow2Values();
    var w := 26;
    MaskLow(Window(k, 0, 0), 0x3ffffff, w);
    MaskLow(Window(k, 3, 2), 0x3ffff03, w);
    MaskLow(Window(k, 6, 4), 0x3ffc0ff, w);
    MaskLow(Window(k, 9, 6), 0x3f03fff, w);
    ClampMask();
    AndDigits26(Limb(k, 0), Limb(k, 1), Limb(k, 2), Limb(k, 3), Window(k, 12, 8),
                0x3ffffff, 0x3ffff03, 0x3ffc0ff, 0x3f03fff, 0x00fffff);
  }
}
