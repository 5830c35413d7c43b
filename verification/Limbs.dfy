/** Radix 2^16 limb vectors: their integer value and the carry pass, on values. */
module Limbs {
  import opened Arith

  /** The field prime 2^255 - 19. */
  const P: int := 0x7fff_ffff_ffff_ffff_ffff_ffff_ffff_ffff_ffff_ffff_ffff_ffff_ffff_ffff_ffff_ffed

  /** The integer a limb vector stands for, least significant limb first. */
  function Val(s: seq<int>): (v: int)
  {
    if s == [] then 0 else s[0] + 65536 * Val(s[1..])
  }

  function Radix(k: nat): (r: int)
    ensures r > 0
  {
    if k == 0 then 1 else 65536 * Radix(k - 1)
  }

  lemma {:induction false} ValAppend(s: seq<int>, t: seq<int>)
    ensures Val(s + t) == Val(s) + Radix(|s|) * Val(t)
  {
    if s == [] {
      assert s + t == t;
    } else {
      ValAppend(s[1..], t);
      assert (s + t)[1..] == s[1..] + t;
      var r, v := Radix(|s| - 1), Val(t);
      assert (65536 * r) * v == 65536 * (r * v);
    }
  }

  lemma {:induction false} ValSnoc(s: seq<int>, x: int)
    ensures Val(s + [x]) == Val(s) + x * Radix(|s|)
  {
    ValAppend(s, [x]);
    assert Val([x]) == x;
  }

  /** Adding d to limb k adds d * 2^(16k) to the value. */
  lemma {:induction false} ValUpdate(s: seq<int>, k: nat, d: int)
    requires k < |s|
    ensures Val(s[k := s[k] + d]) == Val(s) + d * Radix(k)
  {
    var t := s[k := s[k] + d];
    if k == 0 {
      assert t[1..] == s[1..];
    } else {
      ValUpdate(s[1..], k - 1, d);
      assert t[1..] == s[1..][k - 1 := s[1..][k - 1] + d];
      var r := Radix(k - 1);
      assert d * (65536 * r) == 65536 * (d * r);
    }
  }

  lemma {:induction false} RadixAdd(i: nat, j: nat)
    ensures Radix(i + j) == Radix(i) * Radix(j)
  {
    if i > 0 {
      RadixAdd(i - 1, j);
      var r, q := Radix(i - 1), Radix(j);
      assert (65536 * r) * q == 65536 * (r * q);
    }
  }

  /** 2^256 = 2P + 38, the identity that lets a carry out of the top limb wrap. */
  lemma RadixTop()
    ensures Radix(16) == 2 * P + 38
  {
    assert Radix(4) == 0x1_0000_0000_0000_0000;
    assert Radix(8) == 0x1_0000_0000_0000_0000_0000_0000_0000_0000 by { RadixAdd(4, 4); }
    RadixAdd(8, 8);
  }

  // ----- the carry pass -----

  /** The carry into limb i when carries run from limb 0 upward; the shift of a
      negative limb rounds down. */
  function Carry(s: seq<int>, i: nat): (c: int)
    requires i <= |s|
  {
    if i == 0 then 0 else (s[i - 1] + Carry(s, i - 1)) / 65536
  }

  function Reduced(s: seq<int>, i: nat): (r: int)
    requires i < |s|
    ensures 0 <= r < 65536
  {
    (s[i] + Carry(s, i)) % 65536
  }

  function ReducedPrefix(s: seq<int>, n: nat): (r: seq<int>)
    requires n <= |s|
    ensures |r| == n && forall i :: 0 <= i < n ==> r[i] == Reduced(s, i)
  {
    if n == 0 then [] else ReducedPrefix(s, n - 1) + [Reduced(s, n - 1)]
  }

  /** The whole carry pass: the carry out of the top limb re-enters limb 0 times 38. */
  function Car(s: seq<int>): (r: seq<int>)
    requires |s| == 16
    ensures |r| == 16
    ensures r[0] == Reduced(s, 0) + 38 * Carry(s, 16)
    ensures forall i :: 1 <= i < 16 ==> r[i] == Reduced(s, i)
  {
    ReducedPrefix(s, 16)[0 := Reduced(s, 0) + 38 * Carry(s, 16)]
  }

  lemma {:induction false} CarryConserves(s: seq<int>, n: nat)
    requires n <= |s|
    ensures Val(s[..n]) == Val(ReducedPrefix(s, n)) + Carry(s, n) * Radix(n)
  {
    if n > 0 {
      CarryConserves(s, n - 1);
      assert s[..n] == s[..n - 1] + [s[n - 1]];
      ValSnoc(s[..n - 1], s[n - 1]);
      ValSnoc(ReducedPrefix(s, n - 1), Reduced(s, n - 1));
      CarryStep(s[n - 1], Carry(s, n - 1), Carry(s, n), Reduced(s, n - 1), Radix(n - 1));
    }
  }

  lemma CarryStep(x: int, c: int, c': int, d: int, r: int)
    requires x + c == 65536 * c' + d
    ensures x * r + c * r == d * r + c' * (65536 * r)
  {
    calc {
      x * r + c * r;
      (x + c) * r;
      (65536 * c' + d) * r;
      d * r + c' * (65536 * r);
    }
  }

  /** A carry pass changes the value by a multiple of 2P. */
  lemma {:induction false} CarValue(s: seq<int>)
    requires |s| == 16
    ensures Val(Car(s)) == Val(s) - Carry(s, 16) * (2 * P)
    ensures Val(Car(s)) % P == Val(s) % P
  {
    CarryConserves(s, 16);
    assert s[..16] == s;
    var c, t := Carry(s, 16), ReducedPrefix(s, 16);
    assert t[0] == Reduced(s, 0);
    ValUpdate(t, 0, 38 * c);
    RadixTop();
    CarryWraps(Val(s), Val(t), c, P);
  }

  lemma CarryWraps(v: int, w: int, c: int, p: int)
    requires p > 0 && v == w + c * (2 * p + 38)
    ensures w + 38 * c == v - c * (2 * p)
    ensures (w + 38 * c) % p == v % p
  {
    assert v == (w + 38 * c) + (2 * c) * p;
    ModAddMultiple(w + 38 * c, 2 * c, p);
  }

  // ----- what repeated passes do to the size of the limbs -----

  ghost predicate Within(s: seq<int>, lo: int, hi: int)
  {
    |s| == 16 && forall i :: 0 <= i < 16 ==> lo <= s[i] <= hi
  }

  /** Only limb 0 may be outside [0, 2^16). */
  ghost predicate Settled(s: seq<int>, lo: int, hi: int)
  {
    && |s| == 16 && lo <= s[0] <= hi
    && forall i :: 1 <= i < 16 ==> 0 <= s[i] < 65536
  }

  /** What a multiplication leaves behind. */
  ghost predicate Loose(s: seq<int>)
  {
    Settled(s, -38, 65573)
  }

  const BOUND0: int := 0x4000_0000_0000_0000  // 2^62
  const BOUND1: int := 0x8_0000_0000_0000     // 2^51

  lemma {:induction false} CarryBound(s: seq<int>, i: nat)
    requires Within(s, -BOUND0, BOUND0) && i <= 16
    ensures -0x8000_0000_0000 <= Carry(s, i) <= 0x8000_0000_0000
  {
    if i > 0 {
      CarryBound(s, i - 1);
    }
  }

  lemma FirstPass(s: seq<int>)
    requires Within(s, -BOUND0, BOUND0)
    ensures Settled(Car(s), -16 * BOUND1, 16 * BOUND1)
  {
    CarryBound(s, 16);
  }

  lemma {:induction false} SmallCarry(s: seq<int>, i: nat)
    requires Settled(s, -16 * BOUND1, 16 * BOUND1) && 4 <= i <= 16
    ensures -1 <= Carry(s, i) <= 1
  {
    if i == 4 {
      assert -0x80_0000_0000 <= Carry(s, 1) <= 0x80_0000_0000;
      assert -0x80_0000 <= Carry(s, 2) <= 0x80_0001;
      assert -0x80 <= Carry(s, 3) <= 0x82;
    } else {
      SmallCarry(s, i - 1);
    }
  }

  lemma SecondPass(s: seq<int>)
    requires Settled(s, -16 * BOUND1, 16 * BOUND1)
    ensures Loose(Car(s))
  {
    SmallCarry(s, 16);
  }

  /** From a loose vector the carries never change sign, so a carry that reaches the
      top always meets a limb 0 it cannot push out of range. */
  lemma {:induction false} LooseCarry(s: seq<int>, i: nat)
    requires Loose(s) && 1 <= i <= 16
    ensures s[0] < 0 ==> -1 <= Carry(s, i) <= 0
    ensures 0 <= s[0] < 65536 ==> Carry(s, i) == 0
    ensures 65536 <= s[0] ==> 0 <= Carry(s, i) <= 1
  {
    if i == 1 {
      assert Carry(s, 0) == 0;
    } else {
      LooseCarry(s, i - 1);
    }
  }

  lemma ThirdPass(s: seq<int>)
    requires Loose(s)
    ensures Within(Car(s), 0, 65535)
  {
    LooseCarry(s, 16);
    assert Carry(s, 0) == 0;
  }
}
