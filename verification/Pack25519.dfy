/** Conversions between limb vectors and the 32-byte wire form, conditional swap,
    and inversion by exponentiation. */
module Pack25519 {
  import opened Arith
  import opened Limbs
  import opened Bytes
  import opened Field25519
  import Bits

  // ----- conditional swap -----

  const TWO64: int := 0x1_0000_0000_0000_0000

  /** Two's complement view of a signed limb. */
  function ToWord(x: I64): (w: U64) { if x < 0 then x + TWO64 else x }
  function FromWord(w: U64): (x: I64) { if w >= 0x8000_0000_0000_0000 then w - TWO64 else w }

  /** t = c & (x ^ y) followed by x ^= t, y ^= t, with c all zeros or all ones. */
  lemma MaskedSwap(x: U64, y: U64, c: U64)
    requires c == 0 || c == TWO64 - 1
    ensures var t := Bits.And(Bits.Xor(x, y), c);
            && Bits.Xor(x, t) == (if c == 0 then x else y)
            && Bits.Xor(y, t) == (if c == 0 then y else x)
  {
    if c == 0 {
      Bits.XorZero(x);
      Bits.XorZero(y);
    } else {
      MaskOnes(x, y);
      Bits.XorCancel(x, y);
      Bits.XorCommutes(x, y);
      Bits.XorCancel(y, x);
    }
  }

  lemma MaskOnes(x: U64, y: U64)
    ensures Bits.And(Bits.Xor(x, y), TWO64 - 1) == Bits.Xor(x, y)
  {
    Pow2Values();
    Bits.XorRange(x, y, 64);
    Bits.AndMask(Bits.Xor(x, y), 64);
  }

  method Sel25519(p: array<I64>, q: array<I64>, b: int)
    requires p != q && p.Length == q.Length == 16 && (b == 0 || b == 1)
    modifies p, q
    ensures p[..] == old(if b == 1 then q[..] else p[..])
    ensures q[..] == old(if b == 1 then p[..] else q[..])
  {
    var c: U64 := ToWord(-b);
    for i := 0 to 16
      invariant forall k :: 0 <= k < i ==> p[k] == old(if b == 1 then q[k] else p[k])
      invariant forall k :: 0 <= k < i ==> q[k] == old(if b == 1 then p[k] else q[k])
      invariant forall k :: i <= k < 16 ==> p[k] == old(p[k]) && q[k] == old(q[k])
    {
      var x, y := ToWord(p[i]), ToWord(q[i]);
      var t := Bits.And(Bits.Xor(x, y), c);
      MaskedSwap(x, y, c);
      p[i] := FromWord(Bits.Xor(x, t));
      q[i] := FromWord(Bits.Xor(y, t));
    }
  }

  // ----- packing -----

  /** The limbs of the field prime. */
  function PrimeLimb(i: nat): (d: int)
  {
    if i == 0 then 0xffed else if i < 15 then 0xffff else 0x7fff
  }

  function PrimeLimbs(): (s: seq<int>)
    ensures |s| == 16 && forall i :: 0 <= i < 16 ==> s[i] == PrimeLimb(i)
  {
    seq(16, i requires 0 <= i < 16 => PrimeLimb(i))
  }

  function Minus(t: seq<int>): (d: seq<int>)
    requires |t| == 16
    ensures |d| == 16 && forall i :: 0 <= i < 16 ==> d[i] == t[i] - PrimeLimb(i)
  {
    seq(16, i requires 0 <= i < 16 => t[i] - PrimeLimb(i))
  }

  lemma {:induction false} ValOnes(s: seq<int>)
    requires forall i :: 0 <= i < |s| ==> s[i] == 0xffff
    ensures Val(s) == Radix(|s|) - 1
  {
    if s != [] {
      ValOnes(s[1..]);
    }
  }

  lemma {:induction false} PrimeValue()
    ensures Val(PrimeLimbs()) == P
  {
    var s := PrimeLimbs();
    var mid := s[1..15];
    assert s == [0xffed] + (mid + [0x7fff]);
    ValAppend([0xffed], mid + [0x7fff]);
    ValSnoc(mid, 0x7fff);
    ValOnes(mid);
    RadixTop();
    assert Radix(16) == 65536 * (65536 * Radix(14));
    assert Radix(1) == 65536;
    assert Val([0xffed]) == 0xffed;
  }

  /** m = t - P limb by limb with borrows; b is the borrow out of the top. */
  method SubtractP(t: array<I64>, m: array<I64>) returns (b: int)
    requires t != m && m.Length == 16 && Within(t[..], 0, 65535)
    modifies m
    ensures IsDifference(t[..], m[..])
    ensures b == if m[15] < 0 then 1 else 0
  {
    ghost var d := Minus(t[..]);
    m[0] := t[0] - 0xffed;
    for i := 1 to 15
      invariant forall k :: 0 <= k < i - 1 ==> m[k] == Reduced(d, k)
      invariant m[i - 1] == d[i - 1] + Carry(d, i - 1)
      invariant -1 <= Carry(d, i - 1) <= 0
    {
      BorrowBit(m[i - 1]);
      m[i] := t[i] - 0xffff - (m[i - 1] / 65536) % 2;
      m[i - 1] := m[i - 1] % 65536;
    }
    BorrowBit(m[14]);
    m[15] := t[15] - 0x7fff - (m[14] / 65536) % 2;
    BorrowBit(m[15]);
    b := (m[15] / 65536) % 2;
    m[14] := m[14] % 65536;
  }

  lemma {:induction false} ValRange(s: seq<int>)
    requires forall i :: 0 <= i < |s| ==> 0 <= s[i] <= 65535
    ensures 0 <= Val(s) < Radix(|s|)
  {
    if s != [] {
      ValRange(s[1..]);
    }
  }

  lemma BorrowBit(x: int)
    requires -65536 <= x < 65536
    ensures x / 65536 == if x < 0 then -1 else 0
    ensures (x / 65536) % 2 == if x < 0 then 1 else 0
  {
  }

  ghost predicate IsDifference(t: seq<int>, m: seq<int>)
    requires |t| == 16
  {
    && |m| == 16
    && m[..15] == ReducedPrefix(Minus(t), 15)
    && m[15] == Minus(t)[15] + Carry(Minus(t), 15)
  }

  /** The limb-wise difference is exact. */
  lemma {:induction false} DifferenceValue(t: seq<int>, m: seq<int>)
    requires |t| == 16 && IsDifference(t, m)
    ensures Val(m) == Val(t) - P
  {
    hide Val, Radix;
    var d := Minus(t);
    CarryConserves(d, 15);
    assert d == d[..15] + [d[15]];
    assert m == m[..15] + [m[15]];
    ValSnoc(d[..15], d[15]);
    ValSnoc(m[..15], m[15]);
    DistributeRow(d[15], Carry(d, 15), 1, Radix(15));
    ValSum(t, PrimeLimbs(), d, -1);
    PrimeValue();
  }

  /** The borrow says whether t is below P. */
  lemma {:induction false} DifferenceRange(t: seq<int>, m: seq<int>)
    requires Within(t, 0, 65535) && IsDifference(t, m)
    ensures m[15] < 0 <==> Val(m) < 0
    ensures m[15] >= 0 ==> Within(m, 0, 65535)
  {
    hide Val, Radix;
    BorrowRange(t, 15);
    assert forall i :: 0 <= i < 15 ==> m[i] == m[..15][i] == Reduced(Minus(t), i);
    ValRange(m[..15]);
    assert m == m[..15] + [m[15]];
    ValSnoc(m[..15], m[15]);
    SignOfTop(Val(m[..15]), m[15], Radix(15));
  }

  lemma SignOfTop(v: int, x: int, r: int)
    requires 0 <= v < r
    ensures x < 0 <==> v + x * r < 0
  {
    assert x < 0 ==> x * r <= -r;
    assert x >= 0 ==> x * r >= 0;
  }

  lemma {:induction false} BorrowRange(t: seq<int>, i: nat)
    requires Within(t, 0, 65535) && i <= 15
    ensures -1 <= Carry(Minus(t), i) <= 0
  {
    if i > 0 {
      BorrowRange(t, i - 1);
    }
  }

  /** The bytes of a limb vector, low byte of each limb first. */
  function BytesOf(t: seq<int>): (b: seq<int>)
    ensures |b| == 2 * |t|
  {
    if t == [] then [] else [t[0] % 256, t[0] / 256] + BytesOf(t[1..])
  }

  lemma {:induction false} BytesOfValue(t: seq<int>)
    ensures LeVal(BytesOf(t)) == Val(t)
  {
    if t != [] {
      BytesOfValue(t[1..]);
      var b := BytesOf(t);
      assert b[1..][1..] == BytesOf(t[1..]);
      assert LeVal(b) == b[0] + 256 * (b[1] + 256 * LeVal(b[1..][1..]));
    }
  }

  lemma {:induction false} BytesOfAt(t: seq<int>, i: nat)
    requires i < |t|
    ensures BytesOf(t)[2 * i] == t[i] % 256 && BytesOf(t)[2 * i + 1] == t[i] / 256
  {
    if i > 0 {
      BytesOfAt(t[1..], i - 1);
    }
  }

  /** One conditional subtraction of P: t becomes t - P exactly when t >= P. */
  method ReduceOnce(t: array<I64>, m: array<I64>)
    requires t != m && m.Length == 16 && Within(t[..], 0, 65535)
    modifies t, m
    ensures Within(t[..], 0, 65535)
    ensures Val(t[..]) == old(Val(t[..])) - (if old(Val(t[..])) >= P then P else 0)
  {
    var b := SubtractP(t, m);
    DifferenceValue(t[..], m[..]);
    DifferenceRange(t[..], m[..]);
    Sel25519(t, m, 1 - b);
  }

  /** Writes the little-endian form of the representative below P. */
  method Pack(o: array<Byte>, n: array<I64>)
    requires o.Length == 32 && Within(n[..], -BOUND0, BOUND0)
    modifies o
    ensures LeVal(o[..]) == Fe(n)
  {
    var t, m := new I64[16], new I64[16];
    Copy(t, n);
    assert t[..] == n[..];
    Normalize(t);
    ValRange(t[..]);
    RadixTop();
    ReduceOnce(t, m);
    ReduceOnce(t, m);
    ReduceTwice(Val(t[..]), Val(n[..]), P);
    StoreLimbs(o, t);
  }

  /** A value below 2P + 38 needs at most two subtractions of P. */
  lemma ReduceTwice(x: int, y: int, p: int)
    requires p > 38 && 0 <= x < p && (x % p == y % p || (x + p) % p == y % p || (x + 2 * p) % p == y % p)
    ensures x == y % p
  {
    ModAddMultiple(x, 1, p);
    ModAddMultiple(x, 2, p);
    DivModUnique(x, 0, x, p);
  }

  method StoreLimbs(o: array<Byte>, t: array<I64>)
    requires o.Length == 32 && Within(t[..], 0, 65535)
    modifies o
    ensures LeVal(o[..]) == Val(t[..])
  {
    ghost var digits := t[..];
    for i := 0 to 16
      invariant forall k :: 0 <= k < i ==> o[2 * k] == digits[k] % 256
      invariant forall k :: 0 <= k < i ==> o[2 * k + 1] == digits[k] / 256
    {
      o[2 * i] := t[i] % 256;
      o[2 * i + 1] := t[i] / 256;
    }
    BytesMatch(digits, o[..]);
    BytesOfValue(digits);
  }

  lemma BytesMatch(t: seq<int>, b: seq<int>)
    requires |b| == 2 * |t|
    requires forall k :: 0 <= k < |t| ==> b[2 * k] == t[k] % 256
    requires forall k :: 0 <= k < |t| ==> b[2 * k + 1] == t[k] / 256
    ensures b == BytesOf(t)
  {
    forall j | 0 <= j < |b|
      ensures b[j] == BytesOf(t)[j]
    {
      BytesOfAt(t, j / 2);
    }
  }

  /** Three carry passes bring any limb vector into digit range. */
  method Normalize(t: array<I64>)
    requires Within(t[..], -BOUND0, BOUND0)
    modifies t
    ensures Within(t[..], 0, 65535)
    ensures Fe(t) == old(Fe(t))
  {
    CarryTwice(t);
    FirstPassWithin(t[..]);
    ThirdPass(t[..]);
    CarValue(t[..]);
    Car25519(t);
  }
}
