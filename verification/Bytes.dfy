/** Little-endian byte strings. */
module Bytes {
  import opened Arith
  import Bits

  /** The integer a little-endian byte string stands for. */
  function LeVal(b: seq<int>): (v: int)
  {
    if b == [] then 0 else b[0] + 256 * LeVal(b[1..])
  }

  /** The n little-endian bytes of v. */
  function LeBytes(v: nat, n: nat): (b: seq<Byte>)
    ensures |b| == n
    decreases v, n
  {
    if n == 0 then [] else [v % 256] + LeBytes(v / 256, n - 1)
  }

  lemma {:induction false} LeValNonNegative(z: seq<int>)
    requires forall k :: 0 <= k < |z| ==> 0 <= z[k]
    ensures LeVal(z) >= 0
  {
    if z != [] {
      LeValNonNegative(z[1..]);
    }
  }

  lemma {:induction false} LeValRange(b: seq<Byte>)
    ensures 0 <= LeVal(b) < Pow2(8 * |b|)
  {
    if b != [] {
      LeValRange(b[1..]);
      Pow2Values();
      Pow2Add(8, 8 * |b[1..]|);
      assert 8 + 8 * |b[1..]| == 8 * |b|;
    }
  }

  lemma {:induction false} LeValAppend(a: seq<int>, b: seq<int>)
    ensures LeVal(a + b) == LeVal(a) + Pow2(8 * |a|) * LeVal(b)
  {
    if a == [] {
      assert a + b == b;
    } else {
      LeValAppend(a[1..], b);
      assert (a + b)[1..] == a[1..] + b;
      Pow2Values();
      Pow2Add(8, 8 * |a[1..]|);
      assert 8 + 8 * |a[1..]| == 8 * |a|;
      var p, v := Pow2(8 * |a[1..]|), LeVal(b);
      assert (256 * p) * v == 256 * (p * v);
    }
  }

  lemma {:induction false} LeValZeros(z: seq<int>)
    requires forall i :: 0 <= i < |z| ==> z[i] == 0
    ensures LeVal(z) == 0
  {
    if z != [] {
      LeValZeros(z[1..]);
    }
  }

  /** A byte string of known length is determined by its value. */
  lemma {:induction false} LeBytesOfVal(b: seq<Byte>)
    ensures LeVal(b) >= 0
    ensures LeBytes(LeVal(b), |b|) == b
  {
    LeValNonNegative(b);
    if b != [] {
      LeValNonNegative(b[1..]);
      LeBytesOfVal(b[1..]);
      DivModUnique(LeVal(b), LeVal(b[1..]), b[0], 256);
    }
  }

  lemma {:induction false} LeValOfBytes(v: nat, n: nat)
    requires v < Pow2(8 * n)
    ensures LeVal(LeBytes(v, n)) == v
    decreases n
  {
    if n > 0 {
      Pow2Values();
      Pow2Add(8, 8 * (n - 1));
      assert 8 + 8 * (n - 1) == 8 * n;
      LeValOfBytes(v / 256, n - 1);
      assert LeBytes(v, n)[1..] == LeBytes(v / 256, n - 1);
    }
  }

  /** load32_le: four bytes assembled with shifts and disjunctions. */
  function Load32(b0: Byte, b1: Byte, b2: Byte, b3: Byte): (w: nat)
  {
    Bits.Or(Bits.Or(Bits.Or(b0, 0x100 * (b1 as int)), 0x1_0000 * (b2 as int)), 0x100_0000 * (b3 as int))
  }

  lemma Load32Value(b0: Byte, b1: Byte, b2: Byte, b3: Byte)
    ensures Load32(b0, b1, b2, b3) == Word32(b0, b1, b2, b3)
  {
    Pow2Values();
    Bits.OrDisjoint(b0, b1, 8);
    Bits.OrDisjoint(Word32(b0, b1, 0, 0), b2, 16);
    Bits.OrDisjoint(Word32(b0, b1, b2, 0), b3, 24);
  }

  function Word32(b0: int, b1: int, b2: int, b3: int): (w: int)
  {
    b0 + 0x100 * b1 + 0x1_0000 * b2 + 0x100_0000 * b3
  }
}
