/** SHA-256 as FIPS 180-4 defines it: padding, message schedule, compression. */
module Sha256Spec {
  import opened Arith
  import opened Words32

  const K: seq<U32> := [
    0x428a2f98, 0x71374491, 0xb5c0fbcf, 0xe9b5dba5, 0x3956c25b, 0x59f111f1, 0x923f82a4, 0xab1c5ed5,
    0xd807aa98, 0x12835b01, 0x243185be, 0x550c7dc3, 0x72be5d74, 0x80deb1fe, 0x9bdc06a7, 0xc19bf174,
    0xe49b69c1, 0xefbe4786, 0x0fc19dc6, 0x240ca1cc, 0x2de92c6f, 0x4a7484aa, 0x5cb0a9dc, 0x76f988da,
    0x983e5152, 0xa831c66d, 0xb00327c8, 0xbf597fc7, 0xc6e00bf3, 0xd5a79147, 0x06ca6351, 0x14292967,
    0x27b70a85, 0x2e1b2138, 0x4d2c6dfc, 0x53380d13, 0x650a7354, 0x766a0abb, 0x81c2c92e, 0x92722c85,
    0xa2bfe8a1, 0xa81a664b, 0xc24b8b70, 0xc76c51a3, 0xd192e819, 0xd6990624, 0xf40e3585, 0x106aa070,
    0x19a4c116, 0x1e376c08, 0x2748774c, 0x34b0bcb5, 0x391c0cb3, 0x4ed8aa4a, 0x5b9cca4f, 0x682e6ff3,
    0x748f82ee, 0x78a5636f, 0x84c87814, 0x8cc70208, 0x90befffa, 0xa4506ceb, 0xbef9a3f7, 0xc67178f2]

  const H0: seq<U32> := [0x6a09e667, 0xbb67ae85, 0x3c6ef372, 0xa54ff53a, 0x510e527f, 0x9b05688c, 0x1f83d9ab, 0x5be0cd19]

  /** Section 5.1.1: a one bit, zeros, and the bit length in 64 bits. */
  function Pad(m: seq<Byte>): (p: seq<Byte>)
  {
    m + [0x80] + Zeros(ZeroCount(|m|)) + BeBytes(8 * |m|, 8)
  }

  /** The least k with n + 1 + k congruent to 56 modulo 64. */
  function ZeroCount(n: nat): (k: nat)
    ensures k < 64 && (n + 1 + k) % 64 == 56
  {
    var d := n % 64;
    var k := if d < 56 then 55 - d else 119 - d;
    DivModUnique(n + 1 + k, if d < 56 then n / 64 else n / 64 + 1, 56, 64);
    k
  }

  function Zeros(n: nat): (z: seq<Byte>)
    ensures |z| == n
  {
    seq(n, _ => 0)
  }

  /** The low n bytes of v, most significant first. */
  function BeBytes(v: nat, n: nat): (b: seq<Byte>)
    ensures |b| == n
    decreases v, n
  {
    if n == 0 then [] else BeBytes(v / 256, n - 1) + [v % 256]
  }

  function BeWord(b: seq<Byte>, o: nat): (w: U32)
    requires o + 4 <= |b|
  {
    0x100_0000 * (b[o] as int) + 0x1_0000 * (b[o + 1] as int) + 0x100 * (b[o + 2] as int) + b[o + 3] as int
  }

  function SmallSigma0(x: U32): (y: U32) { Xor32(Xor32(Rotr32(x, 7), Rotr32(x, 18)), Shr32(x, 3)) }
  function SmallSigma1(x: U32): (y: U32) { Xor32(Xor32(Rotr32(x, 17), Rotr32(x, 19)), Shr32(x, 10)) }
  function BigSigma0(x: U32): (y: U32) { Xor32(Xor32(Rotr32(x, 2), Rotr32(x, 13)), Rotr32(x, 22)) }
  function BigSigma1(x: U32): (y: U32) { Xor32(Xor32(Rotr32(x, 6), Rotr32(x, 11)), Rotr32(x, 25)) }
  function Ch(x: U32, y: U32, z: U32): (w: U32) { Xor32(And32(x, y), And32(Not32(x), z)) }
  function Maj(x: U32, y: U32, z: U32): (w: U32) { Xor32(Xor32(And32(x, y), And32(x, z)), And32(y, z)) }

  /** Word t of the message schedule, section 6.2.2. */
  function W(block: seq<Byte>, t: nat): (w: U32)
    requires |block| == 64 && t < 64
  {
    if t < 16 then BeWord(block, 4 * t)
    else Add32(Add32(Add32(W(block, t - 16), SmallSigma0(W(block, t - 15))), W(block, t - 7)), SmallSigma1(W(block, t - 2)))
  }

  datatype Vars = Vars(a: U32, b: U32, c: U32, d: U32, e: U32, f: U32, g: U32, h: U32)

  function Round(v: Vars, k: U32, w: U32): (r: Vars)
  {
    var t1 := Add32(Add32(Add32(Add32(v.h, BigSigma1(v.e)), Ch(v.e, v.f, v.g)), k), w);
    var t2 := Add32(BigSigma0(v.a), Maj(v.a, v.b, v.c));
    Vars(Add32(t1, t2), v.a, v.b, v.c, Add32(v.d, t1), v.e, v.f, v.g)
  }

  /** The working variables after n rounds. */
  function Rounds(v: Vars, block: seq<Byte>, n: nat): (r: Vars)
    requires |block| == 64 && n <= 64
  {
    if n == 0 then v else Round(Rounds(v, block, n - 1), K[n - 1], W(block, n - 1))
  }

  function Compress(s: seq<U32>, block: seq<Byte>): (r: seq<U32>)
    requires |s| == 8 && |block| == 64
    ensures |r| == 8
  {
    hide Rounds;
    var v := Rounds(Vars(s[0], s[1], s[2], s[3], s[4], s[5], s[6], s[7]), block, 64);
    [Add32(s[0], v.a), Add32(s[1], v.b), Add32(s[2], v.c), Add32(s[3], v.d),
     Add32(s[4], v.e), Add32(s[5], v.f), Add32(s[6], v.g), Add32(s[7], v.h)]
  }

  /** The compression function folded over n blocks. */
  function Fold(s: seq<U32>, m: seq<Byte>, n: nat): (r: seq<U32>)
    requires |s| == 8 && |m| == 64 * n
    ensures |r| == 8
    decreases n
  {
    if n == 0 then s else Compress(Fold(s, m[..64 * (n - 1)], n - 1), m[64 * (n - 1)..])
  }

  function Digest(s: seq<U32>): (b: seq<Byte>)
    ensures |b| == 4 * |s|
  {
    if s == [] then [] else BeBytes(s[0], 4) + Digest(s[1..])
  }

  /** The number of padded blocks. */
  function Count(m: seq<Byte>): (n: nat)
    ensures |Pad(m)| == 64 * n
  {
    |m| / 64 + (if |m| % 64 < 56 then 1 else 2)
  }

  function Hash(m: seq<Byte>): (h: seq<Byte>)
    ensures |h| == 32
  {
    hide Fold;
    Digest(Fold(H0, Pad(m), Count(m)))
  }

  /** A block appended is one more compression. */
  lemma FoldSnoc(s: seq<U32>, m: seq<Byte>, block: seq<Byte>, n: nat)
    requires |s| == 8 && |m| == 64 * n && |block| == 64
    ensures Fold(s, m + block, n + 1) == Compress(Fold(s, m, n), block)
  {
    hide Compress;
    assert (m + block)[..64 * n] == m && (m + block)[64 * n..] == block;
  }
}

/** The streaming context. */
module Sha256 {
  import opened Arith
  import opened Words32
  import Bits
  import opened Spec = Sha256Spec

  class Context {
    const data: array<Byte>
    const state: array<U32>
    var datalen: nat
    var bitlen: U64
    /** The bytes seen so far; the first 64 * blocks of them are compressed. */
    ghost var absorbed: seq<Byte>
    ghost var done: seq<Byte>
    ghost var blocks: nat

    ghost predicate Shape()
    {
      data.Length == 64 && state.Length == 8
    }

    ghost predicate Valid()
      reads this, data, state
    {
      && Shape() && datalen < 64 && |done| == 64 * blocks
      && absorbed == done + data[..datalen]
      && state[..] == Fold(H0, done, blocks)
      && bitlen == (512 * blocks) % 0x1_0000_0000_0000_0000
    }

    /** sha256_init */
    constructor ()
      ensures Valid() && absorbed == [] && fresh(data) && fresh(state)
    {
      data := new Byte[64];
      state := new U32[8](i requires 0 <= i < 8 => H0[i]);
      datalen, bitlen := 0, 0;
      absorbed, done, blocks := [], [], 0;
      new;
      assert state[..] == H0;
    }

    /** sha256_update: one byte at a time, compressing when the buffer fills. */
    method Update(bytes: seq<Byte>)
      requires Valid()
      modifies this, data, state
      ensures Valid() && absorbed == old(absorbed) + bytes
    {
      hide Fold, Compress;
      for i := 0 to |bytes|
        invariant Valid() && absorbed == old(absorbed) + bytes[..i]
      {
        Push(bytes[i]);
      }
    }

    method Push(b: Byte)
      requires Valid()
      modifies this, data, state
      ensures Valid() && absorbed == old(absorbed) + [b]
    {
      hide Fold, Compress;
      data[datalen] := b;
      datalen := datalen + 1;
      absorbed := absorbed + [b];
      assert absorbed == done + data[..datalen];
      if datalen == 64 {
        assert data[..64] == data[..];
        FoldSnoc(H0, done, data[..], blocks);
        Transform();
        CountBits(blocks);
        bitlen := (bitlen as int + 512) % 0x1_0000_0000_0000_0000;
        done, blocks := done + data[..], blocks + 1;
        datalen := 0;
      }
    }

    /** sha256_transform on the buffer. */
    method Transform()
      requires Shape()
      modifies state
      ensures state[..] == Compress(old(state[..]), data[..])
    {
      hide Rounds, Add32;
      var m := Schedule(data[..]);
      var v := Vars(state[0], state[1], state[2], state[3], state[4], state[5], state[6], state[7]);
      var a, b, c, d, e, f, g, h := RunRounds(v, data[..], m);
      state[0], state[1] := Add32(state[0], a), Add32(state[1], b);
      state[2], state[3] := Add32(state[2], c), Add32(state[3], d);
      state[4], state[5] := Add32(state[4], e), Add32(state[5], f);
      state[6], state[7] := Add32(state[6], g), Add32(state[7], h);
    }

    /** sha256_final: pad, append the bit length, compress once or twice more. */
    method Final() returns (hash: seq<Byte>)
      requires Valid()
      modifies this, data, state
      ensures hash == Hash(old(absorbed))
    {
      hide Fold, Compress, BeBytes, Digest, Pad, Count;
      ghost var tail, n := data[..datalen], blocks;
      ghost var bits := 8 * |absorbed|;
      BitCount(blocks, datalen);
      if datalen < 56 {
        PadTo(56);
      } else {
        PadTo(64);
        assert data[..64] == data[..];
        FoldSnoc(H0, done, data[..], blocks);
        Transform();
        done, n := done + data[..], n + 1;
        ZeroTo56();
      }
      bitlen := (bitlen as int + datalen * 8) % 0x1_0000_0000_0000_0000;
      StoreLength();
      SameLowBytes(bits, bitlen);
      assert data[..] == data[..56] + BeBytes(bits, 8);
      PaddedBlocks(absorbed, absorbed[..64 * blocks], tail, blocks);
      FoldSnoc(H0, done, data[..], n);
      Transform();
      assert done + data[..] == Pad(absorbed);
      hash := Output();
    }

    /** A one bit after the data, then zeros up to the limit. */
    method PadTo(limit: nat)
      requires Shape() && datalen < limit <= 64
      modifies data
      ensures data[..limit] == old(data[..datalen]) + [0x80] + Zeros(limit - datalen - 1)
    {
      var i := datalen;
      data[i] := 0x80;
      i := i + 1;
      while i < limit
        invariant datalen < i <= limit
        invariant data[..i] == old(data[..datalen]) + [0x80] + Zeros(i - datalen - 1)
      {
        data[i] := 0;
        i := i + 1;
      }
    }

    method ZeroTo56()
      requires Shape()
      modifies data
      ensures data[..56] == Zeros(56)
    {
      for i := 0 to 56
        invariant data[..i] == Zeros(i)
      {
        data[i] := 0;
      }
    }

    /** The bit length, most significant byte at index 56. */
    method StoreLength()
      requires Shape()
      modifies data
      ensures data[..56] == old(data[..56]) && data[56..] == BeBytes(bitlen, 8)
    {
      var v: nat := bitlen;
      for i := 0 to 8
        invariant data[..56] == old(data[..56])
        invariant BeBytes(v, 8 - i) + data[64 - i..] == BeBytes(bitlen, 8)
      {
        data[63 - i] := v % 0x100;
        assert data[63 - i..] == [v % 0x100] + data[64 - i..];
        v := v / 0x100;
      }
    }

    /** The eight state words, big-endian. */
    method Output() returns (hash: seq<Byte>)
      requires Shape()
      ensures hash == Digest(state[..])
    {
      hide BeBytes;
      hash := [];
      for i := 0 to 8
        invariant hash + Digest(state[i..]) == Digest(state[..])
      {
        assert state[i..][1..] == state[i + 1..];
        hash := hash + BeBytes(state[i], 4);
      }
    }
  }

  lemma BitCount(n: nat, d: nat)
    requires d < 64
    ensures ((512 * n) % 0x1_0000_0000_0000_0000 + d * 8) % 0x1_0000_0000_0000_0000
         == (8 * (64 * n + d)) % 0x1_0000_0000_0000_0000
  {
    var q := (512 * n) / 0x1_0000_0000_0000_0000;
    ModAddMultiple((512 * n) % 0x1_0000_0000_0000_0000 + d * 8, q, 0x1_0000_0000_0000_0000);
  }

  lemma {:induction false} LowBytes(v: nat, k: nat, n: nat)
    ensures BeBytes(v + Pow2(8 * n) * k, n) == BeBytes(v, n)
    decreases n
  {
    if n > 0 {
      var p := Pow2(8 * (n - 1));
      Pow2Add(8, 8 * (n - 1));
      assert Pow2(8) == 256;
      assert 8 + 8 * (n - 1) == 8 * n;
      assert (256 * p) * k == 256 * (p * k);
      LowBytes(v / 256, k, n - 1);
    }
  }

  lemma SameLowBytes(v: nat, w: nat)
    requires w == v % 0x1_0000_0000_0000_0000
    ensures BeBytes(v, 8) == BeBytes(w, 8)
  {
    hide BeBytes;
    Pow2Values();
    LowBytes(w, v / 0x1_0000_0000_0000_0000, 8);
  }

  /** The padded message, cut where the buffered tail starts. */
  lemma PaddedBlocks(m: seq<Byte>, whole: seq<Byte>, tail: seq<Byte>, n: nat)
    requires m == whole + tail && |whole| == 64 * n && |tail| < 64
    ensures |tail| < 56 ==>
              Count(m) == n + 1 && Pad(m) == whole + (tail + [0x80] + Zeros(55 - |tail|) + BeBytes(8 * |m|, 8))
    ensures |tail| >= 56 ==>
              Count(m) == n + 2
              && Pad(m) == whole + (tail + [0x80] + Zeros(63 - |tail|)) + (Zeros(56) + BeBytes(8 * |m|, 8))
  {
    hide BeBytes, Zeros, ZeroCount, Pad, Count;
    if |tail| >= 56 {
      LongPad(m, whole, tail, n);
    } else {
      ShortPad(m, whole, tail, n);
    }
  }

  lemma ShortPad(m: seq<Byte>, whole: seq<Byte>, tail: seq<Byte>, n: nat)
    requires m == whole + tail && |whole| == 64 * n && |tail| < 56
    ensures Count(m) == n + 1 && Pad(m) == whole + (tail + [0x80] + Zeros(55 - |tail|) + BeBytes(8 * |m|, 8))
  {
    hide BeBytes, Zeros, ZeroCount;
    PadCounts(n, |tail|);
    Regroup(whole, tail, [0x80], Zeros(55 - |tail|), BeBytes(8 * |m|, 8));
  }

  lemma LongPad(m: seq<Byte>, whole: seq<Byte>, tail: seq<Byte>, n: nat)
    requires m == whole + tail && |whole| == 64 * n && 56 <= |tail| < 64
    ensures Count(m) == n + 2
    ensures Pad(m) == whole + (tail + [0x80] + Zeros(63 - |tail|)) + (Zeros(56) + BeBytes(8 * |m|, 8))
  {
    hide BeBytes, Zeros, ZeroCount;
    PadCounts(n, |tail|);
    ZerosSplit(63 - |tail|, 56);
    RegroupTwo(whole, tail, [0x80], Zeros(63 - |tail|), Zeros(56), BeBytes(8 * |m|, 8));
  }

  lemma Regroup<T>(w: seq<T>, t: seq<T>, o: seq<T>, z: seq<T>, l: seq<T>)
    ensures w + t + o + z + l == w + (t + o + z + l)
  {
  }

  lemma RegroupTwo<T>(w: seq<T>, t: seq<T>, o: seq<T>, y: seq<T>, z: seq<T>, l: seq<T>)
    ensures w + t + o + (y + z) + l == w + (t + o + y) + (z + l)
  {
  }

  lemma PadCounts(n: nat, d: nat)
    requires d < 64
    ensures (64 * n + d) / 64 == n && (64 * n + d) % 64 == d
    ensures ZeroCount(64 * n + d) == if d < 56 then 55 - d else 119 - d
  {
    DivModUnique(64 * n + d, n, d, 64);
  }

  lemma ZerosSplit(a: nat, b: nat)
    ensures Zeros(a + b) == Zeros(a) + Zeros(b)
  {
  }

  lemma CountBits(n: nat)
    ensures ((512 * n) % 0x1_0000_0000_0000_0000 + 512) % 0x1_0000_0000_0000_0000 == (512 * (n + 1)) % 0x1_0000_0000_0000_0000
  {
    ModAdd(512 * n, 512, 0x1_0000_0000_0000_0000);
  }

  /** Four bytes assembled with shifts and disjunctions, the first on top. */
  lemma LoadWord(b: seq<Byte>, j: nat)
    requires j + 4 <= |b|
    ensures Bits.Or(Bits.Or(Bits.Or(0x100_0000 * b[j] as int, 0x1_0000 * b[j + 1] as int), 0x100 * b[j + 2] as int), b[j + 3])
         == BeWord(b, j)
  {
    hide Bits.Or;
    Pow2Values();
    Bits.OrDisjoint(0x1_0000 * b[j + 1] as int, b[j], 24);
    Bits.OrDisjoint(0x100 * b[j + 2] as int, 0x100 * b[j] as int + b[j + 1] as int, 16);
    Bits.OrDisjoint(b[j + 3], 0x1_0000 * b[j] as int + 0x100 * b[j + 1] as int + b[j + 2] as int, 8);
  }

  /** The 64-word message schedule, filled in place. */
  method Schedule(data: seq<Byte>) returns (m: array<U32>)
    requires |data| == 64
    ensures fresh(m) && m.Length == 64 && forall t :: 0 <= t < 64 ==> m[t] == W(data, t)
  {
    hide Add32, Rotr32, Shr32, Xor32, BeWord, Bits.Or;
    m := new U32[64];
    var j := 0;
    for i := 0 to 16
      invariant j == 4 * i
      invariant forall t :: 0 <= t < i ==> m[t] == W(data, t)
    {
      LoadWord(data, j);
      m[i] := Bits.Or(Bits.Or(Bits.Or(0x100_0000 * data[j] as int, 0x1_0000 * data[j + 1] as int), 0x100 * data[j + 2] as int), data[j + 3]);
      j := j + 4;
    }
    for i := 16 to 64
      invariant forall t :: 0 <= t < i ==> m[t] == W(data, t)
    {
      var s0 := Xor32(Xor32(Rotr32(m[i - 15], 7), Rotr32(m[i - 15], 18)), Shr32(m[i - 15], 3));
      var s1 := Xor32(Xor32(Rotr32(m[i - 2], 17), Rotr32(m[i - 2], 19)), Shr32(m[i - 2], 10));
      m[i] := Add32(Add32(Add32(m[i - 16], s0), m[i - 7]), s1);
    }
  }

  /** The 64 rounds, on eight registers that are shifted along. */
  method RunRounds(v: Vars, block: seq<Byte>, m: array<U32>)
    returns (a: U32, b: U32, c: U32, d: U32, e: U32, f: U32, g: U32, h: U32)
    requires |block| == 64 && m.Length == 64 && forall t :: 0 <= t < 64 ==> m[t] == W(block, t)
    ensures Vars(a, b, c, d, e, f, g, h) == Rounds(v, block, 64)
  {
    hide Round, Rounds, W, Add32, Rotr32, Xor32, And32, Not32;
    a, b, c, d, e, f, g, h := v.a, v.b, v.c, v.d, v.e, v.f, v.g, v.h;
    NoRounds(v, block);
    for i := 0 to 64
      invariant Vars(a, b, c, d, e, f, g, h) == Rounds(v, block, i)
    {
      ghost var before := Vars(a, b, c, d, e, f, g, h);
      var t1 := Add32(Add32(Add32(Add32(h, Xor32(Xor32(Rotr32(e, 6), Rotr32(e, 11)), Rotr32(e, 25))),
                                  Xor32(And32(e, f), And32(Not32(e), g))), K[i]), m[i]);
      var t2 := Add32(Xor32(Xor32(Rotr32(a, 2), Rotr32(a, 13)), Rotr32(a, 22)),
                      Xor32(Xor32(And32(a, b), And32(a, c)), And32(b, c)));
      h := g;
      g := f;
      f := e;
      e := Add32(d, t1);
      d := c;
      c := b;
      b := a;
      a := Add32(t1, t2);
      RoundOf(before, K[i], m[i], t1, t2);
      OneRound(v, block, i);
    }
  }

  lemma NoRounds(v: Vars, block: seq<Byte>)
    requires |block| == 64
    ensures Rounds(v, block, 0) == v
  {
  }

  lemma OneRound(v: Vars, block: seq<Byte>, i: nat)
    requires |block| == 64 && i < 64
    ensures Rounds(v, block, i + 1) == Round(Rounds(v, block, i), K[i], W(block, i))
  {
    hide Round, W;
  }

  /** The register shuffle is the round of section 6.2.2. */
  lemma RoundOf(v: Vars, k: U32, w: U32, t1: U32, t2: U32)
    requires t1 == Add32(Add32(Add32(Add32(v.h, Xor32(Xor32(Rotr32(v.e, 6), Rotr32(v.e, 11)), Rotr32(v.e, 25))),
                                     Xor32(And32(v.e, v.f), And32(Not32(v.e), v.g))), k), w)
    requires t2 == Add32(Xor32(Xor32(Rotr32(v.a, 2), Rotr32(v.a, 13)), Rotr32(v.a, 22)),
                         Xor32(Xor32(And32(v.a, v.b), And32(v.a, v.c)), And32(v.b, v.c)))
    ensures Round(v, k, w) == Vars(Add32(t1, t2), v.a, v.b, v.c, Add32(v.d, t1), v.e, v.f, v.g)
  {
    hide Add32, Rotr32, Xor32, And32, Not32;
  }
}
