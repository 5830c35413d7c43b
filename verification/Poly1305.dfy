/** Section 2.5 of RFC 8439 over the integers. */
module Poly1305Spec {
  import opened Arith
  import opened Bytes
  import opened PolyLimbs
  import PolyLoad
  import Bits

  /** Every block, the last one possibly short, gets a one byte appended. */
  function Accumulate(r: nat, acc: nat, m: seq<Byte>): (a: nat)
    decreases |m|
  {
    if m == [] then acc
    else
      var n := if |m| < 16 then |m| else 16;
      Accumulate(r, Absorb(r, acc, LeVal(m[..n] + [1])), m[n..])
  }

  function Absorb(r: nat, acc: nat, block: int): (a: nat)
  {
    ((acc + block) * r) % P1305
  }

  function R(key: seq<Byte>): (r: nat)
    requires |key| == 32
  {
    LeValNonNegative(key[..16]);
    Bits.And(LeVal(key[..16]), PolyLoad.CLAMP)
  }

  function S(key: seq<Byte>): (s: nat)
    requires |key| == 32
  {
    LeValNonNegative(key[16..]);
    LeVal(key[16..])
  }

  /** The tag for the number pair (r, s). */
  function Tag(r: nat, s: nat, msg: seq<Byte>): (tag: seq<Byte>)
    ensures |tag| == 16
  {
    LeBytes((Accumulate(r, 0, msg) + s) % TWO128, 16)
  }

  function Mac(key: seq<Byte>, msg: seq<Byte>): (tag: seq<Byte>)
    requires |key| == 32
    ensures |tag| == 16
  {
    Tag(R(key), S(key), msg)
  }

  lemma {:induction false} AccumulateAppend(r: nat, acc: nat, a: seq<Byte>, b: seq<Byte>, n: nat)
    requires |a| == 16 * n
    ensures Accumulate(r, acc, a + b) == Accumulate(r, Accumulate(r, acc, a), b)
    decreases n
  {
    if n == 0 {
      assert a + b == b;
    } else {
      var next := Absorb(r, acc, LeVal(a[..16] + [1]));
      assert (a + b)[..16] == a[..16] && (a + b)[16..] == a[16..] + b;
      AccumulateAppend(r, next, a[16..], b, n - 1);
    }
  }

  lemma AccumulateBlock(r: nat, acc: nat, m: seq<Byte>)
    requires 0 < |m| <= 16
    ensures Accumulate(r, acc, m) == Absorb(r, acc, LeVal(m + [1]))
  {
    assert m[..|m|] == m && m[|m|..] == [];
  }

  /** The appended one byte is worth 2^128 after a full block. */
  lemma FullBlock(m: seq<Byte>)
    requires |m| == 16
    ensures LeVal(m + [1]) == LeVal(m) + TWO128
  {
    LeValAppend(m, [1]);
    assert LeVal([1]) == 1;
    Pow2Values();
    Pow2Add(64, 64);
  }

  /** Padding a short block with zeros after the one byte does not change its value. */
  lemma ShortBlock(m: seq<Byte>, z: seq<Byte>)
    requires forall i :: 0 <= i < |z| ==> z[i] == 0
    ensures LeVal(m + [1] + z) == LeVal(m + [1])
  {
    LeValAppend(m + [1], z);
    LeValZeros(z);
  }

  /** Only the residue of the accumulator matters. */
  lemma AbsorbResidue(r: nat, h: nat, block: int)
    ensures Absorb(r, h % P1305, block) == ((h + block) * r) % P1305
  {
    var q := h / P1305;
    assert h == q * P1305 + h % P1305;
    assert (h + block) * r == (h % P1305 + block) * r + (q * r) * P1305 by {
      Spread(h % P1305 + block, q, P1305, r);
    }
    ModAddMultiple((h % P1305 + block) * r, q * r, P1305);
  }

  lemma Spread(x: int, q: int, p: int, r: int)
    ensures (q * p + x) * r == x * r + (q * r) * p
  {
  }
}

/** The streaming state of Poly1305. */
module Poly1305 {
  import opened Arith
  import opened Bytes
  import opened PolyLimbs
  import opened PolyFinish
  import opened PolyLoad
  import Spec = Poly1305Spec
  import Bits

  class State {
    const r: array<U32>
    const h: array<U32>
    const pad: array<U32>
    const buffer: array<Byte>
    var leftover: nat
    var final: int
    /** The two key numbers. */
    ghost const rv: nat
    ghost const sv: nat
    /** The message absorbed so far; its first 16 * blocks bytes are in the accumulator. */
    ghost var absorbed: seq<Byte>
    ghost var done: seq<Byte>
    ghost var blocks: nat

    ghost predicate Shape()
    {
      && r.Length == 5 && h.Length == 5 && pad.Length == 4 && buffer.Length == 16
      && r != h && r != pad && h != pad
    }

    ghost predicate Keyed()
      reads this, r, pad
      requires Shape()
    {
      && RLimbs(r[0], r[1], r[2], r[3], r[4])
      && Val5(r[0], r[1], r[2], r[3], r[4]) == rv
      && Val4(pad[0], pad[1], pad[2], pad[3]) == sv
    }

    ghost predicate Bounded()
      reads this, h
      requires Shape()
    {
      HLimbs(h[0], h[1], h[2], h[3], h[4])
    }

    /** The accumulator represents acc modulo 2^130 - 5. */
    ghost predicate Holds(acc: nat)
      reads this, h
      requires Shape()
    {
      Val5(h[0], h[1], h[2], h[3], h[4]) % P1305 == acc
    }

    ghost predicate Valid()
      reads this, r, h, pad, buffer
    {
      && Shape() && Keyed() && Bounded() && final == 0
      && leftover < 16 && |done| == 16 * blocks
      && absorbed == done + buffer[..leftover]
      && Holds(Spec.Accumulate(rv, 0, done))
    }

    constructor (k: seq<Byte>)
      requires |k| >= 32
      ensures Valid() && absorbed == []
      ensures rv == Spec.R(k[..32]) && sv == Spec.S(k[..32])
      ensures fresh(r) && fresh(h) && fresh(pad) && fresh(buffer)
    {
      r := new U32[5];
      h := new U32[5];
      pad := new U32[4];
      buffer := new Byte[16];
      leftover, final := 0, 0;
      rv, sv := Spec.R(k[..32]), Spec.S(k[..32]);
      absorbed, done, blocks := [], [], 0;
      new;
      hide Spec.R, Spec.S;
      Load(k[..32]);
    }

    /** poly1305_init: the key words and the empty accumulator. */
    method Load(k: seq<Byte>)
      requires Shape() && |k| == 32 && rv == Spec.R(k) && sv == Spec.S(k)
      requires final == 0 && leftover == 0 && absorbed == [] && done == [] && blocks == 0
      modifies r, h, pad
      ensures Valid()
    {
      hide Spec.R, Spec.S, Val4, Val5, RLimbs, HLimbs, Spec.Accumulate;
      LoadR(k);
      LoadPad(k);
      h[0], h[1], h[2], h[3], h[4] := 0, 0, 0, 0, 0;
      EmptyAccumulator(rv);
      assert buffer[..0] == [];
    }

    /** poly1305_init: the clamped r. */
    method LoadR(k: seq<Byte>)
      requires r.Length == 5 && |k| == 32
      modifies r
      ensures RLimbs(r[0], r[1], r[2], r[3], r[4])
      ensures Val5(r[0], r[1], r[2], r[3], r[4]) == Spec.R(k)
    {
      KeyWindows(k);
      r[0] := Bits.And(Window(k, 0, 0), 0x3ffffff);
      r[1] := Bits.And(Window(k, 3, 2), 0x3ffff03);
      r[2] := Bits.And(Window(k, 6, 4), 0x3ffc0ff);
      r[3] := Bits.And(Window(k, 9, 6), 0x3f03fff);
      r[4] := Bits.And(Window(k, 12, 8), 0x00fffff);
    }

    /** poly1305_init: the pad words. */
    method LoadPad(k: seq<Byte>)
      requires pad.Length == 4 && |k| == 32
      modifies pad
      ensures Val4(pad[0], pad[1], pad[2], pad[3]) == Spec.S(k)
    {
      PadWords(k);
      pad[0] := Load32(k[16], k[17], k[18], k[19]);
      pad[1] := Load32(k[20], k[21], k[22], k[23]);
      pad[2] := Load32(k[24], k[25], k[26], k[27]);
      pad[3] := Load32(k[28], k[29], k[30], k[31]);
    }

    /** poly1305_blocks: absorb n whole blocks, each with the high bit unless final. */
    method Blocks(m: seq<Byte>, ghost n: nat, ghost acc: nat)
      requires Shape() && Keyed() && Bounded() && Holds(acc) && |m| == 16 * n
      modifies h
      ensures Bounded() && Holds(Fold(rv, acc, m, n, if final == 0 then TWO128 else 0))
    {
      var hibit: U32 := if final == 0 then 0x100_0000 else 0;
      var h0, h1, h2, h3, h4 := BlockLoop(h[0], h[1], h[2], h[3], h[4], r[0], r[1], r[2], r[3], r[4],
                                          m, n, hibit, rv, acc, if final == 0 then TWO128 else 0);
      h[0], h[1], h[2], h[3], h[4] := h0, h1, h2, h3, h4;
    }

    /** poly1305_update */
    method Update(data: seq<Byte>)
      requires Valid()
      modifies this, h, buffer
      ensures Valid()
      ensures absorbed == old(absorbed) + data
    {
      hide Spec.Accumulate, RLimbs, HLimbs, Val5, Val4;
      var m := data;
      if leftover != 0 {
        m := TopUp(data);
        if leftover != 0 {
          return;
        }
      }
      if |m| >= 16 {
        m := Bulk(m);
      }
      if |m| > 0 {
        Fill(m);
        absorbed := absorbed + m;
      }
    }

    /** First part of update: complete the partial block, absorbing it when full. */
    method TopUp(data: seq<Byte>) returns (m: seq<Byte>)
      requires Valid() && leftover != 0
      modifies this, h, buffer
      ensures Valid() && (leftover != 0 ==> m == [])
      ensures absorbed + m == old(absorbed) + data
    {
      hide Spec.Accumulate, RLimbs, HLimbs, Val5, Val4;
      var want := 16 - leftover;
      if want > |data| {
        want := |data|;
      }
      Fill(data[..want]);
      m := data[want..];
      absorbed := absorbed + data[..want];
      assert absorbed == done + buffer[..leftover];
      if leftover < 16 {
        return;
      }
      assert buffer[..16] == buffer[..];
      AbsorbWhole(buffer[..], 1);
      leftover := 0;
    }

    /** Second part of update: all remaining whole blocks. */
    method Bulk(data: seq<Byte>) returns (m: seq<Byte>)
      requires Valid() && leftover == 0
      modifies this, h
      ensures Valid() && leftover == 0 && |m| < 16
      ensures absorbed + m == old(absorbed) + data
    {
      hide Spec.Accumulate, RLimbs, HLimbs, Val5, Val4;
      var want := |data| / 16 * 16;
      m := data[want..];
      AbsorbWhole(data[..want], |data| / 16);
      absorbed := absorbed + data[..want];
    }

    /** Append bytes to the partial block. */
    method Fill(m: seq<Byte>)
      requires buffer.Length == 16 && leftover + |m| <= 16
      modifies this`leftover, buffer
      ensures leftover == old(leftover) + |m|
      ensures buffer[..leftover] == old(buffer[..leftover]) + m
    {
      for i := 0 to |m|
        invariant leftover == old(leftover)
        invariant buffer[..leftover + i] == old(buffer[..leftover]) + m[..i]
      {
        buffer[leftover + i] := m[i];
      }
      leftover := leftover + |m|;
    }

    /** Whole blocks go straight into the accumulator. */
    method AbsorbWhole(m: seq<Byte>, ghost n: nat)
      requires Shape() && Keyed() && Bounded() && final == 0
      requires |done| == 16 * blocks && |m| == 16 * n
      requires Holds(Spec.Accumulate(rv, 0, done))
      modifies h, this`done, this`blocks
      ensures Bounded() && done == old(done) + m && |done| == 16 * blocks
      ensures Holds(Spec.Accumulate(rv, 0, done))
    {
      ghost var acc := Spec.Accumulate(rv, 0, done);
      FoldIsAccumulate(rv, acc, m, n);
      Blocks(m, n, acc);
      Spec.AccumulateAppend(rv, 0, done, m, blocks);
      done, blocks := done + m, blocks + n;
    }

    /** poly1305_finish: absorb the short last block, reduce fully, add the pad. */
    method Finish() returns (mac: seq<Byte>)
      requires Valid()
      modifies this, r, h, pad, buffer
      ensures mac == Spec.Tag(rv, sv, old(absorbed))
    {
      hide Spec.Accumulate, RLimbs, HLimbs, Val5, Val4, Spec.Tag;
      ghost var acc := Spec.Accumulate(rv, 0, absorbed);
      if leftover != 0 {
        LastBlock();
      } else {
        assert buffer[..leftover] == [] && absorbed == done;
      }
      var w0, w1, w2, w3 := FinalWords(h[0], h[1], h[2], h[3], h[4], pad[0], pad[1], pad[2], pad[3], acc, sv);
      mac := Store32(w0) + Store32(w1) + Store32(w2) + Store32(w3);
      StoredWords(w0, w1, w2, w3);
      TagFromWords(rv, sv, absorbed, Val4(w0, w1, w2, w3), mac);
      Wipe();
    }

    /** The padded last block, absorbed without the high bit. */
    method LastBlock()
      requires Valid() && leftover != 0
      modifies this`final, h, buffer
      ensures Shape() && Keyed() && Bounded()
      ensures Holds(Spec.Accumulate(rv, 0, absorbed))
    {
      hide RLimbs, HLimbs, Val5, Val4;
      ghost var last := buffer[..leftover];
      ghost var acc := Spec.Accumulate(rv, 0, done);
      var i := leftover;
      buffer[i] := 1;
      i := i + 1;
      while i < 16
        invariant leftover < i <= 16
        invariant buffer[..leftover] == last && buffer[leftover] == 1
        invariant forall k :: leftover < k < i ==> buffer[k] == 0
        modifies buffer
      {
        buffer[i] := 0;
        i := i + 1;
      }
      final := 1;
      ghost var zeros := buffer[leftover + 1..];
      assert buffer[..] == last + [1] + zeros;
      Blocks(buffer[..], 1, acc);
      LastAbsorb(rv, acc, last, zeros, buffer[..]);
      Spec.AccumulateAppend(rv, 0, done, last, blocks);
    }

    /** The state is zeroed after use. */
    method Wipe()
      requires Shape()
      modifies this`leftover, this`final, r, h, pad, buffer
      ensures leftover == 0 && final == 0
      ensures forall i :: 0 <= i < 5 ==> r[i] == 0 && h[i] == 0
      ensures forall i :: 0 <= i < 4 ==> pad[i] == 0
      ensures forall i :: 0 <= i < 16 ==> buffer[i] == 0
    {
      leftover, final := 0, 0;
      forall i | 0 <= i < 5 { r[i] := 0; }
      forall i | 0 <= i < 5 { h[i] := 0; }
      forall i | 0 <= i < 4 { pad[i] := 0; }
      forall i | 0 <= i < 16 { buffer[i] := 0; }
    }
  }

  lemma {:induction false} EmptyAccumulator(r: nat)
    ensures Val5(0, 0, 0, 0, 0) % P1305 == Spec.Accumulate(r, 0, []) && HLimbs(0, 0, 0, 0, 0)
  {
    hide Spec.Absorb;
    DivModUnique(0, 0, 0, P1305);
  }

  lemma {:induction false} LastAbsorb(r: nat, acc: nat, last: seq<Byte>, zeros: seq<Byte>, block: seq<Byte>)
    requires 0 < |last| < 16 && |block| == 16 && block == last + [1] + zeros
    requires forall i :: 0 <= i < |zeros| ==> zeros[i] == 0
    ensures Fold(r, acc, block, 1, 0) == Spec.Accumulate(r, acc, last)
  {
    hide Spec.Absorb, LeVal;
    Spec.ShortBlock(last, zeros);
    Spec.AccumulateBlock(r, acc, last);
    assert block[..16] == block && block[16..] == [];
    assert Fold(r, Spec.Absorb(r, acc, LeVal(block)), [], 0, 0) == Spec.Absorb(r, acc, LeVal(block));
  }

  /** The four words of the tag. */
  method FinalWords(x0: U32, x1: U32, x2: U32, x3: U32, x4: U32, p0: U32, p1: U32, p2: U32, p3: U32,
                    ghost acc: nat, ghost sv: nat)
    returns (w0: U32, w1: U32, w2: U32, w3: U32)
    requires HLimbs(x0, x1, x2, x3, x4) && Val5(x0, x1, x2, x3, x4) % P1305 == acc
    requires Val4(p0, p1, p2, p3) == sv
    ensures Val4(w0, w1, w2, w3) == (acc + sv) % TWO128
  {
    hide HLimbs, Val5, Val4, Digits;
    var h0, h1, h2, h3, h4 := FullCarry(x0, x1, x2, x3, x4);
    h0, h1, h2, h3, h4 := Reduce(h0, h1, h2, h3, h4);
    w0, w1, w2, w3 := Repack(h0, h1, h2, h3, h4);
    ModAdd(acc, sv, TWO128);
    ModAdd(acc % TWO128, sv, TWO128);
    DropMod(acc, TWO128);
    w0, w1, w2, w3 := AddPad(w0, w1, w2, w3, p0, p1, p2, p3);
  }

  lemma DropMod(x: int, m: int)
    requires m > 0
    ensures (x % m) % m == x % m
  {
    DivModUnique(x % m, 0, x % m, m);
  }

  /** store32_le */
  function Store32(v: U32): (b: seq<Byte>)
    ensures |b| == 4
  {
    [v % 0x100, (v / 0x100) % 0x100, (v / 0x1_0000) % 0x100, v / 0x100_0000]
  }

  lemma StoredWords(w0: U32, w1: U32, w2: U32, w3: U32)
    ensures LeVal(Store32(w0) + Store32(w1) + Store32(w2) + Store32(w3)) == Val4(w0, w1, w2, w3)
  {
    StoreValue(w0);
    StoreValue(w1);
    StoreValue(w2);
    StoreValue(w3);
    LeValSixteen(Store32(w0) + Store32(w1) + Store32(w2) + Store32(w3));
  }

  lemma StoreValue(v: U32)
    ensures Word32(Store32(v)[0], Store32(v)[1], Store32(v)[2], Store32(v)[3]) == v
  {
    DivDiv(v, 0x100, 0x100);
    DivDiv(v, 0x1_0000, 0x100);
    var q1, q2, q3 := v / 0x100, v / 0x1_0000, v / 0x100_0000;
    assert v == 0x100 * q1 + v % 0x100 && q1 == 0x100 * q2 + q1 % 0x100 && q2 == 0x100 * q3 + q2 % 0x100;
  }

  lemma TagFromWords(r: nat, s: nat, msg: seq<Byte>, v: int, mac: seq<Byte>)
    requires |mac| == 16 && LeVal(mac) == v
    requires v == (Spec.Accumulate(r, 0, msg) + s) % TWO128
    ensures mac == Spec.Tag(r, s, msg)
  {
    hide Spec.Accumulate, LeVal, LeBytes;
    LeBytesOfVal(mac);
  }

  /** Absorb n 16-byte blocks, adding the given weight to each. */
  ghost function Fold(r: nat, acc: nat, m: seq<Byte>, n: nat, weight: int): (a: nat)
    requires |m| == 16 * n
    decreases n
  {
    if n == 0 then acc else Fold(r, Spec.Absorb(r, acc, LeVal(m[..16]) + weight), m[16..], n - 1, weight)
  }

  /** With weight 2^128 this is the RFC accumulator on whole blocks. */
  lemma {:induction false} FoldIsAccumulate(r: nat, acc: nat, m: seq<Byte>, n: nat)
    requires |m| == 16 * n
    ensures Fold(r, acc, m, n, TWO128) == Spec.Accumulate(r, acc, m)
    decreases n
  {
    if n > 0 {
      Spec.FullBlock(m[..16]);
      FoldIsAccumulate(r, Spec.Absorb(r, acc, LeVal(m[..16]) + TWO128), m[16..], n - 1);
    }
  }

  /** The block loop. */
  method BlockLoop(x0: U32, x1: U32, x2: U32, x3: U32, x4: U32, r0: U32, r1: U32, r2: U32, r3: U32, r4: U32,
                   m: seq<Byte>, ghost n: nat, hibit: U32, ghost rv: nat, ghost acc: nat, ghost weight: int)
    returns (h0: U32, h1: U32, h2: U32, h3: U32, h4: U32)
    requires HLimbs(x0, x1, x2, x3, x4) && RLimbs(r0, r1, r2, r3, r4)
    requires |m| == 16 * n && (hibit == 0 || hibit == 0x100_0000)
    requires rv == Val5(r0, r1, r2, r3, r4) && acc == Val5(x0, x1, x2, x3, x4) % P1305
    requires weight == if hibit == 0 then 0 else TWO128
    ensures HLimbs(h0, h1, h2, h3, h4)
    ensures Val5(h0, h1, h2, h3, h4) % P1305 == Fold(rv, acc, m, n, weight)
  {
    hide RLimbs, HLimbs, Val5, LeVal, Spec.Absorb;
    h0, h1, h2, h3, h4 := x0, x1, x2, x3, x4;
    var rest := m;
    ghost var left, a := n, acc;
    while |rest| >= 16
      invariant |rest| == 16 * left
      invariant HLimbs(h0, h1, h2, h3, h4) && Val5(h0, h1, h2, h3, h4) % P1305 == a
      invariant Fold(rv, a, rest, left, weight) == Fold(rv, acc, m, n, weight)
      decreases |rest|
    {
      h0, h1, h2, h3, h4 := OneBlock(h0, h1, h2, h3, h4, r0, r1, r2, r3, r4, rest[..16], hibit, rv, a, weight);
      a := Spec.Absorb(rv, a, LeVal(rest[..16]) + weight);
      rest, left := rest[16..], left - 1;
    }
  }

  /** The body of the block loop: add the block, multiply, carry. */
  method OneBlock(x0: U32, x1: U32, x2: U32, x3: U32, x4: U32, r0: U32, r1: U32, r2: U32, r3: U32, r4: U32,
                  m: seq<Byte>, hibit: U32, ghost rv: nat, ghost acc: nat, ghost weight: int)
    returns (h0: U32, h1: U32, h2: U32, h3: U32, h4: U32)
    requires HLimbs(x0, x1, x2, x3, x4) && RLimbs(r0, r1, r2, r3, r4)
    requires |m| == 16 && (hibit == 0 || hibit == 0x100_0000)
    requires rv == Val5(r0, r1, r2, r3, r4) && acc == Val5(x0, x1, x2, x3, x4) % P1305
    requires weight == if hibit == 0 then 0 else TWO128
    ensures HLimbs(h0, h1, h2, h3, h4)
    ensures Val5(h0, h1, h2, h3, h4) % P1305 == Spec.Absorb(rv, acc, LeVal(m) + weight)
  {
    hide RLimbs, HLimbs, SumLimbs, Val5, LeVal, Spec.Absorb;
    Val5NonNegative(x0, x1, x2, x3, x4);
    var a0, a1, a2, a3, a4 := AddBlock(x0, x1, x2, x3, x4, m, hibit, weight);
    var d0, d1, d2, d3, d4 := Multiply(a0, a1, a2, a3, a4, r0, r1, r2, r3, r4);
    h0, h1, h2, h3, h4 := CarryBlock(d0, d1, d2, d3, d4);
    Glue(Val5(x0, x1, x2, x3, x4), Val5(a0, a1, a2, a3, a4), LeVal(m) + weight, Val5(r0, r1, r2, r3, r4),
         Val5(d0, d1, d2, d3, d4));
  }

  lemma Val5NonNegative(x0: nat, x1: nat, x2: nat, x3: nat, x4: nat)
    ensures Val5(x0, x1, x2, x3, x4) >= 0
  {
  }

  lemma Glue(x: nat, a: int, block: int, r: nat, d: int)
    requires a == x + block && (a * r) % P1305 == d % P1305
    ensures d % P1305 == Spec.Absorb(r, x % P1305, block)
  {
    Spec.AbsorbResidue(r, x, block);
  }

  method AddBlock(x0: U32, x1: U32, x2: U32, x3: U32, x4: U32, m: seq<Byte>, hibit: U32, ghost weight: int)
    returns (a0: U32, a1: U32, a2: U32, a3: U32, a4: U32)
    requires HLimbs(x0, x1, x2, x3, x4) && |m| == 16 && (hibit == 0 || hibit == 0x100_0000)
    requires weight == if hibit == 0 then 0 else TWO128
    ensures SumLimbs(a0, a1, a2, a3, a4)
    ensures Val5(a0, a1, a2, a3, a4) == Val5(x0, x1, x2, x3, x4) + (LeVal(m) + weight)
  {
    BlockLimbs(m);
    TopBit(Window(m, 12, 8), hibit);
    a0 := x0 + Limb(m, 0);
    a1 := x1 + Limb(m, 1);
    a2 := x2 + Limb(m, 2);
    a3 := x3 + Limb(m, 3);
    a4 := x4 + Bits.Or(Window(m, 12, 8), hibit);
  }

  lemma TopBit(w: nat, hibit: nat)
    requires w < 0x100_0000 && (hibit == 0 || hibit == 0x100_0000)
    ensures Bits.Or(w, hibit) == w + hibit
  {
    Pow2Values();
    Bits.OrZero(w, 0);
    Bits.OrDisjoint(w, 1, 24);
  }

  lemma KeyWindows(k: seq<Byte>)
    requires |k| == 32
    ensures Val5(Bits.And(Window(k, 0, 0), 0x3ffffff), Bits.And(Window(k, 3, 2), 0x3ffff03),
                 Bits.And(Window(k, 6, 4), 0x3ffc0ff), Bits.And(Window(k, 9, 6), 0x3f03fff),
                 Bits.And(Window(k, 12, 8), 0x00fffff)) == Spec.R(k)
  {
    WindowPrefix(k, 0, 0);
    WindowPrefix(k, 3, 2);
    WindowPrefix(k, 6, 4);
    WindowPrefix(k, 9, 6);
    WindowPrefix(k, 12, 8);
    KeyLimbs(k[..16]);
  }

  lemma WindowPrefix(k: seq<Byte>, o: nat, s: nat)
    requires o + 4 <= 16 <= |k|
    ensures Window(k, o, s) == Window(k[..16], o, s)
  {
  }

  lemma PadWords(k: seq<Byte>)
    requires |k| == 32
    ensures Load32(k[16], k[17], k[18], k[19]) < 0x1_0000_0000 && Load32(k[20], k[21], k[22], k[23]) < 0x1_0000_0000
    ensures Load32(k[24], k[25], k[26], k[27]) < 0x1_0000_0000 && Load32(k[28], k[29], k[30], k[31]) < 0x1_0000_0000
    ensures Val4(Load32(k[16], k[17], k[18], k[19]), Load32(k[20], k[21], k[22], k[23]),
                 Load32(k[24], k[25], k[26], k[27]), Load32(k[28], k[29], k[30], k[31])) == Spec.S(k)
  {
    Load32Value(k[16], k[17], k[18], k[19]);
    Load32Value(k[20], k[21], k[22], k[23]);
    Load32Value(k[24], k[25], k[26], k[27]);
    Load32Value(k[28], k[29], k[30], k[31]);
    LeValSixteen(k[16..]);
  }
}
