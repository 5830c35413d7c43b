/** ChaCha20 as a keystream function of key, counter and nonce. */
module ChaCha20 {
  import opened Arith
  import opened Bytes
  import opened Words32
  import Poly1305
  import Bits

  type Words = s: seq<U32> | |s| == 16 witness seq(16, _ => 0)

  function QuarterRound(s: Words, a: nat, b: nat, c: nat, d: nat): (r: Words)
    requires a < 16 && b < 16 && c < 16 && d < 16
  {
    HalfRound(HalfRound(s, a, b, c, d, 16, 12), a, b, c, d, 8, 7)
  }

  function HalfRound(s: Words, a: nat, b: nat, c: nat, d: nat, m: nat, n: nat): (r: Words)
    requires a < 16 && b < 16 && c < 16 && d < 16 && m <= 32 && n <= 32
  {
    var s1 := s[a := Add32(s[a], s[b])];
    var s2 := s1[d := Rotl32(Xor32(s1[d], s1[a]), m)];
    var s3 := s2[c := Add32(s2[c], s2[d])];
    s3[b := Rotl32(Xor32(s3[b], s3[c]), n)]
  }

  function DoubleRound(s: Words): (r: Words)
  {
    var s1 := QuarterRound(s, 0, 4, 8, 12);
    var s2 := QuarterRound(s1, 1, 5, 9, 13);
    var s3 := QuarterRound(s2, 2, 6, 10, 14);
    var s4 := QuarterRound(s3, 3, 7, 11, 15);
    var s5 := QuarterRound(s4, 0, 5, 10, 15);
    var s6 := QuarterRound(s5, 1, 6, 11, 12);
    var s7 := QuarterRound(s6, 2, 7, 8, 13);
    QuarterRound(s7, 3, 4, 9, 14)
  }

  function Rounds(s: Words, n: nat): (r: Words)
    decreases |s|, n
  {
    hide DoubleRound;
    if n == 0 then s else Rounds(DoubleRound(s), n - 1)
  }

  function Word(b: seq<Byte>, o: nat): (w: U32)
    requires o + 4 <= |b|
  {
    Load32Value(b[o], b[o + 1], b[o + 2], b[o + 3]);
    Load32(b[o], b[o + 1], b[o + 2], b[o + 3])
  }

  function StoreAll(w: seq<U32>): (b: seq<Byte>)
    ensures |b| == 4 * |w|
  {
    if w == [] then [] else Poly1305.Store32(w[0]) + StoreAll(w[1..])
  }

  /** One 64-byte keystream block. */
  function Block(key: seq<Byte>, counter: U32, nonce: seq<Byte>): (b: seq<Byte>)
    requires |key| == 32 && |nonce| == 12
    ensures |b| == 64
  {
    hide Rounds, Word, Add32, StoreAll;
    var state: Words := [0x61707865, 0x3320646e, 0x79622d32, 0x6b206574,
                  Word(key, 0), Word(key, 4), Word(key, 8), Word(key, 12),
                  Word(key, 16), Word(key, 20), Word(key, 24), Word(key, 28),
                  counter, Word(nonce, 0), Word(nonce, 4), Word(nonce, 8)];
    var working := Rounds(state, 10);
    StoreAll(seq(16, i requires 0 <= i < 16 => Add32(working[i], state[i])))
  }

  function XorByte(x: Byte, y: Byte): (z: Byte)
  {
    Pow2Values();
    Bits.XorRange(x, y, 8);
    Bits.Xor(x, y)
  }

  /** Keystream byte i of the stream that starts at block `counter`; the counter wraps. */
  function KeyByte(key: seq<Byte>, counter: U32, nonce: seq<Byte>, i: nat): (b: Byte)
    requires |key| == 32 && |nonce| == 12
  {
    Block(key, (counter + i / 64) % 0x1_0000_0000, nonce)[i % 64]
  }

  /** in ^ keystream */
  function Stream(key: seq<Byte>, counter: U32, nonce: seq<Byte>, m: seq<Byte>): (c: seq<Byte>)
    requires |key| == 32 && |nonce| == 12
    ensures |c| == |m|
  {
    hide KeyByte, XorByte;
    seq(|m|, i requires 0 <= i < |m| => XorByte(m[i], KeyByte(key, counter, nonce, i)))
  }

  lemma StreamAt(key: seq<Byte>, counter: U32, nonce: seq<Byte>, m: seq<Byte>, i: nat)
    requires |key| == 32 && |nonce| == 12 && i < |m|
    ensures Stream(key, counter, nonce, m)[i] == XorByte(m[i], KeyByte(key, counter, nonce, i))
  {
    hide KeyByte, XorByte;
  }

  /** Applying the keystream twice restores the message. */
  lemma StreamTwice(key: seq<Byte>, counter: U32, nonce: seq<Byte>, m: seq<Byte>)
    requires |key| == 32 && |nonce| == 12
    ensures Stream(key, counter, nonce, Stream(key, counter, nonce, m)) == m
  {
    hide Block, Stream, XorByte, KeyByte;
    var c := Stream(key, counter, nonce, m);
    var d := Stream(key, counter, nonce, c);
    forall i | 0 <= i < |m|
      ensures d[i] == m[i]
    {
      StreamAt(key, counter, nonce, m, i);
      StreamAt(key, counter, nonce, c, i);
      XorTwice(m[i], KeyByte(key, counter, nonce, i));
    }
  }

  lemma XorTwice(x: Byte, k: Byte)
    ensures XorByte(XorByte(x, k), k) == x
  {
    Bits.XorCommutes(x, k);
    Bits.XorCancel(k, x);
    Bits.XorCommutes(Bits.Xor(x, k), k);
  }

  lemma KeyByteAt(key: seq<Byte>, start: U32, nonce: seq<Byte>, n: nat, i: nat)
    requires |key| == 32 && |nonce| == 12 && i < 64
    ensures KeyByte(key, start, nonce, 64 * n + i) == Block(key, (start + n) % 0x1_0000_0000, nonce)[i]
  {
    hide Block;
    DivModUnique(64 * n + i, n, i, 64);
  }

  /** chacha20_xor: block by block, the 32-bit counter incremented each time. */
  method Apply(key: seq<Byte>, start: U32, nonce: seq<Byte>, m: seq<Byte>) returns (out: array<Byte>)
    requires |key| == 32 && |nonce| == 12
    ensures fresh(out) && out[..] == Stream(key, start, nonce, m)
  {
    hide Block, XorByte, KeyByte;
    out := new Byte[|m|];
    var off, counter := 0, start;
    ghost var blocks := 0;
    while off < |m|
      invariant off <= |m| && (off == 64 * blocks || off == |m|)
      invariant counter == (start + blocks) % 0x1_0000_0000
      invariant forall k :: 0 <= k < off ==> out[k] == XorByte(m[k], KeyByte(key, start, nonce, k))
    {
      var block := Block(key, counter, nonce);
      counter := (counter as int + 1) % 0x1_0000_0000;
      var n := |m| - off;
      if n > 64 {
        n := 64;
      }
      for i := 0 to n
        invariant forall k :: 0 <= k < off + i ==> out[k] == XorByte(m[k], KeyByte(key, start, nonce, k))
      {
        KeyByteAt(key, start, nonce, blocks, i);
        out[off + i] := XorByte(m[off + i], block[i]);
      }
      off := off + n;
      blocks := blocks + 1;
    }
    assert out[..] == Stream(key, start, nonce, m);
  }
}

/** The AEAD of section 2.8 of RFC 8439. */
module Aead {
  import opened Arith
  import opened Bytes
  import opened Options
  import ChaCha20
  import Poly1305
  import Spec = Poly1305Spec
  import Bits

  function Pad16(m: seq<Byte>): (z: seq<Byte>)
    ensures (|m| + |z|) % 16 == 0
  {
    if |m| % 16 == 0 then [] else seq(16 - |m| % 16, _ => 0)
  }

  function MacData(ad: seq<Byte>, ct: seq<Byte>): (d: seq<Byte>)
  {
    ad + Pad16(ad) + ct + Pad16(ct) + LeBytes(|ad|, 8) + LeBytes(|ct|, 8)
  }

  function TagOf(key: seq<Byte>, nonce: seq<Byte>, ad: seq<Byte>, ct: seq<Byte>): (t: seq<Byte>)
    requires |key| == 32 && |nonce| == 12
    ensures |t| == 16
  {
    hide ChaCha20.Block, MacData, Spec.Mac;
    Spec.Mac(ChaCha20.Block(key, 0, nonce)[..32], MacData(ad, ct))
  }

  function Seal(key: seq<Byte>, nonce: seq<Byte>, ad: seq<Byte>, pt: seq<Byte>): (c: (seq<Byte>, seq<Byte>))
    requires |key| == 32 && |nonce| == 12
    ensures |c.0| == |pt| && |c.1| == 16
  {
    var ct := ChaCha20.Stream(key, 1, nonce, pt);
    (ct, TagOf(key, nonce, ad, ct))
  }

  function Open(key: seq<Byte>, nonce: seq<Byte>, ad: seq<Byte>, ct: seq<Byte>, tag: seq<Byte>): (p: Option<seq<Byte>>)
    requires |key| == 32 && |nonce| == 12
    ensures p.Some? ==> |p.value| == |ct|
  {
    hide TagOf, ChaCha20.Stream;
    if tag == TagOf(key, nonce, ad, ct) then Some(ChaCha20.Stream(key, 1, nonce, ct)) else None
  }

  /** Whatever was sealed opens to itself, for every key, nonce, data and length. */
  lemma OpenSeal(key: seq<Byte>, nonce: seq<Byte>, ad: seq<Byte>, pt: seq<Byte>)
    requires |key| == 32 && |nonce| == 12
    ensures var c := Seal(key, nonce, ad, pt); Open(key, nonce, ad, c.0, c.1) == Some(pt)
  {
    hide ChaCha20.Stream, TagOf;
    ChaCha20.StreamTwice(key, 1, nonce, pt);
  }

  /** Opening succeeds exactly on sealed pairs: the tag check fixes the tag, and every
      ciphertext is the sealing of its own decryption. */
  lemma SealOpen(key: seq<Byte>, nonce: seq<Byte>, ad: seq<Byte>, ct: seq<Byte>, tag: seq<Byte>)
    requires |key| == 32 && |nonce| == 12
    ensures forall pt :: Open(key, nonce, ad, ct, tag) == Some(pt) <==> Seal(key, nonce, ad, pt) == (ct, tag)
  {
    hide ChaCha20.Stream, TagOf;
    forall pt
      ensures Open(key, nonce, ad, ct, tag) == Some(pt) <==> Seal(key, nonce, ad, pt) == (ct, tag)
    {
      ChaCha20.StreamTwice(key, 1, nonce, pt);
      ChaCha20.StreamTwice(key, 1, nonce, ct);
    }
  }

  /** aead_mac */
  method ComputeMac(key: seq<Byte>, nonce: seq<Byte>, ad: seq<Byte>, ct: seq<Byte>) returns (tag: seq<Byte>)
    requires |key| == 32 && |nonce| == 12
    ensures tag == TagOf(key, nonce, ad, ct)
  {
    hide ChaCha20.Block, Spec.R, Spec.S, Spec.Tag, LeBytes, Poly1305.State.Valid, Pad16;
    var block := ChaCha20.Block(key, 0, nonce);
    var st := new Poly1305.State(block);
    AbsorbPadded(st, ad);
    AbsorbPadded(st, ct);
    UpdateLength(st, |ad|);
    UpdateLength(st, |ct|);
    assert st.absorbed == MacData(ad, ct);
    tag := st.Finish();
  }

  method AbsorbPadded(st: Poly1305.State, m: seq<Byte>)
    requires st.Valid()
    modifies st, st.h, st.buffer
    ensures st.Valid() && st.absorbed == old(st.absorbed) + m + Pad16(m)
  {
    hide Poly1305.State.Valid;
    if |m| != 0 {
      st.Update(m);
      if |m| % 16 != 0 {
        st.Update(seq(16 - |m| % 16, _ => 0));
      }
    }
  }

  /** poly1305_update_u64_le */
  method UpdateLength(st: Poly1305.State, v: nat)
    requires st.Valid()
    modifies st, st.h, st.buffer
    ensures st.Valid() && st.absorbed == old(st.absorbed) + LeBytes(v, 8)
  {
    st.Update(LeBytes(v, 8));
  }

  /** poly1305_verify: 1 exactly when the tags agree. */
  method Verify(a: seq<Byte>, b: seq<Byte>) returns (r: int)
    requires |a| == |b| == 16
    ensures r == if a == b then 1 else 0
  {
    var dif: U32 := 0;
    for i := 0 to 16
      invariant dif < 0x100
      invariant dif == 0 <==> a[..i] == b[..i]
    {
      DifStep(dif, a[i], b[i]);
      dif := Bits.Or(dif, Bits.Xor(a[i], b[i]));
    }
    assert a[..16] == a && b[..16] == b;
    r := ((dif as int + 0xFFFF_FFFF) % 0x1_0000_0000) / 0x8000_0000;
  }

  lemma DifStep(dif: nat, x: Byte, y: Byte)
    requires dif < 0x100
    ensures Bits.Or(dif, Bits.Xor(x, y)) < 0x100
    ensures Bits.Or(dif, Bits.Xor(x, y)) == 0 <==> dif == 0 && x == y
  {
    Pow2Values();
    Bits.XorRange(x, y, 8);
    Bits.OrRange(dif, Bits.Xor(x, y), 8);
    Bits.OrZero(dif, Bits.Xor(x, y));
    Bits.XorEqual(x, y);
  }

  /** chacha20poly1305_encrypt */
  method Encrypt(key: seq<Byte>, nonce: seq<Byte>, ad: seq<Byte>, pt: seq<Byte>)
    returns (ct: array<Byte>, tag: seq<Byte>)
    requires |key| == 32 && |nonce| == 12
    ensures fresh(ct) && (ct[..], tag) == Seal(key, nonce, ad, pt)
  {
    hide TagOf, ChaCha20.Stream;
    ct := ChaCha20.Apply(key, 1, nonce, pt);
    tag := ComputeMac(key, nonce, ad, ct[..]);
  }

  /** chacha20poly1305_decrypt: nothing is decrypted unless the tag matches. */
  method Decrypt(key: seq<Byte>, nonce: seq<Byte>, ad: seq<Byte>, ct: seq<Byte>, tag: seq<Byte>)
    returns (ok: bool, pt: array<Byte>)
    requires |key| == 32 && |nonce| == 12 && |tag| == 16
    ensures ok ==> Open(key, nonce, ad, ct, tag) == Some(pt[..])
    ensures !ok ==> Open(key, nonce, ad, ct, tag) == None && pt.Length == 0
  {
    hide TagOf, ChaCha20.Stream;
    var expected := ComputeMac(key, nonce, ad, ct);
    var same := Verify(expected, tag);
    if same != 1 {
      return false, new Byte[0];
    }
    pt := ChaCha20.Apply(key, 1, nonce, ct);
    ok := true;
  }
}
