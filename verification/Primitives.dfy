/** The primitives Noise is built from: HMAC, HKDF, the numbered AEAD and X25519. */
module Primitives {
  import opened Arith
  import opened Bytes
  import opened Options
  import opened Sha256Spec
  import Sha256
  import ChaCha20
  import Aead
  import X25519
  import Limbs

  // ----- HMAC, section 2 of RFC 2104 -----

  function BlockKey(key: seq<Byte>): (k: seq<Byte>)
    ensures |k| == 64
  {
    hide Hash;
    if |key| > 64 then Hash(key) + Zeros(32) else key + Zeros(64 - |key|)
  }

  function XorEach(k: seq<Byte>, b: Byte): (r: seq<Byte>)
    ensures |r| == |k|
  {
    hide ChaCha20.XorByte;
    seq(|k|, i requires 0 <= i < |k| => ChaCha20.XorByte(k[i], b))
  }

  function Hmac(key: seq<Byte>, data: seq<Byte>): (h: seq<Byte>)
    ensures |h| == 32
  {
    hide Hash, XorEach, BlockKey;
    Hash(XorEach(BlockKey(key), 0x5c) + Hash(XorEach(BlockKey(key), 0x36) + data))
  }

  method HmacSha256(key: seq<Byte>, data: seq<Byte>) returns (out: seq<Byte>)
    ensures out == Hmac(key, data)
  {
    hide Hash, XorEach, BlockKey;
    var kPad := PadKey(key);
    var ipad := XorPad(kPad, 0x36);
    var opad := XorPad(kPad, 0x5c);
    var innerHash := TwoPart(ipad[..], data);
    out := TwoPart(opad[..], innerHash);
  }

  /** A context fed in two updates. */
  method TwoPart(a: seq<Byte>, b: seq<Byte>) returns (h: seq<Byte>)
    ensures h == Hash(a + b)
  {
    hide Hash, Sha256.Context.Valid;
    var ctx := new Sha256.Context();
    ctx.Update(a);
    ctx.Update(b);
    assert ctx.absorbed == a + b;
    h := ctx.Final();
  }

  method PadKey(key: seq<Byte>) returns (k: array<Byte>)
    ensures fresh(k) && k[..] == BlockKey(key)
  {
    hide Hash;
    k := new Byte[64](_ => 0);
    var prefix := key;
    if |key| > 64 {
      prefix := TwoPart(key, []);
      assert key + [] == key;
    }
    for i := 0 to |prefix|
      invariant k[..] == prefix[..i] + Zeros(64 - i)
    {
      k[i] := prefix[i];
    }
    assert prefix[..|prefix|] == prefix;
  }

  method XorPad(k: array<Byte>, b: Byte) returns (r: array<Byte>)
    requires k.Length == 64
    ensures fresh(r) && r[..] == XorEach(k[..], b)
  {
    hide ChaCha20.XorByte;
    r := new Byte[64];
    for i := 0 to 64
      invariant forall j :: 0 <= j < i ==> r[j] == ChaCha20.XorByte(k[j], b)
    {
      r[i] := ChaCha20.XorByte(k[i], b);
    }
    assert r[..] == XorEach(k[..], b);
  }

  // ----- HKDF, section 4.3 of the Noise Protocol Framework -----

  datatype Keys = Keys(o1: seq<Byte>, o2: seq<Byte>, o3: seq<Byte>)

  function Hkdf(ck: seq<Byte>, ikm: seq<Byte>): (k: Keys)
    ensures |k.o1| == 32 && |k.o2| == 32 && |k.o3| == 32
  {
    hide Hmac;
    var temp := Hmac(ck, ikm);
    var o1 := Hmac(temp, [1]);
    var o2 := Hmac(temp, o1 + [2]);
    Keys(o1, o2, Hmac(temp, o2 + [3]))
  }

  /** Outputs beyond the number asked for stay zero. */
  method HkdfOutputs(ck: seq<Byte>, ikm: seq<Byte>, n: int) returns (k: Keys)
    ensures k.o1 == Hkdf(ck, ikm).o1
    ensures n != 1 ==> k.o2 == Hkdf(ck, ikm).o2
    ensures n != 1 && n != 2 ==> k.o3 == Hkdf(ck, ikm).o3
  {
    hide Hmac;
    k := Keys([], Zeros(32), Zeros(32));
    var temp := HmacSha256(ck, ikm);
    var o1 := HmacSha256(temp, [1]);
    k := k.(o1 := o1);
    if n == 1 {
      return;
    }
    var o2 := HmacSha256(temp, o1 + [2]);
    k := k.(o2 := o2);
    if n == 2 {
      return;
    }
    var o3 := HmacSha256(temp, o2 + [3]);
    k := k.(o3 := o3);
  }

  // ----- AEAD with a counter -----

  function BuildNonce(counter: U64): (n: seq<Byte>)
    ensures |n| == 12
  {
    [0, 0, 0, 0] + LeBytes(counter, 8)
  }

  function AeadEncrypt(key: seq<Byte>, nonce: U64, ad: seq<Byte>, pt: seq<Byte>): (c: seq<Byte>)
    requires |key| == 32
    ensures |c| == |pt| + 16
  {
    hide Aead.Seal;
    var s := Aead.Seal(key, BuildNonce(nonce), ad, pt);
    s.0 + s.1
  }

  function AeadDecrypt(key: seq<Byte>, nonce: U64, ad: seq<Byte>, c: seq<Byte>): (p: Option<seq<Byte>>)
    requires |key| == 32
    ensures p.Some? ==> |c| == |p.value| + 16
  {
    hide Aead.Open, BuildNonce;
    if |c| < 16 then None
    else Aead.Open(key, BuildNonce(nonce), ad, c[..|c| - 16], c[|c| - 16..])
  }

  /** Decryption accepts exactly the encryptions, and undoes them. */
  lemma AeadInverse(key: seq<Byte>, nonce: U64, ad: seq<Byte>, pt: seq<Byte>, c: seq<Byte>)
    requires |key| == 32
    ensures AeadDecrypt(key, nonce, ad, c) == Some(pt) <==> c == AeadEncrypt(key, nonce, ad, pt)
  {
    hide Aead.Seal, Aead.Open, BuildNonce;
    var e := Aead.Seal(key, BuildNonce(nonce), ad, pt);
    var whole := e.0 + e.1;
    assert |whole| == |pt| + 16;
    assert whole[..|whole| - 16] == e.0 && whole[|whole| - 16..] == e.1;
    if |c| >= 16 {
      var ct, tag := c[..|c| - 16], c[|c| - 16..];
      Aead.SealOpen(key, BuildNonce(nonce), ad, ct, tag);
      assert c == ct + tag;
    }
  }

  method AeadEncryptBytes(key: seq<Byte>, nonce: U64, ad: seq<Byte>, pt: seq<Byte>) returns (out: seq<Byte>)
    requires |key| == 32
    ensures out == AeadEncrypt(key, nonce, ad, pt)
  {
    hide Aead.Seal, BuildNonce;
    var ct, tag := Aead.Encrypt(key, BuildNonce(nonce), ad, pt);
    out := ct[..] + tag;
  }

  /** buffer: what the caller's output holds before the call. An input too short for a tag
      leaves it as it was; a wrong tag empties it. */
  method AeadDecryptBytes(key: seq<Byte>, nonce: U64, ad: seq<Byte>, c: seq<Byte>, buffer: seq<Byte>)
    returns (ok: bool, out: seq<Byte>)
    requires |key| == 32
    ensures ok ==> AeadDecrypt(key, nonce, ad, c) == Some(out)
    ensures !ok ==> AeadDecrypt(key, nonce, ad, c) == None && out == if |c| < 16 then buffer else []
  {
    hide Aead.Open, BuildNonce;
    if |c| < 16 {
      return false, buffer;
    }
    var pt;
    ok, pt := Aead.Decrypt(key, BuildNonce(nonce), ad, c[..|c| - 16], c[|c| - 16..]);
    out := pt[..];
  }

  // ----- X25519 -----

  /** The shared secret or public key, as bytes. */
  function Dh(private: seq<Byte>, public: seq<Byte>): (s: seq<Byte>)
    requires |private| == 32 && |public| == 32
    ensures |s| == 32
  {
    hide X25519.RfcX25519;
    X25519.ClampBytes(private);
    LeValNonNegative(X25519.Clamp(private));
    X25519.RfcRange(LeVal(X25519.Clamp(private)), X25519.DecodeU(public) % Limbs.P);
    LeBytes(X25519.RfcX25519(LeVal(X25519.Clamp(private)), X25519.DecodeU(public) % Limbs.P), 32)
  }

  const BASE9: seq<Byte> := [9] + Zeros(31)

  function PublicKey(private: seq<Byte>): (p: seq<Byte>)
    requires |private| == 32
    ensures |p| == 32
  {
    hide Dh;
    Dh(private, BASE9)
  }

  /** x25519: the all-zero secret of a low-order point is refused. */
  method SharedSecret(private: seq<Byte>, public: seq<Byte>) returns (ok: bool, s: seq<Byte>)
    requires |private| == 32 && |public| == 32
    ensures s == Dh(private, public)
    ensures ok <==> s != Zeros(32)
  {
    s := ScalarmultBytes(private, public);
    var acc: nat := 0;
    for i := 0 to 32
      invariant acc < 0x100
      invariant acc == 0 <==> forall j :: 0 <= j < i ==> s[j] == 0
    {
      Aead.DifStep(acc, s[i], 0);
      Aead.Bits.XorZero(s[i]);
      acc := Aead.Bits.Or(acc, s[i]);
    }
    ok := acc != 0;
    assert s == Zeros(32) <==> forall j :: 0 <= j < 32 ==> s[j] == 0;
  }

  method ScalarmultBytes(private: seq<Byte>, public: seq<Byte>) returns (s: seq<Byte>)
    requires |private| == 32 && |public| == 32
    ensures s == Dh(private, public)
  {
    hide X25519.RfcX25519, LeBytes, LeVal;
    var q := new Byte[32];
    X25519.Scalarmult(q, private, public);
    s := q[..];
    LeBytesOfVal(s);
  }
}
