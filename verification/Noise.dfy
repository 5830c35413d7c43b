/** The Noise objects on values: sections 5.1 to 5.3 and 9.2 of the Noise Protocol
    Framework, for the pattern NNpsk0. */
module NoiseSpec {
  import opened Arith
  import opened Options
  import opened Primitives
  import Sha256Spec

  // ----- section 5.1: cipher state -----

  datatype Cipher = Cipher(hasKey: bool, key: seq<Byte>, nonce: U64)

  ghost predicate CipherOk(c: Cipher)
  {
    |c.key| == 32
  }

  const NoKey: Cipher := Cipher(false, Sha256Spec.Zeros(32), 0)

  function WithKey(k: seq<Byte>): (c: Cipher) { Cipher(true, k, 0) }

  /** The counter is a 64-bit word. */
  function Advance(c: Cipher): (d: Cipher) { c.(nonce := (c.nonce as int + 1) % 0x1_0000_0000_0000_0000) }

  function EncryptWithAd(c: Cipher, ad: seq<Byte>, pt: seq<Byte>): (r: (Cipher, seq<Byte>))
    requires CipherOk(c)
  {
    if !c.hasKey then (c, pt) else (Advance(c), AeadEncrypt(c.key, c.nonce, ad, pt))
  }

  function DecryptWithAd(c: Cipher, ad: seq<Byte>, ct: seq<Byte>): (r: Option<(Cipher, seq<Byte>)>)
    requires CipherOk(c)
  {
    if !c.hasKey then Some((c, ct))
    else match AeadDecrypt(c.key, c.nonce, ad, ct)
         case None => None
         case Some(pt) => Some((Advance(c), pt))
  }

  lemma DecryptKeepsKey(c: Cipher, ad: seq<Byte>, ct: seq<Byte>)
    requires CipherOk(c)
    ensures DecryptWithAd(c, ad, ct).Some? ==> CipherOk(DecryptWithAd(c, ad, ct).value.0)
    ensures c.hasKey && DecryptWithAd(c, ad, ct).Some? ==> |ct| == |DecryptWithAd(c, ad, ct).value.1| + 16
  {
    hide AeadDecrypt;
  }

  lemma EncryptKeepsKey(c: Cipher, ad: seq<Byte>, pt: seq<Byte>)
    requires CipherOk(c)
    ensures CipherOk(EncryptWithAd(c, ad, pt).0)
    ensures c.hasKey ==> |EncryptWithAd(c, ad, pt).1| == |pt| + 16 && EncryptWithAd(c, ad, pt).0.hasKey
  {
    hide AeadEncrypt;
  }

  /** Section 5.1 of the framework keeps the last counter value back and wants an error there.
      The program has no such error: its counter moves on exactly below that value, and from
      it starts over at zero. */
  lemma CounterWraps(c: Cipher, ad: seq<Byte>, pt: seq<Byte>)
    requires CipherOk(c) && c.hasKey
    ensures var d := EncryptWithAd(c, ad, pt).0;
            && (d.nonce == c.nonce as int + 1 <==> c.nonce < 0xFFFF_FFFF_FFFF_FFFF)
            && (c.nonce == 0xFFFF_FFFF_FFFF_FFFF ==> d == WithKey(c.key))
  {
    hide AeadEncrypt;
  }

  /** Two ciphers in the same state: what one encrypts the other decrypts, and they stay
      in the same state. */
  lemma CipherInStep(c: Cipher, ad: seq<Byte>, pt: seq<Byte>)
    requires CipherOk(c)
    ensures var e := EncryptWithAd(c, ad, pt); DecryptWithAd(c, ad, e.1) == Some((e.0, pt))
  {
    hide AeadEncrypt, AeadDecrypt;
    if c.hasKey {
      AeadInverse(c.key, c.nonce, ad, pt, AeadEncrypt(c.key, c.nonce, ad, pt));
    }
  }

  // ----- section 5.2: symmetric state -----

  datatype Symmetric = Symmetric(ck: seq<Byte>, h: seq<Byte>, cipher: Cipher)

  ghost predicate SymmetricOk(s: Symmetric)
  {
    |s.ck| == 32 && |s.h| == 32 && CipherOk(s.cipher)
  }

  function InitSymmetric(name: seq<Byte>): (s: Symmetric)
    ensures SymmetricOk(s)
  {
    hide Sha256Spec.Hash;
    var h := if |name| <= 32 then name + Sha256Spec.Zeros(32 - |name|) else Sha256Spec.Hash(name);
    Symmetric(h, h, NoKey)
  }

  function MixKey(s: Symmetric, input: seq<Byte>): (r: Symmetric)
    ensures SymmetricOk(s) ==> SymmetricOk(r)
  {
    hide Hkdf;
    var k := Hkdf(s.ck, input);
    Symmetric(k.o1, s.h, WithKey(k.o2))
  }

  function MixHash(s: Symmetric, data: seq<Byte>): (r: Symmetric)
    ensures SymmetricOk(s) ==> SymmetricOk(r)
  {
    hide Sha256Spec.Hash;
    s.(h := Sha256Spec.Hash(s.h + data))
  }

  function MixKeyAndHash(s: Symmetric, input: seq<Byte>): (r: Symmetric)
    ensures SymmetricOk(s) ==> SymmetricOk(r)
  {
    hide Hkdf;
    var k := Hkdf(s.ck, input);
    MixHash(s.(ck := k.o1), k.o2).(cipher := WithKey(k.o3))
  }

  function EncryptAndHash(s: Symmetric, pt: seq<Byte>): (r: (Symmetric, seq<Byte>))
    requires SymmetricOk(s)
    ensures SymmetricOk(r.0)
  {
    hide AeadEncrypt;
    var e := EncryptWithAd(s.cipher, s.h, pt);
    (MixHash(s.(cipher := e.0), e.1), e.1)
  }

  function DecryptAndHash(s: Symmetric, ct: seq<Byte>): (r: Option<(Symmetric, seq<Byte>)>)
    requires SymmetricOk(s)
    ensures r.Some? ==> SymmetricOk(r.value.0)
  {
    hide AeadDecrypt;
    match DecryptWithAd(s.cipher, s.h, ct)
    case None => None
    case Some(d) => Some((MixHash(s.(cipher := d.0), ct), d.1))
  }

  function SplitKeys(s: Symmetric): (c: (Cipher, Cipher))
    ensures CipherOk(c.0) && CipherOk(c.1)
  {
    hide Hkdf;
    var k := Hkdf(s.ck, []);
    (WithKey(k.o1), WithKey(k.o2))
  }

  lemma SymmetricInStep(s: Symmetric, pt: seq<Byte>)
    requires SymmetricOk(s)
    ensures var e := EncryptAndHash(s, pt); DecryptAndHash(s, e.1) == Some((e.0, pt))
  {
    hide EncryptWithAd, DecryptWithAd, MixHash;
    CipherInStep(s.cipher, s.h, pt);
  }

  // ----- section 5.3 and 9.2: the handshake NNpsk0 -----

  datatype Role = Initiator | Responder

  datatype Party = Party(role: Role, psk: seq<Byte>, sym: Symmetric, private: seq<Byte>, public: seq<Byte>,
                         remote: seq<Byte>, have: bool, complete: bool)

  ghost predicate PartyOk(p: Party)
  {
    |p.psk| == 32 && SymmetricOk(p.sym) && |p.private| == 32 && |p.public| == 32 && |p.remote| == 32
  }

  /** "Noise_NNpsk0_25519_ChaChaPoly_SHA256" */
  const PROTOCOL_NAME: seq<Byte> := [
    0x4e, 0x6f, 0x69, 0x73, 0x65, 0x5f, 0x4e, 0x4e, 0x70, 0x73, 0x6b, 0x30, 0x5f, 0x32, 0x35, 0x35,
    0x31, 0x39, 0x5f, 0x43, 0x68, 0x61, 0x43, 0x68, 0x61, 0x50, 0x6f, 0x6c, 0x79, 0x5f, 0x53, 0x48,
    0x41, 0x32, 0x35, 0x36]

  function Initialize(role: Role, psk: seq<Byte>, prologue: seq<Byte>): (p: Party)
    requires |psk| == 32
    ensures PartyOk(p)
  {
    hide InitSymmetric, MixHash;
    var zero := Sha256Spec.Zeros(32);
    Party(role, psk, MixHash(InitSymmetric(PROTOCOL_NAME), prologue), zero, zero, zero, false, false)
  }

  /** ensure_ephemeral with the random private key it would draw. */
  function WithEphemeral(p: Party, random: seq<Byte>): (q: Party)
    requires PartyOk(p) && |random| == 32
    ensures PartyOk(q) && q.have
  {
    hide PublicKey;
    if p.have then p else p.(private := random, public := PublicKey(random), have := true)
  }

  /** Mix an ephemeral public key: with a PSK it goes into the hash and the key. */
  function MixEphemeral(s: Symmetric, e: seq<Byte>): (r: Symmetric)
    ensures SymmetricOk(s) ==> SymmetricOk(r)
  {
    hide MixHash, MixKey;
    MixKey(MixHash(s, e), e)
  }

  /** write_message; None is the exception for a degenerate shared secret. */
  function WriteMessage(p: Party, payload: seq<Byte>, random: seq<Byte>): (r: Option<(Party, seq<Byte>)>)
    requires PartyOk(p) && |random| == 32
    ensures r.Some? ==> PartyOk(r.value.0)
  {
    hide MixEphemeral, MixKey, MixKeyAndHash, EncryptAndHash, Dh;
    if p.role.Initiator? then
      var q := WithEphemeral(p, random);
      var s := MixEphemeral(MixKeyAndHash(q.sym, q.psk), q.public);
      var e := EncryptAndHash(s, payload);
      Some((q.(sym := e.0), q.public + e.1))
    else
      var q := WithEphemeral(p, random);
      var s := MixEphemeral(q.sym, q.public);
      var dh := Dh(q.private, q.remote);
      if dh == Sha256Spec.Zeros(32) then None
      else
        var e := EncryptAndHash(MixKey(s, dh), payload);
        Some((q.(sym := e.0, complete := true), q.public + e.1))
  }

  /** read_message: the new state and the payload; None when it returns false. */
  function ReadMessage(p: Party, message: seq<Byte>): (r: Option<(Party, seq<Byte>)>)
    requires PartyOk(p)
    ensures r.Some? ==> PartyOk(r.value.0)
  {
    hide MixEphemeral, MixKey, MixKeyAndHash, DecryptAndHash, Dh;
    if |message| < 32 then None
    else
      var q := p.(remote := message[..32]);
      var rest := message[32..];
      if p.role.Responder? then
        match DecryptAndHash(MixEphemeral(MixKeyAndHash(q.sym, q.psk), q.remote), rest)
        case None => None
        case Some(d) => Some((q.(sym := d.0), d.1))
      else
        var dh := Dh(q.private, q.remote);
        if dh == Sha256Spec.Zeros(32) then None
        else match DecryptAndHash(MixKey(MixEphemeral(q.sym, q.remote), dh), rest)
             case None => None
             case Some(d) => Some((q.(sym := d.0, complete := true), d.1))
  }

  /** What this role sends with and what it receives with. */
  function Split(p: Party): (c: (Cipher, Cipher))
    ensures CipherOk(c.0) && CipherOk(c.1)
  {
    hide SplitKeys;
    var k := SplitKeys(p.sym);
    if p.role.Initiator? then k else (k.1, k.0)
  }
}
