/** The Noise objects as the program holds them, proved against the value-level steps. */
module NoiseCode {
  import opened Arith
  import opened Options
  import opened Primitives
  import Spec = NoiseSpec
  import Sha256Spec

  class CipherState {
    var key: seq<Byte>
    var hasKey: bool
    var nonce: U64

    ghost function Model(): (c: Spec.Cipher)
      reads this
    {
      Spec.Cipher(hasKey, key, nonce)
    }

    ghost predicate Valid()
      reads this
    {
      |key| == 32
    }

    constructor ()
      ensures Valid() && Model() == Spec.NoKey
    {
      key, hasKey, nonce := Sha256Spec.Zeros(32), false, 0;
    }

    method Reset()
      modifies this
      ensures Valid() && Model() == Spec.NoKey
    {
      key, hasKey, nonce := Sha256Spec.Zeros(32), false, 0;
    }

    method InitializeKey(k: seq<Byte>)
      requires |k| == 32
      modifies this
      ensures Valid() && Model() == Spec.WithKey(k)
    {
      key, nonce, hasKey := k, 0, true;
    }

    method EncryptWithAd(ad: seq<Byte>, pt: seq<Byte>) returns (out: seq<Byte>)
      requires Valid()
      modifies this
      ensures Valid() && (Model(), out) == Spec.EncryptWithAd(old(Model()), ad, pt)
    {
      hide AeadEncrypt;
      if !hasKey {
        return pt;
      }
      out := AeadEncryptBytes(key, nonce, ad, pt);
      nonce := (nonce as int + 1) % 0x1_0000_0000_0000_0000;
    }

    /** On failure the counter does not move. */
    method DecryptWithAd(ad: seq<Byte>, ct: seq<Byte>) returns (ok: bool, out: seq<Byte>)
      requires Valid()
      modifies this
      ensures Valid()
      ensures ok ==> Spec.DecryptWithAd(old(Model()), ad, ct) == Some((Model(), out))
      ensures !ok ==> Spec.DecryptWithAd(old(Model()), ad, ct) == None && Model() == old(Model())
    {
      hide AeadDecrypt;
      if !hasKey {
        return true, ct;
      }
      ok, out := AeadDecryptBytes(key, nonce, ad, ct, []);
      if ok {
        nonce := (nonce as int + 1) % 0x1_0000_0000_0000_0000;
      }
    }
  }

  class SymmetricState {
    var ck: seq<Byte>
    var h: seq<Byte>
    const cipher: CipherState

    ghost function Model(): (s: Spec.Symmetric)
      reads this, cipher
    {
      Spec.Symmetric(ck, h, cipher.Model())
    }

    ghost predicate Valid()
      reads this, cipher
    {
      |ck| == 32 && |h| == 32 && cipher.Valid()
    }

    constructor ()
      ensures Valid() && fresh(cipher)
    {
      ck, h := Sha256Spec.Zeros(32), Sha256Spec.Zeros(32);
      cipher := new CipherState();
    }

    method Initialize(name: seq<Byte>)
      requires Valid()
      modifies this, cipher
      ensures Valid() && Model() == Spec.InitSymmetric(name)
    {
      hide Sha256Spec.Hash;
      if |name| <= 32 {
        h := name + Sha256Spec.Zeros(32 - |name|);
      } else {
        h := OneShot(name);
      }
      ck := h;
      cipher.Reset();
    }

    method MixKey(input: seq<Byte>)
      requires Valid()
      modifies this, cipher
      ensures Valid() && Model() == Spec.MixKey(old(Model()), input)
    {
      hide Hkdf;
      var k := HkdfOutputs(ck, input, 2);
      ck := k.o1;
      cipher.InitializeKey(k.o2);
    }

    method MixHash(data: seq<Byte>)
      requires Valid()
      modifies this
      ensures Valid() && Model() == Spec.MixHash(old(Model()), data)
    {
      hide Sha256Spec.Hash;
      h := OneShot(h + data);
    }

    method MixKeyAndHash(input: seq<Byte>)
      requires Valid()
      modifies this, cipher
      ensures Valid() && Model() == Spec.MixKeyAndHash(old(Model()), input)
    {
      hide Hkdf, Sha256Spec.Hash;
      var k := HkdfOutputs(ck, input, 3);
      ck := k.o1;
      MixHash(k.o2);
      cipher.InitializeKey(k.o3);
    }

    method EncryptAndHash(pt: seq<Byte>) returns (ct: seq<Byte>)
      requires Valid()
      modifies this, cipher
      ensures Valid() && (Model(), ct) == Spec.EncryptAndHash(old(Model()), pt)
    {
      hide AeadEncrypt, Sha256Spec.Hash;
      ct := cipher.EncryptWithAd(h, pt);
      MixHash(ct);
    }

    /** On failure nothing changes. */
    method DecryptAndHash(ct: seq<Byte>) returns (ok: bool, pt: seq<Byte>)
      requires Valid()
      modifies this, cipher
      ensures Valid()
      ensures ok ==> Spec.DecryptAndHash(old(Model()), ct) == Some((Model(), pt))
      ensures !ok ==> Spec.DecryptAndHash(old(Model()), ct) == None && Model() == old(Model())
    {
      hide AeadDecrypt, Sha256Spec.Hash;
      ok, pt := cipher.DecryptWithAd(h, ct);
      if ok {
        MixHash(ct);
      }
    }

    method Split(first: CipherState, second: CipherState)
      requires Valid() && first != second
      modifies first, second
      ensures first.Valid() && second.Valid()
      ensures (first.Model(), second.Model()) == Spec.SplitKeys(old(Model()))
    {
      hide Hkdf;
      var k := HkdfOutputs(ck, [], 2);
      first.InitializeKey(k.o1);
      second.InitializeKey(k.o2);
    }
  }

  method OneShot(m: seq<Byte>) returns (h: seq<Byte>)
    ensures h == Sha256Spec.Hash(m)
  {
    hide Sha256Spec.Hash;
    h := TwoPart(m, []);
    assert m + [] == m;
  }

  class NoiseHandshake {
    var role: Spec.Role
    var psk: seq<Byte>
    const symmetric: SymmetricState
    var ephemeralPrivate: seq<Byte>
    var ephemeralPublic: seq<Byte>
    var remoteEphemeral: seq<Byte>
    var haveEphemeral: bool
    var complete: bool

    ghost function Model(): (p: Spec.Party)
      reads this, symmetric, symmetric.cipher
    {
      Spec.Party(role, psk, symmetric.Model(), ephemeralPrivate, ephemeralPublic, remoteEphemeral, haveEphemeral, complete)
    }

    ghost predicate Valid()
      reads this, symmetric, symmetric.cipher
    {
      && |psk| == 32 && symmetric.Valid()
      && |ephemeralPrivate| == 32 && |ephemeralPublic| == 32 && |remoteEphemeral| == 32
    }

    constructor (r: Spec.Role, key: seq<Byte>, prologue: seq<Byte>)
      requires |key| == 32
      ensures Valid() && Model() == Spec.Initialize(r, key, prologue)
      ensures fresh(symmetric) && fresh(symmetric.cipher)
    {
      hide Spec.Initialize;
      var zero := Sha256Spec.Zeros(32);
      role, psk := r, key;
      ephemeralPrivate, ephemeralPublic, remoteEphemeral := zero, zero, zero;
      haveEphemeral, complete := false, false;
      symmetric := new SymmetricState();
      new;
      Begin(prologue);
    }

    method Begin(prologue: seq<Byte>)
      requires Valid() && !haveEphemeral && !complete
      requires ephemeralPrivate == ephemeralPublic == remoteEphemeral == Sha256Spec.Zeros(32)
      modifies symmetric, symmetric.cipher
      ensures Valid() && Model() == Spec.Initialize(role, psk, prologue)
    {
      hide Spec.InitSymmetric, Spec.MixHash;
      symmetric.Initialize(Spec.PROTOCOL_NAME);
      symmetric.MixHash(prologue);
    }

    /** random stands for the bytes secure_random would return. */
    method EnsureEphemeral(random: seq<Byte>)
      requires Valid() && |random| == 32
      modifies this
      ensures Valid() && Model() == Spec.WithEphemeral(old(Model()), random)
    {
      hide Dh;
      if !haveEphemeral {
        ephemeralPrivate := random;
        ephemeralPublic := ScalarmultBytes(random, BASE9);
        haveEphemeral := true;
      }
    }

    /** ok is false where the program throws for a degenerate shared secret. */
    method WriteMessage(payload: seq<Byte>, random: seq<Byte>) returns (ok: bool, out: seq<Byte>)
      requires Valid() && |random| == 32
      modifies this, symmetric, symmetric.cipher
      ensures Valid()
      ensures ok ==> Spec.WriteMessage(old(Model()), payload, random) == Some((Model(), out))
      ensures !ok ==> Spec.WriteMessage(old(Model()), payload, random) == None
    {
      hide Spec.MixKey, Spec.MixHash, Spec.MixKeyAndHash, Spec.EncryptAndHash, Dh, PublicKey;
      out := [];
      if role.Initiator? {
        symmetric.MixKeyAndHash(psk);
        EnsureEphemeral(random);
        symmetric.MixHash(ephemeralPublic);
        symmetric.MixKey(ephemeralPublic);
        var ct := symmetric.EncryptAndHash(payload);
        out := ephemeralPublic + ct;
        ok := true;
      } else {
        EnsureEphemeral(random);
        symmetric.MixHash(ephemeralPublic);
        symmetric.MixKey(ephemeralPublic);
        var dh;
        ok, dh := SharedSecret(ephemeralPrivate, remoteEphemeral);
        if !ok {
          return;
        }
        symmetric.MixKey(dh);
        var ct := symmetric.EncryptAndHash(payload);
        out := ephemeralPublic + ct;
        complete := true;
      }
    }

    method ReadMessage(message: seq<Byte>) returns (ok: bool, payload: seq<Byte>)
      requires Valid()
      modifies this, symmetric, symmetric.cipher
      ensures Valid()
      ensures ok ==> Spec.ReadMessage(old(Model()), message) == Some((Model(), payload))
      ensures !ok ==> Spec.ReadMessage(old(Model()), message) == None
    {
      hide Spec.MixKey, Spec.MixHash, Spec.MixKeyAndHash, Spec.DecryptAndHash, Dh;
      payload := [];
      if |message| < 32 {
        return false, [];
      }
      remoteEphemeral := message[..32];
      var rest := message[32..];
      if role.Responder? {
        symmetric.MixKeyAndHash(psk);
        symmetric.MixHash(remoteEphemeral);
        symmetric.MixKey(remoteEphemeral);
        ok, payload := symmetric.DecryptAndHash(rest);
      } else {
        symmetric.MixHash(remoteEphemeral);
        symmetric.MixKey(remoteEphemeral);
        var dh;
        ok, dh := SharedSecret(ephemeralPrivate, remoteEphemeral);
        if !ok {
          return;
        }
        symmetric.MixKey(dh);
        ok, payload := symmetric.DecryptAndHash(rest);
        if ok {
          complete := true;
        }
      }
    }

    method Split(send: CipherState, recv: CipherState)
      requires Valid() && send != recv
      modifies send, recv
      ensures send.Valid() && recv.Valid()
      ensures (send.Model(), recv.Model()) == Spec.Split(old(Model()))
    {
      hide Spec.SplitKeys;
      if role.Initiator? {
        symmetric.Split(send, recv);
      } else {
        symmetric.Split(recv, send);
      }
    }
  }
}
