/** The two roles of the handshake agree. */
module NoiseLaws {
  import opened Arith
  import opened Options
  import opened Primitives
  import opened NoiseSpec
  import Sha256Spec

  /** The four steps of a handshake between an initiator with private key a and a
      responder with private key b: the states reached, the messages sent and the
      payloads recovered. */
  datatype Session = Session(initiator: Party, responder: Party, message1: seq<Byte>, message2: seq<Byte>,
                             received1: seq<Byte>, received2: seq<Byte>)

  function Handshake(psk: seq<Byte>, prologue: seq<Byte>, a: seq<Byte>, b: seq<Byte>,
                     payload1: seq<Byte>, payload2: seq<Byte>): (r: Option<Session>)
    requires |psk| == 32 && |a| == 32 && |b| == 32
  {
    hide WriteMessage, ReadMessage, Initialize;
    match WriteMessage(Initialize(Initiator, psk, prologue), payload1, a)
    case None => None
    case Some(w1) =>
      (match ReadMessage(Initialize(Responder, psk, prologue), w1.1)
       case None => None
       case Some(r1) =>
         (match WriteMessage(r1.0, payload2, b)
          case None => None
          case Some(w2) =>
            (match ReadMessage(w1.0, w2.1)
             case None => None
             case Some(r2) => Some(Session(r2.0, w2.0, w1.1, w2.1, r1.1, r2.1)))))
  }

  /** Diffie-Hellman agreement on these two key pairs, the one assumption about the curve. */
  ghost predicate Agrees(a: seq<Byte>, b: seq<Byte>)
    requires |a| == 32 && |b| == 32
  {
    Dh(a, PublicKey(b)) == Dh(b, PublicKey(a))
  }

  ghost predicate Degenerate(a: seq<Byte>, b: seq<Byte>)
    requires |a| == 32 && |b| == 32
  {
    Dh(a, PublicKey(b)) == Sha256Spec.Zeros(32)
  }

  /** Message 1: the responder recovers the payload and reaches the same symmetric state. */
  lemma FirstMessage(psk: seq<Byte>, prologue: seq<Byte>, a: seq<Byte>, payload: seq<Byte>)
    requires |psk| == 32 && |a| == 32
    ensures var w := WriteMessage(Initialize(Initiator, psk, prologue), payload, a);
            w.Some? &&
            var r := ReadMessage(Initialize(Responder, psk, prologue), w.value.1);
            r.Some? && r.value.1 == payload
            && r.value.0.sym == w.value.0.sym && r.value.0.remote == PublicKey(a) && !r.value.0.have
            && r.value.0.role == Responder
            && w.value.0.role == Initiator && w.value.0.private == a && w.value.0.have
  {
    hide MixEphemeral, MixKey, MixKeyAndHash, EncryptAndHash, DecryptAndHash, Dh, PublicKey, MixHash, InitSymmetric;
    var i0, r0 := Initialize(Initiator, psk, prologue), Initialize(Responder, psk, prologue);
    assert i0.sym == r0.sym;
    var s := MixEphemeral(MixKeyAndHash(i0.sym, psk), PublicKey(a));
    SymmetricInStep(s, payload);
    var e := EncryptAndHash(s, payload);
    var m := PublicKey(a) + e.1;
    assert m[..32] == PublicKey(a) && m[32..] == e.1;
  }

  /** Message 2: sent exactly when the shared secret is not degenerate; then the
      initiator recovers the payload and reaches the same symmetric state. */
  lemma SecondMessage(i: Party, r: Party, a: seq<Byte>, b: seq<Byte>, payload: seq<Byte>)
    requires |a| == 32 && |b| == 32 && PartyOk(i) && PartyOk(r) && Agrees(a, b)
    requires i.role == Initiator && r.role == Responder && i.sym == r.sym
    requires i.private == a && r.remote == PublicKey(a) && !r.have
    ensures var w := WriteMessage(r, payload, b);
            && (w.Some? <==> !Degenerate(a, b))
            && (w.Some? ==>
                  var d := ReadMessage(i, w.value.1);
                  d.Some? && d.value.1 == payload && d.value.0.sym == w.value.0.sym
                  && d.value.0.complete && w.value.0.complete
                  && d.value.0.role == Initiator && w.value.0.role == Responder)
  {
    hide MixEphemeral, MixKey, MixKeyAndHash, EncryptAndHash, DecryptAndHash, Dh, PublicKey;
    var dh := Dh(b, PublicKey(a));
    var s := MixKey(MixEphemeral(r.sym, PublicKey(b)), dh);
    SymmetricInStep(s, payload);
    var e := EncryptAndHash(s, payload);
    var m := PublicKey(b) + e.1;
    assert m[..32] == PublicKey(b) && m[32..] == e.1;
  }

  /** For every key, prologue, ephemerals and payloads: the handshake completes exactly
      when the shared secret is not degenerate, and then both ends hold the same chaining
      key and hash, have each other's payloads, and split into crossed ciphers at zero. */
  lemma HandshakeAgrees(psk: seq<Byte>, prologue: seq<Byte>, a: seq<Byte>, b: seq<Byte>,
                        payload1: seq<Byte>, payload2: seq<Byte>)
    requires |psk| == 32 && |a| == 32 && |b| == 32 && Agrees(a, b)
    ensures var s := Handshake(psk, prologue, a, b, payload1, payload2);
            && (s.Some? <==> !Degenerate(a, b))
            && (s.Some? ==>
                  && s.value.received1 == payload1 && s.value.received2 == payload2
                  && s.value.initiator.sym.ck == s.value.responder.sym.ck
                  && s.value.initiator.sym.h == s.value.responder.sym.h
                  && s.value.initiator.complete && s.value.responder.complete
                  && Split(s.value.initiator).0 == Split(s.value.responder).1
                  && Split(s.value.initiator).1 == Split(s.value.responder).0
                  && Split(s.value.initiator).0.nonce == 0 && Split(s.value.initiator).1.nonce == 0)
  {
    hide WriteMessage, ReadMessage, Initialize, Dh, PublicKey, Hkdf;
    FirstMessage(psk, prologue, a, payload1);
    var w1 := WriteMessage(Initialize(Initiator, psk, prologue), payload1, a);
    var r1 := ReadMessage(Initialize(Responder, psk, prologue), w1.value.1);
    SecondMessage(w1.value.0, r1.value.0, a, b, payload2);
  }
}
