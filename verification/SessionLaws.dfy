/** A whole encrypted session, from the handshake to the last message delivered. */
module SessionLaws {
  import opened Arith
  import opened Options
  import opened Primitives
  import opened FrameSpec
  import opened FrameLaws
  import NoiseLaws
  import Noise = NoiseSpec

  /** The client after its first flight, waiting for the device's hello. */
  function Waiting(party: Noise.Party, expected: seq<Byte>): (r: Receiver)
  {
    Receiver(ExpectServerHello, party, Noise.NoKey, expected)
  }

  /** What the device puts on the wire: its hello, the handshake answer, the messages. */
  function DeviceStream(hello: seq<Byte>, answer: seq<Byte>, send: Noise.Cipher, ms: seq<Message>): (b: seq<Byte>)
    requires Noise.CipherOk(send)
  {
    hide EncodeAllEncrypted;
    RawFrame(hello) + (RawFrame([0x00] + answer) + EncodeAllEncrypted(send, ms).1)
  }

  /** The hello names protocol 1 and, where a name is expected, that name. */
  predicate GoodHello(hello: seq<Byte>, expected: seq<Byte>)
  {
    |hello| < 0x1_0000 && hello != [] && hello[0] == 0x01 && (expected == [] || NameOf(hello, 1) == expected)
  }

  lemma HelloStep(r: Receiver, hello: seq<Byte>, tail: seq<Byte>)
    requires CodecOk(Encrypted(r)) && r.phase.ExpectServerHello? && GoodHello(hello, r.expected)
    ensures Drain(Encrypted(r), RawFrame(hello) + tail) == Drain(Encrypted(r.(phase := ExpectHandshake)), tail)
  {
    hide NextRaw, ServerHandshake, Transport, Drain, RawFrame, NameOf;
    var b := RawFrame(hello) + tail;
    RawRoundTrip(hello, tail);
    DrainStep(Encrypted(r), b);
    assert b[3 + |hello|..] == tail;
    var o := Drain(Encrypted(r.(phase := ExpectHandshake)), tail);
    assert [] + o.messages == o.messages;
  }

  lemma AnswerStep(r: Receiver, answer: seq<Byte>, tail: seq<Byte>)
    requires CodecOk(Encrypted(r)) && r.phase.ExpectHandshake? && |answer| < 0xFFFF
    requires Noise.ReadMessage(r.party, answer).Some?
    ensures var p := Noise.ReadMessage(r.party, answer).value.0;
            Drain(Encrypted(r), RawFrame([0x00] + answer) + tail)
            == Drain(Encrypted(r.(phase := Ready, party := p, decrypt := Noise.Split(p).1)), tail)
  {
    hide NextRaw, ServerHello, Transport, Drain, RawFrame, Noise.ReadMessage, Noise.Split;
    var p := [0x00] + answer;
    var b := RawFrame(p) + tail;
    assert p[1..] == answer;
    RawRoundTrip(p, tail);
    DrainStep(Encrypted(r), b);
    assert b[3 + |p|..] == tail;
    var q := Noise.ReadMessage(r.party, answer).value.0;
    var o := Drain(Encrypted(r.(phase := Ready, party := q, decrypt := Noise.Split(q).1)), tail);
    assert [] + o.messages == o.messages;
  }

  lemma KeyedAnswer(s: Noise.Symmetric, input: seq<Byte>)
    requires Noise.SymmetricOk(s)
    ensures |Noise.EncryptAndHash(Noise.MixKey(s, input), []).1| == 16
  {
    hide Noise.EncryptWithAd, Noise.MixHash, Hkdf;
    var m := Noise.MixKey(s, input);
    Noise.EncryptKeepsKey(m.cipher, m.h, []);
  }

  lemma AnswerLength(p: Noise.Party, random: seq<Byte>)
    requires Noise.PartyOk(p) && p.role.Responder? && |random| == 32
    ensures var w := Noise.WriteMessage(p, [], random); w.Some? ==> |w.value.1| == 48
  {
    hide Noise.MixEphemeral, Noise.MixKey, Noise.MixKeyAndHash, Noise.EncryptAndHash, Dh, PublicKey;
    var q := Noise.WithEphemeral(p, random);
    KeyedAnswer(Noise.MixEphemeral(q.sym, q.public), Dh(q.private, q.remote));
  }

  lemma SplitKeyed(p: Noise.Party)
    ensures Noise.Split(p).0.hasKey && Noise.Split(p).1.hasKey
  {
    hide Hkdf;
  }

  /** For every key, prologue and ephemeral keys with a usable shared secret, a device that
      answers the handshake and then sends messages is understood by the client however
      the stream is cut: exactly the messages arrive, when each of them fits a record. */
  lemma SessionDelivery(psk: seq<Byte>, prologue: seq<Byte>, a: seq<Byte>, b: seq<Byte>,
                        hello: seq<Byte>, expected: seq<Byte>, ms: seq<Message>, chunks: seq<seq<Byte>>)
    requires |psk| == 32 && |a| == 32 && |b| == 32
    requires NoiseLaws.Agrees(a, b) && !NoiseLaws.Degenerate(a, b)
    requires GoodHello(hello, expected)
    ensures NoiseLaws.Handshake(psk, prologue, a, b, [], []).Some?
    ensures var s := NoiseLaws.Handshake(psk, prologue, a, b, [], []).value;
            var first := Noise.WriteMessage(Noise.Initialize(Noise.Initiator, psk, prologue), [], a);
            && first.Some?
            && (Concat(chunks) == DeviceStream(hello, s.message2, Noise.Split(s.responder).0, ms) ==>
                  var o := ReceiveAll(Start(Encrypted(Waiting(first.value.0, expected))), chunks);
                  && (o.messages == ms <==> forall i :: 0 <= i < |ms| ==> EncryptedFits(ms[i]))
                  && (o.messages == ms ==> o.error.None? && o.rest == []))
  {
    hide Noise.WriteMessage, Noise.ReadMessage, Noise.Initialize, Noise.Split, Dh, PublicKey, Drain, ReceiveAll, Concat,
         EncodeAllEncrypted, EncryptedFits, RawFrame, NameOf;
    NoiseLaws.HandshakeAgrees(psk, prologue, a, b, [], []);
    NoiseLaws.FirstMessage(psk, prologue, a, []);
    var w1 := Noise.WriteMessage(Noise.Initialize(Noise.Initiator, psk, prologue), [], a).value;
    var r1 := Noise.ReadMessage(Noise.Initialize(Noise.Responder, psk, prologue), w1.1).value;
    var s := NoiseLaws.Handshake(psk, prologue, a, b, [], []).value;
    AnswerLength(r1.0, b);
    var send := Noise.Split(s.responder).0;
    var records := EncodeAllEncrypted(send, ms).1;
    var client := Waiting(w1.0, expected);
    if Concat(chunks) == DeviceStream(hello, s.message2, send, ms) {
      ChunkIndependence(Encrypted(client), chunks);
      HelloStep(client, hello, RawFrame([0x00] + s.message2) + records);
      var shaken := client.(phase := ExpectHandshake);
      AnswerStep(shaken, s.message2, records);
      var ready := shaken.(phase := Ready, party := s.initiator, decrypt := Noise.Split(s.initiator).1);
      SplitKeyed(s.initiator);
      EncryptedDelivery(ready, ms);
    }
  }
}
