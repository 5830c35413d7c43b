/** Frames do not depend on how the stream is cut, and come out as they went in. */
module FrameLaws {
  import opened Arith
  import opened Options
  import opened FrameSpec
  import BudgetVarint
  import Wire
  import Noise = NoiseSpec

  // ----- a decision is final -----

  lemma PlaintextTypeExtend(b: seq<Byte>, at: nat, len: nat, x: seq<Byte>)
    requires at <= |b| && !PlaintextType(b, at, len).NeedMore?
    ensures PlaintextType(b + x, at, len) == PlaintextType(b, at, len)
  {
    hide BudgetVarint.Decode;
    assert (b + x)[at..] == b[at..] + x;
    BudgetVarint.DecodeExtend(b[at..], BUDGET, x);
    var d := BudgetVarint.Decode(b[at..], BUDGET);
    if d.Ok? && len <= MAX_PAYLOAD {
      assert (b + x)[at + d.consumed..at + d.consumed + len] == b[at + d.consumed..at + d.consumed + len];
    }
  }

  lemma PlaintextExtend(b: seq<Byte>, x: seq<Byte>)
    requires !DecidePlaintext(b).NeedMore?
    ensures DecidePlaintext(b + x) == DecidePlaintext(b)
  {
    hide BudgetVarint.Decode, PlaintextType;
    if b[0] == 0x00 {
      assert (b + x)[1..] == b[1..] + x;
      BudgetVarint.DecodeExtend(b[1..], BUDGET, x);
      var d := BudgetVarint.Decode(b[1..], BUDGET);
      if d.Ok? {
        PlaintextTypeExtend(b, 1 + d.consumed, d.value, x);
      }
    }
  }

  lemma RawExtend(b: seq<Byte>, x: seq<Byte>)
    requires !NextRaw(b).More?
    ensures NextRaw(b + x) == NextRaw(b)
  {
    var r := NextRaw(b);
    if r.Body? {
      assert (b + x)[3..r.used] == b[3..r.used];
    }
  }

  lemma EncryptedExtend(r: Receiver, b: seq<Byte>, x: seq<Byte>)
    requires CodecOk(Encrypted(r)) && !DecideEncrypted(r, b).NeedMore?
    ensures DecideEncrypted(r, b + x) == DecideEncrypted(r, b)
  {
    hide NextRaw, ServerHello, ServerHandshake, Transport;
    RawExtend(b, x);
  }

  /** A decision other than to wait is kept on every extension of the buffer. */
  lemma DecideExtend(c: Codec, b: seq<Byte>, x: seq<Byte>)
    requires CodecOk(c) && !Decide(c, b).NeedMore?
    ensures Decide(c, b + x) == Decide(c, b)
  {
    hide DecidePlaintext, DecideEncrypted;
    match c
    case Plaintext => PlaintextExtend(b, x);
    case Encrypted(r) => EncryptedExtend(r, b, x);
  }

  // ----- chunks -----

  /** The same messages, codec and error, and, without an error, the same bytes waiting. */
  ghost predicate Same(o: Outcome, p: Outcome)
  {
    o.messages == p.messages && o.codec == p.codec && o.error == p.error && (o.error.None? ==> o.rest == p.rest)
  }

  /** Handling a prefix and then the rest is handling the whole. */
  lemma {:induction false} DrainAppend(c: Codec, b: seq<Byte>, x: seq<Byte>)
    requires CodecOk(c)
    ensures Same(Receive(Drain(c, b), x), Drain(c, b + x))
    decreases |b|
  {
    hide Decide, CodecOk, Drain;
    var d := Decide(c, b);
    DrainStep(c, b);
    if d.NeedMore? {
      assert [] + Drain(c, b + x).messages == Drain(c, b + x).messages;
    } else {
      DecideExtend(c, b, x);
      DrainStep(c, b + x);
      if d.Frame? {
        assert (b + x)[d.used..] == b[d.used..] + x;
        DrainAppend(d.codec, b[d.used..], x);
        var o := Drain(d.codec, b[d.used..]);
        if o.error.None? {
          var n := Drain(o.codec, o.rest + x);
          assert Deliver(d.message) + (o.messages + n.messages) == Deliver(d.message) + o.messages + n.messages;
        }
      }
    }
  }

  lemma ReceiveSame(o: Outcome, p: Outcome, x: seq<Byte>)
    requires Same(o, p) && CodecOk(o.codec)
    ensures Same(Receive(o, x), Receive(p, x))
  {
    hide Drain;
  }

  lemma {:induction false} ReceiveAllDrains(c: Codec, b: seq<Byte>, o: Outcome, chunks: seq<seq<Byte>>)
    requires CodecOk(c) && CodecOk(o.codec) && Same(o, Drain(c, b))
    ensures Same(ReceiveAll(o, chunks), Drain(c, b + Concat(chunks)))
    decreases |chunks|
  {
    hide Drain, Receive;
    if chunks == [] {
      assert b + [] == b;
    } else {
      ReceiveSame(o, Drain(c, b), chunks[0]);
      DrainAppend(c, b, chunks[0]);
      assert b + Concat(chunks) == b + chunks[0] + Concat(chunks[1..]);
      ReceiveAllDrains(c, b + chunks[0], Receive(o, chunks[0]), chunks[1..]);
    }
  }

  function Start(c: Codec): (o: Outcome) { Outcome([], c, [], None) }

  /** For arbitrary bytes, the messages delivered and the first error do not depend on
      how the stream is cut into chunks. */
  lemma ChunkIndependence(c: Codec, chunks: seq<seq<Byte>>)
    requires CodecOk(c)
    ensures Same(ReceiveAll(Start(c), chunks), Drain(c, Concat(chunks)))
  {
    hide Receive, DecidePlaintext, ServerHello, ServerHandshake, Transport;
    assert Decide(c, []).NeedMore? by {
      NothingYet(c);
    }
    assert Drain(c, []) == Start(c);
    hide Drain;
    ReceiveAllDrains(c, [], Start(c), chunks);
    assert [] + Concat(chunks) == Concat(chunks);
  }

  lemma NothingYet(c: Codec)
    requires CodecOk(c)
    ensures Decide(c, []).NeedMore?
  {
    hide ServerHello, ServerHandshake, Transport;
  }

  // ----- plaintext delivery -----

  predicate PlaintextFits(m: Message)
  {
    m.mtype < 0x1000_0000 && |m.payload| <= MAX_PAYLOAD
  }

  function EncodeAllPlaintext(ms: seq<Message>): (b: seq<Byte>)
  {
    if ms == [] then [] else EncodePlaintext(ms[0]) + EncodeAllPlaintext(ms[1..])
  }

  /** A frame that fits is read back whole; one that does not is refused, or, past the
      32-bit length, cut short. */
  lemma DecideEncoded(m: Message, tail: seq<Byte>)
    requires m.mtype < 0x1_0000_0000
    ensures var d := DecidePlaintext(EncodePlaintext(m) + tail);
            if PlaintextFits(m) then d == Frame(|EncodePlaintext(m)|, Plaintext, Some(m))
            else d.Bad? || (d.Frame? && d.message.Some? && d.message.value != m)
  {
    hide BudgetVarint.Decode, Wire.Varint, Wire.VarintSize, PlaintextType;
    var len := |m.payload| % 0x1_0000_0000;
    var b := EncodePlaintext(m) + tail;
    var vl, vt := Wire.Varint(len), Wire.Varint(m.mtype);
    assert b[1..] == vl + (vt + m.payload + tail);
    BudgetVarint.DecodeVarint(len, BUDGET, vt + m.payload + tail);
    Wire.VarintLength(len);
    BudgetVarint.FourBytes(len);
    if Wire.VarintSize(len) <= BUDGET {
      EncodedType(m, len, b, 1 + |vl|, tail);
      assert 1 + |vl| + |vt| + |m.payload| == |EncodePlaintext(m)|;
    }
  }

  lemma EncodedType(m: Message, len: nat, b: seq<Byte>, at: nat, tail: seq<Byte>)
    requires m.mtype < 0x1_0000_0000 && len == |m.payload| % 0x1_0000_0000
    requires at <= |b| && b[at..] == Wire.Varint(m.mtype) + m.payload + tail
    ensures var d := PlaintextType(b, at, len);
            if PlaintextFits(m) then d == Frame(at + |Wire.Varint(m.mtype)| + |m.payload|, Plaintext, Some(m))
            else d.Bad? || (d.Frame? && d.message.Some? && d.message.value != m)
  {
    hide BudgetVarint.Decode, Wire.Varint, Wire.VarintSize;
    var vt := Wire.Varint(m.mtype);
    assert b[at..] == vt + (m.payload + tail);
    BudgetVarint.DecodeVarint(m.mtype, BUDGET, m.payload + tail);
    Wire.VarintLength(m.mtype);
    BudgetVarint.FourBytes(m.mtype);
    var p := at + |vt|;
    assert b[p..] == m.payload + tail by {
      assert b[p..] == b[at..][|vt|..];
    }
    assert b[p..p + len] == m.payload[..len] by {
      assert b[p..p + len] == b[p..][..len];
    }
    assert len == |m.payload| ==> m.payload[..len] == m.payload;
  }

  /** Messages of 32-bit type arrive unchanged and in order, and nothing else is left,
      exactly when each type is below 2^28 and each payload at most 2^24 bytes. */
  lemma {:induction false} PlaintextDelivery(ms: seq<Message>)
    requires forall i :: 0 <= i < |ms| ==> ms[i].mtype < 0x1_0000_0000
    ensures var o := Drain(Plaintext, EncodeAllPlaintext(ms));
            && (o.messages == ms <==> forall i :: 0 <= i < |ms| ==> PlaintextFits(ms[i]))
            && (o.messages == ms ==> o == Outcome(ms, Plaintext, [], None))
    decreases |ms|
  {
    hide DecidePlaintext, EncodePlaintext, PlaintextFits, Drain;
    if ms == [] {
      NothingYet(Plaintext);
      DrainStep(Plaintext, []);
    } else {
      var tail := EncodeAllPlaintext(ms[1..]);
      var b := EncodePlaintext(ms[0]) + tail;
      DecideEncoded(ms[0], tail);
      DrainStep(Plaintext, b);
      if PlaintextFits(ms[0]) {
        assert b[|EncodePlaintext(ms[0])|..] == tail;
        PlaintextDelivery(ms[1..]);
        var o, n := Drain(Plaintext, b), Drain(Plaintext, tail);
        Tails(ms, n.messages);
        assert (forall i :: 0 <= i < |ms| ==> PlaintextFits(ms[i])) <==>
               (forall i :: 0 <= i < |ms[1..]| ==> PlaintextFits(ms[1..][i])) by {
          if forall i :: 0 <= i < |ms[1..]| ==> PlaintextFits(ms[1..][i]) {
            forall i | 0 <= i < |ms| ensures PlaintextFits(ms[i]) {
              assert i > 0 ==> ms[i] == ms[1..][i - 1];
            }
          }
        }
      } else {
        assert !PlaintextFits(ms[0]);
      }
    }
  }

  lemma Tails(ms: seq<Message>, n: seq<Message>)
    requires ms != []
    ensures [ms[0]] + n == ms <==> n == ms[1..]
  {
    assert ms == [ms[0]] + ms[1..];
    assert ([ms[0]] + n)[1..] == n;
  }

  lemma DrainStep(c: Codec, b: seq<Byte>)
    requires CodecOk(c)
    ensures var d := Decide(c, b);
            && (d.NeedMore? ==> Drain(c, b) == Outcome([], c, b, None))
            && (d.Bad? ==> Drain(c, b) == Outcome([], c, b, Some(d.error)))
            && (d.Frame? ==> var o := Drain(d.codec, b[d.used..]);
                             Drain(c, b) == o.(messages := Deliver(d.message) + o.messages))
  {
    hide Decide;
  }

  // ----- encrypted delivery -----

  predicate EncryptedFits(m: Message)
  {
    m.mtype < 0x1_0000 && |m.payload| <= 65515
  }

  function EncodeAllEncrypted(c: Noise.Cipher, ms: seq<Message>): (r: (Noise.Cipher, seq<Byte>))
    requires Noise.CipherOk(c)
    ensures Noise.CipherOk(r.0)
    decreases |ms|
  {
    hide EncodeEncrypted;
    if ms == [] then (c, [])
    else
      var e := EncodeEncrypted(c, ms[0]);
      var n := EncodeAllEncrypted(e.0, ms[1..]);
      (n.0, e.1 + n.1)
  }

  lemma U16Value(v: nat)
    requires v < 0x1_0000
    ensures 0x100 * (U16(v)[0] as int) + U16(v)[1] as int == v
  {
  }

  lemma U16Range(a: Byte, b: Byte)
    ensures 0 <= 0x100 * (a as int) + b as int < 0x1_0000
  {
  }

  lemma RawRoundTrip(p: seq<Byte>, tail: seq<Byte>)
    requires |p| < 0x1_0000
    ensures NextRaw(RawFrame(p) + tail) == Body(3 + |p|, p)
  {
    var b := RawFrame(p) + tail;
    U16Value(|p|);
    assert b[3..3 + |p|] == p;
  }

  /** The 16-bit length of an over-long frame is shorter than what follows. */
  lemma RawCut(p: seq<Byte>, tail: seq<Byte>)
    requires |p| >= 0x1_0000
    ensures var r := NextRaw(RawFrame(p) + tail); r.Body? && |r.payload| < 0x1_0000
  {
    var b := RawFrame(p) + tail;
    assert b[0] == 0x01 && b[1] == U16(|p|)[0] && b[2] == U16(|p|)[1];
    U16Range(b[1], b[2]);
  }

  /** A decrypted record carries at most what its ciphertext holds. */
  lemma TransportBound(r: Receiver, p: seq<Byte>, used: nat)
    requires CodecOk(Encrypted(r)) && r.decrypt.hasKey && |p| < 0x1_0000
    ensures var d := Transport(r, p, used);
            !d.NeedMore? && (d.Frame? ==> d.message.Some? && d.message.value.mtype < 0x1_0000 && |d.message.value.payload| <= 65515)
  {
    hide Noise.DecryptWithAd;
    Noise.DecryptKeepsKey(r.decrypt, [], p);
    var o := Noise.DecryptWithAd(r.decrypt, [], p);
    if o.Some? && |o.value.1| >= 4 {
      var pt := o.value.1;
      U16Range(pt[0], pt[1]);
      U16Range(pt[2], pt[3]);
    }
  }

  lemma TransportRoundTrip(r: Receiver, m: Message, used: nat)
    requires CodecOk(Encrypted(r)) && EncryptedFits(m)
    ensures var e := Noise.EncryptWithAd(r.decrypt, [], Inner(m));
            Noise.CipherOk(e.0) && Transport(r, e.1, used) == Frame(used, Encrypted(r.(decrypt := e.0)), Some(m))
  {
    hide Noise.DecryptWithAd, Noise.EncryptWithAd;
    Noise.EncryptKeepsKey(r.decrypt, [], Inner(m));
    Noise.CipherInStep(r.decrypt, [], Inner(m));
    var pt := Inner(m);
    U16Value(m.mtype);
    U16Value(|m.payload|);
    assert pt[0] == U16(m.mtype)[0] && pt[1] == U16(m.mtype)[1];
    assert pt[2] == U16(|m.payload|)[0] && pt[3] == U16(|m.payload|)[1];
    assert pt[4..4 + |m.payload|] == m.payload;
  }

  /** What the receiver in step with the sender makes of one frame. */
  lemma DecideEncodedRecord(r: Receiver, m: Message, tail: seq<Byte>)
    requires CodecOk(Encrypted(r)) && r.phase.Ready? && r.decrypt.hasKey
    ensures var e := EncodeEncrypted(r.decrypt, m);
            var d := DecideEncrypted(r, e.1 + tail);
            if EncryptedFits(m) then d == Frame(|e.1|, Encrypted(r.(decrypt := e.0)), Some(m)) && e.0.hasKey
            else d.Bad? || (d.Frame? && d.message.Some? && d.message.value != m)
  {
    hide Noise.DecryptWithAd, Noise.EncryptWithAd, Transport, NextRaw, RawFrame, Inner;
    Noise.EncryptKeepsKey(r.decrypt, [], Inner(m));
    var ct := Noise.EncryptWithAd(r.decrypt, [], Inner(m)).1;
    assert |ct| == |m.payload| + 20;
    if |ct| < 0x1_0000 {
      RawRoundTrip(ct, tail);
      if EncryptedFits(m) {
        TransportRoundTrip(r, m, 3 + |ct|);
      }
      TransportBound(r, ct, 3 + |ct|);
    } else {
      RawCut(ct, tail);
      var raw := NextRaw(RawFrame(ct) + tail);
      TransportBound(r, raw.payload, raw.used);
    }
  }

  /** With sender and receiver in step, messages arrive unchanged and in order, and both
      ends stay in step, exactly when each type is below 2^16 and each payload at most
      65515 bytes. */
  lemma {:induction false} EncryptedDelivery(r: Receiver, ms: seq<Message>)
    requires CodecOk(Encrypted(r)) && r.phase.Ready? && r.decrypt.hasKey
    ensures var e := EncodeAllEncrypted(r.decrypt, ms);
            var o := Drain(Encrypted(r), e.1);
            && (o.messages == ms <==> forall i :: 0 <= i < |ms| ==> EncryptedFits(ms[i]))
            && (o.messages == ms ==> o == Outcome(ms, Encrypted(r.(decrypt := e.0)), [], None))
    decreases |ms|
  {
    hide DecideEncrypted, EncodeEncrypted, EncryptedFits, Drain;
    if ms == [] {
      NothingYet(Encrypted(r));
      DrainStep(Encrypted(r), []);
    } else {
      var e := EncodeEncrypted(r.decrypt, ms[0]);
      var tail := EncodeAllEncrypted(e.0, ms[1..]).1;
      DecideEncodedRecord(r, ms[0], tail);
      DrainStep(Encrypted(r), e.1 + tail);
      if EncryptedFits(ms[0]) {
        assert (e.1 + tail)[|e.1|..] == tail;
        var r' := r.(decrypt := e.0);
        EncryptedDelivery(r', ms[1..]);
        Tails(ms, Drain(Encrypted(r'), tail).messages);
        assert (forall i :: 0 <= i < |ms| ==> EncryptedFits(ms[i])) <==>
               (forall i :: 0 <= i < |ms[1..]| ==> EncryptedFits(ms[1..][i])) by {
          if forall i :: 0 <= i < |ms[1..]| ==> EncryptedFits(ms[1..][i]) {
            forall i | 0 <= i < |ms| ensures EncryptedFits(ms[i]) {
              assert i > 0 ==> ms[i] == ms[1..][i - 1];
            }
          }
        }
      } else {
        assert !EncryptedFits(ms[0]);
      }
    }
  }

  // ----- what waiting consumes -----

  lemma NeedMoreIsRaw(r: Receiver, b: seq<Byte>)
    requires CodecOk(Encrypted(r))
    ensures DecideEncrypted(r, b).NeedMore? <==> NextRaw(b).More?
  {
    hide NextRaw, ServerHello, ServerHandshake, Noise.DecryptWithAd;
  }

  lemma {:induction false} PullShrinks(c: Codec, b: seq<Byte>)
    requires CodecOk(c)
    ensures |Pull(c, b).rest| <= |b|
    ensures Pull(c, b).result.Wait? && Decide(c, b).Frame? ==> |Pull(c, b).rest| < |b|
    decreases |b|
  {
    hide Decide;
    var d := Decide(c, b);
    if d.Frame? && d.message.None? {
      PullShrinks(d.codec, b[d.used..]);
    }
  }

  /** A call that asks for more bytes has left the buffer as it was exactly when the first
      frame in it is incomplete. For encrypted frames that is a matter of the raw frame
      alone; plaintext frames are never consumed without a message. */
  lemma WaitLeaves(c: Codec, b: seq<Byte>)
    requires CodecOk(c) && Pull(c, b).result.Wait?
    ensures Pull(c, b).rest == b <==> Decide(c, b).NeedMore?
    ensures c.Plaintext? ==> Pull(c, b).rest == b
    ensures c.Encrypted? ==> (Pull(c, b).rest == b <==> NextRaw(b).More?)
  {
    hide DecidePlaintext, DecideEncrypted, NextRaw;
    PullShrinks(c, b);
    if c.Encrypted? {
      NeedMoreIsRaw(c.receiver, b);
    } else {
      PlaintextCarries(b);
    }
  }

  lemma PlaintextCarries(b: seq<Byte>)
    ensures DecidePlaintext(b).Frame? ==> DecidePlaintext(b).message.Some?
  {
    hide BudgetVarint.Decode;
  }

  /** The documentation promises that a call asking for more has consumed nothing. A device's
      hello alone in the buffer is consumed, and more is asked for. */
  lemma HelloConsumed(r: Receiver, hello: seq<Byte>)
    requires CodecOk(Encrypted(r)) && r.phase.ExpectServerHello?
    requires |hello| < 0x1_0000 && ServerHello(r, hello).Some?
    ensures Pull(Encrypted(r), RawFrame(hello)) == Pulled(Encrypted(r.(phase := ExpectHandshake)), [], Wait)
    ensures RawFrame(hello) != []
  {
    hide NextRaw, ServerHandshake, Transport, RawFrame, NameOf;
    var b := RawFrame(hello);
    assert b + [] == b;
    RawRoundTrip(hello, []);
    var next := Encrypted(r.(phase := ExpectHandshake));
    assert Decide(Encrypted(r), b) == Frame(|b|, next, None);
    assert b[|b|..] == [];
    NothingYet(next);
  }

  // ----- before the handshake -----

  /** A message is written in clear exactly while the sending cipher has no key, which is so
      until the handshake ends. */
  lemma ClearText(c: Noise.Cipher, m: Message)
    requires Noise.CipherOk(c)
    ensures EncodeEncrypted(c, m).1 == RawFrame(Inner(m)) <==> !c.hasKey
    ensures !c.hasKey ==> EncodeEncrypted(c, m).0 == c
  {
    hide Inner, RawFrame;
    Noise.EncryptKeepsKey(c, [], Inner(m));
  }
}
