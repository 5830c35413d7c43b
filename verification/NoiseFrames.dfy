/** The encrypted frame helper as the program runs it. */
module NoiseFrames {
  import opened Arith
  import opened Options
  import opened FrameSpec
  import FrameCode
  import Base64
  import Noise = NoiseSpec
  import NoiseCode

  type Status = FrameCode.Status

  /** Pull one step: a frame without a message is passed over. */
  lemma PullStep(c: Codec, b: seq<Byte>)
    requires CodecOk(c)
    ensures var d := Decide(c, b);
            && (d.NeedMore? ==> Pull(c, b) == Pulled(c, b, Wait))
            && (d.Bad? ==> Pull(c, b) == Pulled(c, b, Refused(d.error)))
            && (d.Frame? && d.message.Some? ==> Pull(c, b) == Pulled(d.codec, b[d.used..], Got(d.message.value)))
            && (d.Frame? && d.message.None? ==> Pull(c, b) == Pull(d.codec, b[d.used..]))
  {
    hide Decide;
  }

  class NoiseFrameHelper {
    var buffer: seq<Byte>
    var consumed: nat
    var plaintext: seq<Byte>
    var phase: Phase
    /** State::Failed */
    var failed: bool
    /** How often on_ready_ and on_error_ have been called. */
    var readyCalls: nat
    var errorCalls: nat
    var serverName: seq<Byte>
    const expectedName: seq<Byte>
    const handshake: NoiseCode.NoiseHandshake
    const encrypt: NoiseCode.CipherState
    const decrypt: NoiseCode.CipherState

    ghost function Parts(): (r: set<object>)
    {
      {handshake, handshake.symmetric, handshake.symmetric.cipher, encrypt, decrypt}
    }

    ghost predicate Valid()
      reads this, Parts()
    {
      && consumed <= |buffer|
      && handshake.Valid() && encrypt.Valid() && decrypt.Valid()
      && encrypt != decrypt && encrypt != handshake.symmetric.cipher && decrypt != handshake.symmetric.cipher
    }

    /** The handshake callbacks made since the counts were ready and error. */
    ghost predicate Calls(ready: nat, error: nat, r: nat, e: nat)
      reads this
    {
      readyCalls == ready + r && errorCalls == error + e
    }

    ghost function Pending(): (b: seq<Byte>)
      reads this
      requires consumed <= |buffer|
    {
      buffer[consumed..]
    }

    /** The receiving side. */
    ghost function Codec(): (c: Codec)
      reads this, Parts()
      requires Valid()
      ensures CodecOk(c)
    {
      Encrypted(Receiver(phase, handshake.Model(), decrypt.Model(), expectedName))
    }

    constructor (psk: seq<Byte>, expected: seq<Byte>)
      requires |psk| == 32
      ensures Valid() && fresh(Parts()) && !failed && Pending() == []
      ensures encrypt.Model() == Noise.NoKey
      ensures Codec() == Encrypted(Receiver(ExpectServerHello, Noise.Initialize(Noise.Initiator, psk, PROLOGUE), Noise.NoKey, expected))
    {
      hide Noise.Initialize;
      buffer, consumed, plaintext, serverName := [], 0, [], [];
      phase, failed := ExpectServerHello, false;
      readyCalls, errorCalls := 0, 0;
      expectedName := expected;
      handshake := new NoiseCode.NoiseHandshake(Noise.Initiator, psk, PROLOGUE);
      encrypt := new NoiseCode.CipherState();
      decrypt := new NoiseCode.CipherState();
    }

    /** The first flight: an empty frame announcing the protocol, then the framed first
        handshake message behind a zero byte. */
    method ConnectBytes(random: seq<Byte>) returns (ok: bool, out: seq<Byte>)
      requires Valid() && |random| == 32
      modifies handshake, handshake.symmetric, handshake.symmetric.cipher
      ensures Valid() && Pending() == old(Pending())
      ensures var w := Noise.WriteMessage(old(handshake.Model()), [], random);
              && ok == w.Some?
              && (ok ==> handshake.Model() == w.value.0 && out == RawFrame([]) + RawFrame([0x00] + w.value.1))
    {
      hide Noise.WriteMessage;
      var m;
      ok, m := handshake.WriteMessage([], random);
      if !ok {
        return false, [];
      }
      out := [0x01, 0x00, 0x00];
      assert RawFrame([]) == out;
      out := out + [0x01] + U16(|m| + 1) + [0x00] + m;
      assert [0x01] + U16(|m| + 1) + ([0x00] + m) == RawFrame([0x00] + m);
    }

    method Encode(mtype: U32, payload: seq<Byte>, out: seq<Byte>) returns (r: seq<Byte>)
      requires Valid()
      modifies encrypt
      ensures Valid()
      ensures var e := EncodeEncrypted(old(encrypt.Model()), Message(mtype, payload));
              encrypt.Model() == e.0 && r == out + e.1
    {
      hide Noise.EncryptWithAd;
      var inner := U16(mtype) + U16(|payload|) + payload;
      assert inner == Inner(Message(mtype, payload));
      var ct := encrypt.EncryptWithAd([], inner);
      r := out + [0x01] + U16(|ct|) + ct;
    }

    method Feed(data: seq<Byte>)
      requires Valid()
      modifies this
      ensures Valid() && Pending() == old(Pending()) + data && Codec() == old(Codec()) && failed == old(failed) && Calls(old(readyCalls), old(errorCalls), 0, 0)
    {
      buffer := buffer + data;
    }

    method Compact()
      requires Valid()
      modifies this
      ensures Valid() && consumed == 0 && buffer == old(Pending()) && Codec() == old(Codec()) && failed == old(failed) && Calls(old(readyCalls), old(errorCalls), 0, 0)
    {
      if consumed == 0 {
        return;
      }
      if consumed >= |buffer| {
        buffer := [];
      } else {
        buffer := buffer[consumed..];
      }
      consumed := 0;
    }

    method NextRaw() returns (st: Status, payload: seq<Byte>)
      requires Valid()
      modifies this
      ensures Valid() && Codec() == old(Codec()) && failed == old(failed) && Calls(old(readyCalls), old(errorCalls), 0, 0)
      ensures var r := FrameSpec.NextRaw(old(Pending()));
              && (st.Ok? <==> r.Body?) && (st.Throws? <==> r.Broken?)
              && (st.Ok? ==> payload == r.payload && Pending() == old(Pending())[r.used..])
              && (st.Throws? ==> st.error == r.error)
              && (!st.Ok? ==> Pending() == old(Pending()))
    {
      Compact();
      ghost var b := buffer;
      assert Pending() == b;
      var n := |buffer|;
      if n < 3 {
        return FrameCode.NeedMore, [];
      }
      if buffer[0] != 0x01 {
        if buffer[0] == 0x00 {
          return FrameCode.Throws(EncryptionMismatch), [];
        }
        return FrameCode.Throws(BadIndicator), [];
      }
      var len := 0x100 * (buffer[1] as int) + buffer[2] as int;
      if len > MAX_PAYLOAD {
        return FrameCode.Throws(Oversized), [];
      }
      if n - 3 < len {
        return FrameCode.NeedMore, [];
      }
      payload := buffer[3..3 + len];
      consumed := 3 + len;
      return FrameCode.Ok, payload;
    }

    method ReportError()
      modifies this`failed, this`errorCalls
      ensures failed && errorCalls == old(errorCalls) + 1
    {
      failed := true;
      errorCalls := errorCalls + 1;
    }

    method HandleServerHello(p: seq<Byte>)
      requires Valid() && !failed
      modifies this
      ensures Valid() && Pending() == old(Pending())
      ensures Calls(old(readyCalls), old(errorCalls), 0, if failed then 1 else 0)
      ensures failed ==> phase == old(phase)
      ensures var q := ServerHello(old(Codec()).receiver, p);
              && failed == q.None?
              && (!failed ==> Codec() == Encrypted(q.value))
    {
      if p == [] {
        ReportError();
        return;
      }
      if p[0] != 0x01 {
        ReportError();
        return;
      }
      serverName := ReadServerName(p);
      if expectedName != [] && serverName != expectedName {
        ReportError();
        return;
      }
      phase := ExpectHandshake;
    }

    method HandleServerHandshake(p: seq<Byte>)
      requires Valid() && !failed && !phase.Ready?
      modifies this, Parts()
      ensures Valid() && Pending() == old(Pending())
      ensures Calls(old(readyCalls), old(errorCalls), if failed then 0 else 1, if failed then 1 else 0)
      ensures failed ==> phase == old(phase)
      ensures var q := ServerHandshake(old(Codec()).receiver, p);
              && failed == q.None?
              && (!failed ==> Codec() == Encrypted(q.value))
      ensures !failed ==> encrypt.Model() == Noise.Split(handshake.Model()).0
    {
      hide Noise.ReadMessage, Noise.Split;
      if p == [] {
        ReportError();
        return;
      }
      if p[0] != 0x00 {
        ReportError();
        return;
      }
      var ok, payload := handshake.ReadMessage(p[1..]);
      if !ok {
        ReportError();
        return;
      }
      handshake.Split(encrypt, decrypt);
      phase := Ready;
      readyCalls := readyCalls + 1;
    }

    /** The Ready branch of next. */
    method OpenRecord(raw: seq<Byte>, ghost used: nat) returns (st: Status, mtype: nat, payload: seq<Byte>)
      requires Valid() && !failed && phase.Ready?
      modifies this, decrypt
      ensures Valid() && Pending() == old(Pending()) && !failed && !st.NeedMore? && phase == old(phase)
      ensures Calls(old(readyCalls), old(errorCalls), 0, 0)
      ensures var d := Transport(old(Codec()).receiver, raw, used);
              && (st.Ok? <==> d.Frame?)
              && (st.Ok? ==> d.message == Some(Message(mtype, payload)) && Codec() == d.codec)
              && (st.Throws? ==> d == Bad(st.error))
    {
      hide Noise.DecryptWithAd;
      Noise.DecryptKeepsKey(decrypt.Model(), [], raw);
      var ok, pt := decrypt.DecryptWithAd([], raw);
      if !ok {
        return FrameCode.Throws(DecryptFailed), 0, [];
      }
      if |pt| < 4 {
        return FrameCode.Throws(InnerHeader), 0, [];
      }
      mtype := 0x100 * (pt[0] as int) + pt[1] as int;
      var len := 0x100 * (pt[2] as int) + pt[3] as int;
      if |pt| < 4 + len {
        return FrameCode.Throws(InnerLength), 0, [];
      }
      plaintext := pt;
      payload := plaintext[4..4 + len];
      st := FrameCode.Ok;
    }

    /** While the helper has not failed, a call gives what Pull gives. A rejected handshake
        leaves it failed, and from then on no call returns a message, though each takes a
        raw frame out of the buffer while there is one. The handshake callbacks are made
        when, and only when, the handshake ends in the call. */
    method Next() returns (st: Status, mtype: nat, payload: seq<Byte>)
      requires Valid()
      modifies this, Parts()
      ensures Valid()
      ensures old(failed) ==> failed && AfterFailure(st, old(Pending()))
      ensures old(failed) ==> Codec() == old(Codec()) && Calls(old(readyCalls), old(errorCalls), 0, 0)
      ensures !old(failed) ==>
                var p := Pull(old(Codec()), old(Pending()));
                && (failed <==> p.result == Refused(HandshakeRejected))
                && (st.Ok? <==> p.result.Got?)
                && (st.Ok? ==> p.result.message == Message(mtype, payload))
                && (st.Throws? && !failed ==> p.result == Refused(st.error) && Pending() == Unread(p.rest))
                && (st.NeedMore? && !failed ==> p.result.Wait?)
                && (st.Ok? || (st.NeedMore? && !failed) ==> Codec() == p.codec && Pending() == p.rest)
                && (failed ==> AfterFailure(st, Unread(p.rest)))
      ensures !old(failed) ==>
                && errorCalls == old(errorCalls) + (if failed then 1 else 0)
                && readyCalls == old(readyCalls) + (if phase.Ready? && !old(phase).Ready? then 1 else 0)
                && Pull(old(Codec()), old(Pending())).codec.Encrypted?
                && phase == Pull(old(Codec()), old(Pending())).codec.receiver.phase
    {
      hide Transport, ServerHello, ServerHandshake, Pull, FrameSpec.NextRaw, Unread, AfterFailure;
      mtype, payload := 0, [];
      if failed {
        st := TakeFailed();
        return;
      }
      ghost var start, ready := phase, readyCalls;
      ghost var goal := Pull(Codec(), Pending());
      PullEncrypted(Codec(), Pending());
      while true
        invariant Valid() && !failed && goal == Pull(Codec(), Pending()) && errorCalls == old(errorCalls)
        invariant readyCalls == ready + (if phase.Ready? && !start.Ready? then 1 else 0)
        invariant start.Ready? ==> phase.Ready?
        modifies this, Parts()
        decreases |Pending()|
      {
        ghost var b, c := Pending(), Codec();
        PullStep(c, b);
        UnreadStep(b);
        var raw;
        st, raw := NextRaw();
        if !st.Ok? {
          return;
        }
        if phase.Ready? {
          TransportError(c.receiver, raw, FrameSpec.NextRaw(b).used);
          TransportPhase(c.receiver, raw, FrameSpec.NextRaw(b).used);
          st, mtype, payload := OpenRecord(raw, FrameSpec.NextRaw(b).used);
          return;
        }
        HandleHandshake(raw);
        if failed {
          st := TakeFailed();
          return;
        }
      }
    }

    /** The two handshake states of next. */
    method HandleHandshake(raw: seq<Byte>)
      requires Valid() && !failed && !phase.Ready?
      modifies this, Parts()
      ensures Valid() && Pending() == old(Pending())
      ensures var r := old(Codec()).receiver;
              var q := if r.phase.ExpectServerHello? then ServerHello(r, raw) else ServerHandshake(r, raw);
              && failed == q.None?
              && (!failed ==> Codec() == Encrypted(q.value))
      ensures failed ==> phase == old(phase)
      ensures Calls(old(readyCalls), old(errorCalls), if phase.Ready? then 1 else 0, if failed then 1 else 0)
    {
      hide ServerHandshake, NameOf;
      match phase {
        case ExpectServerHello => HandleServerHello(raw);
        case ExpectHandshake =>
          ReadyAfter(Codec().receiver, raw);
          HandleServerHandshake(raw);
      }
    }

    /** A failed helper's turn of the loop. */
    method TakeFailed() returns (st: Status)
      requires Valid() && failed
      modifies this
      ensures Valid() && failed && !st.Ok? && AfterFailure(st, old(Pending())) && Codec() == old(Codec())
      ensures Calls(old(readyCalls), old(errorCalls), 0, 0)
    {
      hide FrameSpec.NextRaw;
      var raw;
      st, raw := NextRaw();
      if st.Ok? {
        st := FrameCode.NeedMore;
      }
    }

    /** What a call leaves on a helper that has failed, from the bytes it found. */
    ghost predicate AfterFailure(st: Status, b: seq<Byte>)
      reads this
      requires consumed <= |buffer|
    {
      var r := FrameSpec.NextRaw(b);
      && Pending() == Unread(b)
      && st == if r.Broken? then FrameCode.Throws(r.error) else FrameCode.NeedMore
    }

    /** Feed a chunk and take every message it completes. */
    method Receive(chunk: seq<Byte>) returns (messages: seq<Message>, error: Option<Error>)
      requires Valid() && !failed
      modifies this, Parts()
      ensures Valid()
      ensures var o := FrameSpec.Receive(Outcome([], old(Codec()), old(Pending()), None), chunk);
              && messages == o.messages && error == o.error
              && (error.None? ==> !failed && Codec() == o.codec && Pending() == o.rest)
    {
      hide Drain, Pull;
      Feed(chunk);
      ghost var whole := Drain(Codec(), Pending());
      messages, error := [], None;
      var more := true;
      while more
        invariant Valid()
        invariant more ==> error.None? && !failed
        invariant more ==> var o := Drain(Codec(), Pending()); whole == o.(messages := messages + o.messages)
        invariant !more ==> whole.messages == messages && whole.error == error
        invariant !more && error.None? ==> !failed && whole == Outcome(messages, Codec(), Pending(), None)
        modifies this, Parts()
        decreases if more then |Pending()| + 1 else 0
      {
        ghost var o := Drain(Codec(), Pending());
        DrainIsPulls(Codec(), Pending());
        var st, t, p := Next();
        if st.Ok? {
          ghost var n := Drain(Codec(), Pending());
          assert messages + ([Message(t, p)] + n.messages) == messages + [Message(t, p)] + n.messages;
          messages := messages + [Message(t, p)];
        } else {
          assert messages + o.messages == messages;
          more := false;
          if failed {
            error := Some(HandshakeRejected);
          } else if st.Throws? {
            error := Some(st.error);
          }
        }
      }
      assert [] + whole.messages == whole.messages;
    }
  }

  /** Construction from the configured text, which has to be the base64 form of a 32-byte
      key; the program throws otherwise. */
  method FromConfig(text: string, expected: seq<Byte>) returns (h: NoiseFrameHelper?)
    ensures h == null ==> forall key: seq<Byte> :: |key| == 32 ==> text != Base64.Encode(key)
    ensures h != null ==>
              && fresh(h) && fresh(h.Parts()) && h.Valid() && !h.failed && h.Pending() == []
              && |h.handshake.psk| == 32 && text == Base64.Encode(h.handshake.psk)
              && h.Codec() == Encrypted(Receiver(ExpectServerHello, Noise.Initialize(Noise.Initiator, h.handshake.psk, PROLOGUE), Noise.NoKey, expected))
  {
    hide Base64.Encode, Base64.Decode, Noise.InitSymmetric, Noise.MixHash;
    var ok, key := Base64.DecodeText(text);
    if !ok {
      return null;
    }
    if |key| != 32 {
      Base64.DecodeInverse(text, key);
      forall k: seq<Byte> | |k| == 32 ensures text != Base64.Encode(k) {
        Base64.DecodeInverse(text, k);
      }
      return null;
    }
    h := new NoiseFrameHelper(key, expected);
  }

  /** The name between the protocol byte and the first zero byte. */
  method ReadServerName(p: seq<Byte>) returns (name: seq<Byte>)
    requires p != []
    ensures name == NameOf(p, 1)
  {
    hide NameOf;
    var end := 1;
    while end < |p| && p[end] != 0x00
      invariant 1 <= end <= |p|
      invariant NameOf(p, 1) == p[1..end] + NameOf(p, end)
    {
      NameStep(p, end);
      assert p[1..end + 1] == p[1..end] + [p[end]];
      end := end + 1;
    }
    NameStep(p, end);
    assert p[1..end] + [] == p[1..end];
    name := p[1..end];
  }

  lemma NameStep(p: seq<Byte>, i: nat)
    requires i <= |p|
    ensures NameOf(p, i) == if i == |p| || p[i] == 0 then [] else [p[i]] + NameOf(p, i + 1)
  {
  }

  lemma {:induction false} PullEncrypted(c: Codec, b: seq<Byte>)
    requires CodecOk(c) && c.Encrypted?
    ensures Pull(c, b).codec.Encrypted?
    decreases |b|
  {
    hide DecideEncrypted;
    var d := Decide(c, b);
    if d.Frame? && d.message.None? {
      PullEncrypted(d.codec, b[d.used..]);
    }
  }

  lemma ReadyAfter(r: Receiver, p: seq<Byte>)
    requires CodecOk(Encrypted(r))
    ensures ServerHandshake(r, p).Some? ==> ServerHandshake(r, p).value.phase.Ready?
  {
    hide Noise.ReadMessage, Noise.Split;
  }

  lemma UnreadStep(b: seq<Byte>)
    ensures Unread(b) == if FrameSpec.NextRaw(b).Body? then b[FrameSpec.NextRaw(b).used..] else b
    ensures NextRaw(b).Broken? ==> NextRaw(b).error != HandshakeRejected
  {
  }

  lemma TransportPhase(r: Receiver, p: seq<Byte>, used: nat)
    requires CodecOk(Encrypted(r))
    ensures Transport(r, p, used).Frame? ==> Transport(r, p, used).codec.receiver.phase == r.phase
  {
    hide Noise.DecryptWithAd;
  }

  lemma TransportError(r: Receiver, p: seq<Byte>, used: nat)
    requires CodecOk(Encrypted(r))
    ensures var d := Transport(r, p, used);
            !d.NeedMore? && d != Bad(HandshakeRejected) && (d.Frame? ==> d.message.Some?)
  {
    hide Noise.DecryptWithAd;
  }
}
