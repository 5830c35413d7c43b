/** Base-128 varints read under a byte budget. */
module BudgetVarint {
  import opened Arith
  import Wire

  datatype Status = Ok(value: nat, consumed: nat) | Incomplete | Overflow

  /** The digits of the number, each step spending one byte of the budget. */
  function Scan(s: seq<Byte>, budget: nat): (r: Status)
    ensures r.Ok? ==> 0 < r.consumed <= |s| && r.consumed <= budget
    decreases |s|
  {
    if budget == 0 then Overflow
    else if s == [] then Incomplete
    else if s[0] < 0x80 then Ok(s[0], 1)
    else match Scan(s[1..], budget - 1)
         case Ok(v, n) => Ok(s[0] as int % 0x80 + 0x80 * v, n + 1)
         case r => r
  }

  /** decode_varint: the value is gathered in a 64-bit word. */
  function Decode(s: seq<Byte>, budget: nat): (r: Status)
    ensures r.Ok? ==> 0 < r.consumed <= |s|
  {
    match Scan(s, budget)
    case Ok(v, n) => var w := v % Wire.TWO64; if w > 0xFFFF_FFFF then Overflow else Ok(w, n)
    case r => r
  }

  /** A decision reached on a prefix is kept on every extension. */
  lemma {:induction false} ScanExtend(s: seq<Byte>, budget: nat, tail: seq<Byte>)
    requires !Scan(s, budget).Incomplete?
    ensures Scan(s + tail, budget) == Scan(s, budget)
    decreases |s|
  {
    if budget > 0 && s != [] && s[0] >= 0x80 {
      assert (s + tail)[1..] == s[1..] + tail;
      ScanExtend(s[1..], budget - 1, tail);
    }
  }

  lemma DecodeExtend(s: seq<Byte>, budget: nat, tail: seq<Byte>)
    requires !Decode(s, budget).Incomplete?
    ensures Decode(s + tail, budget) == Decode(s, budget)
  {
    hide Scan;
    ScanExtend(s, budget, tail);
  }

  lemma {:induction false} ScanVarint(v: nat, budget: nat, tail: seq<Byte>)
    ensures Scan(Wire.Varint(v) + tail, budget)
         == if Wire.VarintSize(v) <= budget then Ok(v, Wire.VarintSize(v)) else Overflow
    decreases v
  {
    var s := Wire.Varint(v) + tail;
    if v >= 0x80 && budget > 0 {
      assert s[1..] == Wire.Varint(v / 0x80) + tail;
      ScanVarint(v / 0x80, budget - 1, tail);
    }
  }

  /** A 32-bit value comes back exactly when its encoding fits the budget. */
  lemma DecodeVarint(v: U32, budget: nat, tail: seq<Byte>)
    ensures Decode(Wire.Varint(v) + tail, budget)
         == if Wire.VarintSize(v) <= budget then Ok(v, Wire.VarintSize(v)) else Overflow
  {
    hide Scan, Wire.Varint, Wire.VarintSize;
    ScanVarint(v, budget, tail);
  }

  /** Four bytes hold exactly the values below 2^28. */
  lemma {:induction false} FourBytes(v: nat)
    ensures Wire.VarintSize(v) <= 4 <==> v < 0x1000_0000
  {
    assert Wire.VarintSize(v) <= 4 <==> v < 0x80 || Wire.VarintSize(v / 0x80) <= 3;
    var v1 := v / 0x80;
    assert Wire.VarintSize(v1) <= 3 <==> v1 < 0x80 || Wire.VarintSize(v1 / 0x80) <= 2;
    var v2 := v1 / 0x80;
    assert Wire.VarintSize(v2) <= 2 <==> v2 < 0x80 || Wire.VarintSize(v2 / 0x80) <= 1;
    assert Wire.VarintSize(v2 / 0x80) <= 1 <==> v2 / 0x80 < 0x80;
  }
}

/** What the two frame codecs decide about a buffer, and what they write. */
module FrameSpec {
  import opened Arith
  import opened Options
  import BudgetVarint
  import Wire
  import Noise = NoiseSpec

  datatype Message = Message(mtype: nat, payload: seq<Byte>)

  datatype Error =
    | EncryptionMismatch | BadIndicator | LengthVarint | TypeVarint | Oversized
    | DecryptFailed | InnerHeader | InnerLength
    | HandshakeRejected

  datatype Phase = ExpectServerHello | ExpectHandshake | Ready

  /** The receiving side of the Noise codec. */
  datatype Receiver = Receiver(phase: Phase, party: Noise.Party, decrypt: Noise.Cipher, expected: seq<Byte>)

  datatype Codec = Plaintext | Encrypted(receiver: Receiver)

  ghost predicate CodecOk(c: Codec)
  {
    c.Encrypted? ==> Noise.PartyOk(c.receiver.party) && Noise.CipherOk(c.receiver.decrypt)
  }

  const MAX_PAYLOAD: nat := 0x100_0000
  const BUDGET: nat := 4

  /** The outcome of looking at a buffer: wait, consume a frame (which need not carry a
      message), or give up. */
  datatype Decision = NeedMore | Frame(used: nat, codec: Codec, message: Option<Message>) | Bad(error: Error)

  // ----- plaintext -----

  function DecidePlaintext(b: seq<Byte>): (d: Decision)
    ensures d.Frame? ==> 0 < d.used <= |b| && d.codec.Plaintext?
  {
    if |b| < 1 then NeedMore
    else if b[0] != 0x00 then Bad(if b[0] == 0x01 then EncryptionMismatch else BadIndicator)
    else match BudgetVarint.Decode(b[1..], BUDGET)
         case Incomplete => NeedMore
         case Overflow => Bad(LengthVarint)
         case Ok(len, n) => PlaintextType(b, 1 + n, len)
  }

  function PlaintextType(b: seq<Byte>, at: nat, len: nat): (d: Decision)
    requires at <= |b|
    ensures d.Frame? ==> at < d.used <= |b| && d.codec.Plaintext?
  {
    match BudgetVarint.Decode(b[at..], BUDGET)
    case Incomplete => NeedMore
    case Overflow => Bad(TypeVarint)
    case Ok(mtype, n) =>
      if len > MAX_PAYLOAD then Bad(Oversized)
      else if |b| - at - n < len then NeedMore
      else Frame(at + n + len, Plaintext, Some(Message(mtype, b[at + n..at + n + len])))
  }

  /** The length is written as a 32-bit value. */
  function EncodePlaintext(m: Message): (b: seq<Byte>)
  {
    [0x00] + Wire.Varint(|m.payload| % 0x1_0000_0000) + Wire.Varint(m.mtype) + m.payload
  }

  // ----- Noise -----

  datatype Raw = More | Body(used: nat, payload: seq<Byte>) | Broken(error: Error)

  function NextRaw(b: seq<Byte>): (r: Raw)
    ensures r.Body? ==> 3 <= r.used <= |b|
  {
    if |b| < 3 then More
    else if b[0] != 0x01 then Broken(if b[0] == 0x00 then EncryptionMismatch else BadIndicator)
    else
      var len := 0x100 * (b[1] as int) + b[2] as int;
      if len > MAX_PAYLOAD then Broken(Oversized)
      else if |b| - 3 < len then More
      else Body(3 + len, b[3..3 + len])
  }

  /** The server's name runs from index 1 to the first zero byte. */
  function NameOf(p: seq<Byte>, i: nat): (n: seq<Byte>)
    requires i <= |p|
    decreases |p| - i
  {
    if i == |p| || p[i] == 0 then [] else [p[i]] + NameOf(p, i + 1)
  }

  function ServerHello(r: Receiver, p: seq<Byte>): (q: Option<Receiver>)
  {
    if p == [] || p[0] != 0x01 then None
    else if r.expected != [] && NameOf(p, 1) != r.expected then None
    else Some(r.(phase := ExpectHandshake))
  }

  function ServerHandshake(r: Receiver, p: seq<Byte>): (q: Option<Receiver>)
    requires CodecOk(Encrypted(r))
    ensures q.Some? ==> CodecOk(Encrypted(q.value))
  {
    hide Noise.ReadMessage, Noise.Split;
    if p == [] || p[0] != 0x00 then None
    else match Noise.ReadMessage(r.party, p[1..])
         case None => None
         case Some(d) => Some(r.(phase := Ready, party := d.0, decrypt := Noise.Split(d.0).1))
  }

  function Transport(r: Receiver, p: seq<Byte>, used: nat): (d: Decision)
    requires CodecOk(Encrypted(r))
    ensures d.Frame? ==> d.used == used && CodecOk(d.codec) && d.codec.Encrypted?
  {
    hide Noise.DecryptWithAd, Noise.PartyOk;
    Noise.DecryptKeepsKey(r.decrypt, [], p);
    match Noise.DecryptWithAd(r.decrypt, [], p)
    case None => Bad(DecryptFailed)
    case Some(o) => Record(r.(decrypt := o.0), o.1, used)
  }

  /** The inner header and message of a decrypted record. */
  function Record(r: Receiver, pt: seq<Byte>, used: nat): (d: Decision)
    ensures d.Frame? ==> d.used == used && d.codec == Encrypted(r)
  {
    if |pt| < 4 then Bad(InnerHeader)
    else
      var len := 0x100 * (pt[2] as int) + pt[3] as int;
      if |pt| < 4 + len then Bad(InnerLength)
      else Frame(used, Encrypted(r), Some(Message(0x100 * (pt[0] as int) + pt[1] as int, pt[4..4 + len])))
  }

  function DecideEncrypted(r: Receiver, b: seq<Byte>): (d: Decision)
    requires CodecOk(Encrypted(r))
    ensures d.Frame? ==> 0 < d.used <= |b| && CodecOk(d.codec) && d.codec.Encrypted?
  {
    hide ServerHello, ServerHandshake, Transport, NextRaw;
    match NextRaw(b)
    case More => NeedMore
    case Broken(e) => Bad(e)
    case Body(used, p) =>
      match r.phase
      case ExpectServerHello => (HelloKeeps(r, p); Advance(ServerHello(r, p), used))
      case ExpectHandshake => Advance(ServerHandshake(r, p), used)
      case Ready => Transport(r, p, used)
  }

  function Advance(q: Option<Receiver>, used: nat): (d: Decision)
  {
    match q
    case None => Bad(HandshakeRejected)
    case Some(r) => Frame(used, Encrypted(r), None)
  }

  lemma HelloKeeps(r: Receiver, p: seq<Byte>)
    requires CodecOk(Encrypted(r))
    ensures ServerHello(r, p).Some? ==> CodecOk(Encrypted(ServerHello(r, p).value))
  {
    hide NameOf;
  }

  function U16(v: nat): (b: seq<Byte>)
    ensures |b| == 2
  {
    [(v / 0x100) % 0x100, v % 0x100]
  }

  function Inner(m: Message): (b: seq<Byte>)
    ensures |b| == 4 + |m.payload|
  {
    U16(m.mtype) + U16(|m.payload|) + m.payload
  }

  function RawFrame(p: seq<Byte>): (b: seq<Byte>)
    ensures |b| == 3 + |p|
  {
    [0x01] + U16(|p|) + p
  }

  /** The prologue of the client's handshake: "NoiseAPIInit" and two zero bytes. */
  const PROLOGUE: seq<Byte> := [0x4e, 0x6f, 0x69, 0x73, 0x65, 0x41, 0x50, 0x49, 0x49, 0x6e, 0x69, 0x74, 0x00, 0x00]

  function EncodeEncrypted(c: Noise.Cipher, m: Message): (r: (Noise.Cipher, seq<Byte>))
    requires Noise.CipherOk(c)
    ensures Noise.CipherOk(r.0)
  {
    hide Noise.EncryptWithAd;
    Noise.EncryptKeepsKey(c, [], Inner(m));
    var e := Noise.EncryptWithAd(c, [], Inner(m));
    (e.0, RawFrame(e.1))
  }

  // ----- both -----

  function Decide(c: Codec, b: seq<Byte>): (d: Decision)
    requires CodecOk(c)
    ensures d.Frame? ==> 0 < d.used <= |b| && CodecOk(d.codec)
  {
    hide DecidePlaintext, DecideEncrypted;
    match c
    case Plaintext => DecidePlaintext(b)
    case Encrypted(r) => DecideEncrypted(r, b)
  }

  /** What a drained buffer gives: the messages, the codec state and bytes left over, and
      the error that stopped it, if any. */
  datatype Outcome = Outcome(messages: seq<Message>, codec: Codec, rest: seq<Byte>, error: Option<Error>)

  function Deliver(m: Option<Message>): (s: seq<Message>)
  {
    if m.Some? then [m.value] else []
  }

  /** Take frames until more bytes are needed or the input is refused. */
  function Drain(c: Codec, b: seq<Byte>): (o: Outcome)
    requires CodecOk(c)
    ensures CodecOk(o.codec)
    decreases |b|
  {
    hide Decide;
    var d := Decide(c, b);
    if d.NeedMore? then Outcome([], c, b, None)
    else if d.Bad? then Outcome([], c, b, Some(d.error))
    else
      var o := Drain(d.codec, b[d.used..]);
      o.(messages := Deliver(d.message) + o.messages)
  }

  /** One chunk arriving after what has been handled so far; nothing is read after an error. */
  function Receive(o: Outcome, chunk: seq<Byte>): (r: Outcome)
    requires CodecOk(o.codec)
    ensures CodecOk(r.codec)
  {
    hide Drain;
    if o.error.Some? then o
    else
      var n := Drain(o.codec, o.rest + chunk);
      n.(messages := o.messages + n.messages)
  }

  function ReceiveAll(o: Outcome, chunks: seq<seq<Byte>>): (r: Outcome)
    requires CodecOk(o.codec)
    ensures CodecOk(r.codec)
    decreases |chunks|
  {
    hide Receive;
    if chunks == [] then o else ReceiveAll(Receive(o, chunks[0]), chunks[1..])
  }

  function Concat(chunks: seq<seq<Byte>>): (b: seq<Byte>)
  {
    if chunks == [] then [] else chunks[0] + Concat(chunks[1..])
  }

  // ----- pulling one message -----

  /** A helper whose handshake was rejected still takes one raw frame out of the buffer at
      each call, and returns no message. */
  function Unread(b: seq<Byte>): (rest: seq<Byte>)
  {
    if NextRaw(b).Body? then b[NextRaw(b).used..] else b
  }

  /** What a call of next leaves: the codec, the bytes not consumed, and its result. */
  datatype Pulled = Pulled(codec: Codec, rest: seq<Byte>, result: Result)
  datatype Result = Wait | Got(message: Message) | Refused(error: Error)

  /** Handshake frames carry no message and are passed over. */
  function Pull(c: Codec, b: seq<Byte>): (p: Pulled)
    requires CodecOk(c)
    ensures CodecOk(p.codec)
    ensures p.result.Got? ==> |p.rest| < |b|
    decreases |b|
  {
    hide Decide;
    var d := Decide(c, b);
    if d.NeedMore? then Pulled(c, b, Wait)
    else if d.Bad? then Pulled(c, b, Refused(d.error))
    else if d.message.Some? then Pulled(d.codec, b[d.used..], Got(d.message.value))
    else Pull(d.codec, b[d.used..])
  }

  /** Pulling message after message is draining. */
  lemma {:induction false} DrainIsPulls(c: Codec, b: seq<Byte>)
    requires CodecOk(c)
    ensures var p := Pull(c, b);
            && (p.result.Wait? ==> Drain(c, b) == Outcome([], p.codec, p.rest, None))
            && (p.result.Refused? ==> Drain(c, b) == Outcome([], p.codec, p.rest, Some(p.result.error)))
            && (p.result.Got? ==> var o := Drain(p.codec, p.rest);
                                  Drain(c, b) == o.(messages := [p.result.message] + o.messages))
    decreases |b|
  {
    hide Decide;
    var d := Decide(c, b);
    if d.Frame? && d.message.None? {
      DrainIsPulls(d.codec, b[d.used..]);
      var o := Drain(d.codec, b[d.used..]);
      assert [] + o.messages == o.messages;
    }
  }
}
