/** The messages the connection itself understands, from their bytes: the registry's numbers,
    their schemas, and what decoding gives. */
module Registry {
  import opened Arith
  import opened Options
  import opened Proto
  import opened ProtoMerge
  import ProtoLaws
  import ProtoScalars
  import C = ConnectionSpec
  import ConnectionBytes
  import ConnectionSession
  import F = FrameSpec
  import SessionLaws
  import NoiseLaws
  import Noise = NoiseSpec
  import Wire

  const HELLO_RESPONSE: nat := 2
  const AUTHENTICATION_RESPONSE: nat := 4
  const DISCONNECT_REQUEST: nat := 5
  const DISCONNECT_RESPONSE: nat := 6
  const PING_REQUEST: nat := 7
  const PING_RESPONSE: nat := 8

  /** api_version_major, api_version_minor, server_info, name */
  const HELLO: Schema := Schema([
    Field(1, Numeric(Uint32), false, None), Field(2, Numeric(Uint32), false, None),
    Field(3, Text, false, None), Field(4, Text, false, None)])

  /** invalid_password */
  const AUTHENTICATION: Schema := Schema([Field(1, Numeric(Bool), false, None)])

  const EMPTY: Schema := Schema([])

  function SchemaOf(id: nat): (s: Schema)
  {
    if id == HELLO_RESPONSE then HELLO else if id == AUTHENTICATION_RESPONSE then AUTHENTICATION else EMPTY
  }

  predicate Known(id: nat)
  {
    id == HELLO_RESPONSE || AUTHENTICATION_RESPONSE <= id <= PING_RESPONSE
  }

  // ----- accessors -----

  function NumberAt(m: Msg, n: nat): (v: U32)
  {
    if n in m.slots && m.slots[n].Num? && 0 <= m.slots[n].n < 0x1_0000_0000 then m.slots[n].n else 0
  }

  function Chars(b: seq<Byte>): (s: string)
  {
    seq(|b|, i requires 0 <= i < |b| => b[i] as char)
  }

  function TextAt(m: Msg, n: nat): (s: string)
  {
    if n in m.slots && m.slots[n].Str? then Chars(m.slots[n].b) else ""
  }

  function Build(id: nat, m: Msg): (r: C.Message)
  {
    if id == HELLO_RESPONSE then C.HelloResponse(NumberAt(m, 1), NumberAt(m, 2), TextAt(m, 4))
    else if id == AUTHENTICATION_RESPONSE then C.AuthenticationResponse(NumberAt(m, 1) != 0)
    else if id == DISCONNECT_REQUEST then C.DisconnectRequest
    else if id == DISCONNECT_RESPONSE then C.DisconnectResponse
    else if id == PING_REQUEST then C.PingRequest
    else C.PingResponse
  }

  /** handle_frame's decoding; `other` stands for the messages handled elsewhere. */
  function Parse(other: ConnectionBytes.Parser, m: F.Message): (r: C.Message)
  {
    if !Known(m.mtype) then other(m)
    else match Decode(SchemaOf(m.mtype), Default(SchemaOf(m.mtype)), m.payload)
         case None => C.Unparsable
         case Some(d) => Build(m.mtype, d)
  }

  // ----- what the device wrote is what is understood -----

  function HelloMessage(major: U32, minor: U32, info: seq<Byte>, name: seq<Byte>): (m: Msg)
  {
    Msg(map[1 := Num(major), 2 := Num(minor), 3 := Str(info), 4 := Str(name)])
  }

  /** A schema without nested messages whose numbers ascend. */
  lemma {:induction false} FlatSchema(fs: seq<Field>)
    requires forall i :: 0 <= i < |fs| ==> fs[i].number < 0x8000_0000 && !fs[i].ftype.Nested?
    requires forall i, j :: 0 <= i < j < |fs| ==> fs[i].number < fs[j].number
    ensures WellFormed(Schema(fs))
  {
  }

  lemma HelloFields(i: nat)
    requires i < 4
    ensures |HELLO.fields| == 4 && HELLO.fields[i].number == i + 1 && !HELLO.fields[i].repeated
    ensures HELLO.fields[i].ftype == if i < 2 then Numeric(Uint32) else Text
  {
  }

  lemma HelloOk(major: U32, minor: U32, info: seq<Byte>, name: seq<Byte>)
    ensures var m := HelloMessage(major, minor, info, name);
            WellFormed(HELLO) && Valid(HELLO, m) && ProtoLaws.Clean(HELLO, m)
  {
    hide HELLO;
    var m := HelloMessage(major, minor, info, name);
    HelloFields(0);
    HelloFields(1);
    HelloFields(2);
    HelloFields(3);
    FlatSchema(HELLO.fields);
    assert Numbers(HELLO.fields) == m.slots.Keys by {
      hide WellFormed, Valid, ProtoLaws.Clean;
      assert m.slots.Keys == {1, 2, 3, 4};
    }
  }

  /** A hello, encoded by the device, is read as its version and name. */
  lemma HelloUnderstood(other: ConnectionBytes.Parser, major: U32, minor: U32, info: seq<Byte>, name: seq<Byte>)
    requires Size(HELLO, HelloMessage(major, minor, info, name)) < Wire.TWO64
    ensures Parse(other, F.Message(HELLO_RESPONSE, Encode(HELLO, HelloMessage(major, minor, info, name))))
         == C.HelloResponse(major, minor, Chars(name))
  {
    hide Decode, Default, Encode, Size, Chars, WellFormed, Valid, ProtoLaws.Clean;
    HelloOk(major, minor, info, name);
    ProtoLaws.RoundTrip(HELLO, HelloMessage(major, minor, info, name));
  }

  lemma AuthenticationOk(invalid: bool)
    ensures var m := Msg(map[1 := Num(if invalid then 1 else 0)]);
            WellFormed(AUTHENTICATION) && Valid(AUTHENTICATION, m) && ProtoLaws.Clean(AUTHENTICATION, m)
  {
    assert Numbers(AUTHENTICATION.fields) == {1} by {
      assert AUTHENTICATION.fields[0].number == 1;
    }
  }

  lemma AuthenticationUnderstood(other: ConnectionBytes.Parser, invalid: bool)
    requires Size(AUTHENTICATION, Msg(map[1 := Num(if invalid then 1 else 0)])) < Wire.TWO64
    ensures Parse(other, F.Message(AUTHENTICATION_RESPONSE, Encode(AUTHENTICATION, Msg(map[1 := Num(if invalid then 1 else 0)]))))
         == C.AuthenticationResponse(invalid)
  {
    hide Decode, Default, Encode, Size, WellFormed, Valid, ProtoLaws.Clean;
    AuthenticationOk(invalid);
    ProtoLaws.RoundTrip(AUTHENTICATION, Msg(map[1 := Num(if invalid then 1 else 0)]));
  }

  /** End to end, down to the bytes of the hello: however the device's bytes are cut, the
      connection is made and the handler has success. */
  lemma ConnectsToBytes(u: ConnectionBytes.Setup, other: ConnectionBytes.Parser, psk: seq<Byte>, b: seq<Byte>,
                        hello: seq<Byte>, expected: seq<Byte>,
                        major: U32, minor: U32, info: seq<Byte>, name: seq<Byte>, chunks: seq<seq<Byte>>)
    requires ConnectionBytes.SetupOk(u) && (forall k :: !u.cfg.user(k)) && (forall m :: u.parse(m) == Parse(other, m))
    requires |psk| == 32 && |b| == 32 && u.codec == ConnectionSession.ClientCodec(psk, expected)
    requires NoiseLaws.Agrees(u.random, b) && !NoiseLaws.Degenerate(u.random, b)
    requires SessionLaws.GoodHello(hello, expected)
    requires Size(HELLO, HelloMessage(major, minor, info, name)) <= 65515
    requires C.Accepted(u.cfg, C.Announced(major, minor, Chars(name)))
    ensures NoiseLaws.Handshake(psk, F.PROLOGUE, u.random, b, [], []).Some?
    ensures var s := NoiseLaws.Handshake(psk, F.PROLOGUE, u.random, b, [], []).value;
            var m := F.Message(HELLO_RESPONSE, Encode(HELLO, HelloMessage(major, minor, info, name)));
            F.Concat(chunks) == SessionLaws.DeviceStream(hello, s.message2, Noise.Split(s.responder).0, [m]) ==>
              var t := ConnectionSession.Receive(u, ConnectionSession.Waiting(u), chunks).conn;
              t.state == C.Connected && t.seen.results == [C.Success]
  {
    hide Noise.Split, NoiseLaws.Handshake, NoiseLaws.Agrees, NoiseLaws.Degenerate, SessionLaws.DeviceStream, SessionLaws.GoodHello,
         ConnectionSession.Receive, ConnectionSession.Waiting, ConnectionSession.ClientCodec, ConnectionBytes.SetupOk,
         C.Accepted, C.Announced, F.Concat, Parse, Encode, Size, Chars;
    var m := F.Message(HELLO_RESPONSE, Encode(HELLO, HelloMessage(major, minor, info, name)));
    HelloUnderstood(other, major, minor, info, name);
    ProtoScalars.EncodedSize(HELLO, HelloMessage(major, minor, info, name));
    ConnectionSession.Connects(u, psk, b, hello, expected, m, chunks);
  }
}
