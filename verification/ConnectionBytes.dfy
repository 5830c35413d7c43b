/** The connection over raw bytes: what the frame helper brings up is what the frame codec
    decides about the chunks received. */
module ConnectionBytes {
  import opened Arith
  import opened Options
  import opened ConnectionSpec
  import opened Laws = ConnectionLaws
  import Runs = ConnectionRuns
  import F = FrameSpec
  import FrameLaws
  import Noise = NoiseSpec
  import opened Primitives

  /** The registry and the protobuf decoder: what message a frame carries. */
  type Parser = F.Message -> Message

  // ----- what the codec brings up -----

  /** The handshake as the connection sees it. */
  function Stage(c: F.Codec): (h: Handshake)
  {
    if c.Encrypted? && !c.receiver.phase.Ready? then Pending else Done
  }

  /** What a decision about the buffer makes the connection do. */
  function ItemsOf(parse: Parser, d: F.Decision): (items: seq<Item>)
  {
    match d
    case NeedMore => []
    case Bad(e) => if e == F.HandshakeRejected then [Rejected] else [Malformed]
    case Frame(used, c, m) =>
      if m.Some? then [Frame(parse(m.value))] else if Stage(c) == Done then [Ready] else []
  }

  datatype Surfaced = Surfaced(items: seq<Item>, codec: F.Codec, rest: seq<Byte>, stopped: bool)

  /** Everything the buffer brings up, and the codec and bytes left. */
  function Surface(parse: Parser, c: F.Codec, b: seq<Byte>): (s: Surfaced)
    requires F.CodecOk(c)
    ensures F.CodecOk(s.codec)
    decreases |b|
  {
    hide F.Decide, F.CodecOk;
    var d := F.Decide(c, b);
    if !d.Frame? then Surfaced(ItemsOf(parse, d), c, b, d.Bad?)
    else
      var s := Surface(parse, d.codec, b[d.used..]);
      s.(items := ItemsOf(parse, d) + s.items)
  }

  lemma SurfaceStep(parse: Parser, c: F.Codec, b: seq<Byte>)
    requires F.CodecOk(c)
    ensures var d := F.Decide(c, b);
            if !d.Frame? then Surface(parse, c, b) == Surfaced(ItemsOf(parse, d), c, b, d.Bad?)
            else
              var s := Surface(parse, d.codec, b[d.used..]);
              Surface(parse, c, b) == s.(items := ItemsOf(parse, d) + s.items)
  {
    hide F.Decide, F.CodecOk, ItemsOf;
  }

  /** The phases of the handshake show in the decisions. */
  lemma DecisionStage(c: F.Codec, b: seq<Byte>)
    requires F.CodecOk(c)
    ensures var d := F.Decide(c, b);
            && (d.Frame? && d.message.Some? ==> Stage(c) == Done && Stage(d.codec) == Done)
            && (d.Frame? && d.message.None? ==> Stage(c) == Pending)
            && (d == F.Bad(F.HandshakeRejected) ==> Stage(c) == Pending)
  {
    hide F.PlaintextType, F.NextRaw, F.ServerHello, F.ServerHandshake, F.Transport;
    if c.Encrypted? {
      EncryptedStage(c.receiver, b);
    } else {
      PlaintextStage(b);
    }
  }

  lemma PlaintextStage(b: seq<Byte>)
    ensures var d := F.DecidePlaintext(b); (d.Frame? ==> d.message.Some?) && d != F.Bad(F.HandshakeRejected)
  {
    hide F.BudgetVarint.Decode;
  }

  lemma EncryptedStage(r: F.Receiver, b: seq<Byte>)
    requires F.CodecOk(F.Encrypted(r))
    ensures var d := F.DecideEncrypted(r, b);
            && (d.Frame? && d.message.Some? ==> r.phase.Ready? && d.codec.Encrypted? && d.codec.receiver.phase.Ready?)
            && (d.Frame? && d.message.None? ==> !r.phase.Ready?)
            && (d == F.Bad(F.HandshakeRejected) ==> !r.phase.Ready?)
  {
    hide F.ServerHello, F.ServerHandshake, F.Transport, F.NextRaw;
    var raw := F.NextRaw(b);
    RawErrors(b);
    if raw.Body? {
      RecordStage(r, raw.payload, raw.used);
    }
  }

  lemma RawErrors(b: seq<Byte>)
    ensures F.NextRaw(b).Broken? ==> F.NextRaw(b).error != F.HandshakeRejected
  {
  }

  lemma RecordStage(r: F.Receiver, p: seq<Byte>, used: nat)
    requires F.CodecOk(F.Encrypted(r))
    ensures var d := F.Transport(r, p, used);
            && !d.NeedMore? && d != F.Bad(F.HandshakeRejected)
            && (d.Frame? ==> d.message.Some? && d.codec.Encrypted? && d.codec.receiver.phase == r.phase)
  {
    hide Noise.DecryptWithAd;
  }

  /** What comes up is in order, and shows where the handshake stands afterwards. */
  lemma {:induction false} SurfaceSensible(parse: Parser, c: F.Codec, b: seq<Byte>)
    requires F.CodecOk(c)
    ensures var s := Surface(parse, c, b);
            && Sensible(Stage(c), s.items)
            && (!s.stopped ==> Stage(s.codec) == (if Ready in s.items then Done else Stage(c)))
            && (s.stopped <==> Rejected in s.items || Malformed in s.items)
    decreases |b|
  {
    hide F.Decide, F.CodecOk, Surface;
    var d := F.Decide(c, b);
    SurfaceStep(parse, c, b);
    DecisionStage(c, b);
    if d.Frame? {
      var s := Surface(parse, d.codec, b[d.used..]);
      SurfaceSensible(parse, d.codec, b[d.used..]);
      var one := ItemsOf(parse, d);
      if one == [] {
        assert one + s.items == s.items;
      } else {
        assert (one + s.items)[1..] == s.items;
        NotReadyAgain(s.items);
      }
    }
  }

  lemma {:induction false} NotReadyAgain(items: seq<Item>)
    ensures Sensible(Done, items) ==> Ready !in items
    decreases |items|
  {
    if items != [] {
      NotReadyAgain(items[1..]);
      assert items == [items[0]] + items[1..];
    }
  }

  /** The codec, the bytes left and the messages are those of draining. */
  lemma {:induction false} SurfaceIsDrain(parse: Parser, c: F.Codec, b: seq<Byte>)
    requires F.CodecOk(c)
    ensures var s, o := Surface(parse, c, b), F.Drain(c, b);
            s.codec == o.codec && s.rest == o.rest && s.stopped == o.error.Some?
    decreases |b|
  {
    hide F.Decide, F.CodecOk, Surface, F.Drain;
    SurfaceStep(parse, c, b);
    FrameLaws.DrainStep(c, b);
    var d := F.Decide(c, b);
    if d.Frame? {
      SurfaceIsDrain(parse, d.codec, b[d.used..]);
    }
  }

  // ----- byte runs -----

  /** A connection with its frame codec and the bytes waiting in it. */
  datatype Wired = Wired(conn: Conn, codec: F.Codec, rest: seq<Byte>)

  datatype ByteEvent = Chunk(data: seq<Byte>) | Plain(event: Event)

  /** random: the client's ephemeral key, drawn when the first flight is written. */
  datatype Setup = Setup(cfg: Config, parse: Parser, codec: F.Codec, random: seq<Byte>)

  /** The client has the initiator's part in the handshake. */
  predicate Client(c: F.Codec)
  {
    c.Encrypted? ==> c.receiver.party.role.Initiator?
  }

  lemma ClientDecides(c: F.Codec, b: seq<Byte>)
    requires F.CodecOk(c) && Client(c)
    ensures F.Decide(c, b).Frame? ==> Client(F.Decide(c, b).codec)
  {
    hide F.NextRaw, F.ServerHello, F.ServerHandshake, F.Transport, F.DecidePlaintext;
    if c.Encrypted? && F.NextRaw(b).Body? {
      ClientKept(c.receiver, F.NextRaw(b).payload, F.NextRaw(b).used);
    }
  }

  lemma ClientKept(r: F.Receiver, p: seq<Byte>, used: nat)
    requires F.CodecOk(F.Encrypted(r))
    ensures F.ServerHello(r, p).Some? ==> F.ServerHello(r, p).value.party == r.party
    ensures F.ServerHandshake(r, p).Some? ==> F.ServerHandshake(r, p).value.party.role == r.party.role
    ensures var d := F.Transport(r, p, used); d.Frame? ==> d.codec.Encrypted? && d.codec.receiver.party == r.party
  {
    hide F.NameOf, Noise.DecryptWithAd, Noise.Split, Noise.ReadMessage;
    if p != [] {
      RoleKept(r.party, p[1..]);
    }
  }

  lemma RoleKept(p: Noise.Party, m: seq<Byte>)
    requires Noise.PartyOk(p)
    ensures Noise.ReadMessage(p, m).Some? ==> Noise.ReadMessage(p, m).value.0.role == p.role
  {
    hide Noise.MixEphemeral, Noise.MixKey, Noise.MixKeyAndHash, Noise.DecryptAndHash, Dh;
  }

  lemma {:induction false} ClientSurface(parse: Parser, c: F.Codec, b: seq<Byte>)
    requires F.CodecOk(c) && Client(c)
    ensures Client(Surface(parse, c, b).codec)
    decreases |b|
  {
    hide F.Decide, F.CodecOk, Surface, Client;
    SurfaceStep(parse, c, b);
    ClientDecides(c, b);
    var d := F.Decide(c, b);
    if d.Frame? {
      ClientSurface(parse, d.codec, b[d.used..]);
    }
  }

  /** The first flight is always written. */
  lemma FlightWritten(p: Noise.Party, random: seq<Byte>)
    requires Noise.PartyOk(p) && p.role.Initiator? && |random| == 32
    ensures Noise.WriteMessage(p, [], random).Some? && Noise.WriteMessage(p, [], random).value.0.role.Initiator?
  {
    hide Noise.MixEphemeral, Noise.MixKey, Noise.MixKeyAndHash, Noise.EncryptAndHash, PublicKey;
  }

  lemma ClientFlown(u: Setup, c: F.Codec)
    requires F.CodecOk(c) && Client(c) && |u.random| == 32
    ensures Client(Flown(u, c))
    ensures c.Encrypted? ==>
              var w := Noise.WriteMessage(c.receiver.party, [], u.random);
              w.Some? && Flown(u, c) == F.Encrypted(c.receiver.(party := w.value.0))
  {
    hide Noise.WriteMessage;
    if c.Encrypted? {
      FlightWritten(c.receiver.party, u.random);
    }
  }

  ghost predicate SetupOk(u: Setup)
  {
    && F.CodecOk(u.codec) && |u.random| == 32
    && (u.cfg.needsHandshake <==> Stage(u.codec) == Pending) && (u.codec.Encrypted? ==> u.cfg.needsHandshake)
    && Client(u.codec)
  }

  function Init(u: Setup): (w: Wired)
  {
    Wired(ConnectionSpec.Init(u.cfg), u.codec, [])
  }

  /** connect_bytes changes the handshake state of the codec. */
  function Flown(u: Setup, c: F.Codec): (d: F.Codec)
    requires F.CodecOk(c) && |u.random| == 32
    ensures F.CodecOk(d) && Stage(d) == Stage(c)
  {
    hide Noise.WriteMessage;
    match c
    case Plaintext => c
    case Encrypted(r) =>
      (match Noise.WriteMessage(r.party, [], u.random)
       case None => c
       case Some(w) => F.Encrypted(r.(party := w.0)))
  }

  ghost predicate EnabledBytes(w: Wired, e: ByteEvent)
  {
    match e
    case Chunk(_) => w.conn.link.reading && w.conn.link.open
    case Plain(p) => !p.Bytes? && Enabled(w.conn, p)
  }

  /** The event the connection sees. */
  function Lift(u: Setup, w: Wired, e: ByteEvent): (p: Event)
    requires F.CodecOk(w.codec)
  {
    match e
    case Chunk(data) => Bytes(Surface(u.parse, w.codec, w.rest + data).items)
    case Plain(p) => p
  }

  function StepBytes(u: Setup, w: Wired, e: ByteEvent, conn: Conn): (v: Wired)
    requires F.CodecOk(w.codec) && |u.random| == 32
    ensures F.CodecOk(v.codec) && v.conn == conn
  {
    hide Surface, F.CodecOk;
    match e
    case Chunk(data) =>
      var s := Surface(u.parse, w.codec, w.rest + data);
      Wired(conn, s.codec, s.rest)
    case Plain(p) =>
      if p == ConnectResult(true) then Wired(conn, Flown(u, w.codec), w.rest) else w.(conn := conn)
  }

  // ----- the codec and the connection stay together -----

  /** While the transport is open, both agree on where the handshake stands. */
  ghost predicate Linked(u: Setup, w: Wired)
  {
    && F.CodecOk(w.codec) && Client(w.codec) && Inv(u.cfg, w.conn)
    && (w.conn.link.open ==> w.conn.link.handshake == Stage(w.codec))
  }

  lemma EndedShut(cfg: Config, s: Conn)
    requires Inv(cfg, s) && s.link.open
    ensures !Ended(s)
  {
  }

  lemma StopsConnection(cfg: Config, s: Conn, i: Item)
    requires i.Rejected? || i.Malformed?
    ensures Ended(HandleItem(cfg, s, i))
  {
    hide Fail;
    Runs.FailEnds(cfg, s, ProtocolError);
    Runs.FailEnds(cfg, s.(link := s.link.(handshake := Broken)), ProtocolError);
  }

  /** A connection still open after the items has handled them all. */
  lemma {:induction false} ItemsHandshake(cfg: Config, s: Conn, items: seq<Item>)
    requires Inv(cfg, s) && s.state != Disconnected && Sensible(s.link.handshake, items)
    requires !Ended(s) && s.link.handshake == Pending ==> s.state == Connecting && s.link.reading
    ensures var t := HandleItems(cfg, s, items);
            t.link.open ==> t.link.handshake == (if Ready in items then Done else s.link.handshake)
    decreases |items|
  {
    hide Inv, HandleItem;
    ItemsKeep(cfg, s, items);
    if items != [] && HandleItems(cfg, s, items).link.open {
      EndedShut(cfg, HandleItems(cfg, s, items));
      var t := HandleItem(cfg, s, items[0]);
      ItemKeeps(cfg, s, items[0]);
      assert items == [items[0]] + items[1..];
      if items[0].Rejected? || items[0].Malformed? {
        StopsConnection(cfg, s, items[0]);
      } else {
        ItemsHandshake(cfg, t, items[1..]);
      }
    }
  }

  /** Nothing but bytes moves the handshake, and a closed transport stays closed. */
  ghost predicate LinkKept(s: Conn, t: Conn)
  {
    t.link.handshake == s.link.handshake && (t.link.open ==> s.link.open)
  }

  lemma FailLink(cfg: Config, s: Conn, e: Error)
    ensures LinkKept(s, Fail(cfg, s, e))
  {
    hide Fail, StopConnect, StopKeepalive;
    FailCases(cfg, s, e);
  }

  lemma CallbackLink(cfg: Config, s: Conn)
    ensures LinkKept(s, Callback(cfg, s))
  {
    hide Callback, StopKeepalive;
    CallbackCases(cfg, s);
  }

  lemma DisconnectLink(cfg: Config, s: Conn)
    ensures LinkKept(s, Disconnect(cfg, s))
  {
    hide Disconnect, StopKeepalive;
    DisconnectCases(cfg, s);
  }

  lemma FireLink(cfg: Config, s: Conn, id: nat)
    requires id in s.timers.armed && (s.timers.armed[id].kind.PingDue? ==> cfg.interval > 0)
    ensures LinkKept(s, Fire(cfg, s, id))
  {
    hide Fail, Cancel, ArmPing, ArmPong;
    var c := s.(timers := Cancel(s.timers, id));
    FailLink(cfg, c, TimedOut);
    FailLink(cfg, c.(timers := c.timers.(pong := 0)), TimedOut);
  }

  lemma StepLink(cfg: Config, s: Conn, e: Event)
    requires !e.Bytes?
    requires e.TimerFires? ==> e.id in s.timers.armed && (s.timers.armed[e.id].kind.PingDue? ==> cfg.interval > 0)
    ensures LinkKept(s, Step(cfg, s, e))
  {
    hide Callback, Fail, StopKeepalive, Fire, Disconnect;
    match e
    case StartCalled => CallbackLink(cfg, Enter(s.(owed := true, since := s.timers.now), Connecting));
    case ConnectResult(ok) =>
      var c := s.(link := s.link.(connecting := false));
      FailLink(cfg, c, TcpFailed);
      CallbackLink(cfg, Enter(SendHello(cfg, c.(link := c.link.(reading := true))), HelloSent));
    case ReadError => FailLink(cfg, s, ReadFailed);
    case DisconnectCalled => DisconnectLink(cfg, s);
    case DisconnectWritten => CallbackLink(cfg, Enter(s.(link := s.link.(writing := false, open := false)), Closed));
    case TimerFires(id) => FireLink(cfg, s, id);
    case TimePasses(d) =>
  }

  lemma LiftEnabled(u: Setup, w: Wired, e: ByteEvent)
    requires Linked(u, w) && EnabledBytes(w, e)
    ensures Enabled(w.conn, Lift(u, w, e))
  {
    hide Surface, Sensible, Inv, F.CodecOk;
    match e
    case Chunk(data) => SurfaceSensible(u.parse, w.codec, w.rest + data);
    case Plain(p) =>
  }

  /** One byte event keeps codec and connection together. */
  lemma StepLinked(u: Setup, w: Wired, e: ByteEvent)
    requires |u.random| == 32 && Linked(u, w) && EnabledBytes(w, e)
    ensures var p := Lift(u, w, e);
            && Enabled(w.conn, p)
            && (p.TimerFires? ==> p.id in w.conn.timers.armed && (w.conn.timers.armed[p.id].kind.PingDue? ==> u.cfg.interval > 0))
            && Linked(u, StepBytes(u, w, e, Step(u.cfg, w.conn, p)))
  {
    hide Surface, Sensible, Inv, F.CodecOk, Step, Flown, Client;
    LiftEnabled(u, w, e);
    var p := Lift(u, w, e);
    StepKeeps(u.cfg, w.conn, p);
    match e
    case Chunk(data) =>
      ChunkLinked(u, w, data);
      ClientSurface(u.parse, w.codec, w.rest + data);
    case Plain(_) =>
      StepLink(u.cfg, w.conn, p);
      ClientFlown(u, w.codec);
  }

  lemma ChunkLinked(u: Setup, w: Wired, data: seq<Byte>)
    requires Linked(u, w) && EnabledBytes(w, Chunk(data))
    ensures var s := Surface(u.parse, w.codec, w.rest + data);
            var t := Step(u.cfg, w.conn, Bytes(s.items));
            t.link.open ==> t.link.handshake == Stage(s.codec)
  {
    hide Surface, Sensible, HandleItems, F.CodecOk;
    var s := Surface(u.parse, w.codec, w.rest + data);
    SurfaceSensible(u.parse, w.codec, w.rest + data);
    BytesReady(u.cfg, w.conn, s.items);
    ItemsHandshake(u.cfg, w.conn, s.items);
    if HandleItems(u.cfg, w.conn, s.items).link.open {
      AllHandled(u.cfg, w.conn, s.items);
    }
  }

  /** What ends the connection is not among items that leave it open. */
  lemma {:induction false} AllHandled(cfg: Config, s: Conn, items: seq<Item>)
    requires Inv(cfg, s) && s.state != Disconnected && Sensible(s.link.handshake, items)
    requires !Ended(s) && s.link.handshake == Pending ==> s.state == Connecting && s.link.reading
    requires HandleItems(cfg, s, items).link.open
    ensures Rejected !in items && Malformed !in items
    decreases |items|
  {
    hide Inv, HandleItem;
    ItemsKeep(cfg, s, items);
    EndedShut(cfg, HandleItems(cfg, s, items));
    if items != [] {
      var t := HandleItem(cfg, s, items[0]);
      ItemKeeps(cfg, s, items[0]);
      assert items == [items[0]] + items[1..];
      if items[0].Rejected? || items[0].Malformed? {
        StopsConnection(cfg, s, items[0]);
      } else {
        AllHandled(cfg, t, items[1..]);
      }
    }
  }

  // ----- runs over bytes -----

  ghost predicate LegalBytes(u: Setup, es: seq<ByteEvent>)
    requires SetupOk(u)
    decreases |es|, 0
  {
    es == [] || (LegalBytes(u, es[..|es| - 1]) && EnabledBytes(AfterBytes(u, es[..|es| - 1]), es[|es| - 1]))
  }

  ghost function AfterBytes(u: Setup, es: seq<ByteEvent>): (w: Wired)
    requires SetupOk(u) && LegalBytes(u, es)
    ensures Linked(u, w)
    decreases |es|, 1
  {
    hide Linked, StepBytes, Step;
    if es == [] then
      InitLinked(u);
      Init(u)
    else
      var p, e := AfterBytes(u, es[..|es| - 1]), es[|es| - 1];
      StepLinked(u, p, e);
      StepBytes(u, p, e, Step(u.cfg, p.conn, Lift(u, p, e)))
  }

  lemma InitLinked(u: Setup)
    requires SetupOk(u)
    ensures Linked(u, Init(u))
  {
    hide F.CodecOk, Client;
    Runs.InitOk(u.cfg);
  }

  /** The run as the connection sees it. */
  ghost function Lifted(u: Setup, es: seq<ByteEvent>): (fs: seq<Event>)
    requires SetupOk(u) && LegalBytes(u, es)
    decreases |es|
  {
    if es == [] then []
    else Lifted(u, es[..|es| - 1]) + [Lift(u, AfterBytes(u, es[..|es| - 1]), es[|es| - 1])]
  }

  /** Every run over raw bytes is a run of the state machine. */
  lemma {:induction false} BytesAreEvents(u: Setup, es: seq<ByteEvent>)
    requires SetupOk(u) && LegalBytes(u, es)
    ensures Runs.Legal(u.cfg, Lifted(u, es)) && Runs.After(u.cfg, Lifted(u, es)) == AfterBytes(u, es).conn
    decreases |es|
  {
    hide Runs.Legal, Runs.After, Step, Lift, Inv, F.CodecOk, StepBytes;
    if es == [] {
      Runs.Nothing(u.cfg);
    } else {
      var p, e := es[..|es| - 1], es[|es| - 1];
      BytesAreEvents(u, p);
      var w := AfterBytes(u, p);
      StepLinked(u, w, e);
      Runs.Extend(u.cfg, Lifted(u, p), Lift(u, w, e));
    }
  }

  /** Over every run of chunks, timers and calls, with any bytes in the chunks, the promises
      about the connect handler hold. */
  lemma HandlerOverBytes(u: Setup, es: seq<ByteEvent>)
    requires SetupOk(u) && LegalBytes(u, es)
    ensures Runs.HandlerKept(u.cfg, AfterBytes(u, es).conn)
  {
    hide Runs.Legal, Runs.After, Runs.HandlerKept, Lifted, AfterBytes, LegalBytes, SetupOk;
    BytesAreEvents(u, es);
    Runs.ConnectHandler(u.cfg, Lifted(u, es));
  }

  lemma {:induction false} BytePrefix(u: Setup, es: seq<ByteEvent>, k: nat)
    requires SetupOk(u) && LegalBytes(u, es) && k <= |es|
    ensures LegalBytes(u, es[..k]) && |Lifted(u, es)| == |es| && Lifted(u, es)[..k] == Lifted(u, es[..k])
    decreases |es|
  {
    hide EnabledBytes, AfterBytes, Lift, SetupOk;
    if es == [] {
    } else if k == |es| {
      assert es[..k] == es;
      BytePrefix(u, es[..|es| - 1], 0);
    } else {
      var p := es[..|es| - 1];
      BytePrefix(u, p, k);
      assert p[..k] == es[..k];
    }
  }

  /** In the k-th event the device is heard: the chunk completes a pong, or makes the
      connection. */
  ghost predicate HeardChunk(u: Setup, es: seq<ByteEvent>, k: nat)
    requires SetupOk(u) && LegalBytes(u, es) && 0 < k <= |es|
  {
    BytePrefix(u, es, k - 1);
    BytePrefix(u, es, k);
    var w, v := AfterBytes(u, es[..k - 1]), AfterBytes(u, es[..k]);
    && es[k - 1].Chunk?
    && (|| Frame(PingResponse) in Surface(u.parse, w.codec, w.rest + es[k - 1].data).items
        || (w.conn.state != Connected && v.conn.state == Connected))
  }

  ghost function ByteTime(u: Setup, es: seq<ByteEvent>, k: nat): (t: nat)
    requires SetupOk(u) && LegalBytes(u, es) && k <= |es|
  {
    BytePrefix(u, es, k);
    AfterBytes(u, es[..k]).conn.timers.now
  }

  lemma SameHeard(u: Setup, es: seq<ByteEvent>, k: nat)
    requires SetupOk(u) && LegalBytes(u, es) && 0 < k <= |es|
    ensures Runs.Legal(u.cfg, Lifted(u, es)) && |Lifted(u, es)| == |es|
    ensures Runs.HeardAt(u.cfg, Lifted(u, es), k) ==> HeardChunk(u, es, k)
    ensures Runs.TimeAt(u.cfg, Lifted(u, es), k) == ByteTime(u, es, k)
  {
    hide Runs.Legal, Runs.After, AfterBytes, LegalBytes, Surface, SetupOk, Lifted;
    BytesAreEvents(u, es);
    BytePrefix(u, es, k - 1);
    BytePrefix(u, es, k);
    BytesAreEvents(u, es[..k - 1]);
    BytesAreEvents(u, es[..k]);
    LiftedLast(u, es[..k]);
    assert es[..k][..k - 1] == es[..k - 1] && es[..k][k - 1] == es[k - 1];
    assert Lifted(u, es)[k - 1] == Lifted(u, es)[..k][k - 1];
    var w := AfterBytes(u, es[..k - 1]);
    assert Runs.HeardAt(u.cfg, Lifted(u, es), k) ==> Lift(u, w, es[k - 1]).Bytes?;
    if es[k - 1].Plain? {
      PlainIsPlain(u, es[..k]);
    }
  }

  lemma LiftedLast(u: Setup, es: seq<ByteEvent>)
    requires SetupOk(u) && LegalBytes(u, es) && es != []
    ensures LegalBytes(u, es[..|es| - 1]) && F.CodecOk(AfterBytes(u, es[..|es| - 1]).codec)
    ensures |Lifted(u, es)| == |es|
    ensures Lifted(u, es)[|es| - 1] == Lift(u, AfterBytes(u, es[..|es| - 1]), es[|es| - 1])
  {
    hide EnabledBytes, Lift, SetupOk, Inv;
    BytePrefix(u, es[..|es| - 1], 0);
  }

  lemma PlainIsPlain(u: Setup, es: seq<ByteEvent>)
    requires SetupOk(u) && LegalBytes(u, es) && es != []
    ensures es[|es| - 1].Plain? ==> !es[|es| - 1].event.Bytes?
  {
    hide AfterBytes, Enabled, SetupOk;
  }

  /** Over every run of chunks with keepalive on, a connection that is up was made, or had a
      pong completed by a chunk, within the last interval plus timeout. */
  lemma KeepaliveOverBytes(u: Setup, es: seq<ByteEvent>)
    requires SetupOk(u) && LegalBytes(u, es) && u.cfg.interval > 0 && AfterBytes(u, es).conn.state == Connected
    ensures exists k :: 0 < k <= |es| && HeardChunk(u, es, k)
                        && AfterBytes(u, es).conn.timers.now <= ByteTime(u, es, k) + u.cfg.interval + u.cfg.timeout
  {
    hide Runs.Legal, Runs.After, Runs.HeardAt, Runs.TimeAt, AfterBytes, LegalBytes, SetupOk, Lifted, HeardChunk, ByteTime;
    BytesAreEvents(u, es);
    BytePrefix(u, es, 0);
    var fs := Lifted(u, es);
    Runs.Keepalive(u.cfg, fs);
    var k :| 0 < k <= |fs| && Runs.HeardAt(u.cfg, fs, k)
             && Runs.After(u.cfg, fs).timers.now <= Runs.TimeAt(u.cfg, fs, k) + u.cfg.interval + u.cfg.timeout;
    SameHeard(u, es, k);
  }

  lemma NoEvents(u: Setup)
    requires SetupOk(u)
    ensures LegalBytes(u, []) && AfterBytes(u, []) == Init(u)
  {
  }

  /** One more event of a run over bytes. */
  lemma ExtendBytes(u: Setup, es: seq<ByteEvent>, e: ByteEvent)
    requires SetupOk(u) && LegalBytes(u, es) && EnabledBytes(AfterBytes(u, es), e)
    ensures var w := AfterBytes(u, es);
            var p := Lift(u, w, e);
            && (p.TimerFires? ==> p.id in w.conn.timers.armed && (w.conn.timers.armed[p.id].kind.PingDue? ==> u.cfg.interval > 0))
            && LegalBytes(u, es + [e])
            && AfterBytes(u, es + [e]) == StepBytes(u, w, e, Step(u.cfg, w.conn, p))
  {
    hide Step, Lift, StepBytes, EnabledBytes, Inv, F.CodecOk;
    StepLinked(u, AfterBytes(u, es), e);
    var fs := es + [e];
    assert fs[..|fs| - 1] == es;
  }
}
