/** From bytes to a connection made: how the stream is cut makes no difference, and a device
    that answers is connected to. */
module ConnectionSession {
  import opened Arith
  import opened Options
  import opened ConnectionSpec
  import opened ConnectionBytes
  import Laws = ConnectionLaws
  import Runs = ConnectionRuns
  import F = FrameSpec
  import FrameLaws
  import SessionLaws
  import NoiseLaws
  import Noise = NoiseSpec

  // ----- chunks -----

  lemma {:induction false} HandleAppend(cfg: Config, s: Conn, xs: seq<Item>, ys: seq<Item>)
    ensures HandleItems(cfg, s, xs + ys) == HandleItems(cfg, HandleItems(cfg, s, xs), ys)
    decreases |xs|
  {
    hide HandleItem;
    if xs == [] {
      assert xs + ys == ys;
    } else if !Ended(s) {
      assert (xs + ys)[1..] == xs[1..] + ys;
      HandleAppend(cfg, HandleItem(cfg, s, xs[0]), xs[1..], ys);
    }
  }

  /** What a longer buffer brings up: the same first, and then what is left with the rest. */
  lemma {:induction false} SurfaceAppend(parse: Parser, c: F.Codec, b: seq<Byte>, x: seq<Byte>)
    requires F.CodecOk(c)
    ensures var s, t := Surface(parse, c, b), Surface(parse, c, b + x);
            if s.stopped then t.items == s.items && t.stopped
            else var n := Surface(parse, s.codec, s.rest + x); t == n.(items := s.items + n.items)
    decreases |b|
  {
    hide F.Decide, F.CodecOk, Surface, ItemsOf;
    var d := F.Decide(c, b);
    SurfaceStep(parse, c, b);
    if d.NeedMore? {
      NothingUp(parse);
      var n := Surface(parse, c, b + x);
      assert [] + n.items == n.items;
    } else {
      FrameLaws.DecideExtend(c, b, x);
      SurfaceStep(parse, c, b + x);
      if d.Frame? {
        assert (b + x)[d.used..] == b[d.used..] + x;
        SurfaceAppend(parse, d.codec, b[d.used..], x);
        var s := Surface(parse, d.codec, b[d.used..]);
        if !s.stopped {
          var n := Surface(parse, s.codec, s.rest + x);
          assert ItemsOf(parse, d) + (s.items + n.items) == ItemsOf(parse, d) + s.items + n.items;
        }
      }
    }
  }

  lemma NothingUp(parse: Parser)
    ensures ItemsOf(parse, F.NeedMore) == []
  {
  }

  /** Chunks arriving one after the other. */
  function Receive(u: Setup, w: Wired, chunks: seq<seq<Byte>>): (v: Wired)
    requires F.CodecOk(w.codec)
    ensures F.CodecOk(v.codec)
    decreases |chunks|
  {
    hide F.CodecOk, Surface, HandleItems;
    if chunks == [] then w
    else
      var s := Surface(u.parse, w.codec, w.rest + chunks[0]);
      Receive(u, Wired(HandleItems(u.cfg, w.conn, s.items), s.codec, s.rest), chunks[1..])
  }

  lemma {:induction false} StopEnds(cfg: Config, s: Conn, items: seq<Item>)
    requires Rejected in items || Malformed in items
    ensures Ended(HandleItems(cfg, s, items))
    decreases |items|
  {
    hide HandleItem;
    if !Ended(s) {
      assert items == [items[0]] + items[1..];
      var t := HandleItem(cfg, s, items[0]);
      if items[0].Rejected? || items[0].Malformed? {
        StopsConnection(cfg, s, items[0]);
        EndedStays(cfg, t, items[1..]);
      } else {
        StopEnds(cfg, t, items[1..]);
      }
    }
  }

  lemma EndedStays(cfg: Config, s: Conn, items: seq<Item>)
    requires Ended(s)
    ensures HandleItems(cfg, s, items) == s
  {
  }

  lemma {:induction false} EndedReceives(u: Setup, w: Wired, chunks: seq<seq<Byte>>)
    requires F.CodecOk(w.codec) && Ended(w.conn)
    ensures Receive(u, w, chunks).conn == w.conn
    decreases |chunks|
  {
    hide F.CodecOk, Surface, HandleItems;
    if chunks != [] {
      var s := Surface(u.parse, w.codec, w.rest + chunks[0]);
      EndedStays(u.cfg, w.conn, s.items);
      EndedReceives(u, Wired(HandleItems(u.cfg, w.conn, s.items), s.codec, s.rest), chunks[1..]);
    }
  }

  /** For arbitrary bytes, what becomes of the connection does not depend on how they are
      cut into chunks. */
  lemma {:induction false} ChunksAreOne(u: Setup, w: Wired, chunks: seq<seq<Byte>>)
    requires F.CodecOk(w.codec) && Surface(u.parse, w.codec, w.rest) == Surfaced([], w.codec, w.rest, false)
    ensures Receive(u, w, chunks).conn
         == HandleItems(u.cfg, w.conn, Surface(u.parse, w.codec, w.rest + F.Concat(chunks)).items)
    decreases |chunks|
  {
    hide F.CodecOk, Surface, HandleItems;
    if chunks == [] {
      assert w.rest + [] == w.rest;
      Untouched(u.cfg, w.conn);
    } else {
      var x, more := chunks[0], F.Concat(chunks[1..]);
      var b := w.rest + x;
      var s := Surface(u.parse, w.codec, b);
      var v := Wired(HandleItems(u.cfg, w.conn, s.items), s.codec, s.rest);
      assert w.rest + F.Concat(chunks) == b + more;
      SurfaceAppend(u.parse, w.codec, b, more);
      SurfaceSensible(u.parse, w.codec, b);
      if s.stopped {
        StopEnds(u.cfg, w.conn, s.items);
        EndedReceives(u, v, chunks[1..]);
      } else {
        Drained(u.parse, w.codec, b);
        ChunksAreOne(u, v, chunks[1..]);
        HandleAppend(u.cfg, w.conn, s.items, Surface(u.parse, s.codec, s.rest + more).items);
      }
    }
  }

  lemma Untouched(cfg: Config, s: Conn)
    ensures HandleItems(cfg, s, []) == s
  {
  }

  /** What is left brings up nothing more. */
  lemma {:induction false} Drained(parse: Parser, c: F.Codec, b: seq<Byte>)
    requires F.CodecOk(c) && !Surface(parse, c, b).stopped
    ensures var s := Surface(parse, c, b); Surface(parse, s.codec, s.rest) == Surfaced([], s.codec, s.rest, false)
    decreases |b|
  {
    hide F.Decide, F.CodecOk, Surface;
    SurfaceStep(parse, c, b);
    var d := F.Decide(c, b);
    if d.Frame? {
      Drained(parse, d.codec, b[d.used..]);
    }
  }

  // ----- a device that answers -----

  function Parsed(parse: Parser, ms: seq<F.Message>): (items: seq<Item>)
    ensures |items| == |ms|
  {
    if ms == [] then [] else [Frame(parse(ms[0]))] + Parsed(parse, ms[1..])
  }

  /** Without an error the handshake's end comes up first, then the messages. */
  lemma {:induction false} SurfaceItems(parse: Parser, c: F.Codec, b: seq<Byte>)
    requires F.CodecOk(c) && !Surface(parse, c, b).stopped
    ensures var s := Surface(parse, c, b);
            s.items == (if Stage(c) == Pending && Stage(s.codec) == Done then [Ready] else []) + Parsed(parse, F.Drain(c, b).messages)
    decreases |b|
  {
    hide F.Decide, F.CodecOk, Surface, F.Drain;
    SurfaceStep(parse, c, b);
    FrameLaws.DrainStep(c, b);
    DecisionStage(c, b);
    var d := F.Decide(c, b);
    if d.Frame? {
      var o := F.Drain(d.codec, b[d.used..]);
      SurfaceItems(parse, d.codec, b[d.used..]);
      SurfaceSensible(parse, d.codec, b[d.used..]);
      if Stage(d.codec) == Done {
        NoReturn(parse, d.codec, b[d.used..]);
      }
      if d.message.Some? {
        assert ([d.message.value] + o.messages)[1..] == o.messages;
      } else {
        assert [] + o.messages == o.messages;
      }
    }
  }

  /** A finished handshake stays finished. */
  lemma NoReturn(parse: Parser, c: F.Codec, b: seq<Byte>)
    requires F.CodecOk(c) && !Surface(parse, c, b).stopped && Stage(c) == Done
    ensures Stage(Surface(parse, c, b).codec) == Done
  {
    hide F.CodecOk, Surface, Sensible;
    SurfaceSensible(parse, c, b);
  }

  /** The state after start and a TCP connection, the first flight written. */
  function Waiting(u: Setup): (w: Wired)
    requires F.CodecOk(u.codec) && |u.random| == 32
    ensures F.CodecOk(w.codec)
  {
    Wired(OnConnected(u.cfg, Start(u.cfg, ConnectionSpec.Init(u.cfg)), true), Flown(u, u.codec), [])
  }

  /** It is reached by those two events, on every setup. */
  lemma WaitingReached(u: Setup)
    requires SetupOk(u)
    ensures var es := [Plain(StartCalled)] + [Plain(ConnectResult(true))];
            LegalBytes(u, es) && AfterBytes(u, es) == Waiting(u)
  {
    hide F.CodecOk, Flown, OnConnected, Start, Laws.Inv, Lift, Enabled;
    var one := Plain(StartCalled);
    NoEvents(u);
    CanStart(u.cfg);
    PlainEvent(u, [], StartCalled);
    assert [] + [one] == [one];
    PlainEvent(u, [one], ConnectResult(true));
  }

  lemma CanStart(cfg: Config)
    ensures Enabled(ConnectionSpec.Init(cfg), StartCalled)
    ensures Enabled(Start(cfg, ConnectionSpec.Init(cfg)), ConnectResult(true))
  {
    hide Start;
    Runs.Started(cfg, ConnectionSpec.Init(cfg));
  }

  lemma PlainEvent(u: Setup, es: seq<ByteEvent>, e: Event)
    requires SetupOk(u) && LegalBytes(u, es) && !e.Bytes? && !e.TimerFires? && Enabled(AfterBytes(u, es).conn, e)
    ensures LegalBytes(u, es + [Plain(e)])
    ensures var w := AfterBytes(u, es);
            AfterBytes(u, es + [Plain(e)])
            == Wired(Step(u.cfg, w.conn, e), if e == ConnectResult(true) then Flown(u, w.codec) else w.codec, w.rest)
  {
    hide SetupOk, Step, Flown, Enabled, Laws.Inv, LegalBytes, AfterBytes;
    ExtendBytes(u, es, Plain(e));
  }

  /** The items of a device that answers the handshake and says hello make the connection. */
  lemma Welcome(cfg: Config, s: Conn, m: Message)
    requires forall k :: !cfg.user(k)
    requires s.state == Connecting && s.owed && s.seen.results == []
    requires m.HelloResponse? && Accepted(cfg, Announced(m.major, m.minor, m.name))
    ensures var t := HandleItems(cfg, s, [Ready] + [Frame(m)]); t.state == Connected && t.seen.results == [Success]
  {
    hide HandleFrame, Accepted, Announced, HandleItem;
    HandleAppend(cfg, s, [Ready], [Frame(m)]);
    OneItem(cfg, s, Ready);
    Greeting(cfg, s);
    var t := HandleItem(cfg, s, Ready);
    Runs.OneFrame(cfg, t, m);
    Runs.QuietFrame(cfg, t, m);
    QuietHello(cfg, Counted(t), Announced(m.major, m.minor, m.name));
  }

  lemma OneItem(cfg: Config, s: Conn, i: Item)
    requires !Ended(s)
    ensures HandleItems(cfg, s, [i]) == HandleItem(cfg, s, i)
  {
    hide HandleItem;
    assert [i][1..] == [];
  }

  lemma Greeting(cfg: Config, s: Conn)
    requires (forall k :: !cfg.user(k)) && s.state == Connecting
    ensures var t := HandleItem(cfg, s, Ready); t.state == HelloSent && t.owed == s.owed && t.seen.results == s.seen.results
  {
    hide Callback;
    var c := s.(link := s.link.(handshake := Done));
    Runs.QuietCallback(cfg, Enter(SendHello(cfg, c), HelloSent));
  }

  lemma QuietHello(cfg: Config, s: Conn, h: Hello)
    requires (forall k :: !cfg.user(k)) && s.state == HelloSent && s.owed && Accepted(cfg, h)
    ensures var t := OnHello(cfg, s, h); t.state == Connected && t.seen.results == s.seen.results + [Success]
  {
    hide Callback, StopConnect, StartKeepalive, Accepted;
    var c := Enter(s.(hello := h, timers := StopConnect(s.timers)), Connected);
    Runs.QuietCallback(cfg, c);
    var d := Counted(c);
    var e := d.(timers := StartKeepalive(cfg, d.timers));
    Runs.QuietCallback(cfg, e.(owed := false, seen := e.seen.(results := e.seen.results + [Success])));
  }

  lemma Begun(cfg: Config)
    requires (forall k :: !cfg.user(k)) && cfg.needsHandshake
    ensures var s := OnConnected(cfg, Start(cfg, ConnectionSpec.Init(cfg)), true);
            s.state == Connecting && s.owed && s.seen.results == []
  {
    hide Callback;
    var i := ConnectionSpec.Init(cfg);
    Runs.QuietCallback(cfg, Enter(i.(owed := true, since := i.timers.now), Connecting));
  }

  /** The client's codec: encrypted, with the key, before the first flight. */
  function ClientCodec(psk: seq<Byte>, expected: seq<Byte>): (c: F.Codec)
    requires |psk| == 32
    ensures F.CodecOk(c) && Stage(c) == Pending
  {
    hide Noise.Initialize;
    F.Encrypted(SessionLaws.Waiting(Noise.Initialize(Noise.Initiator, psk, F.PROLOGUE), expected))
  }

  /** What the device sends comes up as the end of the handshake and its messages. */
  lemma StreamItems(u: Setup, psk: seq<Byte>, b: seq<Byte>, hello: seq<Byte>, expected: seq<Byte>, m: F.Message)
    requires |psk| == 32 && |u.random| == 32 && |b| == 32 && u.codec == ClientCodec(psk, expected)
    requires NoiseLaws.Agrees(u.random, b) && !NoiseLaws.Degenerate(u.random, b)
    requires SessionLaws.GoodHello(hello, expected) && FrameLaws.EncryptedFits(m)
    ensures NoiseLaws.Handshake(psk, F.PROLOGUE, u.random, b, [], []).Some?
    ensures var s := NoiseLaws.Handshake(psk, F.PROLOGUE, u.random, b, [], []).value;
            var stream := SessionLaws.DeviceStream(hello, s.message2, Noise.Split(s.responder).0, [m]);
            Surface(u.parse, Flown(u, u.codec), stream).items == [Ready] + [Frame(u.parse(m))]
  {
    hide Noise.WriteMessage, Noise.Initialize, Noise.Split, NoiseLaws.Handshake, NoiseLaws.Agrees, NoiseLaws.Degenerate,
         SessionLaws.DeviceStream, SessionLaws.GoodHello, FrameLaws.EncryptedFits, Surface, F.Drain, F.ReceiveAll, F.CodecOk, Parsed;
    SessionLaws.SessionDelivery(psk, F.PROLOGUE, u.random, b, hello, expected, [m], []);
    var s := NoiseLaws.Handshake(psk, F.PROLOGUE, u.random, b, [], []).value;
    var stream := SessionLaws.DeviceStream(hello, s.message2, Noise.Split(s.responder).0, [m]);
    SessionLaws.SessionDelivery(psk, F.PROLOGUE, u.random, b, hello, expected, [m], [stream]);
    OneChunk(stream);
    var c := Flown(u, u.codec);
    FrameLaws.ChunkIndependence(c, [stream]);
    var o := F.Drain(c, stream);
    assert o.messages == [m] && o.error.None?;
    SurfaceIsDrain(u.parse, c, stream);
    SurfaceItems(u.parse, c, stream);
    Reached(u.parse, c, stream);
    OneParsed(u.parse, m);
  }

  lemma OneChunk(b: seq<Byte>)
    ensures F.Concat([b]) == b
  {
    assert [b][1..] == [];
    assert b + [] == b;
  }

  lemma OneParsed(parse: Parser, m: F.Message)
    ensures Parsed(parse, [m]) == [Frame(parse(m))] && Parsed(parse, []) == []
  {
    assert [m][1..] == [];
  }

  /** A message comes up only once the handshake is done. */
  lemma Reached(parse: Parser, c: F.Codec, b: seq<Byte>)
    requires F.CodecOk(c) && !Surface(parse, c, b).stopped && F.Drain(c, b).messages != []
    ensures Stage(Surface(parse, c, b).codec) == Done
  {
    hide F.CodecOk, Surface, F.Drain;
    SurfaceItems(parse, c, b);
    SurfaceSensible(parse, c, b);
    var s := Surface(parse, c, b);
    assert s.items != [];
  }

  /** End to end: a client with the device's key whose user leaves it alone, and a device that
      answers the handshake and then announces an acceptable version and name. However the
      device's bytes are cut, the connection is made and the connect handler has success. */
  lemma Connects(u: Setup, psk: seq<Byte>, b: seq<Byte>, hello: seq<Byte>, expected: seq<Byte>, m: F.Message, chunks: seq<seq<Byte>>)
    requires SetupOk(u) && (forall k :: !u.cfg.user(k))
    requires |psk| == 32 && |b| == 32 && u.codec == ClientCodec(psk, expected)
    requires NoiseLaws.Agrees(u.random, b) && !NoiseLaws.Degenerate(u.random, b)
    requires SessionLaws.GoodHello(hello, expected) && FrameLaws.EncryptedFits(m)
    requires var h := u.parse(m); h.HelloResponse? && Accepted(u.cfg, Announced(h.major, h.minor, h.name))
    ensures NoiseLaws.Handshake(psk, F.PROLOGUE, u.random, b, [], []).Some?
    ensures var s := NoiseLaws.Handshake(psk, F.PROLOGUE, u.random, b, [], []).value;
            F.Concat(chunks) == SessionLaws.DeviceStream(hello, s.message2, Noise.Split(s.responder).0, [m]) ==>
              var t := Receive(u, Waiting(u), chunks).conn; t.state == Connected && t.seen.results == [Success]
  {
    hide Noise.Split, Noise.Initialize, NoiseLaws.Handshake, NoiseLaws.Agrees, NoiseLaws.Degenerate, SessionLaws.DeviceStream,
         SessionLaws.GoodHello, FrameLaws.EncryptedFits, Surface, Receive, Accepted, Announced, Waiting, Flown, F.CodecOk, F.Concat;
    StreamItems(u, psk, b, hello, expected, m);
    var s := NoiseLaws.Handshake(psk, F.PROLOGUE, u.random, b, [], []).value;
    var stream := SessionLaws.DeviceStream(hello, s.message2, Noise.Split(s.responder).0, [m]);
    if F.Concat(chunks) == stream {
      Arrives(u, m, stream, chunks);
    }
  }

  lemma Arrives(u: Setup, m: F.Message, stream: seq<Byte>, chunks: seq<seq<Byte>>)
    requires F.CodecOk(u.codec) && |u.random| == 32 && u.cfg.needsHandshake && (forall k :: !u.cfg.user(k))
    requires var h := u.parse(m); h.HelloResponse? && Accepted(u.cfg, Announced(h.major, h.minor, h.name))
    requires F.Concat(chunks) == stream && Surface(u.parse, Flown(u, u.codec), stream).items == [Ready] + [Frame(u.parse(m))]
    ensures var t := Receive(u, Waiting(u), chunks).conn; t.state == Connected && t.seen.results == [Success]
  {
    hide Surface, HandleItems, Receive, Accepted, Announced, OnConnected, Start, ConnectionSpec.Init, Flown, F.CodecOk, F.Concat;
    var w := Waiting(u);
    EmptyBuffer(u.parse, w.codec);
    ChunksAreOne(u, w, chunks);
    assert [] + F.Concat(chunks) == F.Concat(chunks);
    Begun(u.cfg);
    Welcome(u.cfg, w.conn, u.parse(m));
  }

  lemma EmptyBuffer(parse: Parser, c: F.Codec)
    requires F.CodecOk(c)
    ensures Surface(parse, c, []) == Surfaced([], c, [], false)
  {
    hide F.Decide, F.CodecOk, Surface;
    FrameLaws.NothingYet(c);
    SurfaceStep(parse, c, []);
  }
}
