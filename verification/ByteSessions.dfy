/** A connection object with its frame helper, and the chunks, timers and calls that have
    reached the two. */
module ByteSessions {
  import opened Arith
  import opened Spec = ConnectionSpec
  import opened ConnectionBytes
  import ConnectionCode
  import ConnectionDrive
  import ConnectionSession
  import Laws = ConnectionLaws
  import Runs = ConnectionRuns
  import FrameCode
  import NoiseFrames
  import F = FrameSpec
  import Noise = NoiseSpec

  /** An encrypted connection. */
  class EncryptedSession {
    const connection: ConnectionCode.Connection
    const helper: NoiseFrames.NoiseFrameHelper
    const parse: Parser
    const random: seq<Byte>
    ghost const setup: Setup
    ghost var history: seq<ByteEvent>

    ghost predicate Fixed()
    {
      SetupOk(setup) && connection.cfg == setup.cfg && parse == setup.parse && random == setup.random
    }

    /** Between events connection and helper are where the run so far has brought them; the
        helper of a closed connection no longer matters. */
    ghost predicate InRun()
      reads this, connection, connection.executor, helper, helper.Parts()
    {
      && Fixed() && helper.Valid() && LegalBytes(setup, history)
      && Matches(AfterBytes(setup, history))
    }

    ghost predicate Matches(w: Wired)
      reads this, connection, connection.executor, helper, helper.Parts()
      requires helper.Valid()
    {
      && connection.Model() == w.conn
      && (w.conn.link.open ==> !helper.failed && helper.Codec() == w.codec && helper.Pending() == w.rest)
    }

    constructor (cfg: Config, parse: Parser, psk: seq<Byte>, expected: seq<Byte>, random: seq<Byte>)
      requires cfg.needsHandshake && |psk| == 32 && |random| == 32
      ensures InRun() && history == []
      ensures setup == Setup(cfg, parse, ConnectionSession.ClientCodec(psk, expected), random)
      ensures fresh(connection) && fresh(connection.executor) && fresh(helper) && fresh(helper.Parts())
    {
      hide Noise.InitSymmetric, Noise.MixHash;
      connection := new ConnectionCode.Connection(cfg);
      helper := new NoiseFrames.NoiseFrameHelper(psk, expected);
      this.parse, this.random := parse, random;
      setup := Setup(cfg, parse, ConnectionSession.ClientCodec(psk, expected), random);
      history := [];
      new;
      hide AfterBytes, LegalBytes, F.CodecOk;
      NoEvents(setup);
    }

    /** A chunk, a timer, a callback or a call. */
    method Handle(e: ByteEvent)
      requires InRun() && EnabledBytes(AfterBytes(setup, history), e)
      modifies this, connection, connection.executor, helper, helper.Parts()
      ensures InRun() && history == old(history) + [e]
    {
      hide AfterBytes, LegalBytes, Step, Surface, SetupOk, EnabledBytes, StepBytes, Linked;
      ghost var w := AfterBytes(setup, history);
      ExtendBytes(setup, history, e);
      ghost var v := AfterBytes(setup, history + [e]);
      match e {
        case Chunk(data) => OnChunk(data, w, v);
        case Plain(p) => OnPlain(p, w, v);
      }
      history := history + [e];
    }

    method OnChunk(data: seq<Byte>, ghost w: Wired, ghost v: Wired)
      requires Fixed() && helper.Valid() && Matches(w) && Linked(setup, w) && Linked(setup, v)
      requires EnabledBytes(w, Chunk(data))
      requires v == StepBytes(setup, w, Chunk(data), Step(setup.cfg, w.conn, Lift(setup, w, Chunk(data))))
      modifies connection, connection.executor, helper, helper.Parts()
      ensures helper.Valid() && Matches(v)
    {
      hide Surface, HandleItems, Laws.Inv, F.CodecOk, SetupOk;
      EndedShut(setup.cfg, w.conn);
      ConnectionDrive.OnNoiseBytes(connection, helper, parse, data);
      if v.conn.link.open {
        EndedShut(setup.cfg, v.conn);
      }
    }

    method OnPlain(e: Event, ghost w: Wired, ghost v: Wired)
      requires Fixed() && helper.Valid() && Matches(w) && Linked(setup, w)
      requires EnabledBytes(w, Plain(e))
      requires e.TimerFires? ==> e.id in w.conn.timers.armed && (w.conn.timers.armed[e.id].kind.PingDue? ==> setup.cfg.interval > 0)
      requires v == StepBytes(setup, w, Plain(e), Step(setup.cfg, w.conn, e))
      modifies connection, connection.executor, helper, helper.Parts()
      ensures helper.Valid() && Matches(v)
    {
      hide Step, Laws.Inv, F.CodecOk, Flown, Noise.WriteMessage;
      if e == ConnectResult(true) {
        ClientFlown(setup, w.codec);
        var ok, flight := helper.ConnectBytes(random);
      }
      StepLink(setup.cfg, w.conn, e);
      ConnectionCode.Dispatch(connection, e);
    }
  }

  /** Whatever has reached the two objects, the promises about the connect handler hold. */
  lemma EncryptedHandler(s: EncryptedSession)
    requires s.InRun()
    ensures Runs.HandlerKept(s.connection.cfg, s.connection.Model())
  {
    hide Runs.HandlerKept, AfterBytes, LegalBytes, SetupOk;
    HandlerOverBytes(s.setup, s.history);
  }

  /** And a connection that is up has been heard from within the keepalive bound. */
  lemma EncryptedKeepalive(s: EncryptedSession)
    requires s.InRun() && s.connection.cfg.interval > 0 && s.connection.state == Connected
    ensures exists k :: 0 < k <= |s.history| && HeardChunk(s.setup, s.history, k)
                        && s.connection.executor.now <= ByteTime(s.setup, s.history, k) + s.connection.cfg.interval + s.connection.cfg.timeout
  {
    hide AfterBytes, LegalBytes, SetupOk, HeardChunk, ByteTime;
    KeepaliveOverBytes(s.setup, s.history);
  }

  /** A plaintext connection. */
  class PlaintextSession {
    const connection: ConnectionCode.Connection
    const helper: FrameCode.PlaintextFrameHelper
    const parse: Parser
    ghost const setup: Setup
    ghost var history: seq<ByteEvent>

    ghost predicate Fixed()
    {
      SetupOk(setup) && connection.cfg == setup.cfg && parse == setup.parse && setup.codec.Plaintext?
    }

    ghost predicate InRun()
      reads this, connection, connection.executor, helper
    {
      && Fixed() && helper.Valid() && LegalBytes(setup, history)
      && Matches(AfterBytes(setup, history))
    }

    ghost predicate Matches(w: Wired)
      reads this, connection, connection.executor, helper
      requires helper.Valid()
    {
      && connection.Model() == w.conn && w.codec.Plaintext?
      && (w.conn.link.open ==> helper.Pending() == w.rest)
    }

    constructor (cfg: Config, parse: Parser)
      requires !cfg.needsHandshake
      ensures InRun() && history == []
      ensures setup.cfg == cfg && setup.parse == parse
      ensures fresh(connection) && fresh(connection.executor) && fresh(helper)
    {
      connection := new ConnectionCode.Connection(cfg);
      helper := new FrameCode.PlaintextFrameHelper();
      this.parse := parse;
      setup := Setup(cfg, parse, F.Plaintext, seq(32, _ => 0));
      history := [];
      new;
      hide AfterBytes, LegalBytes;
      NoEvents(setup);
    }

    method Handle(e: ByteEvent)
      requires InRun() && EnabledBytes(AfterBytes(setup, history), e)
      modifies this, connection, connection.executor, helper
      ensures InRun() && history == old(history) + [e]
    {
      hide AfterBytes, LegalBytes, Step, Surface, SetupOk, EnabledBytes, StepBytes, Linked;
      ghost var w := AfterBytes(setup, history);
      ExtendBytes(setup, history, e);
      ghost var v := AfterBytes(setup, history + [e]);
      match e {
        case Chunk(data) => OnChunk(data, w, v);
        case Plain(p) => OnPlain(p, w, v);
      }
      history := history + [e];
    }

    method OnChunk(data: seq<Byte>, ghost w: Wired, ghost v: Wired)
      requires Fixed() && helper.Valid() && Matches(w) && Linked(setup, w) && Linked(setup, v)
      requires EnabledBytes(w, Chunk(data))
      requires v == StepBytes(setup, w, Chunk(data), Step(setup.cfg, w.conn, Lift(setup, w, Chunk(data))))
      modifies connection, connection.executor, helper
      ensures helper.Valid() && Matches(v)
    {
      hide Surface, HandleItems, Laws.Inv, F.CodecOk, SetupOk;
      EndedShut(setup.cfg, w.conn);
      SurfacePlain(parse, w.rest + data);
      ConnectionDrive.OnPlainBytes(connection, helper, parse, data);
      if v.conn.link.open {
        EndedShut(setup.cfg, v.conn);
      }
    }

    method OnPlain(e: Event, ghost w: Wired, ghost v: Wired)
      requires Fixed() && helper.Valid() && Matches(w) && Linked(setup, w)
      requires EnabledBytes(w, Plain(e))
      requires e.TimerFires? ==> e.id in w.conn.timers.armed && (w.conn.timers.armed[e.id].kind.PingDue? ==> setup.cfg.interval > 0)
      requires v == StepBytes(setup, w, Plain(e), Step(setup.cfg, w.conn, e))
      modifies connection, connection.executor
      ensures helper.Valid() && Matches(v)
    {
      hide Step, Laws.Inv, F.CodecOk;
      StepLink(setup.cfg, w.conn, e);
      ConnectionCode.Dispatch(connection, e);
    }
  }

  lemma SurfacePlain(parse: Parser, b: seq<Byte>)
    ensures Surface(parse, F.Plaintext, b).codec.Plaintext?
  {
    hide Surface, F.Drain;
    SurfaceIsDrain(parse, F.Plaintext, b);
    FrameCode.DrainKeepsPlaintext(b);
  }

  lemma PlaintextHandler(s: PlaintextSession)
    requires s.InRun()
    ensures Runs.HandlerKept(s.connection.cfg, s.connection.Model())
  {
    hide Runs.HandlerKept, AfterBytes, LegalBytes, SetupOk;
    HandlerOverBytes(s.setup, s.history);
  }

  lemma PlaintextKeepalive(s: PlaintextSession)
    requires s.InRun() && s.connection.cfg.interval > 0 && s.connection.state == Connected
    ensures exists k :: 0 < k <= |s.history| && HeardChunk(s.setup, s.history, k)
                        && s.connection.executor.now <= ByteTime(s.setup, s.history, k) + s.connection.cfg.interval + s.connection.cfg.timeout
  {
    hide AfterBytes, LegalBytes, SetupOk, HeardChunk, ByteTime;
    KeepaliveOverBytes(s.setup, s.history);
  }
}
