/** The connection object as the program runs it: event handlers over mutable fields,
    each proved to do what the state machine does. */
module ConnectionCode {
  import opened Spec = ConnectionSpec
  import Runs = ConnectionRuns

  /** The executor's one-shot timers. */
  class Executor {
    var now: nat
    var armed: map<nat, Timer>
    var nextId: nat

    constructor ()
      ensures now == 0 && armed == map[] && nextId == 1
    {
      now, armed, nextId := 0, map[], 1;
    }

    method ScheduleAfter(delay: nat, kind: Kind) returns (id: nat)
      modifies this
      ensures id == old(nextId) && nextId == old(nextId) + 1 && now == old(now)
      ensures armed == old(armed)[id := Timer(now + delay, kind)]
    {
      id := nextId;
      armed := armed[id := Timer(now + delay, kind)];
      nextId := nextId + 1;
    }

    /** The clock moves on. */
    method Pass(d: nat)
      modifies this`now
      ensures now == old(now) + d
    {
      now := now + d;
    }

    /** Nothing happens to a timer that fired or was cancelled before. */
    method Cancel(id: nat)
      modifies this`armed
      ensures armed == old(armed) - {id}
    {
      armed := armed - {id};
    }
  }

  class Connection {
    const cfg: Config
    const executor: Executor
    var state: State
    /** connect_handler_ is set */
    var owed: bool
    var hello: Hello
    var connectTimer: nat
    var pingTimer: nat
    var pongTimer: nat
    var awaitingPong: bool
    /** The transport and the frame helper as they stand. */
    var link: Link
    /** The calls made into user code and the messages written. */
    var seen: Seen
    var since: nat

    ghost function Clock(): (t: Timers)
      reads this, executor
    {
      Timers(executor.now, executor.armed, executor.nextId, connectTimer, pingTimer, pongTimer, awaitingPong)
    }

    ghost function Model(): (s: Conn)
      reads this, executor
    {
      Conn(state, owed, hello, Clock(), link, seen, since)
    }

    constructor (cfg: Config)
      ensures this.cfg == cfg && fresh(executor) && Model() == Init(cfg)
    {
      this.cfg := cfg;
      executor := new Executor();
      state, owed, hello := Disconnected, false, Hello(0, 0, "");
      connectTimer, pingTimer, pongTimer, awaitingPong := 0, 0, 0, false;
      link := Link(true, false, false, false, if cfg.needsHandshake then Pending else Done);
      seen, since := Seen([], [], [], [], 0), 0;
    }

    // ----- state changes and callbacks -----

    method Write(m: Output)
      modifies this`seen
      ensures seen == old(seen).(sent := old(seen).sent + [m])
    {
      seen := seen.(sent := seen.sent + [m]);
    }

    method SetState(st: State)
      modifies this, executor
      ensures Model() == Spec.SetState(cfg, old(Model()), st)
      decreases Live(Model().(state := st)), 2
    {
      hide Spec.Callback;
      if st == state {
        return;
      }
      state := st;
      seen := seen.(visited := seen.visited + [st]);
      assert Model() == Enter(old(Model()), st);
      UserCode();
    }

    /** A call into user code, which may call disconnect. */
    method UserCode()
      modifies this, executor
      ensures Model() == Callback(cfg, old(Model()))
      decreases Live(Model()), 1
    {
      hide Spec.Disconnect;
      var k := seen.calls;
      seen := seen.(calls := k + 1);
      assert Model() == Counted(old(Model()));
      if cfg.user(k) {
        Disconnect();
      }
    }

    method Disconnect()
      modifies this, executor
      ensures Model() == Spec.Disconnect(cfg, old(Model()))
      decreases Live(Model()), 0
    {
      hide Spec.SetState, Spec.StopKeepalive;
      if state != Connected && state != HelloSent {
        return;
      }
      StopKeepalive();
      assert Model() == old(Model()).(timers := Spec.StopKeepalive(old(Clock())));
      SetState(Closing);
      Write(DisconnectOut);
      link := link.(writing := true);
    }

    method FinishConnect(r: Result)
      modifies this, executor
      ensures Model() == Spec.FinishConnect(cfg, old(Model()), r)
    {
      hide Callback;
      if owed {
        owed := false;
        seen := seen.(results := seen.results + [r]);
        UserCode();
      }
    }

    method CloseTransport()
      modifies this`link
      ensures link == old(link).(open := false)
    {
      link := link.(open := false);
    }

    method Fail(e: Error)
      modifies this, executor
      ensures Model() == Spec.Fail(cfg, old(Model()), e)
    {
      hide Callback, Spec.SetState, Spec.StopKeepalive, Spec.StopConnect, Spec.FinishConnect;
      if state == Failed || state == Closed {
        return;
      }
      StopKeepalive();
      CancelConnect();
      CloseTransport();
      var wasConnecting := owed;
      assert Model() == Shut(old(Model()).(timers := Spec.StopConnect(Spec.StopKeepalive(old(Clock())))));
      SetState(Failed);
      if wasConnecting {
        FinishConnect(Failure(e));
      } else {
        seen := seen.(errors := seen.errors + [e]);
        UserCode();
      }
    }

    // ----- timers -----

    method CancelConnect()
      modifies this`connectTimer, executor
      ensures Clock() == Spec.StopConnect(old(Clock()))
    {
      if connectTimer != 0 {
        executor.Cancel(connectTimer);
        connectTimer := 0;
      }
    }

    method CancelPong()
      modifies this`pongTimer, executor
      ensures Clock() == Spec.StopPong(old(Clock()))
    {
      if pongTimer != 0 {
        executor.Cancel(pongTimer);
        pongTimer := 0;
      }
    }

    method StopKeepalive()
      modifies this`pingTimer, this`pongTimer, this`awaitingPong, executor
      ensures Clock() == Spec.StopKeepalive(old(Clock()))
    {
      hide Spec.StopPong;
      if pingTimer != 0 {
        executor.Cancel(pingTimer);
        pingTimer := 0;
      }
      assert Clock() == Spec.StopPing(old(Clock()));
      CancelPong();
      awaitingPong := false;
    }

    method StartKeepalive()
      modifies this`pingTimer, executor
      ensures Clock() == Spec.StartKeepalive(cfg, old(Clock()))
    {
      if cfg.interval <= 0 {
        return;
      }
      pingTimer := executor.ScheduleAfter(cfg.interval, PingDue);
    }

    method SendPing()
      requires cfg.interval > 0
      modifies this, executor
      ensures Model() == Spec.SendPing(cfg, old(Model()))
    {
      hide Spec.ArmPing, Spec.ArmPong;
      if state != Connected {
        return;
      }
      Write(PingOut);
      ArmPongTimer();
      ArmPingTimer();
    }

    /** The pong timer is set only for the first unanswered ping. */
    method ArmPongTimer()
      modifies this`pongTimer, this`awaitingPong, executor
      ensures Clock() == Spec.ArmPong(cfg, old(Clock()))
    {
      if !awaitingPong {
        awaitingPong := true;
        pongTimer := executor.ScheduleAfter(cfg.timeout, PongOverdue);
      }
    }

    method ArmPingTimer()
      requires cfg.interval > 0
      modifies this`pingTimer, executor
      ensures Clock() == Spec.ArmPing(cfg, old(Clock()))
    {
      pingTimer := executor.ScheduleAfter(cfg.interval, PingDue);
    }

    /** The executor runs the callback of an armed timer. */
    method TimerFired(id: nat)
      requires id in executor.armed && (executor.armed[id].kind.PingDue? ==> cfg.interval > 0)
      modifies this, executor
      ensures Model() == Fire(cfg, old(Model()), id)
    {
      hide Spec.Fail, Spec.SendPing;
      var kind := executor.armed[id].kind;
      executor.Cancel(id);
      ghost var c := Model();
      assert c == old(Model()).(timers := Cancel(old(Clock()), id));
      match kind {
        case ConnectTimeout =>
          if state != Connected {
            Fail(TimedOut);
          }
        case PingDue => SendPing();
        case PongOverdue =>
          pongTimer := 0;
          assert Model() == c.(timers := c.timers.(pong := 0));
          if awaitingPong {
            Fail(TimedOut);
          }
      }
    }

    // ----- events -----

    method Start()
      modifies this, executor
      ensures Model() == Spec.Start(cfg, old(Model()))
    {
      hide Spec.SetState;
      owed, since := true, executor.now;
      assert Model() == old(Model()).(owed := true, since := old(Clock()).now);
      SetState(Connecting);
      connectTimer := executor.ScheduleAfter(cfg.connectTimeout, ConnectTimeout);
      link := link.(connecting := true);
    }

    method SendHello()
      modifies this`seen
      ensures Model() == Spec.SendHello(cfg, old(Model()))
    {
      Write(HelloOut);
      if cfg.login {
        Write(AuthenticationOut);
      }
    }

    method OnConnectedTransport(ok: bool)
      modifies this, executor
      ensures Model() == OnConnected(cfg, old(Model()), ok)
    {
      hide Spec.Fail, Spec.SetState, Spec.SendHello;
      link := link.(connecting := false);
      if !ok {
        Fail(TcpFailed);
        return;
      }
      link := link.(reading := true);
      if cfg.needsHandshake {
        Write(FirstFlight);
      } else {
        SendHello();
        SetState(HelloSent);
      }
    }

    method HandleHello(h: Hello)
      modifies this, executor
      ensures Model() == OnHello(cfg, old(Model()), h)
    {
      hide Spec.Fail, Spec.SetState, Spec.StopConnect, Spec.StartKeepalive, Spec.FinishConnect;
      if state != HelloSent {
        return;
      }
      hello := h;
      assert Model() == old(Model()).(hello := h);
      if hello.major > 2 {
        Fail(ProtocolError);
        return;
      }
      if cfg.expectedName != "" && hello.name != "" && hello.name != cfg.expectedName {
        Fail(ProtocolError);
        return;
      }
      CancelConnect();
      SetState(Connected);
      StartKeepalive();
      FinishConnect(Success);
    }

    method Shutdown()
      modifies this, executor
      ensures Model() == Close(cfg, old(Model()))
    {
      hide Spec.SetState, Spec.StopKeepalive;
      StopKeepalive();
      CloseTransport();
      SetState(Closed);
    }

    method HandleMessage(m: Message)
      modifies this, executor
      ensures Model() == HandleInternal(cfg, old(Model()), m)
    {
      hide OnHello, Spec.Fail, Close, Spec.FinishConnect, Spec.StopPong;
      match m {
        case HelloResponse(major, minor, name) => HandleHello(Announced(major, minor, name));
        case AuthenticationResponse(invalid) =>
          if invalid {
            Fail(PermissionDenied);
          }
        case DisconnectRequest =>
          Write(DisconnectAnswer);
          assert Model() == Send(old(Model()), DisconnectAnswer);
          Shutdown();
          FinishConnect(Failure(Aborted));
        case DisconnectResponse => Shutdown();
        case PingRequest => Write(PongOut);
        case PingResponse =>
          awaitingPong := false;
          assert Clock() == old(Clock()).(awaiting := false);
          CancelPong();
          PongOrder(old(Clock()));
        case _ =>
      }
    }

    method OnFrame(m: Message)
      modifies this, executor
      ensures Model() == HandleFrame(cfg, old(Model()), m)
    {
      hide Callback, Spec.Fail, HandleInternal;
      UserCode();
      if m.Unknown? {
        return;
      }
      if m.Unparsable? {
        Fail(ProtocolError);
        return;
      }
      HandleMessage(m);
      if state == Failed || state == Closed {
        return;
      }
      UserCode();
      UserCode();
    }

    method OnItem(i: Item)
      modifies this, executor
      ensures Model() == HandleItem(cfg, old(Model()), i)
    {
      hide HandleFrame, Spec.Fail, Spec.SetState, Spec.SendHello;
      match i {
        case Ready =>
          link := link.(handshake := Done);
          SendHello();
          SetState(HelloSent);
        case Rejected =>
          link := link.(handshake := Broken);
          Fail(ProtocolError);
        case Malformed => Fail(ProtocolError);
        case Frame(m) => OnFrame(m);
      }
    }

    /** drain_frames over what the frame helper brings up. */
    method OnBytes(items: seq<Item>)
      modifies this, executor
      ensures Model() == HandleItems(cfg, old(Model()), items)
    {
      hide HandleItem;
      var k := 0;
      while k < |items| && state != Failed && state != Closed
        invariant k <= |items|
        invariant HandleItems(cfg, Model(), items[k..]) == HandleItems(cfg, old(Model()), items)
        modifies this, executor
      {
        assert items[k..][1..] == items[k + 1..];
        OnItem(items[k]);
        k := k + 1;
      }
    }

    method OnReadFailure()
      modifies this, executor
      ensures Model() == OnReadError(cfg, old(Model()))
    {
      hide Spec.Fail;
      if state == Closing || state == Closed {
        return;
      }
      Fail(ReadFailed);
    }

    method OnDisconnectWritten()
      modifies this, executor
      ensures Model() == OnWritten(cfg, old(Model()))
    {
      hide Spec.SetState;
      link := link.(writing := false);
      CloseTransport();
      SetState(Closed);
    }
  }

  /** The callback or call that an event is. */
  method Dispatch(c: Connection, e: Event)
    requires e.TimerFires? ==> e.id in c.executor.armed && (c.executor.armed[e.id].kind.PingDue? ==> c.cfg.interval > 0)
    modifies c, c.executor
    ensures c.Model() == Step(c.cfg, old(c.Model()), e)
  {
    hide Spec.Start, OnConnected, HandleItems, OnReadError, Spec.Disconnect, OnWritten, Fire;
    match e {
      case StartCalled => c.Start();
      case ConnectResult(ok) => c.OnConnectedTransport(ok);
      case Bytes(items) => c.OnBytes(items);
      case ReadError => c.OnReadFailure();
      case DisconnectCalled => c.Disconnect();
      case DisconnectWritten => c.OnDisconnectWritten();
      case TimerFires(id) => c.TimerFired(id);
      case TimePasses(d) => c.executor.Pass(d);
    }
  }

  /** A connection with the events that have reached it. */
  class Session {
    const connection: Connection
    ghost var history: seq<Event>

    /** Between events the connection is where the run so far has brought it. */
    ghost predicate InRun()
      reads this, connection, connection.executor
    {
      Runs.Legal(connection.cfg, history) && connection.Model() == Runs.After(connection.cfg, history)
    }

    constructor (cfg: Config)
      ensures InRun() && history == [] && connection.cfg == cfg && fresh(connection) && fresh(connection.executor)
    {
      connection := new Connection(cfg);
      history := [];
      new;
      Runs.Nothing(cfg);
    }

    /** Any event the interfaces allow. */
    method Handle(e: Event)
      requires InRun() && Enabled(connection.Model(), e)
      modifies this, connection, connection.executor
      ensures InRun() && history == old(history) + [e]
    {
      hide Runs.After, Runs.Legal, Step;
      Runs.Extend(connection.cfg, history, e);
      Dispatch(connection, e);
      history := history + [e];
    }
  }

  /** Whatever has reached the object, the promises about its connect handler hold of it. */
  lemma ObjectHandler(s: Session)
    requires s.InRun()
    ensures Runs.HandlerKept(s.connection.cfg, s.connection.Model())
  {
    hide Runs.HandlerKept;
    Runs.ConnectHandler(s.connection.cfg, s.history);
  }

  /** Whether the flag is cleared before or after the timer makes no difference. */
  lemma PongOrder(t: Timers)
    ensures StopPong(t.(awaiting := false)) == StopPong(t).(awaiting := false)
  {
  }
}
