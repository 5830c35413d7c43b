/** The connection's protocol state machine on values: what each event does, with the
    clock, the timers and the transport it acts on, and user callbacks that may disconnect. */
module ConnectionSpec {
  import opened Arith

  datatype State = Disconnected | Connecting | HelloSent | Connected | Closing | Closed | Failed

  datatype Kind = ConnectTimeout | PingDue | PongOverdue
  datatype Timer = Timer(deadline: nat, kind: Kind)

  datatype Error = TcpFailed | ReadFailed | TimedOut | ProtocolError | PermissionDenied | Aborted
  datatype Result = Success | Failure(error: Error)

  datatype Hello = Hello(major: int, minor: int, name: string)

  /** What the device can send. */
  datatype Message =
    | HelloResponse(major: U32, minor: U32, name: string)
    | AuthenticationResponse(invalid: bool)
    | DisconnectRequest | DisconnectResponse
    | PingRequest | PingResponse
    | Other
    | Unknown
    | Unparsable

  /** What is written to the device. */
  datatype Output = FirstFlight | HelloOut | AuthenticationOut | PingOut | PongOut | DisconnectOut | DisconnectAnswer

  /** What draining the frame helper brings up: the end of the encrypted handshake, its
      rejection, a message, or malformed input. */
  datatype Item = Ready | Rejected | Frame(message: Message) | Malformed

  datatype Handshake = Pending | Done | Broken

  /** user(k) tells whether the k-th callback into user code calls disconnect. */
  datatype Config = Config(needsHandshake: bool, connectTimeout: nat, interval: int, timeout: nat,
                           expectedName: string, login: bool, user: nat -> bool)

  /** The executor's clock and armed timers, and the connection's own timer fields. */
  datatype Timers = Timers(now: nat, armed: map<nat, Timer>, nextId: nat, connect: nat, ping: nat, pong: nat, awaiting: bool)

  /** The transport and the frame helper: open until closed, a connect, a read pump and the
      disconnect's write under way, and how far the encrypted handshake is. */
  datatype Link = Link(open: bool, connecting: bool, reading: bool, writing: bool, handshake: Handshake)

  /** What can be observed from outside. */
  datatype Seen = Seen(visited: seq<State>, results: seq<Result>, errors: seq<Error>, sent: seq<Output>, calls: nat)

  /** owed: the connect handler is still to be called; since: when start was called. */
  datatype Conn = Conn(state: State, owed: bool, hello: Hello, timers: Timers, link: Link, seen: Seen, since: nat)

  function Init(cfg: Config): (s: Conn)
  {
    Conn(Disconnected, false, Hello(0, 0, ""), Timers(0, map[], 1, 0, 0, 0, false),
         Link(true, false, false, false, if cfg.needsHandshake then Pending else Done),
         Seen([], [], [], [], 0), 0)
  }

  // ----- timers -----

  function Arm(t: Timers, delay: nat, kind: Kind): (u: Timers)
  {
    t.(armed := t.armed[t.nextId := Timer(t.now + delay, kind)], nextId := t.nextId + 1)
  }

  function Cancel(t: Timers, id: nat): (u: Timers)
  {
    t.(armed := t.armed - {id})
  }

  function StopPing(t: Timers): (u: Timers)
  {
    if t.ping != 0 then Cancel(t, t.ping).(ping := 0) else t
  }

  function StopPong(t: Timers): (u: Timers)
  {
    if t.pong != 0 then Cancel(t, t.pong).(pong := 0) else t
  }

  function StopKeepalive(t: Timers): (u: Timers)
  {
    StopPong(StopPing(t)).(awaiting := false)
  }

  function StopConnect(t: Timers): (u: Timers)
  {
    if t.connect != 0 then Cancel(t, t.connect).(connect := 0) else t
  }

  function ArmPing(cfg: Config, t: Timers): (u: Timers)
    requires cfg.interval > 0
  {
    Arm(t, cfg.interval, PingDue).(ping := t.nextId)
  }

  function StartKeepalive(cfg: Config, t: Timers): (u: Timers)
  {
    if cfg.interval <= 0 then t else ArmPing(cfg, t)
  }

  function ArmPong(cfg: Config, t: Timers): (u: Timers)
  {
    if t.awaiting then t else Arm(t, cfg.timeout, PongOverdue).(awaiting := true, pong := t.nextId)
  }

  // ----- state changes and callbacks -----

  function Send(s: Conn, m: Output): (t: Conn)
  {
    s.(seen := s.seen.(sent := s.seen.sent + [m]))
  }

  function SendPing(cfg: Config, s: Conn): (t: Conn)
    requires cfg.interval > 0
  {
    if s.state != Connected then s
    else Send(s, PingOut).(timers := ArmPing(cfg, ArmPong(cfg, s.timers)))
  }

  predicate Active(s: Conn)
  {
    s.state == Connected || s.state == HelloSent
  }

  predicate Ended(s: Conn)
  {
    s.state == Failed || s.state == Closed
  }

  function Live(s: Conn): (n: nat)
  {
    if Active(s) then 1 else 0
  }

  /** The state and its record, before the state handler runs. */
  function Enter(s: Conn, st: State): (t: Conn)
  {
    s.(state := st, seen := s.seen.(visited := s.seen.visited + [st]))
  }

  function Counted(s: Conn): (t: Conn)
  {
    s.(seen := s.seen.(calls := s.seen.calls + 1))
  }

  function SetState(cfg: Config, s: Conn, st: State): (t: Conn)
    decreases Live(s.(state := st)), 2
  {
    if st == s.state then s else Callback(cfg, Enter(s, st))
  }

  function Callback(cfg: Config, s: Conn): (t: Conn)
    decreases Live(s), 1
  {
    if cfg.user(s.seen.calls) then Disconnect(cfg, Counted(s)) else Counted(s)
  }

  function Disconnect(cfg: Config, s: Conn): (t: Conn)
    decreases Live(s), 0
  {
    if !Active(s) then s
    else
      var c := SetState(cfg, s.(timers := StopKeepalive(s.timers)), Closing);
      Send(c, DisconnectOut).(link := c.link.(writing := true))
  }

  function FinishConnect(cfg: Config, s: Conn, r: Result): (t: Conn)
  {
    if !s.owed then s
    else Callback(cfg, s.(owed := false, seen := s.seen.(results := s.seen.results + [r])))
  }

  function Shut(s: Conn): (t: Conn)
  {
    s.(link := s.link.(open := false))
  }

  function Fail(cfg: Config, s: Conn, e: Error): (t: Conn)
  {
    if Ended(s) then s
    else
      var c := SetState(cfg, Shut(s.(timers := StopConnect(StopKeepalive(s.timers)))), Failed);
      if s.owed then FinishConnect(cfg, c, Failure(e))
      else Callback(cfg, c.(seen := c.seen.(errors := c.seen.errors + [e])))
  }

  // ----- events -----

  function Start(cfg: Config, s: Conn): (t: Conn)
  {
    var c := SetState(cfg, s.(owed := true, since := s.timers.now), Connecting);
    c.(timers := Arm(c.timers, cfg.connectTimeout, ConnectTimeout).(connect := c.timers.nextId),
       link := c.link.(connecting := true))
  }

  function SendHello(cfg: Config, s: Conn): (t: Conn)
  {
    if cfg.login then Send(Send(s, HelloOut), AuthenticationOut) else Send(s, HelloOut)
  }

  function Greet(cfg: Config, s: Conn): (t: Conn)
  {
    SetState(cfg, SendHello(cfg, s), HelloSent)
  }

  function OnConnected(cfg: Config, s: Conn, ok: bool): (t: Conn)
  {
    if !ok then Fail(cfg, s.(link := s.link.(connecting := false)), TcpFailed)
    else
      var c := s.(link := s.link.(connecting := false, reading := true));
      if cfg.needsHandshake then Send(c, FirstFlight) else Greet(cfg, c)
  }

  /** The device's unsigned version numbers are kept as signed 32-bit integers. */
  function Announced(major: U32, minor: U32, name: string): (h: Hello)
  {
    Hello(Signed(major, 0x8000_0000), Signed(minor, 0x8000_0000), name)
  }

  predicate Accepted(cfg: Config, h: Hello)
  {
    h.major <= 2 && (cfg.expectedName == "" || h.name == "" || h.name == cfg.expectedName)
  }

  function OnHello(cfg: Config, s: Conn, h: Hello): (t: Conn)
  {
    if s.state != HelloSent then s
    else if !Accepted(cfg, h) then Fail(cfg, s.(hello := h), ProtocolError)
    else
      var c := SetState(cfg, s.(hello := h, timers := StopConnect(s.timers)), Connected);
      FinishConnect(cfg, c.(timers := StartKeepalive(cfg, c.timers)), Success)
  }

  function Close(cfg: Config, s: Conn): (t: Conn)
  {
    SetState(cfg, Shut(s.(timers := StopKeepalive(s.timers))), Closed)
  }

  function HandleInternal(cfg: Config, s: Conn, m: Message): (t: Conn)
  {
    match m
    case HelloResponse(major, minor, name) => OnHello(cfg, s, Announced(major, minor, name))
    case AuthenticationResponse(invalid) => if invalid then Fail(cfg, s, PermissionDenied) else s
    case DisconnectRequest => FinishConnect(cfg, Close(cfg, Send(s, DisconnectAnswer)), Failure(Aborted))
    case DisconnectResponse => Close(cfg, s)
    case PingRequest => Send(s, PongOut)
    case PingResponse => s.(timers := StopPong(s.timers).(awaiting := false))
    case _ => s
  }

  function HandleFrame(cfg: Config, s: Conn, m: Message): (t: Conn)
  {
    var c := Callback(cfg, s);
    if m.Unknown? then c
    else if m.Unparsable? then Fail(cfg, c, ProtocolError)
    else
      var d := HandleInternal(cfg, c, m);
      if Ended(d) then d else Callback(cfg, Callback(cfg, d))
  }

  function HandleItem(cfg: Config, s: Conn, i: Item): (t: Conn)
  {
    match i
    case Ready => Greet(cfg, s.(link := s.link.(handshake := Done)))
    case Rejected => Fail(cfg, s.(link := s.link.(handshake := Broken)), ProtocolError)
    case Malformed => Fail(cfg, s, ProtocolError)
    case Frame(m) => HandleFrame(cfg, s, m)
  }

  /** drain_frames: nothing is handled once the connection has ended. */
  function HandleItems(cfg: Config, s: Conn, items: seq<Item>): (t: Conn)
    decreases |items|
  {
    if items == [] || Ended(s) then s else HandleItems(cfg, HandleItem(cfg, s, items[0]), items[1..])
  }

  function OnReadError(cfg: Config, s: Conn): (t: Conn)
  {
    if s.state == Closing || s.state == Closed then s else Fail(cfg, s, ReadFailed)
  }

  function Fire(cfg: Config, s: Conn, id: nat): (t: Conn)
    requires id in s.timers.armed
    requires s.timers.armed[id].kind.PingDue? ==> cfg.interval > 0
  {
    var c := s.(timers := Cancel(s.timers, id));
    match s.timers.armed[id].kind
    case ConnectTimeout => if c.state != Connected then Fail(cfg, c, TimedOut) else c
    case PingDue => SendPing(cfg, c)
    case PongOverdue =>
      var d := c.(timers := c.timers.(pong := 0));
      if d.timers.awaiting then Fail(cfg, d, TimedOut) else d
  }

  function OnWritten(cfg: Config, s: Conn): (t: Conn)
  {
    SetState(cfg, s.(link := s.link.(writing := false, open := false)), Closed)
  }

  datatype Event =
    | StartCalled
    | ConnectResult(ok: bool)
    | Bytes(items: seq<Item>)
    | ReadError
    | DisconnectCalled
    | DisconnectWritten
    | TimerFires(id: nat)
    | TimePasses(d: nat)

  /** What the frame helper can bring up: the handshake ends once, messages come after
      it, and malformed input or a rejection ends the list. */
  predicate Sensible(h: Handshake, items: seq<Item>)
    decreases |items|
  {
    items == [] ||
    match items[0]
    case Ready => h == Pending && Sensible(Done, items[1..])
    case Rejected => h == Pending && |items| == 1
    case Malformed => |items| == 1
    case Frame(_) => h == Done && Sensible(Done, items[1..])
  }

  /** The interfaces' promises: one start, one connect result, no success or data from a
      closed transport, armed timers only and none overlooked. */
  predicate Enabled(s: Conn, e: Event)
  {
    match e
    case StartCalled => s.state == Disconnected
    case ConnectResult(ok) => s.link.connecting && (ok ==> s.link.open)
    case Bytes(items) => s.link.reading && s.link.open && Sensible(s.link.handshake, items)
    case ReadError => s.link.reading
    case DisconnectCalled => true
    case DisconnectWritten => s.link.writing
    case TimerFires(id) => id in s.timers.armed && s.timers.armed[id].deadline <= s.timers.now
    case TimePasses(d) => forall id :: id in s.timers.armed ==> s.timers.now + d <= s.timers.armed[id].deadline
  }

  function Step(cfg: Config, s: Conn, e: Event): (t: Conn)
    requires e.TimerFires? ==> e.id in s.timers.armed && (s.timers.armed[e.id].kind.PingDue? ==> cfg.interval > 0)
  {
    match e
    case StartCalled => Start(cfg, s)
    case ConnectResult(ok) => OnConnected(cfg, s, ok)
    case Bytes(items) => HandleItems(cfg, s, items)
    case ReadError => OnReadError(cfg, s)
    case DisconnectCalled => Disconnect(cfg, s)
    case DisconnectWritten => OnWritten(cfg, s)
    case TimerFires(id) => Fire(cfg, s, id)
    case TimePasses(d) => s.(timers := s.timers.(now := s.timers.now + d))
  }
}
