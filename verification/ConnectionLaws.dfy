/** What holds over every run of the connection. */
module ConnectionLaws {
  import opened Arith
  import opened ConnectionSpec

  // ----- the invariant -----

  /** Transitions only go forward in this order. */
  function Rank(st: State): (r: nat)
  {
    match st
    case Disconnected => 0
    case Connecting => 1
    case HelloSent => 2
    case Connected => 3
    case Closing => 4
    case Failed => 5
    case Closed => 6
  }

  /** Every armed timer is the one its field names; a timer cancelled or fired is gone. */
  ghost predicate TimersOk(t: Timers)
  {
    && t.nextId > 0 && t.connect < t.nextId && t.ping < t.nextId && t.pong < t.nextId
    && (t.connect != 0 ==> t.connect != t.ping && t.connect != t.pong)
    && (t.ping != 0 ==> t.ping != t.pong)
    && (forall id :: id in t.armed ==>
          && id != 0 && t.now <= t.armed[id].deadline
          && (t.armed[id].kind == ConnectTimeout ==> id == t.connect)
          && (t.armed[id].kind == PingDue ==> id == t.ping)
          && (t.armed[id].kind == PongOverdue ==> id == t.pong))
  }

  /** A pong is awaited exactly while a pong timer is armed, and only while Connected. */
  ghost predicate KeepaliveOk(cfg: Config, t: Timers, st: State)
  {
    && (t.awaiting <==> t.pong != 0)
    && (t.awaiting <==> t.pong in t.armed)
    && (t.awaiting ==> st == Connected)
    && (st == Connected && cfg.interval > 0 ==> t.ping in t.armed && t.armed[t.ping].deadline <= t.now + cfg.interval)
    && (cfg.interval <= 0 || Rank(st) < Rank(Connected) ==> t.ping == 0 && t.pong == 0)
  }

  /** What has earned the connect handler its call. */
  ghost predicate Answered(o: Seen)
  {
    Connected in o.visited || Failed in o.visited || DisconnectAnswer in o.sent
  }

  ghost predicate HandlerOk(cfg: Config, s: Conn)
  {
    && |s.seen.results| == (if s.state == Disconnected || s.owed then 0 else 1)
    && (s.state == Disconnected ==> !s.owed)
    && (s.state == Connecting || s.state == HelloSent ==> s.owed)
    && (s.state == Connected || s.state == Failed ==> !s.owed)
    && (s.state != Disconnected ==> (s.owed <==> !Answered(s.seen)))
    && (s.seen.results == [Success] ==> Accepted(cfg, s.hello))
  }

  /** While the handler is owed the connect timer runs, unless the connection is closed. */
  ghost predicate DeadlineOk(cfg: Config, s: Conn)
  {
    s.owed && s.state != Closed ==>
      && s.timers.connect in s.timers.armed
      && s.timers.armed[s.timers.connect].deadline == s.since + cfg.connectTimeout
  }

  ghost predicate HistoryOk(v: seq<State>, st: State)
  {
    && (v == [] <==> st == Disconnected)
    && (v != [] ==> v[|v| - 1] == st)
    && (forall i, j :: 0 <= i < j < |v| ==> Rank(v[i]) < Rank(v[j]))
  }

  /** How the transport and the frame helper stand to the state. */
  ghost predicate LinkOk(cfg: Config, l: Link, st: State)
  {
    && (l.open ==> st != Failed && st != Closed)
    && (l.open && l.connecting ==> st == Connecting)
    && (l.reading ==> !l.connecting)
    && (l.open && l.handshake == Pending && st != Disconnected ==> st == Connecting)
    && (st == Disconnected ==> !l.connecting && !l.reading && !l.writing)
    && (l.writing ==> Rank(st) >= Rank(Closing))
    && (!cfg.needsHandshake ==> l.handshake == Done)
  }

  ghost predicate RestOk(s: Conn)
  {
    && (s.state == Disconnected ==> s.timers.armed == map[] && s.seen.sent == [])
    && (s.state == Failed ==> s.timers.armed == map[])
    && (s.state == Connected ==> s.timers.connect == 0)
  }

  ghost predicate Inv(cfg: Config, s: Conn)
  {
    && TimersOk(s.timers) && KeepaliveOk(cfg, s.timers, s.state)
    && HandlerOk(cfg, s) && DeadlineOk(cfg, s)
    && HistoryOk(s.seen.visited, s.state)
    && LinkOk(cfg, s.link, s.state) && RestOk(s)
  }

  // ----- callbacks -----

  /** What a user's disconnect in a callback does to an active connection. */
  function Leave(s: Conn): (t: Conn)
  {
    var c := Send(Enter(s, Closing), DisconnectOut);
    c.(timers := StopKeepalive(s.timers), link := s.link.(writing := true))
  }

  function Calls(s: Conn, n: nat): (t: Conn)
  {
    s.(seen := s.seen.(calls := n))
  }

  lemma IdleCallback(cfg: Config, s: Conn)
    requires !Active(s)
    ensures Callback(cfg, s) == Counted(s)
  {
  }

  lemma DisconnectCases(cfg: Config, s: Conn)
    ensures var t := Disconnect(cfg, s); t == s || (Active(s) && t == Calls(Leave(s), t.seen.calls))
  {
    hide StopKeepalive;
    if Active(s) {
      IdleCallback(cfg, Enter(s.(timers := StopKeepalive(s.timers)), Closing));
    }
  }

  lemma CallbackCases(cfg: Config, s: Conn)
    ensures var t := Callback(cfg, s); t == Calls(s, t.seen.calls) || (Active(s) && t == Calls(Leave(s), t.seen.calls))
  {
    hide Disconnect, StopKeepalive;
    DisconnectCases(cfg, Counted(s));
  }

  /** Stopping the keepalive disarms its timers and nothing else. */
  lemma StopEffect(t: Timers)
    requires TimersOk(t)
    ensures var u := StopKeepalive(t);
            && u == t.(ping := 0, pong := 0, awaiting := false, armed := u.armed)
            && TimersOk(u)
            && (forall id :: id in u.armed <==> id in t.armed && id == t.connect)
            && (forall id :: id in u.armed ==> u.armed[id] == t.armed[id])
  {
  }

  lemma StopAll(t: Timers)
    requires TimersOk(t)
    ensures var u := StopConnect(StopKeepalive(t)); TimersOk(u) && u.armed == map[] && u.pong == 0 && u.ping == 0 && !u.awaiting && u.connect == 0
  {
    hide StopKeepalive;
    StopEffect(t);
  }

  lemma Forward(v: seq<State>, st: State, next: State)
    requires HistoryOk(v, st) && Rank(st) < Rank(next)
    ensures HistoryOk(v + [next], next)
  {
    var w := v + [next];
    forall i, j | 0 <= i < j < |w| ensures Rank(w[i]) < Rank(w[j]) {
      if j == |v| && i < |v| - 1 {
        assert Rank(v[i]) < Rank(v[|v| - 1]);
      }
    }
  }

  lemma LeaveKeeps(cfg: Config, s: Conn)
    requires Inv(cfg, s) && Active(s)
    ensures Inv(cfg, Leave(s))
  {
    hide StopKeepalive, HistoryOk;
    StopEffect(s.timers);
    Forward(s.seen.visited, s.state, Closing);
  }

  lemma CallsIgnored(cfg: Config, s: Conn, n: nat)
    requires Inv(cfg, s)
    ensures Inv(cfg, Calls(s, n))
  {
  }

  lemma CallbackKeeps(cfg: Config, s: Conn)
    requires Inv(cfg, s)
    ensures Inv(cfg, Callback(cfg, s))
  {
    hide Callback, Leave, Inv, Calls;
    CallbackCases(cfg, s);
    var n := Callback(cfg, s).seen.calls;
    CallsIgnored(cfg, s, n);
    if Active(s) {
      LeaveKeeps(cfg, s);
      CallsIgnored(cfg, Leave(s), n);
    }
  }

  lemma DisconnectKeeps(cfg: Config, s: Conn)
    requires Inv(cfg, s)
    ensures Inv(cfg, Disconnect(cfg, s))
  {
    hide Disconnect, Leave, Inv, Calls;
    DisconnectCases(cfg, s);
    if Active(s) {
      LeaveKeeps(cfg, s);
      CallsIgnored(cfg, Leave(s), Disconnect(cfg, s).seen.calls);
    }
  }

  // ----- the handlers -----

  /** What fail needs of the state it finds. */
  ghost predicate CanFail(cfg: Config, s: Conn)
  {
    && TimersOk(s.timers) && HandlerOk(cfg, s) && HistoryOk(s.seen.visited, s.state)
    && LinkOk(cfg, s.link, s.state) && s.state != Disconnected
  }

  /** The result of fail on a connection that has not ended. */
  function Broke(s: Conn, e: Error): (t: Conn)
  {
    var c := Enter(Shut(s.(timers := StopConnect(StopKeepalive(s.timers)))), Failed);
    if s.owed then c.(owed := false, seen := c.seen.(results := c.seen.results + [Failure(e)]))
    else c.(seen := c.seen.(errors := c.seen.errors + [e]))
  }

  lemma FailCases(cfg: Config, s: Conn, e: Error)
    ensures var t := Fail(cfg, s, e); if Ended(s) then t == s else t == Calls(Broke(s, e), t.seen.calls)
  {
    hide StopConnect, StopKeepalive, Callback;
    if !Ended(s) {
      var c := Shut(s.(timers := StopConnect(StopKeepalive(s.timers))));
      IdleCallback(cfg, Enter(c, Failed));
      var d := Counted(Enter(c, Failed));
      IdleCallback(cfg, d.(owed := false, seen := d.seen.(results := d.seen.results + [Failure(e)])));
      IdleCallback(cfg, d.(seen := d.seen.(errors := d.seen.errors + [e])));
    }
  }

  lemma BrokeKeeps(cfg: Config, s: Conn, e: Error)
    requires CanFail(cfg, s) && !Ended(s)
    ensures Inv(cfg, Broke(s, e))
  {
    hide StopConnect, StopKeepalive, HistoryOk;
    StopAll(s.timers);
    Forward(s.seen.visited, s.state, Failed);
    assert Failed in s.seen.visited + [Failed];
    assert s.owed ==> (s.seen.results + [Failure(e)])[0] != Success;
  }

  lemma FailKeeps(cfg: Config, s: Conn, e: Error)
    requires if Ended(s) then Inv(cfg, s) else CanFail(cfg, s)
    ensures Inv(cfg, Fail(cfg, s, e)) && Ended(Fail(cfg, s, e))
  {
    hide Fail, Broke, Inv, CanFail;
    FailCases(cfg, s, e);
    if !Ended(s) {
      BrokeKeeps(cfg, s, e);
      CallsIgnored(cfg, Broke(s, e), Fail(cfg, s, e).seen.calls);
      assert Broke(s, e).state == Failed by { BrokeState(s, e); }
    }
  }

  lemma BrokeState(s: Conn, e: Error)
    ensures Broke(s, e).state == Failed
  {
  }

  lemma InvCanFail(cfg: Config, s: Conn)
    requires Inv(cfg, s) && s.state != Disconnected
    ensures CanFail(cfg, s)
  {
  }

  lemma StartKeeps(cfg: Config, s: Conn)
    requires Inv(cfg, s) && s.state == Disconnected
    ensures Inv(cfg, Start(cfg, s)) && Start(cfg, s).state == Connecting
  {
    hide HistoryOk, Callback;
    IdleCallback(cfg, Enter(s.(owed := true, since := s.timers.now), Connecting));
    Forward(s.seen.visited, s.state, Connecting);
    assert s.seen.visited == [] by { NoHistory(s.seen.visited, s.state); }
  }

  lemma NoHistory(v: seq<State>, st: State)
    requires HistoryOk(v, st)
    ensures v == [] <==> st == Disconnected
  {
  }

  lemma GreetedOk(cfg: Config, s: Conn)
    requires TimersOk(s.timers) && KeepaliveOk(cfg, s.timers, s.state) && HandlerOk(cfg, s) && DeadlineOk(cfg, s)
    requires HistoryOk(s.seen.visited, s.state) && s.state == Connecting && LinkOk(cfg, s.link, HelloSent)
    ensures Inv(cfg, Enter(SendHello(cfg, s), HelloSent))
  {
    hide HistoryOk, TimersOk;
    Forward(s.seen.visited, s.state, HelloSent);
  }

  lemma GreetKeeps(cfg: Config, s: Conn)
    requires TimersOk(s.timers) && KeepaliveOk(cfg, s.timers, s.state) && HandlerOk(cfg, s) && DeadlineOk(cfg, s)
    requires HistoryOk(s.seen.visited, s.state) && s.state == Connecting && LinkOk(cfg, s.link, HelloSent)
    ensures Inv(cfg, Greet(cfg, s))
  {
    hide Callback, Inv;
    GreetedOk(cfg, s);
    CallbackKeeps(cfg, Enter(SendHello(cfg, s), HelloSent));
  }

  lemma OnConnectedKeeps(cfg: Config, s: Conn, ok: bool)
    requires Inv(cfg, s) && Enabled(s, ConnectResult(ok))
    ensures Inv(cfg, OnConnected(cfg, s, ok))
  {
    hide Fail, Greet, TimersOk, HistoryOk;
    if !ok {
      FailKeeps(cfg, s.(link := s.link.(connecting := false)), TcpFailed);
    } else if !cfg.needsHandshake {
      GreetKeeps(cfg, s.(link := s.link.(connecting := false, reading := true)));
    }
  }

  /** A connection made: the handler has its success, whatever the user did meanwhile. */
  lemma WelcomeOk(cfg: Config, s: Conn, h: Hello)
    requires Inv(cfg, s) && s.state == HelloSent && Accepted(cfg, h)
    ensures var c := Enter(s.(hello := h, timers := StopConnect(s.timers)), Connected);
            && Welcomed(cfg, c.(timers := StartKeepalive(cfg, c.timers)))
            && Welcomed(cfg, Leave(c).(timers := StartKeepalive(cfg, Leave(c).timers)))
  {
    hide HistoryOk, StopKeepalive, StartKeepalive, StopConnect, TimersOk, Accepted;
    var t := StopConnect(s.timers);
    WelcomeTimers(cfg, s.timers);
    Forward(s.seen.visited, s.state, Connected);
    var v := s.seen.visited + [Connected];
    Forward(v, Connected, Closing);
    assert Connected in v && Connected in v + [Closing];
  }

  lemma WelcomeTimers(cfg: Config, t: Timers)
    requires TimersOk(t) && KeepaliveOk(cfg, t, HelloSent)
    ensures var u := StartKeepalive(cfg, StopConnect(t)); TimersOk(u) && KeepaliveOk(cfg, u, Connected) && u.connect == 0
    ensures var u := StartKeepalive(cfg, StopKeepalive(StopConnect(t))); TimersOk(u) && KeepaliveOk(cfg, u, Closing) && u.connect == 0
  {
    hide StopKeepalive, ArmPing;
    var u := StopConnect(t);
    StopEffect(u);
    if cfg.interval > 0 {
      PingArmed(cfg, u);
      PingArmed(cfg, StopKeepalive(u));
    }
  }

  lemma PingArmed(cfg: Config, t: Timers)
    requires TimersOk(t) && cfg.interval > 0 && t.ping !in t.armed
    ensures var u := ArmPing(cfg, t);
            && TimersOk(u) && u.ping in u.armed && u.armed[u.ping].deadline == t.now + cfg.interval
            && u == t.(ping := u.ping, armed := u.armed, nextId := u.nextId)
            && (forall id :: id in t.armed ==> id in u.armed && u.armed[id] == t.armed[id])
            && (forall id :: id in u.armed ==> id in t.armed || id == u.ping)
            && u.ping !in t.armed && u.ping != 0 && u.ping != u.pong
  {
  }

  /** Everything but the handler's call, which comes next. */
  ghost predicate Welcomed(cfg: Config, s: Conn)
  {
    && s.owed && s.seen.results == [] && Connected in s.seen.visited && Accepted(cfg, s.hello)
    && (s.state == Connected || s.state == Closing) && s.timers.connect == 0
    && TimersOk(s.timers) && KeepaliveOk(cfg, s.timers, s.state)
    && HistoryOk(s.seen.visited, s.state) && LinkOk(cfg, s.link, s.state)
  }

  lemma FinishKeeps(cfg: Config, s: Conn)
    requires Welcomed(cfg, s)
    ensures Inv(cfg, FinishConnect(cfg, s, Success))
  {
    hide Callback, HistoryOk, TimersOk;
    CallbackKeeps(cfg, s.(owed := false, seen := s.seen.(results := s.seen.results + [Success])));
  }

  lemma OnHelloKeeps(cfg: Config, s: Conn, h: Hello)
    requires Inv(cfg, s) && s.state != Disconnected
    ensures Inv(cfg, OnHello(cfg, s, h))
  {
    hide Fail, Callback, FinishConnect, Leave, StartKeepalive, StopConnect, TimersOk, HistoryOk, Accepted;
    if s.state == HelloSent {
      if !Accepted(cfg, h) {
        FailKeeps(cfg, s.(hello := h), ProtocolError);
      } else {
        var c := Enter(s.(hello := h, timers := StopConnect(s.timers)), Connected);
        WelcomeOk(cfg, s, h);
        CallbackCases(cfg, c);
        var d := Callback(cfg, c);
        FinishKeeps(cfg, d.(timers := StartKeepalive(cfg, d.timers)));
      }
    }
  }

  /** A close, with the handler called when it was owed and the device asked for it. */
  function Shutdown(s: Conn, asked: bool): (t: Conn)
  {
    var c := Enter(Shut(s.(timers := StopKeepalive(s.timers))), Closed);
    if !asked then c
    else
      var d := Send(c, DisconnectAnswer);
      if s.owed then d.(owed := false, seen := d.seen.(results := d.seen.results + [Failure(Aborted)])) else d
  }

  lemma ShutdownKeeps(cfg: Config, s: Conn, asked: bool)
    requires Inv(cfg, s) && !Ended(s) && s.state != Disconnected
    ensures Inv(cfg, Shutdown(s, asked))
  {
    hide StopKeepalive, HistoryOk;
    StopEffect(s.timers);
    Forward(s.seen.visited, s.state, Closed);
    assert DisconnectAnswer in s.seen.sent + [DisconnectAnswer];
    assert s.owed ==> (s.seen.results + [Failure(Aborted)])[0] != Success;
  }

  lemma CloseCases(cfg: Config, s: Conn)
    requires !Ended(s)
    ensures HandleInternal(cfg, s, DisconnectResponse) == Counted(Shutdown(s, false))
    ensures var t := HandleInternal(cfg, s, DisconnectRequest); t == Calls(Shutdown(s, true), t.seen.calls)
  {
    hide StopKeepalive, Callback;
    var c := Shut(s.(timers := StopKeepalive(s.timers)));
    IdleCallback(cfg, Enter(c, Closed));
    var d := Send(s, DisconnectAnswer);
    var e := Enter(Shut(d.(timers := StopKeepalive(d.timers))), Closed);
    IdleCallback(cfg, e);
    var f := Counted(e);
    IdleCallback(cfg, f.(owed := false, seen := f.seen.(results := f.seen.results + [Failure(Aborted)])));
  }

  // ----- how the keepalive bound moves -----

  /** The device was last heard at `heard`: the timers run out soon enough after that. */
  ghost predicate Bound(cfg: Config, s: Conn, heard: nat)
  {
    s.state == Connected && cfg.interval > 0 ==>
      var t := s.timers;
      && heard <= t.now
      && t.ping in t.armed && (!t.awaiting ==> t.armed[t.ping].deadline <= heard + cfg.interval)
      && (t.awaiting ==> t.pong in t.armed && t.armed[t.pong].deadline <= heard + cfg.interval + cfg.timeout)
  }

  /** A step that takes no time never goes back, and a connection still up has its timers
      as before, unless the device was heard or the connection has just been made. */
  ghost predicate Carried(cfg: Config, s: Conn, t: Conn, heard: bool)
  {
    && t.timers.now == s.timers.now && Rank(s.state) <= Rank(t.state)
    && (t.state == Connected ==>
          if heard || s.state != Connected then Bound(cfg, t, t.timers.now) else t.timers == s.timers)
  }

  ghost predicate Flow(cfg: Config, s: Conn, t: Conn, heard: bool)
  {
    t.link.handshake == s.link.handshake && Carried(cfg, s, t, heard)
  }

  lemma CarriedTwice(cfg: Config, s: Conn, t: Conn, u: Conn, heard1: bool, heard2: bool)
    requires Carried(cfg, s, t, heard1) && Carried(cfg, t, u, heard2)
    ensures Carried(cfg, s, u, heard1 || heard2)
  {
  }

  lemma FlowTwice(cfg: Config, s: Conn, t: Conn, u: Conn, heard1: bool, heard2: bool)
    requires Flow(cfg, s, t, heard1) && Flow(cfg, t, u, heard2)
    ensures Flow(cfg, s, u, heard1 || heard2)
  {
    hide Carried;
    CarriedTwice(cfg, s, t, u, heard1, heard2);
  }

  lemma CallbackFlows(cfg: Config, s: Conn)
    ensures Flow(cfg, s, Callback(cfg, s), false)
    ensures !Ended(s) ==> !Ended(Callback(cfg, s))
  {
    hide Callback, StopKeepalive, Bound;
    CallbackCases(cfg, s);
    StopTime(s.timers);
  }

  lemma StopTime(t: Timers)
    ensures StopKeepalive(t).now == t.now && StopConnect(t).now == t.now
  {
  }

  lemma FailFlows(cfg: Config, s: Conn, e: Error)
    ensures Flow(cfg, s, Fail(cfg, s, e), false)
  {
    hide Fail, StopKeepalive, StopConnect, Bound;
    FailCases(cfg, s, e);
    StopTime(s.timers);
    StopTime(StopKeepalive(s.timers));
  }

  /** Right after the connection is made the first ping is one interval away. */
  lemma WelcomeBound(cfg: Config, t: Timers)
    requires TimersOk(t) && KeepaliveOk(cfg, t, HelloSent)
    ensures var u := StartKeepalive(cfg, StopConnect(t));
            && u.now == t.now
            && (cfg.interval > 0 ==> u.ping in u.armed && u.armed[u.ping].deadline == t.now + cfg.interval && !u.awaiting)
    ensures StartKeepalive(cfg, StopKeepalive(StopConnect(t))).now == t.now
  {
  }

  lemma OnHelloFlows(cfg: Config, s: Conn, h: Hello)
    requires Inv(cfg, s)
    ensures Flow(cfg, s, OnHello(cfg, s, h), false)
  {
    hide Fail, Callback, StopConnect, StopKeepalive, StartKeepalive, TimersOk, HistoryOk, Accepted;
    if s.state == HelloSent {
      if !Accepted(cfg, h) {
        FailFlows(cfg, s.(hello := h), ProtocolError);
      } else {
        var c := Enter(s.(hello := h, timers := StopConnect(s.timers)), Connected);
        CallbackCases(cfg, c);
        WelcomeBound(cfg, s.timers);
        var d := Callback(cfg, c);
        var e := d.(timers := StartKeepalive(cfg, d.timers));
        CallbackCases(cfg, e.(owed := false, seen := e.seen.(results := e.seen.results + [Success])));
        StopTime(e.timers);
      }
    }
  }

  lemma PongFlows(cfg: Config, s: Conn)
    requires Inv(cfg, s) && !Ended(s) && s.state != Disconnected
    ensures var t := HandleInternal(cfg, s, PingResponse); Inv(cfg, t) && Flow(cfg, s, t, true)
    ensures var t := HandleInternal(cfg, s, PingResponse); Bound(cfg, t, t.timers.now)
  {
    hide HistoryOk;
    PongStopped(cfg, s.timers, s.state);
  }

  lemma PongStopped(cfg: Config, t: Timers, st: State)
    requires TimersOk(t) && KeepaliveOk(cfg, t, st)
    ensures var u := StopPong(t).(awaiting := false);
            && TimersOk(u) && KeepaliveOk(cfg, u, st) && u == t.(pong := 0, awaiting := false, armed := u.armed)
            && (forall id :: id in u.armed <==> id in t.armed && id != t.pong)
            && (forall id :: id in u.armed ==> u.armed[id] == t.armed[id])
  {
  }

  lemma FlowSelf(cfg: Config, s: Conn)
    ensures Flow(cfg, s, s, false)
  {
  }

  lemma SendKeeps(cfg: Config, s: Conn, m: Output)
    requires Inv(cfg, s) && s.state != Disconnected && m != DisconnectAnswer
    ensures Inv(cfg, Send(s, m)) && Flow(cfg, s, Send(s, m), false)
  {
    hide TimersOk, HistoryOk, KeepaliveOk, LinkOk;
  }

  lemma ShutdownInternal(cfg: Config, s: Conn, m: Message)
    requires Inv(cfg, s) && !Ended(s) && s.state != Disconnected
    requires m == DisconnectRequest || m == DisconnectResponse
    ensures var t := HandleInternal(cfg, s, m); Inv(cfg, t) && Flow(cfg, s, t, false)
  {
    hide HandleInternal, Inv, StopKeepalive;
    CloseCases(cfg, s);
    var asked := m == DisconnectRequest;
    ShutdownKeeps(cfg, s, asked);
    CallsIgnored(cfg, Shutdown(s, asked), HandleInternal(cfg, s, m).seen.calls);
    StopTime(s.timers);
  }

  lemma FailBoth(cfg: Config, s: Conn, e: Error)
    requires Inv(cfg, s) && s.state != Disconnected
    ensures Inv(cfg, Fail(cfg, s, e)) && Flow(cfg, s, Fail(cfg, s, e), false)
  {
    hide Inv, Flow, Fail, CanFail;
    InvCanFail(cfg, s);
    FailKeeps(cfg, s, e);
    FailFlows(cfg, s, e);
  }

  lemma InternalKeeps(cfg: Config, s: Conn, m: Message)
    requires Inv(cfg, s) && !Ended(s) && s.state != Disconnected
    ensures Inv(cfg, HandleInternal(cfg, s, m)) && Flow(cfg, s, HandleInternal(cfg, s, m), m == PingResponse)
  {
    hide Inv, Flow, OnHello, Fail, Close, FinishConnect, StopPong, Send;
    FlowSelf(cfg, s);
    match m
    case HelloResponse(major, minor, name) =>
      var h := Announced(major, minor, name);
      OnHelloKeeps(cfg, s, h);
      OnHelloFlows(cfg, s, h);
    case AuthenticationResponse(invalid) => FailBoth(cfg, s, PermissionDenied);
    case DisconnectRequest => ShutdownInternal(cfg, s, m);
    case DisconnectResponse => ShutdownInternal(cfg, s, m);
    case PingRequest => SendKeeps(cfg, s, PongOut);
    case PingResponse => PongFlows(cfg, s);
    case _ =>
  }

  lemma CallbackBoth(cfg: Config, s: Conn)
    requires Inv(cfg, s)
    ensures var t := Callback(cfg, s); Inv(cfg, t) && Flow(cfg, s, t, false) && (!Ended(s) ==> !Ended(t))
  {
    hide Inv, Flow, Callback;
    CallbackKeeps(cfg, s);
    CallbackFlows(cfg, s);
  }

  lemma Onward(cfg: Config, s: Conn, t: Conn, heard: bool)
    requires Flow(cfg, s, t, heard) && s.state != Disconnected
    ensures t.state != Disconnected
  {
    hide Bound;
  }

  lemma FrameKeeps(cfg: Config, s: Conn, m: Message)
    requires Inv(cfg, s) && !Ended(s) && s.state != Disconnected
    ensures var t := HandleFrame(cfg, s, m); Inv(cfg, t) && Flow(cfg, s, t, m == PingResponse)
  {
    hide Inv, Flow, Callback, Fail, HandleInternal;
    var c := Callback(cfg, s);
    CallbackBoth(cfg, s);
    Onward(cfg, s, c, false);
    if m.Unparsable? {
      FailBoth(cfg, c, ProtocolError);
      FlowTwice(cfg, s, c, Fail(cfg, c, ProtocolError), false, false);
    } else if !m.Unknown? {
      var d := HandleInternal(cfg, c, m);
      InternalKeeps(cfg, c, m);
      var heard := m == PingResponse;
      FlowTwice(cfg, s, c, d, false, heard);
      CallbackBoth(cfg, d);
      var e := Callback(cfg, d);
      CallbackBoth(cfg, e);
      FlowTwice(cfg, s, d, e, heard, false);
      FlowTwice(cfg, s, e, Callback(cfg, e), heard, false);
    }
  }

  lemma ItemKeeps(cfg: Config, s: Conn, i: Item)
    requires Inv(cfg, s) && !Ended(s) && s.state != Disconnected
    requires i.Ready? || i.Rejected? ==> s.link.handshake == Pending && s.state == Connecting && s.link.reading
    ensures var t := HandleItem(cfg, s, i);
            && Inv(cfg, t) && Carried(cfg, s, t, i == Frame(PingResponse)) && t.state != Disconnected
            && (i.Ready? ==> t.link.handshake == Done)
            && (i.Frame? ==> t.link.handshake == s.link.handshake)
  {
    hide HandleFrame, Fail, Greet, Bound, TimersOk, HistoryOk;
    match i
    case Ready => ReadyKeeps(cfg, s);
    case Rejected =>
      var c := s.(link := s.link.(handshake := Broken));
      FailKeeps(cfg, c, ProtocolError);
      FailFlows(cfg, c, ProtocolError);
    case Malformed => FailBoth(cfg, s, ProtocolError);
    case Frame(m) => FrameKeeps(cfg, s, m);
  }

  lemma ReadyKeeps(cfg: Config, s: Conn)
    requires Inv(cfg, s) && s.state == Connecting && s.link.reading
    ensures var t := HandleItem(cfg, s, Ready);
            Inv(cfg, t) && Carried(cfg, s, t, false) && t.state != Disconnected && t.link.handshake == Done
  {
    hide Bound, TimersOk, HistoryOk, Callback, StopKeepalive;
    var c := s.(link := s.link.(handshake := Done));
    GreetKeeps(cfg, c);
    CallbackFlows(cfg, Enter(SendHello(cfg, c), HelloSent));
  }

  lemma {:induction false} ItemsKeep(cfg: Config, s: Conn, items: seq<Item>)
    requires Inv(cfg, s) && s.state != Disconnected && Sensible(s.link.handshake, items)
    requires !Ended(s) && s.link.handshake == Pending ==> s.state == Connecting && s.link.reading
    ensures var t := HandleItems(cfg, s, items); Inv(cfg, t) && Carried(cfg, s, t, Frame(PingResponse) in items) && t.state != Disconnected
    decreases |items|
  {
    hide Inv, Carried, HandleItem;
    if items == [] || Ended(s) {
      CarriedSelf(cfg, s, Frame(PingResponse) in items);
    }
    if items != [] && !Ended(s) {
      var t := HandleItem(cfg, s, items[0]);
      ItemKeeps(cfg, s, items[0]);
      if |items| == 1 {
        LastItem(cfg, t, items[1..]);
      } else {
        ItemsKeep(cfg, t, items[1..]);
      }
      CarriedTwice(cfg, s, t, HandleItems(cfg, t, items[1..]), items[0] == Frame(PingResponse), Frame(PingResponse) in items[1..]);
      assert items == [items[0]] + items[1..];
    }
  }

  lemma CarriedSelf(cfg: Config, s: Conn, heard: bool)
    requires heard ==> Ended(s)
    ensures Carried(cfg, s, s, heard)
  {
  }

  lemma LastItem(cfg: Config, t: Conn, none: seq<Item>)
    requires none == []
    ensures HandleItems(cfg, t, none) == t && Carried(cfg, t, t, false)
  {
  }

  // ----- timers firing and time passing -----

  lemma FiredOk(t: Timers, id: nat)
    requires TimersOk(t) && id in t.armed
    ensures var u := Cancel(t, id);
            && TimersOk(u) && u == t.(armed := u.armed)
            && (forall k :: k in u.armed <==> k in t.armed && k != id)
            && (forall k :: k in u.armed ==> u.armed[k] == t.armed[k])
  {
  }

  lemma PongUnset(t: Timers)
    requires TimersOk(t) && t.pong !in t.armed
    ensures TimersOk(t.(pong := 0))
  {
  }

  lemma ConnectTimeoutKeeps(cfg: Config, s: Conn, id: nat)
    requires Inv(cfg, s) && id in s.timers.armed && s.timers.armed[id].kind.ConnectTimeout?
    ensures var t := Fire(cfg, s, id); Inv(cfg, t) && Ended(t)
  {
    hide Fail, Cancel, HistoryOk;
    FiredOk(s.timers, id);
    var c := s.(timers := Cancel(s.timers, id));
    FailKeeps(cfg, c, TimedOut);
  }

  lemma PongOverdueKeeps(cfg: Config, s: Conn, id: nat)
    requires Inv(cfg, s) && id in s.timers.armed && s.timers.armed[id].kind.PongOverdue?
    ensures var t := Fire(cfg, s, id); Inv(cfg, t) && Ended(t)
  {
    hide Fail, Cancel, HistoryOk;
    FiredOk(s.timers, id);
    var c := s.(timers := Cancel(s.timers, id));
    PongUnset(c.timers);
    FailKeeps(cfg, c.(timers := c.timers.(pong := 0)), TimedOut);
  }

  lemma PongArmed(cfg: Config, t: Timers)
    requires TimersOk(t) && (t.awaiting ==> t.pong in t.armed && t.pong != 0) && (!t.awaiting ==> t.pong == 0)
    ensures var u := ArmPong(cfg, t);
            && TimersOk(u) && u.pong in u.armed && u.pong != 0 && u.awaiting
            && u == t.(pong := u.pong, armed := u.armed, nextId := u.nextId, awaiting := true)
            && (t.awaiting ==> u == t)
            && (!t.awaiting ==> u.armed[u.pong].deadline == t.now + cfg.timeout)
            && (forall id :: id in t.armed ==> id in u.armed && u.armed[id] == t.armed[id])
            && (forall id :: id in u.armed ==> id in t.armed || id == u.pong)
            && (t.ping !in t.armed ==> u.ping !in u.armed)
  {
  }

  /** A ping sent: the pong deadline of an unanswered ping stays as it was. */
  lemma PingTimers(cfg: Config, t: Timers, id: nat)
    requires TimersOk(t) && KeepaliveOk(cfg, t, Connected) && cfg.interval > 0
    requires id in t.armed && t.armed[id].kind.PingDue?
    ensures var u := ArmPing(cfg, ArmPong(cfg, Cancel(t, id)));
            && TimersOk(u) && KeepaliveOk(cfg, u, Connected) && u.now == t.now && u.connect == t.connect
            && u.awaiting && u.ping in u.armed && u.pong in u.armed
            && (if t.awaiting then u.pong == t.pong && u.armed[u.pong] == t.armed[t.pong]
                else u.armed[u.pong].deadline == t.now + cfg.timeout)
  {
    hide Cancel, ArmPing, ArmPong, TimersOk;
    FiredOk(t, id);
    assert id == t.ping && (t.awaiting ==> t.pong in t.armed && t.pong != t.ping) by { WhichTimer(t, id); }
    var c := Cancel(t, id);
    PongArmed(cfg, c);
    PingArmed(cfg, ArmPong(cfg, c));
  }

  lemma WhichTimer(t: Timers, id: nat)
    requires TimersOk(t) && id in t.armed && t.armed[id].kind.PingDue?
    ensures id == t.ping != 0 && t.ping != t.pong
  {
  }

  lemma PingDueKeeps(cfg: Config, s: Conn, id: nat)
    requires Inv(cfg, s) && id in s.timers.armed && s.timers.armed[id].kind.PingDue?
    ensures cfg.interval > 0 && Inv(cfg, Fire(cfg, s, id))
  {
    hide Cancel, ArmPing, ArmPong, HistoryOk, TimersOk;
    WhichTimer(s.timers, id);
    FiredOk(s.timers, id);
    if s.state == Connected {
      PingTimers(cfg, s.timers, id);
    } else {
      StalePing(s.timers, id);
    }
  }

  lemma StalePing(t: Timers, id: nat)
    requires TimersOk(t) && id in t.armed && t.armed[id].kind.PingDue?
    ensures t.connect in t.armed ==> t.connect in Cancel(t, id).armed
    ensures t.pong in t.armed ==> t.pong in Cancel(t, id).armed
  {
  }

  lemma TimeKeeps(cfg: Config, s: Conn, d: nat)
    requires Inv(cfg, s) && Enabled(s, TimePasses(d))
    ensures Inv(cfg, s.(timers := s.timers.(now := s.timers.now + d)))
  {
    hide HistoryOk;
  }

  lemma WrittenKeeps(cfg: Config, s: Conn)
    requires Inv(cfg, s) && s.link.writing
    ensures Inv(cfg, OnWritten(cfg, s)) && OnWritten(cfg, s).state == Closed
  {
    hide HistoryOk, TimersOk, Callback;
    var c := s.(link := s.link.(writing := false, open := false));
    IdleCallback(cfg, Enter(c, Closed));
    if s.state != Closed {
      Forward(s.seen.visited, s.state, Closed);
    }
  }

  lemma ReadErrorKeeps(cfg: Config, s: Conn)
    requires Inv(cfg, s) && s.link.reading
    ensures Inv(cfg, OnReadError(cfg, s))
  {
    hide HistoryOk, TimersOk, Fail;
    if s.state != Closing && s.state != Closed {
      FailKeeps(cfg, s, ReadFailed);
    }
  }

  /** An event can be taken: what a firing timer was armed for is still meant. */
  lemma CanStep(cfg: Config, s: Conn, e: Event)
    requires Inv(cfg, s) && Enabled(s, e)
    ensures e.TimerFires? ==> e.id in s.timers.armed && (s.timers.armed[e.id].kind.PingDue? ==> cfg.interval > 0)
  {
    hide HistoryOk, HandlerOk, LinkOk, DeadlineOk;
  }

  /** Every step keeps the invariant. */
  lemma StepKeeps(cfg: Config, s: Conn, e: Event)
    requires Inv(cfg, s) && Enabled(s, e)
    ensures e.TimerFires? ==> e.id in s.timers.armed && (s.timers.armed[e.id].kind.PingDue? ==> cfg.interval > 0)
    ensures Inv(cfg, Step(cfg, s, e))
  {
    CanStep(cfg, s, e);
    hide Start, OnConnected, HandleItems, OnReadError, Disconnect, OnWritten, Fire, Inv;
    match e
    case StartCalled => StartKeeps(cfg, s);
    case ConnectResult(ok) => OnConnectedKeeps(cfg, s, ok);
    case Bytes(items) =>
      BytesReady(cfg, s, items);
      ItemsKeep(cfg, s, items);
    case ReadError => ReadErrorKeeps(cfg, s);
    case DisconnectCalled => DisconnectKeeps(cfg, s);
    case DisconnectWritten => WrittenKeeps(cfg, s);
    case TimerFires(id) =>
      if s.timers.armed[id].kind.ConnectTimeout? {
        ConnectTimeoutKeeps(cfg, s, id);
      } else if s.timers.armed[id].kind.PingDue? {
        PingDueKeeps(cfg, s, id);
      } else {
        PongOverdueKeeps(cfg, s, id);
      }
    case TimePasses(d) => TimeKeeps(cfg, s, d);
  }

  lemma BytesReady(cfg: Config, s: Conn, items: seq<Item>)
    requires Inv(cfg, s) && Enabled(s, Bytes(items))
    ensures s.state != Disconnected && Sensible(s.link.handshake, items)
    ensures !Ended(s) && s.link.handshake == Pending ==> s.state == Connecting && s.link.reading
  {
    hide HistoryOk, TimersOk, Sensible;
  }

  // ----- the version check -----

  predicate NameFits(cfg: Config, name: string)
  {
    cfg.expectedName == "" || name == "" || name == cfg.expectedName
  }

  lemma SignedMajor(cfg: Config, major: U32, minor: U32, name: string)
    ensures Accepted(cfg, Announced(major, minor, name)) <==>
            NameFits(cfg, name) && (major <= 2 || major >= 0x8000_0000)
  {
  }

  /** A major version above 2 is meant to end the attempt. With a fitting name it does so
      exactly below 2^31; from there on it reads as negative, and the connection is made. */
  lemma MajorVersion(cfg: Config, s: Conn, major: U32, minor: U32, name: string)
    requires s.state == HelloSent && s.owed && NameFits(cfg, name)
    ensures var t := HandleInternal(cfg, s, HelloResponse(major, minor, name));
            && (Ended(t) <==> 2 < major < 0x8000_0000)
            && t.seen.results == s.seen.results + [if Ended(t) then Failure(ProtocolError) else Success]
  {
    hide Fail, Callback, StopConnect, StopKeepalive, StartKeepalive, Accepted, NameFits, Announced;
    var h := Announced(major, minor, name);
    SignedMajor(cfg, major, minor, name);
    if Accepted(cfg, h) {
      var c := Enter(s.(hello := h, timers := StopConnect(s.timers)), Connected);
      CallbackCases(cfg, c);
      var d := Callback(cfg, c);
      var e := d.(timers := StartKeepalive(cfg, d.timers));
      CallbackCases(cfg, e.(owed := false, seen := e.seen.(results := e.seen.results + [Success])));
    } else {
      FailCases(cfg, s.(hello := h), ProtocolError);
    }
  }
}
