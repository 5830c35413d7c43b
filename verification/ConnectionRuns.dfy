/** The connection over whole runs: every sequence of events the interfaces allow, with
    every behaviour of the user's callbacks. */
module ConnectionRuns {
  import opened Arith
  import opened ConnectionSpec
  import opened ConnectionLaws

  // ----- one step -----

  /** The device is heard in this event: a pong arrives, or the connection is made. */
  ghost predicate Heard(s: Conn, e: Event, t: Conn)
  {
    e.Bytes? && (Frame(PingResponse) in e.items || (s.state != Connected && t.state == Connected))
  }

  /** A step goes forward, and carries the keepalive bound on. */
  ghost predicate Moves(cfg: Config, s: Conn, e: Event, t: Conn)
  {
    && Rank(s.state) <= Rank(t.state) && s.timers.now <= t.timers.now
    && (t.state == Connected ==>
          (s.state == Connected && !Heard(s, e, t)) || (Heard(s, e, t) && Bound(cfg, t, t.timers.now)))
    && (t.state == Connected && !Heard(s, e, t) ==>
          forall h: nat :: h <= s.timers.now && Bound(cfg, s, h) ==> Bound(cfg, t, h))
    && (t.timers.awaiting && s.timers.awaiting && !Heard(s, e, t) ==>
          t.timers.pong == s.timers.pong && s.timers.pong in s.timers.armed && s.timers.pong in t.timers.armed
          && t.timers.armed[s.timers.pong] == s.timers.armed[s.timers.pong])
  }

  /** Any step that ends outside Connected. */
  lemma EndsElsewhere(cfg: Config, s: Conn, e: Event, t: Conn)
    requires t.state != Connected && Inv(cfg, t) && Rank(s.state) <= Rank(t.state) && s.timers.now <= t.timers.now
    ensures Moves(cfg, s, e, t)
  {
    hide TimersOk, HandlerOk, DeadlineOk, HistoryOk, LinkOk, RestOk, Bound;
  }

  lemma StartMoves(cfg: Config, s: Conn)
    requires Inv(cfg, s) && s.state == Disconnected
    ensures Moves(cfg, s, StartCalled, Start(cfg, s))
  {
    StartKeeps(cfg, s);
    hide Inv, Moves;
    IdleCallback(cfg, Enter(s.(owed := true, since := s.timers.now), Connecting));
    EndsElsewhere(cfg, s, StartCalled, Start(cfg, s));
  }

  lemma ConnectedMoves(cfg: Config, s: Conn, ok: bool)
    requires Inv(cfg, s) && Enabled(s, ConnectResult(ok))
    ensures Moves(cfg, s, ConnectResult(ok), OnConnected(cfg, s, ok))
  {
    OnConnectedKeeps(cfg, s, ok);
    var t := OnConnected(cfg, s, ok);
    assert t.state != Connected && Rank(s.state) <= Rank(t.state) && s.timers.now == t.timers.now by {
      hide Fail, Callback, Bound, TimersOk, KeepaliveOk, HandlerOk, DeadlineOk, HistoryOk;
      if !ok {
        var c := s.(link := s.link.(connecting := false));
        FailFlows(cfg, c, TcpFailed);
        FailEnds(cfg, c, TcpFailed);
      } else {
        var c := s.(link := s.link.(connecting := false, reading := true));
        CallbackFlows(cfg, Enter(SendHello(cfg, c), HelloSent));
      }
    }
    hide Inv, Moves;
    EndsElsewhere(cfg, s, ConnectResult(ok), t);
  }

  lemma FailEnds(cfg: Config, s: Conn, e: Error)
    ensures Ended(Fail(cfg, s, e))
  {
    hide StopConnect, StopKeepalive, Fail;
    FailCases(cfg, s, e);
  }

  lemma ItemsMove(cfg: Config, s: Conn, items: seq<Item>)
    requires Inv(cfg, s) && Enabled(s, Bytes(items))
    ensures Moves(cfg, s, Bytes(items), HandleItems(cfg, s, items))
  {
    BytesReady(cfg, s, items);
    ItemsKeep(cfg, s, items);
    hide TimersOk, HandlerOk, DeadlineOk, HistoryOk, LinkOk, RestOk, HandleItems, Sensible;
  }

  lemma DisconnectMoves(cfg: Config, s: Conn)
    requires Inv(cfg, s)
    ensures Moves(cfg, s, DisconnectCalled, Disconnect(cfg, s))
  {
    DisconnectKeeps(cfg, s);
    DisconnectCases(cfg, s);
    StopTime(s.timers);
    hide TimersOk, HandlerOk, DeadlineOk, HistoryOk, LinkOk, RestOk, Disconnect, StopKeepalive;
  }

  lemma FiredMoves(cfg: Config, s: Conn, id: nat)
    requires Inv(cfg, s) && id in s.timers.armed && (s.timers.armed[id].kind.PingDue? ==> cfg.interval > 0)
    ensures Moves(cfg, s, TimerFires(id), Fire(cfg, s, id))
  {
    var t := Fire(cfg, s, id);
    if s.timers.armed[id].kind.PingDue? {
      PingMoves(cfg, s, id);
    } else {
      assert Inv(cfg, t) && Ended(t) by {
        hide Inv, Fire, Ended;
        if s.timers.armed[id].kind.ConnectTimeout? {
          ConnectTimeoutKeeps(cfg, s, id);
        } else {
          PongOverdueKeeps(cfg, s, id);
        }
      }
      assert Rank(s.state) <= Rank(t.state) && s.timers.now == t.timers.now by {
        hide Inv, Fail, Bound;
        var c := s.(timers := Cancel(s.timers, id));
        FailFlows(cfg, c, TimedOut);
        FailFlows(cfg, c.(timers := c.timers.(pong := 0)), TimedOut);
      }
      hide Inv, Moves, Fire;
      EndsElsewhere(cfg, s, TimerFires(id), t);
    }
  }

  lemma PingMoves(cfg: Config, s: Conn, id: nat)
    requires Inv(cfg, s) && id in s.timers.armed && s.timers.armed[id].kind.PingDue? && cfg.interval > 0
    ensures Moves(cfg, s, TimerFires(id), Fire(cfg, s, id))
  {
    hide Cancel, ArmPing, ArmPong, HistoryOk, HandlerOk, DeadlineOk, LinkOk;
    if s.state == Connected {
      PingTimers(cfg, s.timers, id);
      WhichTimer(s.timers, id);
    } else {
      FiredOk(s.timers, id);
    }
  }

  lemma WrittenMoves(cfg: Config, s: Conn)
    requires Inv(cfg, s) && s.link.writing
    ensures Moves(cfg, s, DisconnectWritten, OnWritten(cfg, s))
  {
    WrittenKeeps(cfg, s);
    var c := s.(link := s.link.(writing := false, open := false));
    IdleCallback(cfg, Enter(c, Closed));
    hide Inv, Moves, Callback;
    EndsElsewhere(cfg, s, DisconnectWritten, OnWritten(cfg, s));
  }

  lemma ReadErrorMoves(cfg: Config, s: Conn)
    requires Inv(cfg, s) && s.link.reading
    ensures Moves(cfg, s, ReadError, OnReadError(cfg, s))
  {
    ReadErrorKeeps(cfg, s);
    FailFlows(cfg, s, ReadFailed);
    FailEnds(cfg, s, ReadFailed);
    hide Inv, Moves, Fail, Bound;
    EndsElsewhere(cfg, s, ReadError, OnReadError(cfg, s));
  }

  lemma TimeMoves(cfg: Config, s: Conn, d: nat)
    requires Inv(cfg, s)
    ensures Moves(cfg, s, TimePasses(d), s.(timers := s.timers.(now := s.timers.now + d)))
  {
    hide TimersOk, HandlerOk, DeadlineOk, HistoryOk, LinkOk, RestOk;
  }

  lemma StepMoves(cfg: Config, s: Conn, e: Event)
    requires Inv(cfg, s) && Enabled(s, e)
    requires e.TimerFires? ==> e.id in s.timers.armed && (s.timers.armed[e.id].kind.PingDue? ==> cfg.interval > 0)
    ensures Moves(cfg, s, e, Step(cfg, s, e))
  {
    hide Start, OnConnected, HandleItems, OnReadError, Disconnect, OnWritten, Fire, Inv, Moves;
    match e
    case StartCalled => StartMoves(cfg, s);
    case ConnectResult(ok) => ConnectedMoves(cfg, s, ok);
    case Bytes(items) => ItemsMove(cfg, s, items);
    case ReadError => ReadErrorMoves(cfg, s);
    case DisconnectCalled => DisconnectMoves(cfg, s);
    case DisconnectWritten => WrittenMoves(cfg, s);
    case TimerFires(id) => FiredMoves(cfg, s, id);
    case TimePasses(d) => TimeMoves(cfg, s, d);
  }

  // ----- runs -----

  /** Every event of the run is enabled where it happens. */
  ghost predicate Legal(cfg: Config, es: seq<Event>)
    decreases |es|, 0
  {
    es == [] || (Legal(cfg, es[..|es| - 1]) && Enabled(After(cfg, es[..|es| - 1]), es[|es| - 1]))
  }

  /** The state a legal run ends in. */
  ghost function After(cfg: Config, es: seq<Event>): (s: Conn)
    requires Legal(cfg, es)
    ensures Inv(cfg, s)
    decreases |es|, 1
  {
    hide Inv;
    if es == [] then
      InitOk(cfg);
      Init(cfg)
    else
      var p := After(cfg, es[..|es| - 1]);
      StepKeeps(cfg, p, es[|es| - 1]);
      Step(cfg, p, es[|es| - 1])
  }

  lemma InitOk(cfg: Config)
    ensures Inv(cfg, Init(cfg))
  {
  }

  lemma {:induction false} PrefixLegal(cfg: Config, es: seq<Event>, k: nat)
    requires Legal(cfg, es) && k <= |es|
    ensures Legal(cfg, es[..k])
    decreases |es|
  {
    hide Enabled;
    if k == |es| {
      assert es[..k] == es;
    } else {
      var p := es[..|es| - 1];
      PrefixLegal(cfg, p, k);
      assert p[..k] == es[..k];
    }
  }

  lemma LastStep(cfg: Config, es: seq<Event>)
    requires Legal(cfg, es) && es != []
    ensures var p := es[..|es| - 1];
            Legal(cfg, p) && Moves(cfg, After(cfg, p), es[|es| - 1], After(cfg, es))
  {
    hide Step, Moves, Inv, Enabled;
    var p := es[..|es| - 1];
    StepKeeps(cfg, After(cfg, p), es[|es| - 1]);
    StepMoves(cfg, After(cfg, p), es[|es| - 1]);
  }

  /** The state never goes back: whatever a run has left it does not come to again. */
  lemma {:induction false} NeverReturns(cfg: Config, es: seq<Event>, k: nat)
    requires Legal(cfg, es) && k <= |es|
    ensures Legal(cfg, es[..k]) && Rank(After(cfg, es[..k]).state) <= Rank(After(cfg, es).state)
    decreases |es|
  {
    hide After, Inv;
    PrefixLegal(cfg, es, k);
    if k == |es| {
      assert es[..k] == es;
    } else {
      var p := es[..|es| - 1];
      LastStep(cfg, es);
      NeverReturns(cfg, p, k);
      assert p[..k] == es[..k];
    }
  }

  /** The state handler sees a strictly forward sequence ending in the present state, so
      each state is entered at most once. */
  lemma StatesSeen(cfg: Config, es: seq<Event>)
    requires Legal(cfg, es)
    ensures var s := After(cfg, es); var v := s.seen.visited;
            && (forall i, j :: 0 <= i < j < |v| ==> Rank(v[i]) < Rank(v[j]))
            && (v != [] ==> v[|v| - 1] == s.state) && (v == [] <==> s.state == Disconnected)
  {
    hide After;
  }

  /** What is kept about the connect handler: called at most once, owed under a running timer
      while the connection is being made, called once it is made or has failed, with success
      only after the version and name checks; and called exactly when the connection was
      made, failed, or was ended by the device's request. */
  ghost predicate HandlerKept(cfg: Config, s: Conn)
  {
    && |s.seen.results| <= 1
    && (s.state == Connecting || s.state == HelloSent ==>
          s.seen.results == [] && s.timers.connect in s.timers.armed && s.timers.now <= s.since + cfg.connectTimeout)
    && (s.state == Connected || s.state == Failed ==> |s.seen.results| == 1)
    && (s.seen.results == [Success] ==> Accepted(cfg, s.hello))
    && (|s.seen.results| == 1 <==> Connected in s.seen.visited || Failed in s.seen.visited || DisconnectAnswer in s.seen.sent)
    && (s.seen.results == [] && s.state != Disconnected && s.timers.now > s.since + cfg.connectTimeout ==> s.state == Closed)
    && (s.state == Failed ==> s.timers.armed == map[])
  }

  /** Over every run. */
  lemma ConnectHandler(cfg: Config, es: seq<Event>)
    requires Legal(cfg, es)
    ensures HandlerKept(cfg, After(cfg, es))
  {
    hide After, Accepted;
  }

  /** A pong is awaited exactly while its timer is armed. */
  lemma AwaitingPong(cfg: Config, es: seq<Event>)
    requires Legal(cfg, es)
    ensures var t := After(cfg, es).timers;
            (t.awaiting <==> exists id :: id in t.armed && t.armed[id].kind == PongOverdue)
  {
    hide After;
    var t := After(cfg, es).timers;
    if t.awaiting {
      assert t.pong in t.armed;
      assert TimersOk(t);
    }
  }

  /** A later ping does not put off the deadline of a pong that is awaited. */
  lemma PongDeadlineStays(cfg: Config, es: seq<Event>)
    requires Legal(cfg, es) && es != []
    ensures Legal(cfg, es[..|es| - 1])
    ensures var s, t := After(cfg, es[..|es| - 1]), After(cfg, es);
            s.timers.awaiting && t.timers.awaiting && !Heard(s, es[|es| - 1], t) ==>
              && t.timers.pong == s.timers.pong && s.timers.pong in s.timers.armed && s.timers.pong in t.timers.armed
              && t.timers.armed[s.timers.pong] == s.timers.armed[s.timers.pong]
  {
    hide After, Inv;
    LastStep(cfg, es);
  }

  /** The device was heard in the k-th event of the run. */
  ghost predicate HeardAt(cfg: Config, es: seq<Event>, k: nat)
    requires Legal(cfg, es) && 0 < k <= |es|
  {
    PrefixLegal(cfg, es, k - 1);
    PrefixLegal(cfg, es, k);
    Heard(After(cfg, es[..k - 1]), es[k - 1], After(cfg, es[..k]))
  }

  ghost function TimeAt(cfg: Config, es: seq<Event>, k: nat): (t: nat)
    requires Legal(cfg, es) && k <= |es|
  {
    PrefixLegal(cfg, es, k);
    After(cfg, es[..k]).timers.now
  }

  /** While connected there is an event at which the device was last heard, and the timers
      are bounded from its time. */
  lemma {:induction false} LastHeard(cfg: Config, es: seq<Event>) returns (k: nat)
    requires Legal(cfg, es) && After(cfg, es).state == Connected
    ensures 0 < k <= |es| && HeardAt(cfg, es, k) && TimeAt(cfg, es, k) <= After(cfg, es).timers.now
    ensures Bound(cfg, After(cfg, es), TimeAt(cfg, es, k))
    decreases |es|
  {
    hide Inv, Bound, Step, Enabled;
    var p := es[..|es| - 1];
    LastStep(cfg, es);
    var s, e, t := After(cfg, p), es[|es| - 1], After(cfg, es);
    hide After;
    if Heard(s, e, t) {
      k := |es|;
      assert es[..k] == es;
    } else {
      k := LastHeard(cfg, p);
      assert p[..k] == es[..k] && p[..k - 1] == es[..k - 1];
    }
  }

  /** In a run with keepalive on, a connection that is up at some time was made or had a
      pong within the last interval plus timeout. */
  lemma Keepalive(cfg: Config, es: seq<Event>)
    requires Legal(cfg, es) && cfg.interval > 0 && After(cfg, es).state == Connected
    ensures exists k :: 0 < k <= |es| && HeardAt(cfg, es, k)
                        && After(cfg, es).timers.now <= TimeAt(cfg, es, k) + cfg.interval + cfg.timeout
  {
    hide After, HeardAt, TimeAt;
    var k := LastHeard(cfg, es);
    var t := After(cfg, es).timers;
    assert TimersOk(t);
  }

  // ----- the handler that is never called -----

  lemma Nothing(cfg: Config)
    ensures Legal(cfg, []) && After(cfg, []) == Init(cfg)
  {
  }

  /** One more event of a run. */
  lemma Extend(cfg: Config, es: seq<Event>, e: Event)
    requires Legal(cfg, es) && Enabled(After(cfg, es), e)
    ensures var s := After(cfg, es);
            && (e.TimerFires? ==> e.id in s.timers.armed && (s.timers.armed[e.id].kind.PingDue? ==> cfg.interval > 0))
            && Legal(cfg, es + [e]) && After(cfg, es + [e]) == Step(cfg, s, e)
  {
    hide Step, Inv, Enabled;
    StepKeeps(cfg, After(cfg, es), e);
    var fs := es + [e];
    assert fs[..|fs| - 1] == es;
  }

  lemma LeavingHello(cfg: Config, s: Conn)
    requires s.state == HelloSent
    ensures var t := Disconnect(cfg, s); t.state == Closing && t.link.writing && t.seen.results == s.seen.results
  {
    hide StopKeepalive, Callback;
    IdleCallback(cfg, Enter(s.(timers := StopKeepalive(s.timers)), Closing));
  }

  lemma Written(cfg: Config, s: Conn)
    requires s.state == Closing
    ensures var t := OnWritten(cfg, s); t.state == Closed && t.seen.results == s.seen.results
  {
    hide Callback;
    IdleCallback(cfg, Enter(s.(link := s.link.(writing := false, open := false)), Closed));
  }

  /** The documentation promises the handler exactly one call. A disconnect before the
      device's hello is answered closes the connection without it, from every run. */
  lemma ClosedUnanswered(cfg: Config, es: seq<Event>)
    requires Legal(cfg, es) && After(cfg, es).state == HelloSent
    ensures var fs := es + [DisconnectCalled] + [DisconnectWritten];
            Legal(cfg, fs) && After(cfg, fs).state == Closed && After(cfg, fs).seen.results == []
  {
    hide After, Inv, Legal, Disconnect, OnWritten;
    ConnectHandler(cfg, es);
    Extend(cfg, es, DisconnectCalled);
    LeavingHello(cfg, After(cfg, es));
    var ds := es + [DisconnectCalled];
    Extend(cfg, ds, DisconnectWritten);
    Written(cfg, After(cfg, ds));
  }

  lemma Greeted(cfg: Config, s: Conn)
    requires !cfg.needsHandshake && !cfg.user(s.seen.calls) && s.state == Connecting
    ensures var t := OnConnected(cfg, s, true);
            && t.state == HelloSent && t.owed == s.owed && t.seen.results == s.seen.results
            && t.link.reading && t.link.open == s.link.open && t.link.handshake == s.link.handshake
  {
    var c := s.(link := s.link.(connecting := false, reading := true));
    var d := Enter(SendHello(cfg, c), HelloSent);
    assert d.seen.calls == s.seen.calls;
    assert Callback(cfg, d) == Counted(d);
  }

  lemma Started(cfg: Config, s: Conn)
    requires s.state == Disconnected
    ensures var t := Start(cfg, s); t.state == Connecting && t.link.connecting && t.link.open == s.link.open && t.link.handshake == s.link.handshake
  {
    hide Callback;
    IdleCallback(cfg, Enter(s.(owed := true, since := s.timers.now), Connecting));
  }

  /** Such runs exist. */
  lemma HelloReached(cfg: Config)
    requires !cfg.needsHandshake && forall k :: !cfg.user(k)
    ensures var es := [StartCalled] + [ConnectResult(true)];
            && Legal(cfg, es) && After(cfg, es).state == HelloSent
            && After(cfg, es).link.reading && After(cfg, es).link.open && After(cfg, es).link.handshake == Done
  {
    assert Legal(cfg, []) && After(cfg, []) == Init(cfg);
    assert [] + [StartCalled] == [StartCalled];
    hide After, Inv, Legal, Start, OnConnected;
    Extend(cfg, [], StartCalled);
    Started(cfg, Init(cfg));
    Extend(cfg, [StartCalled], ConnectResult(true));
    Greeted(cfg, After(cfg, [StartCalled]));
  }

  // ----- the version that wraps -----

  lemma OneFrame(cfg: Config, s: Conn, m: Message)
    requires !Ended(s)
    ensures HandleItems(cfg, s, [Frame(m)]) == HandleFrame(cfg, s, m)
    ensures s.link.handshake == Done ==> Sensible(s.link.handshake, [Frame(m)])
  {
    hide HandleFrame;
    assert [Frame(m)][1..] == [];
  }

  lemma QuietCallback(cfg: Config, s: Conn)
    requires forall k :: !cfg.user(k)
    ensures Callback(cfg, s) == Counted(s)
  {
  }

  /** A quiet user does not change what the message does. */
  lemma QuietFrame(cfg: Config, s: Conn, m: Message)
    requires (forall k :: !cfg.user(k)) && !m.Unknown? && !m.Unparsable?
    ensures var d := HandleInternal(cfg, Counted(s), m);
            HandleFrame(cfg, s, m) == if Ended(d) then d else Counted(Counted(d))
  {
    hide Callback, HandleInternal;
    QuietCallback(cfg, s);
    var d := HandleInternal(cfg, Counted(s), m);
    QuietCallback(cfg, d);
    QuietCallback(cfg, Counted(d));
  }

  /** A device that announces major version 2^31 is connected to. */
  lemma WrappedVersion(cfg: Config, minor: U32)
    requires !cfg.needsHandshake && forall k :: !cfg.user(k)
    ensures var es := [StartCalled] + [ConnectResult(true)] + [Bytes([Frame(HelloResponse(0x8000_0000, minor, ""))])];
            Legal(cfg, es) && After(cfg, es).seen.results == [Success]
  {
    hide After, Inv, Legal, HandleFrame, HandleInternal, HandleItems, Sensible;
    HelloReached(cfg);
    var es := [StartCalled] + [ConnectResult(true)];
    var m := HelloResponse(0x8000_0000, minor, "");
    var s := After(cfg, es);
    ConnectHandler(cfg, es);
    StillOwed(cfg, s);
    OneFrame(cfg, s, m);
    Extend(cfg, es, Bytes([Frame(m)]));
    QuietFrame(cfg, s, m);
    MajorVersion(cfg, Counted(s), 0x8000_0000, minor, "");
  }

  lemma StillOwed(cfg: Config, s: Conn)
    requires Inv(cfg, s)
    ensures s.state == HelloSent ==> s.owed
  {
  }
}
