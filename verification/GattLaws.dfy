/** Every one-shot callback is waiting in its place or has run exactly once. */
module GattLaws {
  import opened Arith
  import opened GattSpec

  // ----- the invariant -----

  ghost predicate Increasing(ids: seq<nat>)
  {
    forall i, j :: 0 <= i < j < |ids| ==> ids[i] < ids[j]
  }

  ghost predicate Waits(t: Tables, id: nat)
    requires id < |t.registered|
  {
    SlotOf(t.registered[id]) in t.pending && id in t.pending[SlotOf(t.registered[id])].waiting
  }

  ghost predicate HasRun(t: Tables, id: nat)
  {
    exists i :: 0 <= i < |t.fired| && t.fired[i].id == id
  }

  /** The result answers the request: same kind, and same address and handle in the bits
      that the key keeps. */
  ghost predicate Answers(r: Request, result: Result)
  {
    match r
    case ReadOf(a, h) => result.ReadDone? && Key(result.address, result.handle) == Key(a, h)
    case WriteOf(a, h) => result.WriteDone? && Key(result.address, result.handle) == Key(a, h)
    case ServicesOf(a) => result.ServicesDone? && result.address == a
  }

  ghost predicate TableOk(t: Tables)
  {
    forall s :: s in t.pending ==>
      && Increasing(t.pending[s].waiting)
      && forall id :: id in t.pending[s].waiting ==> id < |t.registered| && SlotOf(t.registered[id]) == s
  }

  ghost predicate FiredOk(t: Tables)
  {
    && (forall i :: 0 <= i < |t.fired| ==>
          t.fired[i].id < |t.registered| && Answers(t.registered[t.fired[i].id], t.fired[i].result))
    && (forall i, j :: 0 <= i < j < |t.fired| ==> t.fired[i].id != t.fired[j].id)
  }

  /** Callbacks moved out of a table and not yet run are in flight. */
  ghost predicate Conserved(t: Tables, flight: seq<nat>)
  {
    && Increasing(flight)
    && (forall id :: id in flight ==> id < |t.registered|)
    && (forall id :: 0 <= id < |t.registered| ==>
          if id in flight then !Waits(t, id) && !HasRun(t, id) else Waits(t, id) != HasRun(t, id))
  }

  ghost predicate Inv(t: Tables, flight: seq<nat>)
  {
    TableOk(t) && FiredOk(t) && Conserved(t, flight)
  }

  lemma InstallKeeps(t: Tables)
    requires Inv(t, [])
    ensures Inv(Install(t), [])
  {
    hide SlotOf, Answers;
    var u := Install(t);
    FiredSame(t, u);
    forall id | 0 <= id < |t.registered| ensures Waits(u, id) == Waits(t, id) && HasRun(u, id) == HasRun(t, id) {
    }
  }

  // ----- registering -----

  lemma RegisterTable(t: Tables, r: Request)
    requires TableOk(t)
    ensures TableOk(Register(t, r))
  {
    hide SlotOf;
    var u := Register(t, r);
    var n := |t.registered|;
    forall s | s in u.pending
      ensures Increasing(u.pending[s].waiting)
      ensures forall id :: id in u.pending[s].waiting ==> id < |u.registered| && SlotOf(u.registered[id]) == s
    {
      var w := EntryAt(t.pending, s).waiting;
      assert u.pending[s].waiting == if s == SlotOf(r) then w + [n] else w;
      forall i | 0 <= i < |w| ensures w[i] < n {
        assert w[i] in w;
      }
    }
  }

  lemma RegisterConserves(t: Tables, r: Request, flight: seq<nat>)
    requires TableOk(t) && FiredOk(t) && Conserved(t, flight)
    ensures Conserved(Register(t, r), flight)
  {
    hide SlotOf, Increasing;
    var u := Register(t, r);
    var n := |t.registered|;
    assert n !in flight;
    forall id | 0 <= id < n ensures Waits(u, id) == Waits(t, id) && HasRun(u, id) == HasRun(t, id) {
      assert u.registered[id] == t.registered[id];
      var s := SlotOf(t.registered[id]);
      assert id in EntryAt(u.pending, s).waiting <==> id in EntryAt(t.pending, s).waiting;
    }
    assert Waits(u, n);
    assert !HasRun(u, n);
  }

  lemma RegisterKeeps(t: Tables, r: Request, flight: seq<nat>)
    requires Inv(t, flight)
    ensures Inv(Register(t, r), flight)
  {
    RegisterTable(t, r);
    RegisterConserves(t, r, flight);
    hide TableOk, Conserved, Answers, SlotOf;
  }

  lemma {:induction false} RegisterAllKeeps(t: Tables, rs: seq<Request>, flight: seq<nat>)
    requires Inv(t, flight)
    ensures var u := RegisterAll(t, rs);
            Inv(u, flight) && t.registered <= u.registered && t.fired == u.fired
    decreases |rs|
  {
    hide Inv;
    if rs != [] {
      RegisterKeeps(t, rs[0], flight);
      RegisterAllKeeps(Register(t, rs[0]), rs[1..], flight);
    }
  }

  // ----- running callbacks -----

  lemma FireKeeps(user: User, t: Tables, flight: seq<nat>, result: Result)
    requires Inv(t, flight) && flight != [] && flight[0] < |t.registered| && Answers(t.registered[flight[0]], result)
    ensures var u := Fire(user, t, flight[0], result);
            Inv(u, flight[1..]) && t.registered <= u.registered
  {
    var id := flight[0];
    var u := t.(fired := t.fired + [Firing(id, result)]);
    RunConserves(t, flight, result);
    assert id in flight;
    RunOnce(t, id, result);
    assert TableOk(u);
    hide TableOk, FiredOk, Conserved;
    RegisterAllKeeps(u, user(id, result), flight[1..]);
  }

  lemma RunOnce(t: Tables, id: nat, result: Result)
    requires FiredOk(t) && id < |t.registered| && !HasRun(t, id) && Answers(t.registered[id], result)
    ensures FiredOk(t.(fired := t.fired + [Firing(id, result)]))
  {
    hide Answers;
    var f := t.fired + [Firing(id, result)];
    forall i | 0 <= i < |t.fired| ensures f[i] == t.fired[i] && t.fired[i].id != id {
    }
  }

  lemma RunConserves(t: Tables, flight: seq<nat>, result: Result)
    requires Inv(t, flight) && flight != []
    ensures Conserved(t.(fired := t.fired + [Firing(flight[0], result)]), flight[1..])
  {
    hide TableOk, FiredOk, SlotOf;
    var id0 := flight[0];
    var u := t.(fired := t.fired + [Firing(id0, result)]);
    assert flight == [id0] + flight[1..];
    forall id | 0 <= id < |t.registered|
      ensures Waits(u, id) == Waits(t, id)
      ensures HasRun(u, id) == (HasRun(t, id) || id == id0)
      ensures id in flight[1..] <==> id in flight && id != id0
    {
      if HasRun(t, id) {
        var i :| 0 <= i < |t.fired| && t.fired[i].id == id;
        assert u.fired[i].id == id;
      }
      if id == id0 {
        assert u.fired[|t.fired|].id == id;
      }
      if id in flight[1..] {
        var k :| 0 <= k < |flight[1..]| && flight[1..][k] == id;
        assert flight[k + 1] == id;
      }
    }
    assert Increasing(flight[1..]);
    forall id | id in flight[1..] ensures id < |t.registered| {
      assert id in flight;
    }
  }

  lemma {:induction false} FireAllKeeps(user: User, t: Tables, flight: seq<nat>, result: Result)
    requires Inv(t, flight) && forall id :: id in flight ==> id < |t.registered| && Answers(t.registered[id], result)
    ensures var u := FireAll(user, t, flight, result); Inv(u, []) && t.registered <= u.registered
    decreases |flight|
  {
    hide Inv, Answers, Fire;
    if flight != [] {
      assert flight[0] in flight;
      InFlight(t, flight, flight[0]);
      FireKeeps(user, t, flight, result);
      var u := Fire(user, t, flight[0], result);
      forall id | id in flight[1..] ensures id < |u.registered| && Answers(u.registered[id], result) {
        assert id in flight;
        InFlight(t, flight, id);
      }
      FireAllKeeps(user, u, flight[1..], result);
    }
  }

  lemma InFlight(t: Tables, flight: seq<nat>, id: nat)
    requires Inv(t, flight) && id in flight
    ensures id < |t.registered|
  {
  }

  // ----- settling a slot -----

  /** Taking an entry out puts its callbacks in flight. */
  lemma TakeOut(t: Tables, s: Slot)
    requires Inv(t, []) && s in t.pending
    ensures Inv(t.(pending := t.pending - {s}), t.pending[s].waiting)
  {
    hide SlotOf, FiredOk, Increasing;
    var u := t.(pending := t.pending - {s});
    var w := t.pending[s].waiting;
    forall id | 0 <= id < |t.registered|
      ensures Waits(u, id) == (Waits(t, id) && SlotOf(t.registered[id]) != s)
      ensures id in w <==> Waits(t, id) && SlotOf(t.registered[id]) == s
      ensures HasRun(u, id) == HasRun(t, id)
    {
    }
    FiredSame(t, u);
  }

  lemma FiredSame(t: Tables, u: Tables)
    requires FiredOk(t) && u.fired == t.fired && u.registered == t.registered
    ensures FiredOk(u)
  {
    hide Answers;
  }

  /** The result fits the slot: it answers every request kept there. */
  ghost predicate FitsSlot(s: Slot, result: Result)
  {
    forall r :: SlotOf(r) == s ==> Answers(r, result)
  }

  lemma SettleKeeps(user: User, t: Tables, s: Slot, result: Result)
    requires Inv(t, []) && FitsSlot(s, result)
    ensures Inv(Settle(user, t, s, result), [])
  {
    hide SlotOf, Answers, FireAll;
    if s in t.pending {
      TakeOut(t, s);
      var u, w := t.(pending := t.pending - {s}), t.pending[s].waiting;
      forall id | id in w ensures id < |u.registered| && Answers(u.registered[id], result) {
        assert TableOk(t);
        assert SlotOf(u.registered[id]) == s;
      }
      hide Inv;
      FireAllKeeps(user, u, w, result);
    }
  }

  lemma ResultsFit(a: U64, h: U32, ok: bool, data: seq<Byte>, ss: seq<Service>, e: int)
    ensures FitsSlot(ReadSlot(Key(a, h)), ReadDone(a, h, ok, data, e))
    ensures FitsSlot(WriteSlot(Key(a, h)), WriteDone(a, h, ok, e))
    ensures FitsSlot(ServiceSlot(a), ServicesDone(a, ok, ss, e))
  {
    hide Key;
  }

  lemma BatchKeeps(t: Tables, a: U64, ss: seq<Service>)
    requires Inv(t, [])
    ensures Inv(AddBatch(t, a, ss), [])
  {
    hide SlotOf, Increasing;
    var u := AddBatch(t, a, ss);
    forall s | s in u.pending
      ensures u.pending[s].waiting == EntryAt(t.pending, s).waiting
    {
    }
    FiredSame(t, u);
    assert TableOk(u) by { hide FiredOk, Conserved; NoneWaiting(); }
    forall id | 0 <= id < |t.registered| ensures Waits(u, id) == Waits(t, id) && HasRun(u, id) == HasRun(t, id) {
    }
  }

  lemma NoneWaiting()
    ensures Increasing([])
  {
  }

  lemma DispatchKeeps(user: User, c: Tables, r: Response)
    requires Inv(c, [])
    ensures Inv(Dispatch(user, c, r), [])
  {
    hide Inv, FitsSlot, Settle, AddBatch, Key;
    match r
    case ReadResponse(a, h, data) =>
      ResultsFit(a, h, true, data, [], 0);
      SettleKeeps(user, c, ReadSlot(Key(a, h)), ReadDone(a, h, true, data, 0));
    case WriteResponse(a, h) =>
      ResultsFit(a, h, true, [], [], 0);
      SettleKeeps(user, c, WriteSlot(Key(a, h)), WriteDone(a, h, true, 0));
    case ServicesBatch(a, ss) => BatchKeeps(c, a, ss);
    case ServicesEnd(a) =>
      ResultsFit(a, 0, true, [], EntryAt(c.pending, ServiceSlot(a)).services, 0);
      SettleKeeps(user, c, ServiceSlot(a), ServicesResult(c, a));
    case ErrorResponse(a, h, e) =>
      ResultsFit(a, h, false, [], [], e);
      SettleKeeps(user, c, ReadSlot(Key(a, h)), ReadDone(a, h, false, [], e));
      var d := Settle(user, c, ReadSlot(Key(a, h)), ReadDone(a, h, false, [], e));
      SettleKeeps(user, d, WriteSlot(Key(a, h)), WriteDone(a, h, false, e));
      var f := Settle(user, d, WriteSlot(Key(a, h)), WriteDone(a, h, false, e));
      SettleKeeps(user, f, ServiceSlot(a), ServicesDone(a, false, [], e));
  }

  lemma StepKeeps(user: User, t: Tables, e: Event)
    requires Inv(t, [])
    ensures Inv(Step(user, t, e), [])
  {
    hide Inv, Dispatch, Register, RegisterAll, Install;
    match e
    case Call(r) => RegisterKeeps(t, r, []);
    case SetHandler => InstallKeeps(t);
    case Received(r, first) =>
      RegisterAllKeeps(t, Opening(r, first), []);
      DispatchKeeps(user, RegisterAll(t, Opening(r, first)), r);
  }

  lemma {:induction false} RunKeeps(user: User, es: seq<Event>)
    ensures Inv(After(user, es), [])
    decreases |es|
  {
    hide Step;
    if es != [] {
      RunKeeps(user, es[..|es| - 1]);
      hide Inv;
      StepKeeps(user, After(user, es[..|es| - 1]), es[|es| - 1]);
    }
  }

  predicate InRange(address: U64, handle: U32)
  {
    address < 0x1_0000_0000_0000 && handle < 0x1_0000
  }

  /** The response named the request's address and handle: in the bits of the key always,
      and in full when both are in range. */
  ghost predicate Names(address: U64, handle: U32, a: U64, h: U32)
  {
    && address as int % 0x1_0000_0000_0000 == a as int % 0x1_0000_0000_0000
    && handle as int % 0x1_0000 == h as int % 0x1_0000
    && (InRange(a, h) && InRange(address, handle) ==> address == a && handle == h)
  }

  /** The callback was run for this request and no other. */
  ghost predicate OwnResult(r: Request, result: Result)
  {
    match r
    case ReadOf(a, h) => result.ReadDone? && Names(result.address, result.handle, a, h)
    case WriteOf(a, h) => result.WriteDone? && Names(result.address, result.handle, a, h)
    case ServicesOf(a) => result.ServicesDone? && result.address == a
  }

  lemma OwnAnswer(r: Request, result: Result)
    requires Answers(r, result)
    ensures OwnResult(r, result)
  {
    hide Key;
    match r
    case ReadOf(a, h) => KeyCollision(result.address, result.handle, a, h);
    case WriteOf(a, h) => KeyCollision(result.address, result.handle, a, h);
    case ServicesOf(a) =>
  }

  ghost predicate EachOnce(t: Tables)
  {
    && (forall id :: 0 <= id < |t.registered| ==> Waits(t, id) != HasRun(t, id))
    && (forall i, j :: 0 <= i < j < |t.fired| ==> t.fired[i].id != t.fired[j].id)
    && (forall i :: 0 <= i < |t.fired| ==>
          t.fired[i].id < |t.registered| && OwnResult(t.registered[t.fired[i].id], t.fired[i].result))
  }

  /** Over every run of calls and responses, with callbacks that register more: each
      registered callback waits in its own place or has run, never both and never twice,
      and it ran with its own kind of result for its own address and handle. */
  lemma OnceEach(user: User, es: seq<Event>)
    ensures EachOnce(After(user, es))
  {
    hide After, OwnResult, Answers, SlotOf;
    RunKeeps(user, es);
    var t := After(user, es);
    forall i | 0 <= i < |t.fired| ensures t.fired[i].id < |t.registered| && OwnResult(t.registered[t.fired[i].id], t.fired[i].result) {
      OwnAnswer(t.registered[t.fired[i].id], t.fired[i].result);
    }
  }

  // ----- what a response sets off -----

  function Firings(ids: seq<nat>, result: Result): (f: seq<Firing>)
    ensures |f| == |ids| && forall i :: 0 <= i < |ids| ==> f[i] == Firing(ids[i], result)
  {
    seq(|ids|, i requires 0 <= i < |ids| => Firing(ids[i], result))
  }

  lemma {:induction false} RegisterRuns(t: Tables, rs: seq<Request>)
    ensures RegisterAll(t, rs).fired == t.fired
    ensures forall a :: EntryAt(RegisterAll(t, rs).pending, ServiceSlot(a)).services == EntryAt(t.pending, ServiceSlot(a)).services
    decreases |rs|
  {
    hide SlotOf;
    if rs != [] {
      RegisterRuns(Register(t, rs[0]), rs[1..]);
    }
  }

  lemma {:induction false} FireAllRuns(user: User, t: Tables, ids: seq<nat>, result: Result)
    ensures var u := FireAll(user, t, ids, result);
            && u.fired == t.fired + Firings(ids, result)
            && forall a :: EntryAt(u.pending, ServiceSlot(a)).services == EntryAt(t.pending, ServiceSlot(a)).services
    decreases |ids|
  {
    hide RegisterAll, EntryAt;
    if ids != [] {
      var c := t.(fired := t.fired + [Firing(ids[0], result)]);
      RegisterRuns(c, user(ids[0], result));
      var d := Fire(user, t, ids[0], result);
      FireAllRuns(user, d, ids[1..], result);
      assert Firings(ids, result) == [Firing(ids[0], result)] + Firings(ids[1..], result);
    }
  }

  /** Settling a slot runs its callbacks, in the order they came. */
  lemma SettleRuns(user: User, t: Tables, s: Slot, result: Result)
    ensures var u := Settle(user, t, s, result);
            && u.fired == t.fired + Firings(EntryAt(t.pending, s).waiting, result)
            && forall a :: EntryAt(u.pending, ServiceSlot(a)).services
                        == if s == ServiceSlot(a) then [] else EntryAt(t.pending, ServiceSlot(a)).services
  {
    hide FireAll;
    if s in t.pending {
      FireAllRuns(user, t.(pending := t.pending - {s}), t.pending[s].waiting, result);
    }
  }

  // ----- services -----

  lemma {:induction false} RegisterListens(t: Tables, rs: seq<Request>)
    ensures RegisterAll(t, rs).installed == (t.installed || rs != [])
    decreases |rs|
  {
    hide SlotOf;
    if rs != [] {
      RegisterListens(Register(t, rs[0]), rs[1..]);
    }
  }

  lemma {:induction false} FireAllListens(user: User, t: Tables, ids: seq<nat>, result: Result)
    requires t.installed
    ensures FireAll(user, t, ids, result).installed
    decreases |ids|
  {
    hide RegisterAll;
    if ids != [] {
      RegisterListens(t.(fired := t.fired + [Firing(ids[0], result)]), user(ids[0], result));
      FireAllListens(user, Fire(user, t, ids[0], result), ids[1..], result);
    }
  }

  lemma SettleListens(user: User, t: Tables, s: Slot, result: Result)
    requires t.installed
    ensures Settle(user, t, s, result).installed
  {
    hide FireAll;
    if s in t.pending {
      FireAllListens(user, t.(pending := t.pending - {s}), t.pending[s].waiting, result);
    }
  }

  /** What is held for an address follows the responses heard. */
  lemma DispatchGathers(user: User, c: Tables, r: Response, first: seq<Request>, a: nat)
    requires c.installed
    ensures var u := Dispatch(user, c, r);
            && u.installed
            && EntryAt(u.pending, ServiceSlot(a)).services == Collect(EntryAt(c.pending, ServiceSlot(a)).services, Received(r, first), a)
  {
    hide Settle, Key;
    match r
    case ReadResponse(b, h, data) =>
      SettleListens(user, c, ReadSlot(Key(b, h)), ReadDone(b, h, true, data, 0));
      SettleRuns(user, c, ReadSlot(Key(b, h)), ReadDone(b, h, true, data, 0));
    case WriteResponse(b, h) =>
      SettleListens(user, c, WriteSlot(Key(b, h)), WriteDone(b, h, true, 0));
      SettleRuns(user, c, WriteSlot(Key(b, h)), WriteDone(b, h, true, 0));
    case ServicesBatch(b, ss) =>
    case ServicesEnd(b) =>
      SettleListens(user, c, ServiceSlot(b), ServicesResult(c, b));
      SettleRuns(user, c, ServiceSlot(b), ServicesResult(c, b));
    case ErrorResponse(b, h, e) => ErrorGathers(user, c, b, h, e, first, a);
  }

  lemma ErrorGathers(user: User, c: Tables, b: U64, h: U32, e: int, first: seq<Request>, a: nat)
    requires c.installed
    ensures var r := ErrorResponse(b, h, e);
            var u := Dispatch(user, c, r);
            && u.installed
            && EntryAt(u.pending, ServiceSlot(a)).services == Collect(EntryAt(c.pending, ServiceSlot(a)).services, Received(r, first), a)
  {
    hide Settle, Key, EntryAt;
    SettleRuns(user, c, ReadSlot(Key(b, h)), ReadDone(b, h, false, [], e));
    SettleListens(user, c, ReadSlot(Key(b, h)), ReadDone(b, h, false, [], e));
    var d := Settle(user, c, ReadSlot(Key(b, h)), ReadDone(b, h, false, [], e));
    SettleRuns(user, d, WriteSlot(Key(b, h)), WriteDone(b, h, false, e));
    SettleListens(user, d, WriteSlot(Key(b, h)), WriteDone(b, h, false, e));
    var f := Settle(user, d, WriteSlot(Key(b, h)), WriteDone(b, h, false, e));
    SettleRuns(user, f, ServiceSlot(b), ServicesDone(b, false, [], e));
    SettleListens(user, f, ServiceSlot(b), ServicesDone(b, false, [], e));
  }

  lemma ListeningStep(es: seq<Event>)
    requires es != []
    ensures Listening(es) <==> Listening(es[..|es| - 1]) || !es[|es| - 1].Received?
  {
    var p := es[..|es| - 1];
    if Listening(p) {
      var i :| 0 <= i < |p| && !p[i].Received?;
      assert es[i] == p[i];
    }
    if Listening(es) {
      var i :| 0 <= i < |es| && !es[i].Received?;
      assert i < |p| ==> p[i] == es[i];
    }
  }

  /** The dispatchers are installed, and the services held, as the run says. */
  lemma {:induction false} GatheredHeld(user: User, es: seq<Event>, a: nat)
    ensures var t := After(user, es);
            && t.installed == Listening(es)
            && EntryAt(t.pending, ServiceSlot(a)).services == Gathered(es, a)
            && (!t.installed ==> t == Empty)
    decreases |es|
  {
    hide Dispatch, EntryAt, RegisterAll, Listening, Register;
    if es == [] {
      NothingHeld(a);
    } else {
      var p := es[..|es| - 1];
      ListeningStep(es);
      GatheredHeld(user, p, a);
      var t := After(user, p);
      NothingHeld(a);
      match es[|es| - 1]
      case Call(r) =>
        RegisterRuns(t, [r]);
        RegisterListens(t, [r]);
        OneRequest(t, r);
      case SetHandler =>
      case Received(r, first) =>
        if t.installed {
          var rs := Opening(r, first);
          RegisterRuns(t, rs);
          RegisterListens(t, rs);
          DispatchGathers(user, RegisterAll(t, rs), r, first, a);
        }
    }
  }

  lemma NothingHeld(a: nat)
    ensures EntryAt(map[], ServiceSlot(a)).services == [] && !Listening([])
  {
  }

  lemma OneRequest(t: Tables, r: Request)
    ensures RegisterAll(t, [r]) == Register(t, r)
  {
    assert [r][1..] == [];
  }

  /** Over every run in which the dispatchers are installed: when the device ends the list
      for an address, the callbacks waiting for it run in order, each with all the services
      heard since the previous end or error; before that nothing happens at all. */
  lemma ServicesComplete(user: User, es: seq<Event>, a: U64, first: seq<Request>)
    ensures var t := After(user, es);
            var u := After(user, es + [Received(ServicesEnd(a), first)]);
            if Listening(es) then
              var waiting := EntryAt(RegisterAll(t, first).pending, ServiceSlot(a)).waiting;
              u.fired == t.fired + Firings(waiting, ServicesDone(a, true, Gathered(es, a), 0))
            else t == Empty && u == Empty
  {
    hide Settle, RegisterAll, EntryAt, Listening;
    LastEvent(user, es, Received(ServicesEnd(a), first));
    var c := RegisterAll(After(user, es), first);
    RegisterRuns(After(user, es), first);
    GatheredHeld(user, es, a);
    SettleRuns(user, c, ServiceSlot(a), ServicesResult(c, a));
  }

  /** Some services for the address, which no end or error has followed, came before the
      dispatchers were installed. */
  ghost predicate Missed(es: seq<Event>, a: nat)
  {
    exists i :: 0 <= i < |es| && SendsServices(es[i], a) && !Listening(es[..i]) && Open(es[i + 1..], a)
  }

  predicate SendsServices(e: Event, a: nat)
  {
    e.Received? && e.response.ServicesBatch? && e.response.address == a && e.response.services != []
  }

  predicate Ends(e: Event, a: nat)
  {
    e.Received? && (e.response.ServicesEnd? || e.response.ErrorResponse?) && e.response.address == a
  }

  /** Neither an end nor an error for the address. */
  predicate Open(es: seq<Event>, a: nat)
  {
    forall j :: 0 <= j < |es| ==> !Ends(es[j], a)
  }

  /** What was missed, in full. */
  function Lost(es: seq<Event>, a: nat): (ss: seq<Service>)
  {
    if es == [] then []
    else
      var p := es[..|es| - 1];
      if Listening(p) then (if Ends(es[|es| - 1], a) then [] else Lost(p, a)) else Sent(es, a)
  }

  lemma {:induction false} SentIsLostAndGathered(es: seq<Event>, a: nat)
    ensures Sent(es, a) == Lost(es, a) + Gathered(es, a)
    decreases |es|
  {
    hide Listening;
    if es != [] {
      var p, e := es[..|es| - 1], es[|es| - 1];
      SentIsLostAndGathered(p, a);
      if !Listening(p) {
        assert Sent(es, a) + [] == Sent(es, a);
      } else if SendsServices(e, a) {
        var ss := e.response.services;
        assert Lost(p, a) + Gathered(p, a) + ss == Lost(p, a) + (Gathered(p, a) + ss);
      } else if e.Received? && e.response.ServicesBatch? && e.response.address == a {
        assert Sent(p, a) + [] == Sent(p, a) && Gathered(p, a) + [] == Gathered(p, a);
      }
    }
  }

  lemma {:induction false} LostIsMissed(es: seq<Event>, a: nat)
    ensures Lost(es, a) != [] <==> Missed(es, a)
    decreases |es|
  {
    hide Listening;
    if es != [] {
      LostIsMissed(es[..|es| - 1], a);
      MissedStep(es, a);
      if !Listening(es[..|es| - 1]) {
        NothingHeard(es[..|es| - 1], a);
      }
    }
  }

  /** Before anything is heard all that was sent is lost. */
  lemma NothingHeard(es: seq<Event>, a: nat)
    requires !Listening(es)
    ensures Lost(es, a) == Sent(es, a)
  {
    if es != [] {
      ListeningStep(es);
    }
  }

  lemma MissedStep(es: seq<Event>, a: nat)
    requires es != []
    ensures var p, e := es[..|es| - 1], es[|es| - 1];
            Missed(es, a) <==> (Missed(p, a) && !Ends(e, a)) || (SendsServices(e, a) && !Listening(p))
  {
    hide Listening, SendsServices, Ends;
    var p, e := es[..|es| - 1], es[|es| - 1];
    if Missed(es, a) {
      var i :| 0 <= i < |es| && SendsServices(es[i], a) && !Listening(es[..i]) && Open(es[i + 1..], a);
      if i < |p| {
        assert p[i] == es[i] && p[..i] == es[..i];
        assert es[i + 1..] == p[i + 1..] + [e];
        OpenSnoc(p[i + 1..], e, a);
      } else {
        assert es[..i] == p;
      }
    }
    if Missed(p, a) && !Ends(e, a) {
      var i :| 0 <= i < |p| && SendsServices(p[i], a) && !Listening(p[..i]) && Open(p[i + 1..], a);
      assert p[i] == es[i] && p[..i] == es[..i];
      assert es[i + 1..] == p[i + 1..] + [e];
      OpenSnoc(p[i + 1..], e, a);
    }
    if SendsServices(e, a) && !Listening(p) {
      assert es[..|p|] == p && es[|p|] == e && es[|p| + 1..] == [];
    }
  }

  lemma OpenSnoc(es: seq<Event>, e: Event, a: nat)
    ensures Open(es + [e], a) <==> Open(es, a) && !Ends(e, a)
  {
    hide Ends;
    var fs := es + [e];
    if Open(fs, a) {
      assert !Ends(fs[|es|], a);
      forall j | 0 <= j < |es| ensures !Ends(es[j], a) {
        assert fs[j] == es[j];
      }
    }
  }

  /** A result holds every service sent since the previous end or error exactly when none
      of them came before the dispatchers were installed. */
  lemma NoneMissed(es: seq<Event>, a: nat)
    ensures Gathered(es, a) == Sent(es, a) <==> !Missed(es, a)
  {
    hide Sent, Lost, Gathered, Missed;
    SentIsLostAndGathered(es, a);
    LostIsMissed(es, a);
  }

  lemma LastEvent(user: User, es: seq<Event>, e: Event)
    ensures After(user, es + [e]) == Step(user, After(user, es), e)
  {
    var fs := es + [e];
    assert fs[..|fs| - 1] == es;
  }

  /** A list asked for without a callback is under way when the first callback is
      registered: that callback gets the list without its beginning. */
  lemma Truncated(user: User, a: U64, ss: seq<Service>)
    ensures var es := [Received(ServicesBatch(a, ss), [])] + [Call(ServicesOf(a))];
            After(user, es + [Received(ServicesEnd(a), [])]).fired == [Firing(0, ServicesDone(a, true, [], 0))]
  {
    hide Settle;
    var b, c, e := Received(ServicesBatch(a, ss), []), Call(ServicesOf(a)), Received(ServicesEnd(a), []);
    LastEvent(user, [], b);
    assert [] + [b] == [b];
    LastEvent(user, [b], c);
    LastEvent(user, [b] + [c], e);
    var t := Register(Empty, ServicesOf(a));
    SettleRuns(user, t, ServiceSlot(a), ServicesResult(t, a));
    assert Firings([0], ServicesDone(a, true, [], 0)) == [Firing(0, ServicesDone(a, true, [], 0))];
  }

  /** Past 48 bits a callback can be run for another device's response. */
  lemma Misdelivered(user: User, data: seq<Byte>)
    ensures var es := [Call(ReadOf(0x1_0000_0000_0000, 7))] + [Received(ReadResponse(0, 7, data), [])];
            After(user, es).fired == [Firing(0, ReadDone(0, 7, true, data, 0))]
  {
    hide Key, Settle;
    var r := ReadOf(0x1_0000_0000_0000, 7);
    LastEvent(user, [], Call(r));
    LastEvent(user, [Call(r)], Received(ReadResponse(0, 7, data), []));
    assert [] + [Call(r)] == [Call(r)];
    var t := After(user, [Call(r)]);
    assert t == Register(Empty, r);
    KeyConfused();
    SettleRuns(user, t, ReadSlot(Key(0, 7)), ReadDone(0, 7, true, data, 0));
    assert Firings([0], ReadDone(0, 7, true, data, 0)) == [Firing(0, ReadDone(0, 7, true, data, 0))];
  }
}
