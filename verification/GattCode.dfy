/** The pending tables as the program holds them, with the response handlers that empty
    them, proved against the tables on values. */
module GattCode {
  import opened Arith
  import opened Spec = GattSpec
  import GattLaws

  class BluetoothProxy {
    const user: User
    var gattRegistered: bool
    var pendingReads: map<nat, seq<nat>>
    var pendingWrites: map<nat, seq<nat>>
    var pendingServices: map<nat, Entry>
    /** How many callbacks have been registered; the next one's number. */
    var count: nat
    /** The three tables, and what has been registered and run. */
    ghost var tables: Tables
    /** The events so far, of which the tables are the outcome between events. */
    ghost var history: seq<Event>

    ghost predicate Valid()
      reads this
    {
      && count == |tables.registered| && gattRegistered == tables.installed
      && (forall k :: k in pendingReads <==> ReadSlot(k) in tables.pending)
      && (forall k :: k in pendingReads ==> tables.pending[ReadSlot(k)] == Entry([], pendingReads[k]))
      && (forall k :: k in pendingWrites <==> WriteSlot(k) in tables.pending)
      && (forall k :: k in pendingWrites ==> tables.pending[WriteSlot(k)] == Entry([], pendingWrites[k]))
      && (forall a :: a in pendingServices <==> ServiceSlot(a) in tables.pending)
      && (forall a :: a in pendingServices ==> tables.pending[ServiceSlot(a)] == pendingServices[a])
    }

    /** Between events the tables are those of the run so far. */
    ghost predicate InRun()
      reads this
    {
      Valid() && tables == After(user, history)
    }

    constructor (user: User)
      ensures InRun() && history == [] && this.user == user
    {
      this.user := user;
      gattRegistered, history := false, [];
      pendingReads, pendingWrites, pendingServices, count := map[], map[], map[], 0;
      tables := Empty;
    }

    method Extend(e: Event)
      requires Valid()
      modifies this`history
      ensures Valid() && history == old(history) + [e]
    {
      history := history + [e];
    }

    method EnsureGattHandlers()
      requires Valid()
      modifies this
      ensures Valid() && tables == Install(old(tables)) && history == old(history)
    {
      if gattRegistered {
        return;
      }
      gattRegistered := true;
      tables := Install(tables);
    }

    method Read(address: U64, handle: U32)
      requires Valid()
      modifies this
      ensures Valid() && tables == Register(old(tables), ReadOf(address, handle))
      ensures history == old(history)
    {
      hide Key;
      EnsureGattHandlers();
      var k := Key(address, handle);
      pendingReads := pendingReads[k := (if k in pendingReads then pendingReads[k] else []) + [count]];
      count := count + 1;
      tables := Register(tables, ReadOf(address, handle));
    }

    method Write(address: U64, handle: U32)
      requires Valid()
      modifies this
      ensures Valid() && tables == Register(old(tables), WriteOf(address, handle))
      ensures history == old(history)
    {
      hide Key;
      EnsureGattHandlers();
      var k := Key(address, handle);
      pendingWrites := pendingWrites[k := (if k in pendingWrites then pendingWrites[k] else []) + [count]];
      count := count + 1;
      tables := Register(tables, WriteOf(address, handle));
    }

    method GetServices(address: U64)
      requires Valid()
      modifies this
      ensures Valid() && tables == Register(old(tables), ServicesOf(address))
      ensures history == old(history)
    {
      EnsureGattHandlers();
      var e := if address in pendingServices then pendingServices[address] else Entry([], []);
      pendingServices := pendingServices[address := e.(waiting := e.waiting + [count])];
      count := count + 1;
      tables := Register(tables, ServicesOf(address));
    }

    /** User code making its requests. */
    method Requests(rs: seq<Request>)
      requires Valid()
      modifies this
      ensures Valid() && tables == RegisterAll(old(tables), rs)
      ensures history == old(history)
    {
      hide Valid, Register;
      for i := 0 to |rs|
        invariant Valid() && history == old(history) && RegisterAll(tables, rs[i..]) == RegisterAll(old(tables), rs)
        modifies this
      {
        assert rs[i..][1..] == rs[i + 1..];
        match rs[i] {
          case ReadOf(a, h) => Read(a, h);
          case WriteOf(a, h) => Write(a, h);
          case ServicesOf(a) => GetServices(a);
        }
      }
    }

    method Run(once: seq<nat>, result: Result)
      requires Valid()
      modifies this
      ensures Valid() && tables == FireAll(user, old(tables), once, result)
      ensures history == old(history)
    {
      hide RegisterAll;
      for i := 0 to |once|
        invariant Valid() && history == old(history) && FireAll(user, tables, once[i..], result) == FireAll(user, old(tables), once, result)
        modifies this
      {
        assert once[i..][1..] == once[i + 1..];
        tables := tables.(fired := tables.fired + [Firing(once[i], result)]);
        Requests(user(once[i], result));
      }
    }

    method SettleReads(k: nat, result: Result)
      requires Valid()
      modifies this
      ensures Valid() && tables == Settle(user, old(tables), ReadSlot(k), result)
      ensures history == old(history)
    {
      hide FireAll;
      if k in pendingReads {
        var once := pendingReads[k];
        pendingReads := pendingReads - {k};
        tables := tables.(pending := tables.pending - {ReadSlot(k)});
        Run(once, result);
      }
    }

    method SettleWrites(k: nat, result: Result)
      requires Valid()
      modifies this
      ensures Valid() && tables == Settle(user, old(tables), WriteSlot(k), result)
      ensures history == old(history)
    {
      hide FireAll;
      if k in pendingWrites {
        var once := pendingWrites[k];
        pendingWrites := pendingWrites - {k};
        tables := tables.(pending := tables.pending - {WriteSlot(k)});
        Run(once, result);
      }
    }

    method SettleServices(address: U64, result: Result)
      requires Valid()
      modifies this
      ensures Valid() && tables == Settle(user, old(tables), ServiceSlot(address), result)
      ensures history == old(history)
    {
      hide FireAll;
      if address in pendingServices {
        var once := pendingServices[address].waiting;
        pendingServices := pendingServices - {address};
        tables := tables.(pending := tables.pending - {ServiceSlot(address)});
        Run(once, result);
      }
    }

    /** first: the requests the persistent handler for the response makes. */
    method OnReadResponse(address: U64, handle: U32, data: seq<Byte>, first: seq<Request>)
      requires Valid()
      modifies this
      ensures Valid() && tables == OnResponse(user, old(tables), ReadResponse(address, handle, data), first)
      ensures history == old(history)
    {
      hide Settle, RegisterAll, Key;
      if !gattRegistered {
        return;
      }
      Requests(first);
      SettleReads(Key(address, handle), ReadDone(address, handle, true, data, 0));
    }

    method OnWriteResponse(address: U64, handle: U32)
      requires Valid()
      modifies this
      ensures Valid() && tables == OnResponse(user, old(tables), WriteResponse(address, handle), [])
      ensures history == old(history)
    {
      hide Settle, Key;
      if !gattRegistered {
        return;
      }
      SettleWrites(Key(address, handle), WriteDone(address, handle, true, 0));
    }

    method OnServices(address: U64, services: seq<Service>, first: seq<Request>)
      requires Valid()
      modifies this
      ensures Valid() && tables == OnResponse(user, old(tables), ServicesBatch(address, services), first)
      ensures history == old(history)
    {
      hide RegisterAll;
      if !gattRegistered {
        return;
      }
      Requests(first);
      var e := if address in pendingServices then pendingServices[address] else Entry([], []);
      pendingServices := pendingServices[address := e.(services := e.services + services)];
      tables := AddBatch(tables, address, services);
    }

    method OnServicesDone(address: U64, first: seq<Request>)
      requires Valid()
      modifies this
      ensures Valid() && tables == OnResponse(user, old(tables), ServicesEnd(address), first)
      ensures history == old(history)
    {
      hide Settle, RegisterAll;
      if !gattRegistered {
        return;
      }
      Requests(first);
      if address in pendingServices {
        var gathered := pendingServices[address].services;
        SettleServices(address, ServicesDone(address, true, gathered, 0));
      } else {
        NothingToSettle(user, tables, ServiceSlot(address), ServicesResult(tables, address));
      }
    }

    method OnError(address: U64, handle: U32, error: int, first: seq<Request>)
      requires Valid()
      modifies this
      ensures Valid() && tables == OnResponse(user, old(tables), ErrorResponse(address, handle, error), first)
      ensures history == old(history)
    {
      hide Settle, RegisterAll, Key;
      if !gattRegistered {
        return;
      }
      Requests(first);
      var k := Key(address, handle);
      SettleReads(k, ReadDone(address, handle, false, [], error));
      SettleWrites(k, WriteDone(address, handle, false, error));
      SettleServices(address, ServicesDone(address, false, [], error));
    }
  }

  method HandleCall(p: BluetoothProxy, r: Request)
    requires p.Valid()
    modifies p
    ensures p.Valid() && p.tables == Register(old(p.tables), r) && p.history == old(p.history)
  {
    hide Register, p.Valid;
    match r {
      case ReadOf(a, h) => p.Read(a, h);
      case WriteOf(a, h) => p.Write(a, h);
      case ServicesOf(a) => p.GetServices(a);
    }
  }

  method HandleResponse(p: BluetoothProxy, r: Response, first: seq<Request>)
    requires p.Valid()
    modifies p
    ensures p.Valid() && p.tables == OnResponse(p.user, old(p.tables), r, first) && p.history == old(p.history)
  {
    hide p.Valid, OnResponse;
    match r {
      case ReadResponse(a, h, data) => p.OnReadResponse(a, h, data, first);
      case WriteResponse(a, h) =>
        NothingFirst(p.user, p.tables, a, h, first);
        p.OnWriteResponse(a, h);
      case ServicesBatch(a, ss) => p.OnServices(a, ss, first);
      case ServicesEnd(a) => p.OnServicesDone(a, first);
      case ErrorResponse(a, h, e) => p.OnError(a, h, e, first);
    }
  }

  lemma NothingFirst(user: User, t: Tables, a: U64, h: U32, first: seq<Request>)
    ensures OnResponse(user, t, WriteResponse(a, h), first) == OnResponse(user, t, WriteResponse(a, h), [])
  {
    hide Dispatch;
  }

  /** An event reaches the object: a call, a persistent handler set, or a response. */
  method Handle(p: BluetoothProxy, e: Event)
    requires p.InRun()
    modifies p
    ensures p.InRun() && p.history == old(p.history) + [e]
  {
    hide Register, OnResponse, p.Valid;
    match e {
      case Call(r) => HandleCall(p, r);
      case SetHandler => p.EnsureGattHandlers();
      case Received(r, first) => HandleResponse(p, r, first);
    }
    GattLaws.LastEvent(p.user, p.history, e);
    p.Extend(e);
  }

  /** Whatever has reached the object, each callback it took waits or has run once, with
      its own result. */
  lemma ObjectOnceEach(p: BluetoothProxy)
    requires p.InRun()
    ensures GattLaws.EachOnce(p.tables) && p.count == |p.tables.registered|
  {
    hide GattLaws.EachOnce;
    GattLaws.OnceEach(p.user, p.history);
  }

  lemma NothingToSettle(user: User, t: Tables, s: Slot, result: Result)
    requires s !in t.pending
    ensures Settle(user, t, s, result) == t
  {
  }
}
