/** One-shot callbacks for GATT requests: who waits for which response. Each callback
    registered gets the next number; user code run by a callback may register more. */
module GattSpec {
  import opened Arith
  import Bits

  datatype Service = Service(uuid: string)

  datatype Request =
    | ReadOf(address: U64, handle: U32)
    | WriteOf(address: U64, handle: U32)
    | ServicesOf(address: U64)

  datatype Result =
    | ReadDone(address: U64, handle: U32, ok: bool, data: seq<Byte>, error: int)
    | WriteDone(address: U64, handle: U32, ok: bool, error: int)
    | ServicesDone(address: U64, ok: bool, services: seq<Service>, error: int)

  // ----- keys -----

  /** gatt_key: 48 bits of the address above 16 bits of the handle. */
  function Key(address: U64, handle: U32): (k: nat)
  {
    Bits.Or((0x1_0000 * address as int) % 0x1_0000_0000_0000_0000, handle as int % 0x1_0000)
  }

  lemma KeyValue(address: U64, handle: U32)
    ensures Key(address, handle) == 0x1_0000 * (address as int % 0x1_0000_0000_0000) + handle as int % 0x1_0000
  {
    hide Bits.Or;
    Pow2Values();
    var a, h := address as int % 0x1_0000_0000_0000, handle as int % 0x1_0000;
    ShiftResidue(0, address, 0x1_0000, 0x1_0000_0000_0000);
    Bits.OrDisjoint(h, a, 16);
  }

  /** Two requests share a key exactly when they agree in the bits the key keeps. */
  lemma KeyCollision(a: U64, h: U32, b: U64, g: U32)
    ensures Key(a, h) == Key(b, g) <==>
            a as int % 0x1_0000_0000_0000 == b as int % 0x1_0000_0000_0000 && h as int % 0x1_0000 == g as int % 0x1_0000
  {
    hide Key;
    KeyValue(a, h);
    KeyValue(b, g);
  }

  /** Beyond 48 bits of address two devices are confused. */
  lemma KeyConfused()
    ensures Key(0x1_0000_0000_0000, 7) == Key(0, 7)
  {
    KeyCollision(0x1_0000_0000_0000, 7, 0, 7);
  }

  // ----- the tables -----

  /** The three tables as one: which table, and the key in it. */
  datatype Slot = ReadSlot(key: nat) | WriteSlot(key: nat) | ServiceSlot(address: nat)

  /** The waiting callbacks, first come first; for services also what has arrived. */
  datatype Entry = Entry(services: seq<Service>, waiting: seq<nat>)

  datatype Firing = Firing(id: nat, result: Result)

  /** installed: the client dispatches GATT responses to the tables. */
  datatype Tables = Tables(installed: bool, pending: map<Slot, Entry>, registered: seq<Request>, fired: seq<Firing>)

  /** What the device sends. */
  datatype Response =
    | ReadResponse(address: U64, handle: U32, data: seq<Byte>)
    | WriteResponse(address: U64, handle: U32)
    | ServicesBatch(address: U64, services: seq<Service>)
    | ServicesEnd(address: U64)
    | ErrorResponse(address: U64, handle: U32, error: int)

  /** The requests a callback makes when it runs, from its number and its result. */
  type User = (nat, Result) -> seq<Request>

  const Empty: Tables := Tables(false, map[], [], [])

  function SlotOf(r: Request): (s: Slot)
  {
    match r
    case ReadOf(a, h) => ReadSlot(Key(a, h))
    case WriteOf(a, h) => WriteSlot(Key(a, h))
    case ServicesOf(a) => ServiceSlot(a)
  }

  function EntryAt(p: map<Slot, Entry>, s: Slot): (e: Entry)
  {
    if s in p then p[s] else Entry([], [])
  }

  function Enqueue(p: map<Slot, Entry>, s: Slot, id: nat): (q: map<Slot, Entry>)
  {
    var e := EntryAt(p, s);
    p[s := e.(waiting := e.waiting + [id])]
  }

  /** ensure_gatt_handlers: done by every request with a callback and by every setter of a
      persistent handler, and by nothing else. */
  function Install(t: Tables): (u: Tables)
  {
    t.(installed := true)
  }

  function Register(t: Tables, r: Request): (u: Tables)
  {
    t.(installed := true, pending := Enqueue(t.pending, SlotOf(r), |t.registered|), registered := t.registered + [r])
  }

  function RegisterAll(t: Tables, rs: seq<Request>): (u: Tables)
    decreases |rs|
  {
    if rs == [] then t else RegisterAll(Register(t, rs[0]), rs[1..])
  }

  /** One callback runs: it is recorded, and its requests are made. */
  function Fire(user: User, t: Tables, id: nat, result: Result): (u: Tables)
  {
    RegisterAll(t.(fired := t.fired + [Firing(id, result)]), user(id, result))
  }

  function FireAll(user: User, t: Tables, ids: seq<nat>, result: Result): (u: Tables)
    decreases |ids|
  {
    if ids == [] then t else FireAll(user, Fire(user, t, ids[0], result), ids[1..], result)
  }

  /** The entry is moved out and erased before its callbacks run. */
  function Settle(user: User, t: Tables, s: Slot, result: Result): (u: Tables)
  {
    if s !in t.pending then t
    else FireAll(user, t.(pending := t.pending - {s}), t.pending[s].waiting, result)
  }

  function AddBatch(t: Tables, address: U64, services: seq<Service>): (u: Tables)
  {
    var e := EntryAt(t.pending, ServiceSlot(address));
    t.(pending := t.pending[ServiceSlot(address) := e.(services := e.services + services)])
  }

  /** What ends the gathering of services: with the table so far, or with an error. */
  function ServicesResult(t: Tables, address: U64): (r: Result)
  {
    ServicesDone(address, true, EntryAt(t.pending, ServiceSlot(address)).services, 0)
  }

  /** A response, with the requests the persistent handler for it makes first. Before the
      dispatchers are installed nobody hears it. */
  function OnResponse(user: User, t: Tables, r: Response, first: seq<Request>): (u: Tables)
  {
    if t.installed then Dispatch(user, RegisterAll(t, Opening(r, first)), r) else t
  }

  /** There is no persistent handler for the response to a write. */
  function Opening(r: Response, first: seq<Request>): (rs: seq<Request>)
  {
    if r.WriteResponse? then [] else first
  }

  function Dispatch(user: User, t: Tables, r: Response): (u: Tables)
  {
    match r
    case ReadResponse(a, h, data) => Settle(user, t, ReadSlot(Key(a, h)), ReadDone(a, h, true, data, 0))
    case WriteResponse(a, h) => Settle(user, t, WriteSlot(Key(a, h)), WriteDone(a, h, true, 0))
    case ServicesBatch(a, ss) => AddBatch(t, a, ss)
    case ServicesEnd(a) => Settle(user, t, ServiceSlot(a), ServicesResult(t, a))
    case ErrorResponse(a, h, e) =>
      var d := Settle(user, t, ReadSlot(Key(a, h)), ReadDone(a, h, false, [], e));
      var f := Settle(user, d, WriteSlot(Key(a, h)), WriteDone(a, h, false, e));
      Settle(user, f, ServiceSlot(a), ServicesDone(a, false, [], e))
  }

  /** A request with a callback, a persistent handler set, or a response received. */
  datatype Event = Call(request: Request) | SetHandler | Received(response: Response, first: seq<Request>)

  function Step(user: User, t: Tables, e: Event): (u: Tables)
  {
    match e
    case Call(r) => Register(t, r)
    case SetHandler => Install(t)
    case Received(r, first) => OnResponse(user, t, r, first)
  }

  /** The tables after a run of calls and responses. */
  function After(user: User, es: seq<Event>): (t: Tables)
  {
    if es == [] then Empty else Step(user, After(user, es[..|es| - 1]), es[|es| - 1])
  }

  /** Something in the run has installed the dispatchers. */
  predicate Listening(es: seq<Event>)
  {
    exists i :: 0 <= i < |es| && !es[i].Received?
  }

  /** What an event does to the services collected for an address. */
  function Collect(before: seq<Service>, e: Event, address: nat): (ss: seq<Service>)
  {
    match e
    case Received(ServicesBatch(a, ss), _) => if a == address then before + ss else before
    case Received(ServicesEnd(a), _) => if a == address then [] else before
    case Received(ErrorResponse(a, _, _), _) => if a == address then [] else before
    case _ => before
  }

  /** The services the device has sent for an address since the last end or error. */
  function Sent(es: seq<Event>, address: nat): (ss: seq<Service>)
  {
    if es == [] then [] else Collect(Sent(es[..|es| - 1], address), es[|es| - 1], address)
  }

  /** Those of them that were heard. */
  function Gathered(es: seq<Event>, address: nat): (ss: seq<Service>)
  {
    if es == [] then []
    else
      var p := es[..|es| - 1];
      if Listening(p) then Collect(Gathered(p, address), es[|es| - 1], address) else []
  }
}
