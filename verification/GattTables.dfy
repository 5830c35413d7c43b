/** When a services callback gets the whole table a device has sent, and when it does not. */
module GattTables {
  import opened Arith
  import opened GattSpec
  import opened GattLaws

  /** All services sent for an address in a part of a run. */
  function Batches(es: seq<Event>, a: nat): (ss: seq<Service>)
  {
    if es == [] then []
    else
      var before, e := Batches(es[..|es| - 1], a), es[|es| - 1];
      if SendsServices(e, a) then before + e.response.services else before
  }

  predicate EndsList(e: Event, a: nat)
  {
    e.Received? && e.response.ServicesEnd? && e.response.address == a
  }

  /** A list under way: the device has not ended it. */
  predicate UnderWay(q: seq<Event>, a: nat)
  {
    forall i :: 0 <= i < |q| ==> !EndsList(q[i], a)
  }

  /** After p, services sent in q were not heard, because the dispatchers were not installed,
      or were thrown away by a later error for the address, whatever it was about. */
  ghost predicate Cut(p: seq<Event>, q: seq<Event>, a: nat)
  {
    exists i :: 0 <= i < |q| && SendsServices(q[i], a) && (!Listening(p + q[..i]) || !Open(q[i + 1..], a))
  }

  /** Services of an earlier list that never ended are held when q begins, and no error
      throws them away. */
  ghost predicate Stale(p: seq<Event>, q: seq<Event>, a: nat)
  {
    Gathered(p, a) != [] && Open(q, a)
  }

  // ----- what is held, kept and lost -----

  /** What q leaves of the services held before it. */
  function Held(p: seq<Event>, q: seq<Event>, a: nat): (ss: seq<Service>)
    decreases |q|
  {
    if q == [] then Gathered(p, a)
    else if Ends(q[|q| - 1], a) then [] else Held(p, q[..|q| - 1], a)
  }

  /** The services of q that were heard and not thrown away. */
  function Kept(p: seq<Event>, q: seq<Event>, a: nat): (ss: seq<Service>)
    decreases |q|
  {
    if q == [] then []
    else
      var r := q[..|q| - 1];
      if Listening(p + r) then Collect(Kept(p, r, a), q[|q| - 1], a) else []
  }

  /** Those that were not. */
  function Dropped(p: seq<Event>, q: seq<Event>, a: nat): (ss: seq<Service>)
    decreases |q|
  {
    if q == [] then []
    else
      var r := q[..|q| - 1];
      if !Listening(p + r) then Batches(q, a) else if Ends(q[|q| - 1], a) then Batches(r, a) else Dropped(p, r, a)
  }

  lemma Unheard(p: seq<Event>, a: nat)
    requires !Listening(p)
    ensures Gathered(p, a) == []
  {
    if p != [] {
      ListeningStep(p);
    }
  }

  lemma ListeningGrows(p: seq<Event>, q: seq<Event>)
    ensures Listening(p) ==> Listening(p + q)
  {
    if Listening(p) {
      var i :| 0 <= i < |p| && !p[i].Received?;
      assert (p + q)[i] == p[i];
    }
  }

  lemma Snoc(p: seq<Event>, q: seq<Event>)
    requires q != []
    ensures var es := p + q; es[..|es| - 1] == p + q[..|q| - 1] && es[|es| - 1] == q[|q| - 1]
  {
  }

  lemma {:induction false} NothingHeldUnheard(p: seq<Event>, q: seq<Event>, a: nat)
    requires !Listening(p)
    ensures Held(p, q, a) == []
    decreases |q|
  {
    hide Listening, Gathered;
    Unheard(p, a);
    if q != [] {
      NothingHeldUnheard(p, q[..|q| - 1], a);
    }
  }

  lemma {:induction false} GatheredIsHeldAndKept(p: seq<Event>, q: seq<Event>, a: nat)
    requires UnderWay(q, a)
    ensures Gathered(p + q, a) == Held(p, q, a) + Kept(p, q, a)
    decreases |q|
  {
    hide Listening;
    if q == [] {
      assert p + q == p;
      assert Gathered(p, a) + [] == Gathered(p, a);
    } else {
      var r, e := q[..|q| - 1], q[|q| - 1];
      Snoc(p, q);
      GatheredIsHeldAndKept(p, r, a);
      ListeningGrows(p, r);
      if !Listening(p + r) {
        NothingHeldUnheard(p, q, a);
      } else {
        CollectAfter(Held(p, r, a), Kept(p, r, a), e, a);
      }
    }
  }

  lemma CollectAfter(x: seq<Service>, y: seq<Service>, e: Event, a: nat)
    ensures Collect(x + y, e, a) == (if Ends(e, a) then [] else x) + Collect(y, e, a)
  {
    if SendsServices(e, a) {
      assert x + y + e.response.services == x + (y + e.response.services);
    } else if e.Received? && e.response.ServicesBatch? && e.response.address == a {
      assert x + y + [] == x + y && y + [] == y;
    }
  }

  lemma {:induction false} BatchesAreDroppedAndKept(p: seq<Event>, q: seq<Event>, a: nat)
    requires UnderWay(q, a)
    ensures Batches(q, a) == Dropped(p, q, a) + Kept(p, q, a)
    decreases |q|
  {
    hide Listening;
    if q != [] {
      var r, e := q[..|q| - 1], q[|q| - 1];
      BatchesAreDroppedAndKept(p, r, a);
      if !Listening(p + r) {
        assert Batches(q, a) + [] == Batches(q, a);
      } else if Ends(e, a) {
        assert Batches(r, a) + [] == Batches(r, a);
      } else if SendsServices(e, a) {
        assert Dropped(p, r, a) + Kept(p, r, a) + e.response.services == Dropped(p, r, a) + (Kept(p, r, a) + e.response.services);
      } else if e.Received? && e.response.ServicesBatch? && e.response.address == a {
        assert Kept(p, r, a) + [] == Kept(p, r, a);
      }
    }
  }

  // ----- in terms of the events -----

  lemma {:induction false} SomeBatch(q: seq<Event>, a: nat)
    ensures Batches(q, a) != [] <==> exists i :: 0 <= i < |q| && SendsServices(q[i], a)
    decreases |q|
  {
    hide SendsServices;
    if q != [] {
      var r, e := q[..|q| - 1], q[|q| - 1];
      SomeBatch(r, a);
      SentNotEmpty(e, a);
      assert forall i :: 0 <= i < |r| ==> r[i] == q[i];
    }
  }

  lemma SentNotEmpty(e: Event, a: nat)
    ensures SendsServices(e, a) ==> e.Received? && e.response.ServicesBatch? && e.response.services != [] && !Ends(e, a)
  {
  }

  lemma {:induction false} HeldIsStale(p: seq<Event>, q: seq<Event>, a: nat)
    ensures Held(p, q, a) != [] <==> Stale(p, q, a)
    decreases |q|
  {
    hide Gathered, Ends;
    if q != [] {
      var r, e := q[..|q| - 1], q[|q| - 1];
      HeldIsStale(p, r, a);
      assert q == r + [e];
      OpenSnoc(r, e, a);
    }
  }

  lemma {:induction false} DroppedIsCut(p: seq<Event>, q: seq<Event>, a: nat)
    ensures Dropped(p, q, a) != [] <==> Cut(p, q, a)
    decreases |q|
  {
    hide Listening, SendsServices, Ends, Open, Batches;
    if q != [] {
      var r, e := q[..|q| - 1], q[|q| - 1];
      DroppedIsCut(p, r, a);
      CutStep(p, r, e, a);
      assert q == r + [e];
      SomeBatch(q, a);
      SomeBatch(r, a);
      SentNotEmpty(e, a);
      if !Listening(p + r) {
        AllUnheard(p, q, a);
      } else if Cut(p, r, a) {
        var i :| 0 <= i < |r| && SendsServices(r[i], a) && (!Listening(p + r[..i]) || !Open(r[i + 1..], a));
      }
    }
  }

  lemma AllUnheard(p: seq<Event>, q: seq<Event>, a: nat)
    requires q != [] && !Listening(p + q[..|q| - 1])
    ensures Cut(p, q, a) <==> exists i :: 0 <= i < |q| && SendsServices(q[i], a)
  {
    hide Listening, SendsServices, Open;
    if i :| 0 <= i < |q| && SendsServices(q[i], a) {
      var r := q[..|q| - 1];
      ListeningGrows(p + q[..i], r[i..]);
      assert p + r == p + q[..i] + r[i..];
    }
  }

  lemma CutStep(p: seq<Event>, r: seq<Event>, e: Event, a: nat)
    ensures Cut(p, r + [e], a) <==>
            || Cut(p, r, a)
            || (SendsServices(e, a) && !Listening(p + r))
            || (Ends(e, a) && exists i :: 0 <= i < |r| && SendsServices(r[i], a))
  {
    hide Listening, SendsServices, Ends, Open;
    var q := r + [e];
    forall i | 0 <= i < |r|
      ensures q[i] == r[i] && q[..i] == r[..i]
      ensures Open(q[i + 1..], a) <==> Open(r[i + 1..], a) && !Ends(e, a)
    {
      assert q[i + 1..] == r[i + 1..] + [e];
      OpenSnoc(r[i + 1..], e, a);
    }
    assert q[..|r|] == r && q[|r|] == e && q[|r| + 1..] == [];
    NothingOpen(a);
    if Cut(p, r, a) {
      var i :| 0 <= i < |r| && SendsServices(r[i], a) && (!Listening(p + r[..i]) || !Open(r[i + 1..], a));
      assert SendsServices(q[i], a) && (!Listening(p + q[..i]) || !Open(q[i + 1..], a));
    }
    if Ends(e, a) && exists i :: 0 <= i < |r| && SendsServices(r[i], a) {
      var i :| 0 <= i < |r| && SendsServices(r[i], a);
      assert SendsServices(q[i], a) && !Open(q[i + 1..], a);
    }
    if SendsServices(e, a) && !Listening(p + r) {
      assert SendsServices(q[|r|], a) && !Listening(p + q[..|r|]);
    }
  }

  lemma NothingOpen(a: nat)
    ensures Open([], a)
  {
  }

  lemma OpenTail(q: seq<Event>, i: nat, a: nat)
    requires i < |q| && Open(q, a)
    ensures Open(q[i + 1..], a)
  {
    hide Ends;
  }

  /** What is stale was heard and has met no error since, so nothing after it was cut. */
  lemma NotBoth(p: seq<Event>, q: seq<Event>, a: nat)
    ensures Stale(p, q, a) ==> !Cut(p, q, a)
  {
    hide Listening, SendsServices, Open, Gathered;
    if Stale(p, q, a) {
      assert Listening(p) by {
        if !Listening(p) {
          Unheard(p, a);
        }
      }
      forall i | 0 <= i < |q| ensures Listening(p + q[..i]) && Open(q[i + 1..], a) {
        ListeningGrows(p, q[..i]);
        OpenTail(q, i, a);
      }
    }
  }

  // ----- the exact condition -----

  /** Let q be the part of a run in which the device sends one list for an address, not yet
      ended, and p the run before. What a callback will be given is what the device has sent
      in q exactly when nothing of it was cut and nothing stale is in front of it. */
  lemma TableComplete(p: seq<Event>, q: seq<Event>, a: nat)
    requires UnderWay(q, a)
    ensures Gathered(p + q, a) == Batches(q, a) <==> !Cut(p, q, a) && !Stale(p, q, a)
  {
    hide Gathered, Batches, Held, Kept, Dropped, Cut, Stale, UnderWay;
    GatheredIsHeldAndKept(p, q, a);
    BatchesAreDroppedAndKept(p, q, a);
    HeldIsStale(p, q, a);
    DroppedIsCut(p, q, a);
    NotBoth(p, q, a);
    var x, y, k := Held(p, q, a), Dropped(p, q, a), Kept(p, q, a);
    if x + k == y + k {
      assert |x| == |y|;
      assert x == (x + k)[..|x|] && y == (y + k)[..|y|];
    }
  }

  /** Where the list began that is under way: after the last end. */
  function Began(es: seq<Event>, a: nat): (k: nat)
    ensures k <= |es|
  {
    if es == [] then 0 else if EndsList(es[|es| - 1], a) then |es| else Began(es[..|es| - 1], a)
  }

  /** The services since the last end. */
  function Listed(es: seq<Event>, a: nat): (ss: seq<Service>)
  {
    Batches(es[Began(es, a)..], a)
  }

  lemma {:induction false} BeganFresh(es: seq<Event>, a: nat)
    ensures var k := Began(es, a); UnderWay(es[k..], a) && Gathered(es[..k], a) == []
    decreases |es|
  {
    hide Listening;
    if es != [] {
      var p, e := es[..|es| - 1], es[|es| - 1];
      if EndsList(e, a) {
        assert es[..|es|] == es;
      } else {
        BeganFresh(p, a);
        var k := Began(p, a);
        assert es[k..] == p[k..] + [e] && es[..k] == p[..k];
      }
    }
  }

  /** For every run: what is gathered is all that was sent since the last end exactly when
      none of it was cut. */
  lemma ListedComplete(es: seq<Event>, a: nat)
    ensures var k := Began(es, a);
            Gathered(es, a) == Listed(es, a) <==> !Cut(es[..k], es[k..], a)
  {
    hide Gathered, Batches, Cut, UnderWay, Began;
    var k := Began(es, a);
    BeganFresh(es, a);
    TableComplete(es[..k], es[k..], a);
    assert es[..k] + es[k..] == es;
  }

  // ----- runs in which the table is not the device's -----

  ghost predicate Quiet(user: User)
  {
    forall id, result :: user(id, result) == []
  }

  lemma {:induction false} QuietFireAll(user: User, t: Tables, ids: seq<nat>, result: Result)
    requires Quiet(user)
    ensures FireAll(user, t, ids, result) == t.(fired := t.fired + Firings(ids, result))
    decreases |ids|
  {
    hide Fire, Firings;
    FiringsStep(ids, result);
    if ids == [] {
      assert t.fired + [] == t.fired;
    } else {
      QuietFire(user, t, ids[0], result);
      var u := Fire(user, t, ids[0], result);
      QuietFireAll(user, u, ids[1..], result);
      assert t.fired + [Firing(ids[0], result)] + Firings(ids[1..], result) == t.fired + ([Firing(ids[0], result)] + Firings(ids[1..], result));
    }
  }

  lemma QuietFire(user: User, t: Tables, id: nat, result: Result)
    requires Quiet(user)
    ensures Fire(user, t, id, result) == t.(fired := t.fired + [Firing(id, result)])
  {
  }

  lemma FiringsStep(ids: seq<nat>, result: Result)
    ensures Firings(ids, result) == if ids == [] then [] else [Firing(ids[0], result)] + Firings(ids[1..], result)
  {
  }

  /** Tables in which only services of one address are waited for, by one callback. */
  function Only(a: U64, ss: seq<Service>, id: nat, rs: seq<Request>, fired: seq<Firing>): (t: Tables)
  {
    Tables(true, map[ServiceSlot(a) := Entry(ss, [id])], rs, fired)
  }

  function Nobody(rs: seq<Request>, fired: seq<Firing>): (t: Tables)
  {
    Tables(true, map[], rs, fired)
  }

  lemma QuietEnd(user: User, a: U64, ss: seq<Service>, id: nat, rs: seq<Request>, fired: seq<Firing>, result: Result)
    requires Quiet(user)
    ensures Settle(user, Only(a, ss, id, rs, fired), ServiceSlot(a), result) == Nobody(rs, fired + [Firing(id, result)])
  {
    hide FireAll, Firings;
    var t := Only(a, ss, id, rs, fired);
    QuietFireAll(user, t.(pending := t.pending - {ServiceSlot(a)}), [id], result);
    OneFiring(id, result);
    assert t.pending - {ServiceSlot(a)} == map[];
  }

  lemma OneFiring(id: nat, result: Result)
    ensures Firings([id], result) == [Firing(id, result)]
  {
  }

  lemma QuietSteps(user: User, a: U64, ss: seq<Service>, more: seq<Service>, id: nat, rs: seq<Request>, fired: seq<Firing>)
    requires Quiet(user)
    ensures Step(user, Nobody(rs, fired), Call(ServicesOf(a))) == Only(a, [], |rs|, rs + [ServicesOf(a)], fired)
    ensures Step(user, Only(a, ss, id, rs, fired), Received(ServicesBatch(a, more), [])) == Only(a, ss + more, id, rs, fired)
    ensures Step(user, Only(a, ss, id, rs, fired), Received(ServicesEnd(a), []))
         == Nobody(rs, fired + [Firing(id, ServicesDone(a, true, ss, 0))])
  {
    hide Settle;
    QuietEnd(user, a, ss, id, rs, fired, ServicesDone(a, true, ss, 0));
    assert [] + [|rs|] == [|rs|];
  }

  lemma QuietError(user: User, a: U64, h: U32, e: int, ss: seq<Service>, id: nat, rs: seq<Request>, fired: seq<Firing>)
    requires Quiet(user)
    ensures Step(user, Only(a, ss, id, rs, fired), Received(ErrorResponse(a, h, e), []))
         == Nobody(rs, fired + [Firing(id, ServicesDone(a, false, [], e))])
  {
    hide FireAll, Key;
    QuietEnd(user, a, ss, id, rs, fired, ServicesDone(a, false, [], e));
  }

  lemma FirstCall(user: User, a: U64)
    ensures After(user, [Call(ServicesOf(a))]) == Only(a, [], 0, [ServicesOf(a)], [])
  {
    LastEvent(user, [], Call(ServicesOf(a)));
    assert [] + [Call(ServicesOf(a))] == [Call(ServicesOf(a))];
    assert [] + [0] == [0];
  }

  /** An error for the address, about whatever request, refuses the services callback, and
      throws away what it had: the callback registered next is given the rest of the list as
      if it were the whole. */
  lemma CutShort(user: User, a: U64, h: U32, e: int, s1: seq<Service>, s2: seq<Service>)
    requires Quiet(user)
    ensures var es := [Call(ServicesOf(a))] + [Received(ServicesBatch(a, s1), [])] + [Received(ErrorResponse(a, h, e), [])]
                      + [Call(ServicesOf(a))] + [Received(ServicesBatch(a, s2), [])] + [Received(ServicesEnd(a), [])];
            After(user, es).fired == [Firing(0, ServicesDone(a, false, [], e)), Firing(1, ServicesDone(a, true, s2, 0))]
  {
    hide Step, After;
    var c, b1, x := Call(ServicesOf(a)), Received(ServicesBatch(a, s1), []), Received(ErrorResponse(a, h, e), []);
    var b2, d := Received(ServicesBatch(a, s2), []), Received(ServicesEnd(a), []);
    var rs, refused := [ServicesOf(a)], [Firing(0, ServicesDone(a, false, [], e))];
    assert [] + s1 == s1 && [] + s2 == s2 && [] + refused == refused;
    FirstCall(user, a);
    LastEvent(user, [c], b1);
    QuietSteps(user, a, [], s1, 0, rs, []);
    LastEvent(user, [c] + [b1], x);
    QuietError(user, a, h, e, s1, 0, rs, []);
    LastEvent(user, [c] + [b1] + [x], c);
    QuietSteps(user, a, [], s2, 1, rs, refused);
    LastEvent(user, [c] + [b1] + [x] + [c], b2);
    QuietSteps(user, a, [], s2, 1, rs + rs, refused);
    LastEvent(user, [c] + [b1] + [x] + [c] + [b2], d);
    QuietSteps(user, a, s2, [], 1, rs + rs, refused);
  }

  /** A list whose end never came is put in front of the next one. */
  lemma Prepended(user: User, a: U64, s1: seq<Service>, s2: seq<Service>)
    requires Quiet(user)
    ensures var es := [Call(ServicesOf(a))] + [Received(ServicesBatch(a, s1), [])] + [Received(ServicesBatch(a, s2), [])]
                      + [Received(ServicesEnd(a), [])];
            After(user, es).fired == [Firing(0, ServicesDone(a, true, s1 + s2, 0))]
  {
    hide Step, After;
    var c, b1, b2, d := Call(ServicesOf(a)), Received(ServicesBatch(a, s1), []), Received(ServicesBatch(a, s2), []), Received(ServicesEnd(a), []);
    var rs := [ServicesOf(a)];
    assert [] + s1 == s1;
    FirstCall(user, a);
    LastEvent(user, [c], b1);
    QuietSteps(user, a, [], s1, 0, rs, []);
    LastEvent(user, [c] + [b1], b2);
    QuietSteps(user, a, s1, s2, 0, rs, []);
    LastEvent(user, [c] + [b1] + [b2], d);
    QuietSteps(user, a, s1 + s2, [], 0, rs, []);
  }
}
