/** on_bytes with the frame helpers themselves: a chunk is fed, and the frames are drained
    into the connection until more bytes are needed or the connection has ended. */
module ConnectionDrive {
  import opened Arith
  import opened Options
  import opened Spec = ConnectionSpec
  import opened ConnectionBytes
  import ConnectionCode
  import ConnectionSession
  import FrameCode
  import NoiseFrames
  import F = FrameSpec

  ghost predicate Left(s: Surfaced, c: F.Codec, rest: seq<Byte>)
  {
    s.codec == c && s.rest == rest
  }

  /** What one call of next brings up, in terms of what the whole buffer does. */
  lemma {:induction false} SurfaceByPull(parse: Parser, c: F.Codec, b: seq<Byte>)
    requires F.CodecOk(c)
    ensures var p, s := F.Pull(c, b), Surface(parse, c, b);
            var ready := if Stage(c) == Pending && Stage(p.codec) == Done then [Ready] else [];
            && (p.result.Wait? ==> s.items == ready)
            && (p.result.Refused? ==>
                  s.items == ready + [if p.result.error == F.HandshakeRejected then Rejected else Malformed])
            && (p.result.Got? ==>
                  s.items == ready + [Frame(parse(p.result.message))] + Surface(parse, p.codec, p.rest).items)
            && (p.result.Refused? && p.result.error == F.HandshakeRejected ==> Stage(p.codec) == Pending)
            && (Stage(c) == Done ==> Stage(p.codec) == Done)
            && (p.result.Wait? ==> Left(s, p.codec, p.rest))
            && (p.result.Got? ==> Left(s, Surface(parse, p.codec, p.rest).codec, Surface(parse, p.codec, p.rest).rest))
    decreases |b|
  {
    hide F.Decide, F.CodecOk, Surface, F.Pull;
    var d := F.Decide(c, b);
    SurfaceStep(parse, c, b);
    DecisionStage(c, b);
    NoiseFrames.PullStep(c, b);
    if d.Frame? {
      var rest := b[d.used..];
      if d.message.None? {
        SurfaceByPull(parse, d.codec, rest);
        var p := F.Pull(d.codec, rest);
        if Stage(d.codec) == Done && p.result.Got? {
          assert [Ready] + ([Frame(parse(p.result.message))] + Surface(parse, p.codec, p.rest).items)
              == [Ready] + [Frame(parse(p.result.message))] + Surface(parse, p.codec, p.rest).items;
        }
      }
    }
  }

  /** Items already handled make no difference to what is left. */
  lemma HandleFirst(cfg: Config, s: Conn, i: Item, items: seq<Item>)
    requires !Ended(s)
    ensures HandleItems(cfg, s, [i] + items) == HandleItems(cfg, HandleItem(cfg, s, i), items)
  {
    hide HandleItem;
    assert ([i] + items)[1..] == items;
  }

  lemma HandleNone(cfg: Config, s: Conn, items: seq<Item>)
    requires items == [] || Ended(s)
    ensures HandleItems(cfg, s, items) == s
  {
  }

  /** The end of the handshake does not end the connection. */
  lemma ReadyGoesOn(cfg: Config, s: Conn)
    ensures !Ended(HandleItem(cfg, s, Ready))
  {
    hide Callback;
    Laws.CallbackFlows(cfg, Enter(SendHello(cfg, s.(link := s.link.(handshake := Done))), HelloSent));
  }

  /** A refusal ends it, and nothing after that changes it. */
  lemma RefusalEnds(cfg: Config, s: Conn, i: Item)
    requires i.Rejected? || i.Malformed?
    ensures HandleItems(cfg, s, [i]) == (if Ended(s) then s else HandleItem(cfg, s, i))
    ensures Ended(HandleItem(cfg, s, i)) && (Ended(s) ==> HandleItem(cfg, s, Malformed) == s)
  {
    assert [i][1..] == [];
    StopsConnection(cfg, s, i);
  }

  /** What a call of next brings up: its callbacks, then its exception or its message. */
  function CallItems(ready: bool, failed: bool, st: FrameCode.Status, i: Item): (items: seq<Item>)
  {
    (if ready then [Ready] else [])
    + (if failed then [Rejected] else if st.Throws? then [Malformed] else if st.Ok? then [i] else [])
  }

  lemma Handled(cfg: Config, s: Conn, s1: Conn, ready: bool, items: seq<Item>)
    requires !Ended(s) && s1 == if ready then HandleItem(cfg, s, Ready) else s
    ensures HandleItems(cfg, s, (if ready then [Ready] else []) + items) == HandleItems(cfg, s1, items)
  {
    hide HandleItem, HandleItems;
    HandleFirst(cfg, s, Ready, items);
    assert [] + items == items;
  }

  lemma HandleOne(cfg: Config, s: Conn, i: Item)
    requires !Ended(s)
    ensures HandleItems(cfg, s, [i]) == HandleItem(cfg, s, i)
  {
    hide HandleItem;
    assert [i][1..] == [];
  }

  method Deliver(conn: ConnectionCode.Connection, ready: bool, failed: bool, st: FrameCode.Status, i: Item)
    requires !Ended(conn.Model()) && (failed ==> !st.Ok?)
    modifies conn, conn.executor
    ensures conn.Model() == HandleItems(conn.cfg, old(conn.Model()), CallItems(ready, failed, st, i))
  {
    hide HandleItems, HandleItem;
    ghost var s := conn.Model();
    if ready {
      conn.OnItem(Ready);
      ReadyGoesOn(conn.cfg, s);
    }
    ghost var s1 := conn.Model();
    Handled(conn.cfg, s, s1, ready, if failed then [Rejected] else if st.Throws? then [Malformed] else if st.Ok? then [i] else []);
    HandleNone(conn.cfg, s1, []);
    HandleOne(conn.cfg, s1, if failed then Rejected else if st.Throws? then Malformed else i);
    if failed {
      conn.OnItem(Rejected);
      RefusalEnds(conn.cfg, s1, Rejected);
    }
    ghost var s2 := conn.Model();
    if st.Throws? {
      conn.OnItem(Malformed);
      RefusalEnds(conn.cfg, s2, Malformed);
    } else if st.Ok? {
      conn.OnItem(i);
    }
  }

  /** The items of one call, and those of the calls after it. */
  lemma CallByCall(parse: Parser, c: F.Codec, b: seq<Byte>, ready: bool, failed: bool, st: FrameCode.Status, i: Item)
    requires F.CodecOk(c)
    requires var p := F.Pull(c, b);
             && ready == (Stage(c) == Pending && Stage(p.codec) == Done)
             && (failed <==> p.result == F.Refused(F.HandshakeRejected))
             && (st.Ok? <==> p.result.Got?) && (st.Ok? ==> i == Frame(parse(p.result.message)))
             && (st.Throws? && !failed ==> p.result.Refused?) && (st.NeedMore? && !failed ==> p.result.Wait?)
    ensures var p := F.Pull(c, b);
            Surface(parse, c, b).items == CallItems(ready, failed, st, i) + (if st.Ok? then Surface(parse, p.codec, p.rest).items else [])
  {
    hide F.Pull, Surface, F.CodecOk;
    SurfaceByPull(parse, c, b);
    var items := CallItems(ready, failed, st, i);
    assert items + [] == items;
    assert [Ready] + [] == [Ready];
    if st.Ok? {
      var p := F.Pull(c, b);
      var later := Surface(parse, p.codec, p.rest).items;
      assert (if ready then [Ready] else []) + [i] + later == items + later;
    }
  }

  lemma CallEnds(cfg: Config, s: Conn, ready: bool, failed: bool, st: FrameCode.Status, i: Item)
    requires failed || st.Throws?
    ensures Ended(HandleItems(cfg, s, CallItems(ready, failed, st, i)))
  {
    hide HandleItems;
    var items := CallItems(ready, failed, st, i);
    var last := if failed then Rejected else Malformed;
    assert items[|items| - 1] == last && last in items;
    ConnectionSession.StopEnds(cfg, s, items);
  }

  /** One call of next with the callbacks it makes, and what is done with its result. */
  method Turn(conn: ConnectionCode.Connection, helper: NoiseFrames.NoiseFrameHelper, parse: Parser) returns (more: bool)
    requires helper.Valid() && !helper.failed && !Ended(conn.Model())
    modifies conn, conn.executor, helper, helper.Parts()
    ensures helper.Valid()
    ensures more ==> !helper.failed && !Ended(conn.Model()) && |helper.Pending()| < |old(helper.Pending())|
    ensures HandleItems(conn.cfg, old(conn.Model()), Surface(parse, old(helper.Codec()), old(helper.Pending())).items)
         == if more then HandleItems(conn.cfg, conn.Model(), Surface(parse, helper.Codec(), helper.Pending()).items)
            else conn.Model()
    ensures !Ended(conn.Model()) ==>
              && !helper.failed
              && var s := Surface(parse, old(helper.Codec()), old(helper.Pending()));
                 if more then var n := Surface(parse, helper.Codec(), helper.Pending()); Left(s, n.codec, n.rest)
                 else Left(s, helper.Codec(), helper.Pending())
  {
    hide F.Pull, Surface, HandleItems, CallItems, F.Unread, Left;
    ghost var s, c, b := conn.Model(), helper.Codec(), helper.Pending();
    var was := helper.readyCalls;
    var st, t, payload := helper.Next();
    var i := Frame(parse(F.Message(t, payload)));
    var ready := helper.readyCalls > was;
    CallByCall(parse, c, b, ready, helper.failed, st, i);
    SurfaceByPull(parse, c, b);
    if helper.failed || st.Throws? {
      CallEnds(conn.cfg, s, ready, helper.failed, st, i);
    }
    ghost var later := Surface(parse, helper.Codec(), helper.Pending()).items;
    ConnectionSession.HandleAppend(conn.cfg, s, CallItems(ready, helper.failed, st, i), if st.Ok? then later else []);
    Deliver(conn, ready, helper.failed, st, i);
    more := st.Ok? && conn.state != Failed && conn.state != Closed;
    if !more {
      HandleNone(conn.cfg, conn.Model(), if st.Ok? then later else []);
    }
  }

  /** on_bytes of an encrypted connection. */
  method OnNoiseBytes(conn: ConnectionCode.Connection, helper: NoiseFrames.NoiseFrameHelper, parse: Parser, data: seq<Byte>)
    requires helper.Valid() && !helper.failed && !Ended(conn.Model())
    modifies conn, conn.executor, helper, helper.Parts()
    ensures helper.Valid()
    ensures var s := Surface(parse, old(helper.Codec()), old(helper.Pending()) + data);
            && conn.Model() == HandleItems(conn.cfg, old(conn.Model()), s.items)
            && (!Ended(conn.Model()) ==> !helper.failed && helper.Codec() == s.codec && helper.Pending() == s.rest)
  {
    hide Surface, HandleItems;
    helper.Feed(data);
    ghost var goal := HandleItems(conn.cfg, conn.Model(), Surface(parse, helper.Codec(), helper.Pending()).items);
    ghost var whole := Surface(parse, helper.Codec(), helper.Pending());
    var more := true;
    while more
      invariant helper.Valid() && (more ==> !helper.failed && !Ended(conn.Model()))
      invariant goal == if more then HandleItems(conn.cfg, conn.Model(), Surface(parse, helper.Codec(), helper.Pending()).items)
                        else conn.Model()
      invariant !Ended(conn.Model()) ==>
                  && !helper.failed
                  && if more then var n := Surface(parse, helper.Codec(), helper.Pending()); Left(whole, n.codec, n.rest)
                     else Left(whole, helper.Codec(), helper.Pending())
      modifies conn, conn.executor, helper, helper.Parts()
      decreases if more then |helper.Pending()| + 1 else 0
    {
      more := Turn(conn, helper, parse);
    }
  }

  /** on_bytes of a plaintext connection. */
  method OnPlainBytes(conn: ConnectionCode.Connection, helper: FrameCode.PlaintextFrameHelper, parse: Parser, data: seq<Byte>)
    requires helper.Valid() && !Ended(conn.Model())
    modifies conn, conn.executor, helper
    ensures helper.Valid()
    ensures var s := Surface(parse, F.Plaintext, old(helper.Pending()) + data);
            && conn.Model() == HandleItems(conn.cfg, old(conn.Model()), s.items)
            && (!Ended(conn.Model()) ==> helper.Pending() == s.rest)
  {
    hide Surface, HandleItems, HandleItem, F.Pull;
    helper.Feed(data);
    ghost var whole := Surface(parse, F.Plaintext, helper.Pending());
    ghost var goal := HandleItems(conn.cfg, conn.Model(), Surface(parse, F.Plaintext, helper.Pending()).items);
    var more := true;
    while more
      invariant helper.Valid() && (more ==> !Ended(conn.Model()))
      invariant goal == if more then HandleItems(conn.cfg, conn.Model(), Surface(parse, F.Plaintext, helper.Pending()).items)
                        else conn.Model()
      invariant !Ended(conn.Model()) ==>
                  if more then whole.rest == Surface(parse, F.Plaintext, helper.Pending()).rest else whole.rest == helper.Pending()
      modifies conn, conn.executor, helper
      decreases if more then |helper.Pending()| + 1 else 0
    {
      ghost var s, p := conn.Model(), F.Pull(F.Plaintext, helper.Pending());
      SurfaceByPull(parse, F.Plaintext, helper.Pending());
      FrameCode.PullKeepsPlaintext(helper.Pending());
      PlainErrors(helper.Pending());
      var st, t, payload := helper.Next();
      if st.Ok? {
        var m := F.Message(t, payload);
        ghost var later := Surface(parse, F.Plaintext, helper.Pending()).items;
        assert [] + [Frame(parse(m))] + later == [Frame(parse(m))] + later;
        HandleFirst(conn.cfg, s, Frame(parse(m)), later);
        conn.OnItem(Frame(parse(m)));
        more := conn.state != Failed && conn.state != Closed;
        if !more {
          HandleNone(conn.cfg, conn.Model(), later);
        }
      } else {
        more := false;
        HandleNone(conn.cfg, s, []);
        RefusalEnds(conn.cfg, s, Malformed);
        assert [] + [Malformed] == [Malformed];
        if st.Throws? {
          conn.OnItem(Malformed);
        }
      }
    }
  }

  lemma PlainErrors(b: seq<Byte>)
    ensures F.Pull(F.Plaintext, b).result != F.Refused(F.HandshakeRejected)
  {
    hide F.DecidePlaintext;
    FrameCode.PullPlaintext(b);
    PlaintextStage(b);
  }
}
