/** Link establishment between two Three-wire drivers: a run in which both links come up, and runs in which one does. */
module H5Handshake {
  import opened Octets
  import opened GoBackN
  import opened H5
  import opened H5Stream
  import opened H5Wire
  import opened H5Chunks
  import opened Wire
  import H5Link

  const GO := Alloc(true, true, true)

  lemma {:induction false} RunAppend(s: System, a: seq<Op>, b: seq<Op>)
    requires Valid(s.a) && Valid(s.b)
    ensures Run(s, a + b) == Run(Run(s, a), b)
    decreases |a|
  {
    hide Act, Valid;
    if a == [] {
      assert a + b == b;
    } else {
      assert (a + b)[0] == a[0] && (a + b)[1..] == a[1..] + b;
      ActValid(if a[0].atB then Swap(s) else s, a[0].action);
      RunAppend(Step(s, a[0]), a[1..], b);
    }
  }

  /** Both receivers are between frames, of which the lines carry `f`. */
  ghost predicate Rests(s: System, f: H5Link.System) {
    && AtRest(s.a) && AtRest(s.b) && s.a.link == f.a && s.b.link == f.b
    && s.ab == Line([], Wired(f.ab)) && s.ba == Line([], Wired(f.ba))
  }

  lemma RestsValid(s: System, f: H5Link.System)
    requires Rests(s, f)
    ensures Valid(s.a) && Valid(s.b) && QueuesOk(f.a) && QueuesOk(f.b)
  {
  }

  /** An operation on bytes that does what an operation on frames does: a call takes a whole frame. */
  function OnBytes(f: H5Link.System, action: H5Link.Action): Action
    requires Encoded(f.ba) && (action.Arrive? ==> f.ba != [])
  {
    match action
    case Submit(p) => Submit(p)
    case Transmit(room) => Transmit(room)
    case Arrive(heard, room) =>
      assert f.ba[0] in f.ba;
      Arrive(|Encode(f.ba[0])|, if heard then 1 else 0, room)
    case Vanish(i) => Vanish(i)
    case Timeout => Timeout
  }

  lemma WholeTaken(fs: seq<Frame>)
    requires Encoded(fs) && fs != []
    ensures Encodable(fs[0])
    ensures var line, n := Line([], Wired(fs)), |Encode(fs[0])|;
            Taken(line, n) == Encode(fs[0]) && Advance(line, n) == Line([], Wired(fs[1..]))
  {
    hide Header;
    assert fs[0] in fs;
    var e, rest := Encode(fs[0]), Wired(fs[1..]);
    WiredRest(fs);
    assert e[..|e|] == e && e[|e|..] == [] && [] + e == e && |e| > 0;
    assert Taken(Line(e, rest), |e|) == e && Advance(Line(e, rest), |e|) == Line([], rest);
  }

  lemma ActRests(s: System, f: H5Link.System, action: H5Link.Action)
    requires Rests(s, f) && Encoded(f.ab) && Encoded(f.ba) && QueuesOk(f.a) && QueuesOk(f.b)
    requires action.Arrive? ==> f.ba != []
    ensures Valid(s.a) && Valid(s.b)
    ensures var r := Act(s, OnBytes(f, action));
            && (Faulted(r) <==> H5Link.HearsFault(f, H5Link.Op(false, action)))
            && (!Faulted(r) ==> Rests(r, H5Link.Act(f, action)))
  {
    hide Wakeup, Recv, Wired, Encode, Received, Taken, Advance;
    RestsValid(s, f);
    ActValid(s, OnBytes(f, action));
    match action
    case Submit(p) =>
    case Timeout =>
    case Transmit(room) => WiredAppend(f.ab, Wakeup(H5Link.Ready(f.a, []), room).written);
    case Vanish(i) =>
      WiredLength(f.ab);
      if i < |f.ab| {
        WiredDrop(f.ab, i);
      }
    case Arrive(heard, room) =>
      var s1, grants := s.a.(link := H5Link.Ready(s.a.link, room)), if heard then 1 else 0;
      WholeTaken(f.ba);
      FrameArrives(s1, f.ba[0], grants);
      WiredAppend(f.ab, Recv(s1, Encode(f.ba[0]), grants).link.written);
  }

  lemma WiredLength(fs: seq<Frame>)
    ensures |Wired(fs)| == |fs|
  {
  }

  /** A pair of drivers that some run from h5_open leads to. */
  ghost predicate Reached(f: H5Link.System) {
    exists ops :: ReachedBy(f, ops)
  }

  ghost predicate ReachedBy(f: H5Link.System, ops: seq<Op>) {
    Valid(BOTH_OPENED.a) && Valid(BOTH_OPENED.b) && Rests(Run(BOTH_OPENED, ops), f)
  }

  /** The other end could have done the same. */
  function Flip(ops: seq<Op>): seq<Op> {
    if ops == [] then [] else [Op(!ops[0].atB, ops[0].action)] + Flip(ops[1..])
  }

  lemma {:induction false} RunFlip(s: System, ops: seq<Op>)
    requires Valid(s.a) && Valid(s.b)
    ensures Run(Swap(s), Flip(ops)) == Swap(Run(s, ops))
    decreases |ops|
  {
    hide Act, Valid;
    if ops != [] {
      ActValid(if ops[0].atB then Swap(s) else s, ops[0].action);
      RunFlip(Step(s, ops[0]), ops[1..]);
    }
  }

  lemma ReachSwap(f: H5Link.System)
    requires Reached(f)
    ensures Reached(H5Link.Swap(f))
  {
    hide Run, Wired, AtRest;
    var ops :| ReachedBy(f, ops);
    RunFlip(BOTH_OPENED, ops);
    assert ReachedBy(H5Link.Swap(f), Flip(ops));
  }

  /** One more operation at the first end that does not fault. */
  lemma ReachStep(f: H5Link.System, action: H5Link.Action)
    requires Reached(f) && Encoded(f.ab) && Encoded(f.ba) && !H5Link.HearsFault(f, H5Link.Op(false, action))
    requires action.Arrive? ==> f.ba != []
    ensures QueuesOk(f.a) && QueuesOk(f.b)
    ensures Reached(H5Link.Act(f, action))
  {
    hide Act, H5Link.Act, Rests, Encoded, Run, Faulted, OnBytes, H5Link.HearsFault;
    var ops :| ReachedBy(f, ops);
    var s := Run(BOTH_OPENED, ops);
    RestsValid(s, f);
    var op := Op(false, OnBytes(f, action));
    ActRests(s, f, action);
    RunAppend(BOTH_OPENED, ops, [op]);
    OneOp(s, op);
    assert ReachedBy(H5Link.Act(f, action), ops + [op]);
  }

  lemma OneOp(s: System, op: Op)
    requires Valid(s.a) && Valid(s.b)
    ensures Run(s, [op]) == Step(s, op)
  {
    hide Act, Valid;
    ActValid(if op.atB then Swap(s) else s, op.action);
    assert [op][1..] == [];
    assert Run(Step(s, op), []) == Step(s, op);
  }

  // ---- Drivers during the handshake ----

  /** A driver during the handshake: the messages it has queued, and how far it is. */
  function Shaking(queued: seq<seq<byte>>, st: LinkState, written: seq<Frame>): Link {
    OPENED.(unrel := Messages(queued), state := st, written := written)
  }

  function Messages(queued: seq<seq<byte>>): seq<Packet> {
    if queued == [] then [] else [Packet(LINK_PKT, queued[0])] + Messages(queued[1..])
  }

  function Message(m: seq<byte>): Frame {
    Frame(false, 0, 0, Body(LINK_PKT, m))
  }

  predicate Short(m: seq<byte>) {
    2 <= |m| <= 3
  }

  lemma Sends(m: seq<byte>, rest: seq<seq<byte>>, st: LinkState, w: seq<Frame>)
    requires var l := H5Link.Ready(Shaking([m] + rest, st, w), []); QueuesOk(l)
    ensures Wakeup(H5Link.Ready(Shaking([m] + rest, st, w), []), [GO]) == Shaking(rest, st, [Message(m)])
  {
    assert ([m] + rest)[1..] == rest && [GO][1..] == [];
    var l := H5Link.Ready(Shaking([m] + rest, st, w), []);
    assert l.unrel == [Packet(LINK_PKT, m)] + Messages(rest);
    assert l.unrel[1..] == Messages(rest);
    assert AfterOne(l, GO) == Shaking(rest, st, [Message(m)]);
  }

  lemma Hears(m: seq<byte>, queued: seq<seq<byte>>, st: LinkState, w: seq<Frame>)
    requires var l := H5Link.Ready(Shaking(queued, st, w), []); QueuesOk(l)
    ensures Received(H5Link.Ready(Shaking(queued, st, w), []), Message(m))
         == Internal(Shaking(queued, st, []), Body(LINK_PKT, m), |m|)
  {
    hide Internal, QueuesOk;
  }

  /** Lines with nothing but handshake messages on them. */
  ghost predicate Messaging(fs: seq<Frame>) {
    forall f :: f in fs ==> exists m :: Short(m) && f == Message(m)
  }

  lemma MessagingOk(fs: seq<Frame>)
    requires Messaging(fs)
    ensures Encoded(fs) && (fs != [] ==> fs[0].body.tag == LINK_PKT)
  {
    assert fs != [] ==> fs[0] in fs;
  }

  /** The first end sends its next message. */
  lemma SendsNext(m: seq<byte>, rest: seq<seq<byte>>, st: LinkState, w: seq<Frame>, b: Link,
      ab: seq<Frame>, ba: seq<Frame>)
    requires Reached(H5Link.System(Shaking([m] + rest, st, w), b, ab, ba)) && Messaging(ab) && Messaging(ba)
    ensures Reached(H5Link.System(Shaking(rest, st, [Message(m)]), b, ab + [Message(m)], ba))
  {
    hide Reached, Wakeup, Shaking, Messaging;
    var x := Shaking([m] + rest, st, w);
    MessagingOk(ab);
    MessagingOk(ba);
    ReachStep(H5Link.System(x, b, ab, ba), H5Link.Transmit([GO]));
    ReadyAgain(x);
    Sends(m, rest, st, w);
    WroteOne(m, rest, st);
  }

  /** The first end hears the oldest message, which makes it another. */
  lemma HearsNext(m: seq<byte>, queued: seq<seq<byte>>, st: LinkState, w: seq<Frame>,
      queued': seq<seq<byte>>, st': LinkState, b: Link, ab: seq<Frame>, ba: seq<Frame>)
    requires Reached(H5Link.System(Shaking(queued, st, w), b, ab, [Message(m)] + ba))
    requires Short(m) && Messaging(ab) && Messaging(ba)
    requires Internal(Shaking(queued, st, []), Body(LINK_PKT, m), |m|) == Shaking(queued', st', [])
    ensures Reached(H5Link.System(Shaking(queued', st', []), b, ab, ba))
  {
    hide Reached, Received, Internal, Shaking;
    var x, q := Shaking(queued, st, w), [Message(m)] + ba;
    MessagingOk(ab);
    MessagingOk(q);
    ReachStep(H5Link.System(x, b, ab, q), H5Link.Arrive(true, []));
    ReadyAgain(x);
    Hears(m, queued, st, w);
    NothingWritten(queued', st');
    assert q[1..] == ba && ab + [] == ab;
  }

  lemma NoMessages()
    ensures Messaging([])
  {
  }

  lemma OneMessaging(m: seq<byte>)
    requires Short(m)
    ensures Messaging([Message(m)])
  {
  }

  /** Both ends send their first message. */
  lemma BothSend(m: seq<byte>, rest: seq<seq<byte>>, st: LinkState, w: seq<Frame>)
    requires var x := Shaking([m] + rest, st, w); Reached(H5Link.System(x, x, [], [])) && Short(m)
    ensures var x := Shaking(rest, st, [Message(m)]); Reached(H5Link.System(x, x, [Message(m)], [Message(m)]))
  {
    hide Reached, Shaking, Messaging;
    var x, y, q := Shaking([m] + rest, st, w), Shaking(rest, st, [Message(m)]), [Message(m)];
    NoMessages();
    OneMessaging(m);
    assert [] + q == q;
    SendsNext(m, rest, st, w, x, [], []);
    ReachSwap(H5Link.System(y, x, q, []));
    SendsNext(m, rest, st, w, y, [], q);
    ReachSwap(H5Link.System(y, y, q, q));
  }

  lemma ReadyAgain(x: Link)
    requires QueuesOk(x)
    ensures QueuesOk(H5Link.Ready(x, []))
  {
  }

  lemma WroteOne(m: seq<byte>, rest: seq<seq<byte>>, st: LinkState)
    ensures Shaking(rest, st, [Message(m)]).written == [Message(m)]
  {
  }

  /** Both ends hear the other's message. */
  lemma BothHear(m: seq<byte>, queued: seq<seq<byte>>, st: LinkState, w: seq<Frame>,
      queued': seq<seq<byte>>, st': LinkState)
    requires var x := Shaking(queued, st, w); Reached(H5Link.System(x, x, [Message(m)], [Message(m)])) && Short(m)
    requires Internal(Shaking(queued, st, []), Body(LINK_PKT, m), |m|) == Shaking(queued', st', [])
    ensures var y := Shaking(queued', st', []); Reached(H5Link.System(y, y, [], []))
  {
    hide Reached, Internal, Shaking, Messaging;
    var x, y, q := Shaking(queued, st, w), Shaking(queued', st', []), [Message(m)];
    NoMessages();
    OneMessaging(m);
    assert q + [] == q;
    HearsNext(m, queued, st, w, queued', st', x, q, []);
    ReachSwap(H5Link.System(y, x, q, []));
    HearsNext(m, queued, st, w, queued', st', y, [], []);
  }

  lemma NothingWritten(queued: seq<seq<byte>>, st: LinkState)
    ensures Shaking(queued, st, []).written == []
  {
  }

  const CONF_REQ: seq<byte> := [0x03, 0xfc, 0x04]

  lemma OneMessage(m: seq<byte>)
    ensures Messages([m]) == [Packet(LINK_PKT, m)] && Messages([]) == []
  {
    assert [m][1..] == [];
  }

  lemma TwoMessages(m: seq<byte>, n: seq<byte>)
    ensures Messages([m, n]) == [Packet(LINK_PKT, m), Packet(LINK_PKT, n)]
  {
    assert [m, n][1..] == [n];
    OneMessage(n);
  }

  /** What each message of the handshake does to a driver. */
  lemma AnswerSyncReq(st: LinkState)
    ensures Internal(Shaking([], st, []), Body(LINK_PKT, SYNC_REQ), 2) == Shaking([SYNC_RSP], st, [])
  {
    hide Messages;
    OneMessage(SYNC_RSP);
    assert SYNC_REQ[..2] == SYNC_REQ;
  }

  lemma AnswerSyncRsp(st: LinkState)
    ensures Internal(Shaking([], st, []), Body(LINK_PKT, SYNC_RSP), 2) == Shaking([CONF_REQ], Initialized, [])
  {
    hide Messages;
    OneMessage(CONF_REQ);
    assert SYNC_RSP[..2] == SYNC_RSP && SYNC_RSP[0] != SYNC_REQ[0];
  }

  lemma AnswerConfReq(st: LinkState)
    ensures Internal(Shaking([], st, []), Body(LINK_PKT, CONF_REQ), 3) == Shaking([CONF_RSP, CONF_REQ], st, [])
  {
    hide Messages;
    OneMessage(CONF_REQ);
    TwoMessages(CONF_RSP, CONF_REQ);
    var l := Shaking([], st, []);
    assert ConfReq(l) == CONF_REQ;
    assert CONF_REQ[..2][0] == 3;
    assert [] + [Packet(LINK_PKT, CONF_RSP)] + [Packet(LINK_PKT, CONF_REQ)] == Messages([CONF_RSP, CONF_REQ]);
  }

  lemma AnswerConfRsp(st: LinkState)
    ensures Internal(Shaking([CONF_REQ], st, []), Body(LINK_PKT, CONF_RSP), 2) == Shaking([CONF_REQ], Active, [])
  {
    hide Messages;
    assert CONF_RSP[..2] == CONF_RSP && CONF_RSP[0] == 4 && ConfReq(OPENED)[..2][0] == 3;
    assert ConfReq(Shaking([CONF_REQ], st, []))[..2][0] == 3;
  }

  /** Without a loss both links come up, with a request for configuration still on its way in each direction; from then
      on EstablishedStays applies. */
  lemma HandshakeCompletes() returns (ops: seq<Op>)
    ensures Valid(BOTH_OPENED.a) && Valid(BOTH_OPENED.b) && Established(Run(BOTH_OPENED, ops))
    ensures var s := Run(BOTH_OPENED, ops); s.ab == s.ba == Line([], Wired([Message(CONF_REQ)]))
  {
    hide Run, Internal, Shaking, Reached, Encode;
    StartReached();
    Chain();
    ops := Finish();
  }

  lemma StartReached()
    ensures var x := Shaking([SYNC_REQ], Uninitialized, []); Reached(H5Link.System(x, x, [], []))
  {
    assert [SYNC_REQ][1..] == [] && Messages([SYNC_REQ]) == [Packet(LINK_PKT, SYNC_REQ)];
    assert OPENED == Shaking([SYNC_REQ], Uninitialized, []);
    assert ReachedBy(H5Link.System(OPENED, OPENED, [], []), []);
  }

  lemma Chain()
    requires var x := Shaking([SYNC_REQ], Uninitialized, []); Reached(H5Link.System(x, x, [], []))
    ensures var x := Shaking([CONF_REQ], Active, []); Reached(H5Link.System(x, x, [], []))
  {
    hide Reached, Internal, Shaking, Message;
    AnswerSyncReq(Uninitialized);
    AnswerSyncRsp(Uninitialized);
    AnswerConfReq(Initialized);
    AnswerConfRsp(Initialized);
    var none: seq<seq<byte>> := [];
    assert [SYNC_REQ] + none == [SYNC_REQ] && [SYNC_RSP] + none == [SYNC_RSP] && [CONF_REQ] + none == [CONF_REQ];
    assert [CONF_RSP] + [CONF_REQ] == [CONF_RSP, CONF_REQ];
    BothSend(SYNC_REQ, [], Uninitialized, []);
    BothHear(SYNC_REQ, [], Uninitialized, [Message(SYNC_REQ)], [SYNC_RSP], Uninitialized);
    BothSend(SYNC_RSP, [], Uninitialized, []);
    BothHear(SYNC_RSP, [], Uninitialized, [Message(SYNC_RSP)], [CONF_REQ], Initialized);
    BothSend(CONF_REQ, [], Initialized, []);
    BothHear(CONF_REQ, [], Initialized, [Message(CONF_REQ)], [CONF_RSP, CONF_REQ], Initialized);
    BothSend(CONF_RSP, [CONF_REQ], Initialized, []);
    BothHear(CONF_RSP, [CONF_REQ], Initialized, [Message(CONF_RSP)], [CONF_REQ], Active);
  }

  lemma Finish() returns (ops: seq<Op>)
    requires var x := Shaking([CONF_REQ], Active, []); Reached(H5Link.System(x, x, [], []))
    ensures Valid(BOTH_OPENED.a) && Valid(BOTH_OPENED.b) && Established(Run(BOTH_OPENED, ops))
    ensures var s := Run(BOTH_OPENED, ops); s.ab == s.ba == Line([], Wired([Message(CONF_REQ)]))
  {
    hide Run, Encode, AtRest, Wired;
    var none: seq<seq<byte>> := [];
    assert [CONF_REQ] + none == [CONF_REQ];
    BothSend(CONF_REQ, [], Active, []);
    var x := Shaking([], Active, [Message(CONF_REQ)]);
    var f := H5Link.System(x, x, [Message(CONF_REQ)], [Message(CONF_REQ)]);
    ops :| ReachedBy(f, ops);
    assert CONF_REQ[..2][0] == 3;
    assert H5Wire.Quiet(f);
  }

  // ---- A data packet at a link that is not up ----

  /** The request of the second end for synchronisation is lost, the first end comes up all the same. */
  lemma OneSided()
    ensures var b := Shaking([CONF_REQ], Uninitialized, [Message(CONF_RSP)]);
            Reached(H5Link.System(Shaking([], Active, []), b, [], []))
  {
    hide Reached, Internal, Shaking, Message, Messaging;
    var none: seq<seq<byte>>, nil: seq<Frame> := [], [];
    assert [SYNC_REQ] + none == [SYNC_REQ] && [SYNC_RSP] + none == [SYNC_RSP] && [CONF_REQ] + none == [CONF_REQ];
    assert [CONF_RSP] + [CONF_REQ] == [CONF_RSP, CONF_REQ];
    forall m: seq<byte> | m == SYNC_REQ || m == SYNC_RSP || m == CONF_REQ || m == CONF_RSP
      ensures nil + [Message(m)] == [Message(m)] + nil == [Message(m)]
    {
    }
    NoMessages();
    OneMessaging(SYNC_REQ);
    StartReached();
    BothSend(SYNC_REQ, [], Uninitialized, []);
    AnswerSyncReq(Uninitialized);
    AnswerSyncRsp(Uninitialized);
    AnswerConfReq(Uninitialized);
    AnswerConfRspAlone(Initialized);
    var u := Shaking([], Uninitialized, [Message(SYNC_REQ)]);
    // B hears the request of A; its own is lost.
    HearsNext(SYNC_REQ, [], Uninitialized, [Message(SYNC_REQ)], [SYNC_RSP], Uninitialized, u, [Message(SYNC_REQ)], []);
    LosesFirst(Shaking([SYNC_RSP], Uninitialized, []), u, SYNC_REQ, []);
    SendsNext(SYNC_RSP, [], Uninitialized, [], u, [], []);
    var b1 := Shaking([], Uninitialized, [Message(SYNC_RSP)]);
    ReachSwap(H5Link.System(b1, u, [Message(SYNC_RSP)], []));
    HearsNext(SYNC_RSP, [], Uninitialized, [Message(SYNC_REQ)], [CONF_REQ], Initialized, b1, [], []);
    SendsNext(CONF_REQ, [], Initialized, [], b1, [], []);
    var a1 := Shaking([], Initialized, [Message(CONF_REQ)]);
    ReachSwap(H5Link.System(a1, b1, [Message(CONF_REQ)], []));
    HearsNext(CONF_REQ, [], Uninitialized, [Message(SYNC_RSP)], [CONF_RSP, CONF_REQ], Uninitialized, a1, [], []);
    SendsNext(CONF_RSP, [CONF_REQ], Uninitialized, [], a1, [], []);
    var b2 := Shaking([CONF_REQ], Uninitialized, [Message(CONF_RSP)]);
    ReachSwap(H5Link.System(b2, a1, [Message(CONF_RSP)], []));
    HearsNext(CONF_RSP, [], Initialized, [Message(CONF_REQ)], [], Active, b2, [], []);
  }

  lemma AnswerConfRspAlone(st: LinkState)
    ensures Internal(Shaking([], st, []), Body(LINK_PKT, CONF_RSP), 2) == Shaking([], Active, [])
  {
    hide Messages;
    assert CONF_RSP[..2] == CONF_RSP && CONF_RSP[0] == 4 && ConfReq(Shaking([], st, []))[..2][0] == 3;
  }

  lemma LosesFirst(a: Link, b: Link, m: seq<byte>, ba: seq<Frame>)
    requires Reached(H5Link.System(a, b, [Message(m)], ba)) && Short(m) && Messaging(ba)
    ensures Reached(H5Link.System(a, b, [], ba))
  {
    hide Reached, Messaging;
    OneMessaging(m);
    MessagingOk([Message(m)]);
    MessagingOk(ba);
    ReachStep(H5Link.System(a, b, [Message(m)], ba), H5Link.Vanish(0));
    assert Drop([Message(m)], 0) == [];
  }

  function FirstData(p: Packet): Frame {
    Frame(true, 0, 0, Body(p.kind, p.data))
  }

  /** A driver that has come up and sent its first packet. */
  function Waiting(p: Packet): Link {
    Shaking([], Active, [FirstData(p)]).(unack := [p], enqueued := [p], txSeq := 1)
  }

  /** A driver that has come up submits a packet and sends it. */
  lemma SendsData(a: Link, b: Link, w: seq<Frame>, p: Packet)
    requires a == Shaking([], Active, w) && Reached(H5Link.System(a, b, [], []))
    requires Sendable(p) && Reliable(p.kind)
    ensures Reached(H5Link.System(Waiting(p), b, [FirstData(p)], []))
  {
    hide Reached, Wakeup, H5Link.Act;
    NoMessages();
    MessagingOk([]);
    ReachStep(H5Link.System(a, b, [], []), H5Link.Submit(p));
    var a1 := a.(rel := [p], enqueued := [p]);
    DataQueued(a, b, p);
    ReachStep(H5Link.System(a1, b, [], []), H5Link.Transmit([GO]));
    DataSent(a1, b, w, p);
  }

  lemma DataQueued(a: Link, b: Link, p: Packet)
    requires a.state == Active && a.rel == a.enqueued == [] && Sendable(p) && Reliable(p.kind) && QueuesOk(a)
    ensures var r := a.(rel := [p], enqueued := [p]);
            H5Link.Act(H5Link.System(a, b, [], []), H5Link.Submit(p)) == H5Link.System(r, b, [], [])
  {
  }

  lemma DataSent(a: Link, b: Link, w: seq<Frame>, p: Packet)
    requires a == Shaking([], Active, w).(rel := [p], enqueued := [p]) && Reliable(p.kind) && QueuesOk(a)
    ensures H5Link.Act(H5Link.System(a, b, [], []), H5Link.Transmit([GO]))
         == H5Link.System(Waiting(p), b, [FirstData(p)], [])
  {
    var l := H5Link.Ready(a, []);
    assert [GO][1..] == [];
    assert Choose(l, GO) == SendRel && Chosen(l, GO) == p;
    assert AfterOne(l, GO) == Waiting(p);
    assert Wakeup(l, [GO]) == AfterOne(l, GO);
  }

  /** So there are runs in which a receiver falls through, for every reliable packet: one end is up, the other is not,
      and the packet arrives there. */
  lemma FaultHappens(p: Packet) returns (ops: seq<Op>)
    requires Sendable(p) && Reliable(p.kind)
    ensures Valid(BOTH_OPENED.a) && Valid(BOTH_OPENED.b) && Faulted(Run(BOTH_OPENED, ops))
  {
    hide Reached, Run, H5Link.Act, Wakeup, Act;
    OneSided();
    var b := Shaking([CONF_REQ], Uninitialized, [Message(CONF_RSP)]);
    SendsData(Shaking([], Active, []), b, [], p);
    var f := H5Link.System(Waiting(p), b, [FirstData(p)], []);
    ReachSwap(f);
    ops := FaultReached(H5Link.Swap(f));
  }

  lemma FaultReached(f: H5Link.System) returns (ops: seq<Op>)
    requires Reached(f) && f.ab == [] && |f.ba| == 1 && Encodable(f.ba[0]) && Faults(f.a, f.ba[0])
    ensures Valid(BOTH_OPENED.a) && Valid(BOTH_OPENED.b) && Faulted(Run(BOTH_OPENED, ops))
  {
    hide Act, H5Link.Act, AtRest, Wired, Run, Faulted, OnBytes, Encode;
    var before :| ReachedBy(f, before);
    var s := Run(BOTH_OPENED, before);
    RestsValid(s, f);
    var op := Op(false, OnBytes(f, H5Link.Arrive(true, [])));
    ActRests(s, f, H5Link.Arrive(true, []));
    RunAppend(BOTH_OPENED, before, [op]);
    OneOp(s, op);
    ops := before + [op];
  }
}
