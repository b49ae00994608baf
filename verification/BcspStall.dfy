/** What becomes of a BCSP packet whose acknowledgement is lost. */
module BcspStall {
  import opened Octets
  import opened GoBackN
  import opened Bcsp
  import opened BcspFraming
  import opened BcspChunks
  import opened BcspLink
  import opened Wire

  // A packet that was accepted and is sent again is out of order, and bcsp_recv drops it without acknowledging it again.
  // If the peer has nothing else to send, the sender's timer goes on for ever.

  const EMPTY := Line([], [])

  /** Nothing to send, not even an acknowledgement. */
  predicate Silent(l: Link) {
    l.unack == l.rel == l.unrel == [] && !l.txackReq
  }

  /** Anything but the link-establishment message that asks for an answer. */
  predicate NoRequest(b: Body) {
    !(b.tag == 1 && b.data == CONF_PKT)
  }

  ghost predicate NoRequests(l: Link) {
    forall p :: p in l.unrel && Sendable(p) ==> NoRequest(BodyOf(p))
  }

  /** Frames that a silent driver hears without a word. */
  ghost predicate Harmless(fs: seq<Frame>, expected: nat) {
    forall f :: f in fs ==> if f.reliable then f.seqno != expected else NoRequest(f.body)
  }

  lemma ReceivedSilent(l: Link, f: Frame)
    requires QueuesOk(l) && Silent(l) && Encodable(f)
    requires if f.reliable then f.seqno != l.rxseqTxack else NoRequest(f.body)
    ensures var r := Received(l, f);
            Silent(r) && r.upRel == l.upRel && r.written == l.written && r.rxseqTxack == l.rxseqTxack
  {
  }

  lemma {:induction false} FatesSilent(l: Link, fs: seq<Frame>, fate: seq<bool>)
    requires QueuesOk(l) && Silent(l) && |fate| == |fs| && (forall f :: f in fs ==> Encodable(f))
    requires Harmless(fs, l.rxseqTxack)
    ensures var r := Fates(l, fs, fate); Silent(r) && r.upRel == l.upRel && r.written == l.written
    decreases |fs|
  {
    hide Received, QueuesOk;
    if fs != [] {
      assert fs[0] in fs;
      ReceivedSilent(l, fs[0]);
      ReceivedOk(l, fs[0]);
      FatesSilent(if fate[0] then Received(l, fs[0]) else l, fs[1..], fate[1..]);
    }
  }

  /** Waking the transmitter frees nothing, and asks for nothing. */
  lemma {:induction false} WakeupHolds(l: Link, room: seq<Alloc>)
    requires QueuesOk(l) && NoRequests(l)
    ensures var r := Wakeup(l, room); r.unack + r.rel == l.unack + l.rel && NoRequests(r)
    ensures forall f :: f in Sent(l, room) && !f.reliable ==> NoRequest(f.body)
    decreases |room|
  {
    hide QueuesOk, AfterOne, Outgoing, NoRequests, NoRequest;
    if room != [] && Choose(l, room[0]) != SendNothing {
      OneHolds(l, room[0]);
      WakeupHolds(AfterOne(l, room[0]), room[1..]);
    }
  }

  lemma OneHolds(l: Link, a: Alloc)
    requires QueuesOk(l) && NoRequests(l) && Choose(l, a) != SendNothing
    ensures var r := AfterOne(l, a); r.unack + r.rel == l.unack + l.rel && NoRequests(r)
    ensures var f := Outgoing(l, a); !f.reliable ==> NoRequest(f.body)
  {
    match Choose(l, a)
    case SendUnrel => assert l.unrel[0] in l.unrel;
    case SendRel =>
      assert l.rel[0] in l.rel;
      assert l.unack + l.rel == (l.unack + [l.rel[0]]) + l.rel[1..];
    case SendAck =>
  }

  /** Every packet of A has been handed up at B, which has nothing to say. */
  ghost predicate Stalled(s: System, w: Witness) {
    && Inv(s, w) && s.ba == EMPTY && w.fba == []
    && Silent(s.b.link) && |s.b.link.upRel| == |s.a.link.enqueued|
    && NoRequests(s.a.link) && (forall f :: f in w.fab && !f.reliable ==> NoRequest(f.body))
  }

  lemma StalledHarmless(s: System, w: Witness)
    requires Stalled(s, w)
    ensures Harmless(w.fab, s.b.link.rxseqTxack)
  {
    hide OnLine, NoRequest, SenderOk;
    AllOld(TXWINSIZE, CountersOf(s.a.link, s.b.link.rxseqTxack), w.fab, w.fba, w.tab);
  }

  /** What B does while A waits: nothing. */
  lemma PeerAct(s: System, w: Witness, action: Action) returns (w': Witness)
    requires Stalled(s, w) && !action.Submit?
    ensures Stalled(Swap(Act(Swap(s), action)), w')
    ensures var r := Act(Swap(s), action); r.a.link.upRel == s.b.link.upRel && r.b == s.a
  {
    hide Recv, OnLine, Half, NoRequest, Harmless;
    QueuesOkIn(s, w);
    InvSwap(s, w);
    var x, v := Swap(s), SwapWitness(w);
    var v' := v;
    ActValid(x, action);
    match action {
      case Transmit(room) =>
        v' := TransmitSafe(x, v, room);
        SilentWakeup(Ready(s.b.link, []), room);
      case Arrive(n, grants, room) =>
        var fate;
        v', fate := ArriveSafe(x, v, n, grants, room);
        PeerHears(s, w, n, grants, room);
        assert v'.fab == [];
      case Vanish(i) =>
      case Timeout =>
        TimeoutSafe(x, v);
        assert TimedOut(s.b.link).rel == [];
    }
    InvSwap(Act(x, action), v');
    w' := SwapWitness(v');
  }

  lemma SilentWakeup(l: Link, room: seq<Alloc>)
    requires QueuesOk(l) && Silent(l)
    ensures Wakeup(l, room) == l && Sent(l, room) == []
  {
  }

  lemma PeerHears(s: System, w: Witness, n: nat, grants: nat, room: seq<Alloc>)
    requires Stalled(s, w) && Valid(s.b)
    ensures var r := Act(Swap(s), Arrive(n, grants, room)).a.link;
            Silent(r) && r.upRel == s.b.link.upRel && r.written == []
  {
    hide Recv, OnLine, Half, Received, NoRequest, Fates;
    QueuesOkIn(s, w);
    StalledHarmless(s, w);
    var l := Ready(s.b.link, room);
    OnLineSwap(s.b, l, s.ab, w.fab, s.a.link.useCrc);
    var fate := CallHears(s.b.(link := l), s.ab, w.fab, s.a.link.useCrc, n, grants);
    FatesSilent(l, w.fab[..|fate|], fate);
  }

  /** What A does while it waits: the packets stay in its queues. */
  lemma SenderAct(s: System, w: Witness, action: Action) returns (w': Witness)
    requires Stalled(s, w) && !action.Submit?
    ensures Stalled(Act(s, action), w')
    ensures var l := Act(s, action).a.link;
            l.unack + l.rel == s.a.link.unack + s.a.link.rel && l.enqueued == s.a.link.enqueued
  {
    hide Recv, OnLine, Half, NoRequest, Wakeup, Sent, QueuesOk;
    QueuesOkIn(s, w);
    ActValid(s, action);
    w' := w;
    ReadyOk(s.a, []);
    match action
    case Transmit(room) =>
      w' := TransmitSafe(s, w, room);
      WakeupHolds(Ready(s.a.link, []), room);
      WakeupKeeps(Ready(s.a.link, []), room);
    case Arrive(n, grants, room) =>
      var fate;
      w', fate := ArriveSafe(s, w, n, grants, room);
      ReadyOk(s.a, room);
      NothingHeard(s.a.(link := Ready(s.a.link, room)), n, grants);
      assert w'.fab == w.fab;
    case Vanish(i) =>
      if i < |s.ab.waiting| {
        w' := VanishSafe(s, w, i);
      }
    case Timeout =>
      TimeoutSafe(s, w);
      assert [] + (s.a.link.unack + s.a.link.rel) == s.a.link.unack + s.a.link.rel;
  }

  lemma NothingHeard(s: State, n: nat, grants: nat)
    requires Valid(s)
    ensures Recv(s, Taken(EMPTY, n), grants) == s && Advance(EMPTY, n) == EMPTY
  {
  }

  lemma {:induction false} StallRuns(s: System, w: Witness, ops: seq<Op>) returns (w': Witness)
    requires Stalled(s, w) && Valid(s.a) && Valid(s.b) && forall op :: op in ops ==> !op.action.Submit?
    ensures var r := Run(s, ops);
            && Stalled(r, w') && r.b.link.upRel == s.b.link.upRel
            && r.a.link.unack + r.a.link.rel == s.a.link.unack + s.a.link.rel
    decreases |ops|
  {
    hide Stalled, Act;
    if ops == [] {
      w' := w;
    } else {
      var op := ops[0];
      assert op in ops;
      ActValid(if op.atB then Swap(s) else s, op.action);
      var w1;
      if op.atB {
        w1 := PeerAct(s, w, op.action);
      } else {
        w1 := SenderAct(s, w, op.action);
      }
      w' := StallRuns(Step(s, op), w1, ops[1..]);
    }
  }

  // ---- No request is ever sent ----

  lemma DeliverNoRequests(l: Link, f: Frame)
    requires NoRequests(l)
    ensures NoRequests(Deliver(l, f))
  {
    assert CONF_RSP_PKT[0] != CONF_PKT[0];
  }

  lemma ReceivedNoRequests(l: Link, f: Frame)
    requires QueuesOk(l) && NoRequests(l) && f.ack < 8
    ensures QueuesOk(Complete(l, f)) && NoRequests(Complete(l, f))
  {
    hide Wakeup, Deliver, NoRequest;
    CompleteOk(l, f);
    if f.reliable {
      var m := l.(rxseqTxack := (l.rxseqTxack + 1) % 8, txackReq := true, room := []);
      WakeupHolds(m, l.room);
    }
    DeliverNoRequests(Cull(Accept(l, f).(rxack := f.ack)), f);
  }

  lemma SettleNoRequests(s: State)
    requires Valid(s) && s.rx.count == 0 && NoRequests(s.link)
    requires s.rx.state.W4BcspHdr? || s.rx.state.W4Data? || s.rx.state.W4Crc?
    ensures NoRequests(Settle(s).link)
  {
    hide Complete, NoRequests;
    if s.rx.state.W4Data? {
      ReceivedNoRequests(s.link, FrameIn(s.rx.skb));
    } else if s.rx.state.W4Crc? {
      ReceivedNoRequests(s.link, FrameIn(s.rx.skb[..|s.rx.skb| - 2]));
    }
  }

  lemma {:induction false} ByteNoRequests(s: State, c: byte)
    requires Valid(s) && NoRequests(s.link)
    ensures NoRequests(Byte(s, c).link)
    decreases Rank(s.rx)
  {
    hide NoRequests, Settle, Unslip;
    if s.rx.count == 0 && (s.rx.state.W4BcspHdr? || s.rx.state.W4Data? || s.rx.state.W4Crc?) {
      SettleNoRequests(s);
      ByteNoRequests(Settle(s), c);
    }
  }

  lemma {:induction false} RecvNoRequests(s: State, bytes: seq<byte>, grants: nat)
    requires Valid(s) && NoRequests(s.link)
    ensures NoRequests(Recv(s, bytes, grants).link)
    decreases |bytes|
  {
    hide NoRequests, Byte;
    if bytes != [] && !(NeedsBuffer(s, bytes[0]) && grants == 0) {
      ByteNoRequests(s, bytes[0]);
      RecvNoRequests(Byte(s, bytes[0]), bytes[1..], if NeedsBuffer(s, bytes[0]) then grants - 1 else grants);
    }
  }

  lemma ActNoRequests(s: System, action: Action)
    requires Valid(s.a) && Valid(s.b) && NoRequests(s.a.link)
    ensures NoRequests(Act(s, action).a.link)
  {
    hide Recv, Wakeup, NoRequest;
    match action
    case Transmit(room) =>
      ReadyOk(s.a, []);
      WakeupHolds(Ready(s.a.link, []), room);
    case Arrive(n, grants, room) =>
      ReadyOk(s.a, room);
      RecvNoRequests(s.a.(link := Ready(s.a.link, room)), Taken(s.ba, n), grants);
    case Submit(p) => SubmitNoRequests(s.a.link, p);
    case Vanish(_) =>
    case Timeout =>
  }

  lemma SubmitNoRequests(l: Link, p: Packet)
    requires NoRequests(l)
    ensures NoRequests(Enqueue(l, p))
  {
  }

  /** These drivers never ask for an answer to link establishment, in any run. */
  lemma {:induction false} RunNoRequests(s: System, ops: seq<Op>)
    requires Valid(s.a) && Valid(s.b) && NoRequests(s.a.link) && NoRequests(s.b.link)
    ensures NoRequests(Run(s, ops).a.link) && NoRequests(Run(s, ops).b.link)
    decreases |ops|
  {
    hide Act, NoRequests, Valid;
    if ops != [] {
      var x := if ops[0].atB then Swap(s) else s;
      ActValid(x, ops[0].action);
      ActNoRequests(x, ops[0].action);
      RunNoRequests(Step(s, ops[0]), ops[1..]);
    }
  }

  // ---- What it takes to get on ----

  /** After a run: every packet of A has been handed up at B, nothing is on the line, and B has nothing to say. */
  predicate Quiescent(s: System) {
    s.ab == s.ba == EMPTY && Silent(s.b.link) && |s.b.link.upRel| == |s.a.link.enqueued|
  }

  /** From such a state no run of timeouts, transmissions, arrivals and losses frees a packet of A or has B say anything:
      what was not acknowledged by then stays in the queues of A until one of the two submits another packet. */
  lemma LostAckSticks(crcA: bool, crcB: bool, before: seq<Op>, after: seq<Op>)
    requires Quiescent(Run(Opened(crcA, crcB), before))
    requires forall op :: op in after ==> !op.action.Submit?
    ensures var s := Run(Opened(crcA, crcB), before);
            var r := Run(s, after);
            && r.a.link.unack + r.a.link.rel == s.a.link.unack + s.a.link.rel
            && r.b.link.upRel == s.b.link.upRel && Silent(r.b.link) && r.ba == EMPTY
  {
    hide Inv, Run, NoRequests, NoRequest;
    InitialInv(crcA, crcB);
    OpenedNoRequests(crcA, crcB);
    RunNoRequests(Opened(crcA, crcB), before);
    var s := Run(Opened(crcA, crcB), before);
    var w := RunSafe(Opened(crcA, crcB), Witness([], [], START, START), before);
    EmptyLines(s, w);
    QueuesOkIn(s, w);
    var w' := StallRuns(s, w, after);
  }

  lemma OpenedNoRequests(crcA: bool, crcB: bool)
    ensures var s := Opened(crcA, crcB); NoRequests(s.a.link) && NoRequests(s.b.link)
  {
  }

  lemma EmptyLines(s: System, w: Witness)
    requires Inv(s, w)
    ensures s.ab == EMPTY ==> w.fab == []
    ensures s.ba == EMPTY ==> w.fba == []
  {
    hide Half;
  }

  /** The acknowledgement that the peer would send now frees exactly what it has handed up, once all of that has been
      sent again. */
  lemma AckFrees(s: System, w: Witness)
    requires Inv(s, w) && |s.b.link.upRel| <= |s.a.link.enqueued| - |s.a.link.rel|
    ensures var l := Cull(s.a.link.(rxack := s.b.link.rxseqTxack));
            l.unack + l.rel == s.a.link.enqueued[|s.b.link.upRel|..]
  {
    hide OnLine, DataInFlight, AcksInFlight, QueuesOk, CullCount;
    var l, t := s.a.link, w.tab;
    CullCountHits(t.base + |l.unack|, |l.unack|, t.accepted);
    var m := t.accepted - t.base;
    assert l.unack[m..] + l.rel == (l.unack + l.rel)[m..] == l.enqueued[t.base..][m..];
  }

  lemma CurrentAckFrees(crcA: bool, crcB: bool, ops: seq<Op>)
    requires var s := Run(Opened(crcA, crcB), ops);
             |s.b.link.upRel| <= |s.a.link.enqueued| - |s.a.link.rel|
    ensures var s := Run(Opened(crcA, crcB), ops);
            var l := Cull(s.a.link.(rxack := s.b.link.rxseqTxack));
            l.unack + l.rel == s.a.link.enqueued[|s.b.link.upRel|..]
  {
    hide Inv, Run;
    InitialInv(crcA, crcB);
    var s := Run(Opened(crcA, crcB), ops);
    var w := RunSafe(Opened(crcA, crcB), Witness([], [], START, START), ops);
    AckFrees(s, w);
  }

  /** B submits a packet and sends it, and it arrives at A in one call. */
  function Word(q: Packet, n: nat, room: seq<Alloc>): seq<Op> {
    [Op(true, Submit(q)), Op(true, Transmit([GO])), Op(false, Arrive(n, 1, room))]
  }

  /** One packet from B, of any kind that bcsp_enqueue takes, is all that was missing: once everything has been sent
      again, its arrival empties both queues of A. */
  lemma OneWordFrees(crcA: bool, crcB: bool, before: seq<Op>, q: Packet, n: nat, room: seq<Alloc>)
    requires var s := Run(Opened(crcA, crcB), before); Quiescent(s) && s.a.link.rel == []
    requires Sendable(q) && (Reliable(q.kind) || q.kind == HCI_SCODATA_PKT) && n >= (|q.data| + 6) * 2 + 2
    ensures var r := Run(Run(Opened(crcA, crcB), before), Word(q, n, room));
            r.a.link.unack == r.a.link.rel == []
  {
    hide Inv, Run, Act;
    InitialInv(crcA, crcB);
    var s := Run(Opened(crcA, crcB), before);
    var w := RunSafe(Opened(crcA, crcB), Witness([], [], START, START), before);
    QueuesOkIn(s, w);
    EmptyLines(s, w);
    var ops := Word(q, n, room);
    var x1 := Act(Swap(s), Submit(q));
    ActValid(Swap(s), Submit(q));
    var x2 := Act(x1, Transmit([GO]));
    ActValid(x1, Transmit([GO]));
    var y := Act(Swap(x2), Arrive(n, 1, room));
    ActValid(Swap(x2), Arrive(n, 1, room));
    WordSent(s, w, q);
    WordHeard(s, w, q, Swap(x2), n, room);
    ThreeOps(s, ops);
  }

  lemma ThreeOps(s: System, ops: seq<Op>)
    requires Valid(s.a) && Valid(s.b) && |ops| == 3 && ops[0].atB && ops[1].atB && !ops[2].atB
    ensures var x1 := Act(Swap(s), ops[0].action);
            && Valid(x1.a) && Valid(x1.b)
            && var x2 := Act(x1, ops[1].action);
            && Valid(x2.a) && Valid(x2.b) && Run(s, ops) == Act(Swap(x2), ops[2].action)
  {
    hide Act, Valid;
    var x1 := Act(Swap(s), ops[0].action);
    ActValid(Swap(s), ops[0].action);
    var x2 := Act(x1, ops[1].action);
    ActValid(x1, ops[1].action);
    ActValid(Swap(x2), ops[2].action);
    assert Swap(Swap(x1)) == x1;
    assert ops[1..][0] == ops[1] && ops[1..][1..] == ops[2..] && ops[2..][0] == ops[2] && ops[2..][1..] == [];
    var y := Act(Swap(x2), ops[2].action);
    assert Run(y, []) == y;
    assert Run(Swap(x2), ops[2..]) == y;
    assert Run(Swap(x1), ops[1..]) == y;
  }

  /** The frame that B sends, numbered as A expects it and acknowledging everything. */
  function WordFrame(s: System, q: Packet): Frame
    requires Sendable(q)
  {
    FrameFor(s.b.link, q)
  }

  lemma WordSent(s: System, w: Witness, q: Packet)
    requires Inv(s, w) && Quiescent(s) && Valid(s.b) && Valid(s.a)
    requires Sendable(q) && (Reliable(q.kind) || q.kind == HCI_SCODATA_PKT)
    ensures var f := WordFrame(s, q);
            && Encodable(f) && Valid(Act(Swap(s), Submit(q)).a)
            && var x := Act(Act(Swap(s), Submit(q)), Transmit([GO]));
            && x.b == s.a && x.ab == Line([], [Encode(f, s.b.link.useCrc)])
            && f.ack == s.b.link.rxseqTxack && (f.reliable ==> f.seqno == s.a.link.rxseqTxack)
  {
    hide Encode, OnLine;
    NextIsExpected(s, w);
    hide Inv;
    ActValid(Swap(s), Submit(q));
    var l := Ready(Enqueue(s.b.link, q), []);
    WordQueued(s.b.link, q);
    WakeupOnce(l);
    assert Outgoing(l, GO) == WordFrame(s, q);
    assert AfterOne(l, GO).written == [Encode(WordFrame(s, q), s.b.link.useCrc)];
  }

  lemma WordQueued(l: Link, q: Packet)
    requires QueuesOk(l) && Silent(l) && Sendable(q) && (Reliable(q.kind) || q.kind == HCI_SCODATA_PKT)
    ensures var m := Ready(Enqueue(l, q), []);
            QueuesOk(m) && Choose(m, GO) != SendNothing && Chosen(m, GO) == q
  {
    EnqueueOk(l, q);
  }

  lemma NextIsExpected(s: System, w: Witness)
    requires Inv(s, w) && Silent(s.b.link)
    ensures s.b.link.msgqTxseq == s.a.link.rxseqTxack
  {
    hide OnLine, DataInFlight, AcksInFlight, QueuesOk;
  }

  lemma WordHeard(s: System, w: Witness, q: Packet, x: System, n: nat, room: seq<Alloc>)
    requires Inv(s, w) && Quiescent(s) && s.a.link.rel == [] && Sendable(q) && n >= (|q.data| + 6) * 2 + 2
    requires Valid(x.a) && x.a == s.a && Encodable(WordFrame(s, q))
    requires var f := WordFrame(s, q);
             && x.ba == Line([], [Encode(f, s.b.link.useCrc)])
             && f.ack == s.b.link.rxseqTxack && (f.reliable ==> f.seqno == s.a.link.rxseqTxack)
    ensures var l := Act(x, Arrive(n, 1, room)).a.link; l.unack == l.rel == []
  {
    hide Recv, Encode, Inv, Received;
    var f, crc := WordFrame(s, q), s.b.link.useCrc;
    var enc := Encode(f, crc);
    var l := Ready(s.a.link, room);
    ReadyOk(s.a, room);
    EncodeSome(f, crc);
    EncodedFits(f, crc);
    AllTaken(enc, n);
    QuiescentRests(s, w);
    FrameNeedsOneBuffer(s.a.(link := l), f, crc);
    EnoughBuffers(s.a.(link := l), enc, 1);
    RestDelimiter(s.a.(link := l));
    FrameRoundTrip(s.a.(link := l), f, crc);
    AckFrees(s, w);
    WordReceived(l, f);
  }

  lemma QuiescentRests(s: System, w: Witness)
    requires Inv(s, w) && s.ba == EMPTY
    ensures AtRest(s.a) && forall room :: AtRest(s.a.(link := Ready(s.a.link, room)))
  {
    hide Half;
  }

  lemma AllTaken(enc: seq<byte>, n: nat)
    requires enc != [] && n >= |enc|
    ensures Taken(Line([], [enc]), n) == enc
  {
    assert [enc][1..] == [] && [] + enc == enc;
    assert Taken(Line(enc, []), n) == enc;
  }

  /** The frame makes A free all it holds. */
  lemma WordReceived(l: Link, f: Frame)
    requires QueuesOk(l) && l.rel == [] && f.ack < 8 && (f.reliable ==> f.seqno == l.rxseqTxack)
    requires var m := Cull(l.(rxack := f.ack)); m.unack + m.rel == []
    ensures var r := Received(l, f); r.unack == r.rel == []
  {
    hide Wakeup, CullCount, Deliver;
    if f.reliable {
      var m := l.(rxseqTxack := (l.rxseqTxack + 1) % 8, txackReq := true, room := []);
      WakeupIdle(m, l.room);
    }
    CompleteOk(l, f);
    DeliverQueues(Cull(Accept(l, f).(rxack := f.ack)), f);
  }

  lemma DeliverQueues(l: Link, f: Frame)
    ensures var r := Deliver(l, f); r.unack == l.unack && r.rel == l.rel
  {
  }

  /** With no reliable packet waiting, waking the transmitter changes neither queue nor number. */
  lemma {:induction false} WakeupIdle(l: Link, room: seq<Alloc>)
    requires QueuesOk(l) && l.rel == []
    ensures var r := Wakeup(l, room); r.unack == l.unack && r.rel == [] && r.msgqTxseq == l.msgqTxseq
    decreases |room|
  {
    hide QueuesOk, Encode;
    if room != [] && Choose(l, room[0]) != SendNothing {
      IdleOne(l, room[0]);
      WakeupIdle(AfterOne(l, room[0]), room[1..]);
    }
  }

  lemma IdleOne(l: Link, a: Alloc)
    requires QueuesOk(l) && l.rel == [] && Choose(l, a) != SendNothing
    ensures var r := AfterOne(l, a); r.unack == l.unack && r.rel == [] && r.msgqTxseq == l.msgqTxseq
  {
    hide Encode;
    if Choose(l, a) == SendUnrel {
      assert l.unrel[0] in l.unrel;
    }
  }

  // ---- It happens ----

  const GO := Alloc(true, true, true)

  /** A packet is submitted and sent; it arrives, and the acknowledgement is lost. */
  function Mishap(p: Packet, n: nat): seq<Op> {
    [Op(false, Submit(p)), Op(false, Transmit([GO])), Op(true, Arrive(n, 1, [GO])), Op(true, Vanish(0))]
  }

  /** So there are runs after which LostAckSticks and OneWordFrees apply, for every reliable packet: it has been handed
      up, and it is sent for ever unless B has something to say. */
  lemma LostAckHappens(p: Packet) returns (before: seq<Op>)
    requires Sendable(p) && Reliable(p.kind)
    ensures var s := Run(Opened(false, false), before);
            && Quiescent(s)
            && s.a.link.enqueued == s.a.link.unack == [p] && s.a.link.rel == [] && s.b.link.upRel == [Up(p)]
  {
    hide Recv, Encode, Received, Act;
    var s0 := Opened(false, false);
    var f := Frame(true, 0, 0, BodyOf(p));
    var n := |Encode(f, false)|;
    before := Mishap(p, n);
    var s1 := s0.(a := s0.a.(link := s0.a.link.(rel := [p], enqueued := [p])));
    assert Act(s0, Submit(p)) == s1 by {
      Submitted(s0, p);
    }
    var s2 := FirstSent(s1, p);
    var s3 := FirstHeard(s2, p, n);
    var s4 := Swap(Act(Swap(s3), Vanish(0)));
    assert s4 == s3.(ba := EMPTY) by {
      AckGone(s3);
    }
    assert Run(s4, []) == s4;
    assert before[3..] == [before[3]] && before[3..][1..] == [] && before[2..][1..] == before[3..];
    assert before[1..][1..] == before[2..];
    assert Run(s3, before[3..]) == s4;
    assert Run(s2, before[2..]) == s4;
    assert Run(s1, before[1..]) == s4;
  }

  lemma Submitted(s: System, p: Packet)
    requires Valid(s.a) && Sendable(p) && Reliable(p.kind) && s.a.link.rel == s.a.link.enqueued == []
    ensures Act(s, Submit(p)) == s.(a := s.a.(link := s.a.link.(rel := [p], enqueued := [p])))
  {
  }

  lemma FirstSent(s: System, p: Packet) returns (r: System)
    requires Sendable(p) && Reliable(p.kind)
    requires var l := OPENED.link.(rel := [p], enqueued := [p], useCrc := false);
             s == System(OPENED.(link := l), OPENED.(link := OPENED.link.(useCrc := false)), EMPTY, EMPTY)
    ensures Valid(s.a) && Valid(s.b) && r == Act(s, Transmit([GO])) && Valid(r.a) && Valid(r.b)
    ensures var f := Frame(true, 0, 0, BodyOf(p));
            r == s.(a := s.a.(link := s.a.link.(rel := [], unack := [p], msgqTxseq := 1, written := [Encode(f, false)])),
                    ab := Line([], [Encode(f, false)]))
  {
    hide Encode, Wakeup, AfterOne;
    r := Act(s, Transmit([GO]));
    ActValid(s, Transmit([GO]));
    FirstFrame(Ready(s.a.link, []), p);
  }

  lemma FirstFrame(l: Link, p: Packet)
    requires Sendable(p) && Reliable(p.kind) && l == OPENED.link.(rel := [p], enqueued := [p], useCrc := false)
    ensures QueuesOk(l)
    ensures Wakeup(l, [GO]) == l.(rel := [], unack := [p], msgqTxseq := 1,
                                  written := [Encode(Frame(true, 0, 0, BodyOf(p)), false)])
  {
    hide Encode, Wakeup;
    WakeupOnce(l);
    assert l.rel[1..] == [] && [] + [p] == [p];
    assert Outgoing(l, GO) == Frame(true, 0, 0, BodyOf(p));
  }

  lemma WakeupOnce(l: Link)
    requires QueuesOk(l) && Choose(l, GO) != SendNothing
    ensures Wakeup(l, [GO]) == AfterOne(l, GO)
  {
    assert [GO][1..] == [];
  }

  lemma FirstHeard(s: System, p: Packet, n: nat) returns (r: System)
    requires Sendable(p) && Reliable(p.kind) && Valid(s.a) && Valid(s.b)
    requires s.b == OPENED.(link := OPENED.link.(useCrc := false)) && s.ba == EMPTY
    requires var f := Frame(true, 0, 0, BodyOf(p)); s.ab == Line([], [Encode(f, false)]) && n == |Encode(f, false)|
    ensures r == Swap(Act(Swap(s), Arrive(n, 1, [GO]))) && Valid(r.a) && Valid(r.b)
    ensures r.a == s.a && r.ab == EMPTY && |r.ba.waiting| == 1 && r.ba.begun == []
    ensures Silent(r.b.link) && r.b.link.upRel == [Up(p)]
  {
    hide Recv, Encode, Received;
    var f := Frame(true, 0, 0, BodyOf(p));
    var b := s.b.(link := Ready(s.b.link, [GO]));
    ActValid(Swap(s), Arrive(n, 1, [GO]));
    EncodeSome(f, false);
    var enc := Encode(f, false);
    assert Taken(Line(enc, []), n) == enc && [] + enc == enc;
    assert Advance(Line(enc, []), n) == EMPTY;
    assert Taken(s.ab, n) == enc && Advance(s.ab, n) == EMPTY;
    FrameNeedsOneBuffer(b, f, false);
    EnoughBuffers(b, enc, 1);
    RestDelimiter(b);
    FrameRoundTrip(b, f, false);
    FirstReceived(b.link, p);
    r := Swap(Act(Swap(s), Arrive(n, 1, [GO])));
  }

  lemma FirstReceived(l: Link, p: Packet)
    requires Sendable(p) && Reliable(p.kind) && l == OPENED.link.(useCrc := false, room := [GO], written := [])
    ensures var r := Received(l, Frame(true, 0, 0, BodyOf(p)));
            Silent(r) && r.upRel == [Up(p)] && |r.written| == 1
  {
    hide Encode, Wakeup;
    var f := Frame(true, 0, 0, BodyOf(p));
    var m := l.(rxseqTxack := 1, txackReq := true, room := []);
    WakeupOnce(m);
    assert Accept(l, f) == AfterOne(m, GO);
    assert CullCount(0, 0, 0) == 0;
  }

  lemma AckGone(s: System)
    requires Valid(s.b) && |s.ba.waiting| == 1 && s.ba.begun == []
    ensures Swap(Act(Swap(s), Vanish(0))) == s.(ba := EMPTY)
  {
  }
}
