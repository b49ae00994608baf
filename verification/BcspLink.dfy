/** Two BCSP drivers at the two ends of a line. */
module BcspLink {
  import opened Octets
  import opened GoBackN
  import opened Bcsp
  import opened BcspFraming
  import opened BcspChunks
  import opened Wire

  // Each frame travels as the bytes that bcsp_prepare_pkt built; the line keeps their order and may lose any frame before
  // its delivery has begun. Every run is a sequence of operations: packets submitted, the transmitter woken, a call that
  // is given any number of bytes from the line (with or without memory to receive them), a frame lost, the
  // retransmission timer firing.

  datatype System = System(a: State, b: State, ab: Line, ba: Line)

  /** What can happen at one end. `Vanish` loses a frame that this end has sent. */
  datatype Action =
    | Submit(p: Packet)
    | Transmit(room: seq<Alloc>)
    | Arrive(n: nat, grants: nat, room: seq<Alloc>)
    | Vanish(i: nat)
    | Timeout

  datatype Op = Op(atB: bool, action: Action)

  function Swap(s: System): System {
    System(s.b, s.a, s.ba, s.ab)
  }

  function Ready(l: Link, room: seq<Alloc>): Link {
    l.(room := room, written := [])
  }

  lemma ReadyOk(s: State, room: seq<Alloc>)
    requires Valid(s)
    ensures Valid(s.(link := Ready(s.link, room))) && QueuesOk(Ready(s.link, room))
  {
  }

  /** An operation at end A. */
  function Act(s: System, action: Action): System
    requires Valid(s.a)
  {
    match action
    case Submit(p) => s.(a := s.a.(link := Enqueue(s.a.link, p)))
    case Transmit(room) =>
      var l := Wakeup(Ready(s.a.link, []), room);
      s.(a := s.a.(link := l), ab := Send(s.ab, l.written))
    case Arrive(n, grants, room) =>
      var r := Recv(s.a.(link := Ready(s.a.link, room)), Taken(s.ba, n), grants);
      s.(a := r, ab := Send(s.ab, r.link.written), ba := Advance(s.ba, n))
    case Vanish(i) => if i < |s.ab.waiting| then s.(ab := s.ab.(waiting := Drop(s.ab.waiting, i))) else s
    case Timeout => s.(a := s.a.(link := TimedOut(s.a.link)))
  }

  function Step(s: System, op: Op): System
    requires Valid(s.a) && Valid(s.b)
  {
    if op.atB then Swap(Act(Swap(s), op.action)) else Act(s, op.action)
  }

  lemma ActValid(s: System, action: Action)
    requires Valid(s.a) && Valid(s.b)
    ensures Valid(Act(s, action).a) && Act(s, action).b == s.b
  {
    match action
    case Transmit(room) => WakeupKeeps(Ready(s.a.link, []), room);
    case _ =>
  }

  function Run(s: System, ops: seq<Op>): (r: System)
    requires Valid(s.a) && Valid(s.b)
    ensures Valid(r.a) && Valid(r.b)
    decreases |ops|
  {
    if ops == [] then s
    else
      ActValid(if ops[0].atB then Swap(s) else s, ops[0].action);
      Run(Step(s, ops[0]), ops[1..])
  }

  /** bcsp_open at both ends, each with its own choice of CRC, and an empty line. */
  function Opened(crcA: bool, crcB: bool): System {
    System(OPENED.(link := OPENED.link.(useCrc := crcA)), OPENED.(link := OPENED.link.(useCrc := crcB)),
           Line([], []), Line([], []))
  }

  // ---- The invariant ----

  /** What the HCI layer at the other end sees of a reliable packet: commands arrive as events. */
  function Up(p: Packet): Packet {
    if p.kind == HCI_COMMAND_PKT then Packet(HCI_EVENT_PKT, p.data) else p
  }

  function Bodies(ps: seq<Packet>): (bs: seq<Body>)
    requires forall p :: p in ps ==> Sendable(p)
    ensures |bs| == |ps|
    ensures forall i :: 0 <= i < |ps| ==> bs[i] == BodyOf(ps[i])
  {
    seq(|ps|, i requires 0 <= i < |ps| => BodyOf(ps[i]))
  }

  function CountersOf(l: Link, rxSeq: nat): Counters
    requires forall p :: p in l.enqueued ==> Sendable(p)
  {
    Counters(Bodies(l.enqueued), |l.unack|, l.msgqTxseq, rxSeq)
  }

  /** Culled, unacknowledged and waiting packets are, in this order, all packets ever queued. */
  ghost predicate SenderOk(l: Link, base: nat) {
    && base + |l.unack| + |l.rel| == |l.enqueued|
    && l.enqueued[base..] == l.unack + l.rel
    && |l.unack| <= TXWINSIZE
  }

  /** One direction: the sender `l`, the peer's next expected number and the packets it has handed up. */
  ghost predicate Half(l: Link, rxSeq: nat, got: seq<Packet>, data: seq<Frame>, acks: seq<Frame>, t: Track) {
    && QueuesOk(l)
    && SenderOk(l, t.base)
    && Safe(TXWINSIZE, CountersOf(l, rxSeq), data, acks, t)
    && |got| == t.accepted
    && (forall i :: 0 <= i < |got| ==> got[i] == Up(l.enqueued[i]))
  }

  datatype Witness = Witness(fab: seq<Frame>, fba: seq<Frame>, tab: Track, tba: Track)

  ghost predicate Inv(s: System, w: Witness) {
    && OnLine(s.b, s.ab, w.fab, s.a.link.useCrc)
    && OnLine(s.a, s.ba, w.fba, s.b.link.useCrc)
    && Half(s.a.link, s.b.link.rxseqTxack, s.b.link.upRel, w.fab, w.fba, w.tab)
    && Half(s.b.link, s.a.link.rxseqTxack, s.a.link.upRel, w.fba, w.fab, w.tba)
  }

  function SwapWitness(w: Witness): Witness {
    Witness(w.fba, w.fab, w.tba, w.tab)
  }

  lemma InvSwap(s: System, w: Witness)
    ensures Inv(s, w) <==> Inv(Swap(s), SwapWitness(w))
  {
  }

  // ---- Operations of the sender ----

  /** Fields that waking the transmitter leaves alone. */
  lemma {:induction false} WakeupKeeps(l: Link, room: seq<Alloc>)
    requires QueuesOk(l)
    ensures var r := Wakeup(l, room);
            && r.rxseqTxack == l.rxseqTxack && r.upRel == l.upRel && r.enqueued == l.enqueued
            && r.useCrc == l.useCrc && r.upUnrel == l.upUnrel && r.rxack == l.rxack && r.room == l.room
    decreases |room|
  {
    if room != [] && Choose(l, room[0]) != SendNothing {
      WakeupKeeps(AfterOne(l, room[0]), room[1..]);
    }
  }

  /** One frame leaves: data for the peer, and an acknowledgement in the other direction. */
  lemma SendOne(l: Link, a: Alloc, rxSeq: nat, got: seq<Packet>, data: seq<Frame>, acks: seq<Frame>, t: Track)
    returns (t': Track)
    requires Half(l, rxSeq, got, data, acks, t) && Choose(l, a) != SendNothing
    ensures Half(Dequeued(l, a), rxSeq, got, data + [Outgoing(l, a)], acks, t')
  {
    hide DataInFlight, AcksInFlight;
    var f := Outgoing(l, a);
    var c := CountersOf(l, rxSeq);
    DequeuedOk(l, a);
    if Choose(l, a) == SendRel {
      t' := SendOldest(l, a, rxSeq, got, data, acks, t);
    } else {
      if Choose(l, a) == SendUnrel {
        assert l.unrel[0] in l.unrel;
      }
      t' := SentUnreliable(TXWINSIZE, c, data, acks, t, f);
    }
    assert CountersOf(Dequeued(l, a), rxSeq).queued == c.queued;
  }

  lemma SendOldest(l: Link, a: Alloc, rxSeq: nat, got: seq<Packet>, data: seq<Frame>, acks: seq<Frame>, t: Track)
    returns (t': Track)
    requires Half(l, rxSeq, got, data, acks, t) && Choose(l, a) == SendRel
    ensures Half(Dequeued(l, a), rxSeq, got, data + [Outgoing(l, a)], acks, t')
  {
    hide DataInFlight, AcksInFlight;
    DequeuedOk(l, a);
    assert l.enqueued[t.base + |l.unack|] == l.enqueued[t.base..][|l.unack|] == l.rel[0];
    assert l.rel[0] in l.rel;
    t' := SentReliable(TXWINSIZE, CountersOf(l, rxSeq), data, acks, t, Outgoing(l, a));
    hide Safe, QueuesOk;
    assert l.unack + l.rel == (l.unack + [l.rel[0]]) + l.rel[1..];
  }

  /** The same frame seen by the other direction. */
  lemma SendOneAck(peer: Link, rxSeq: nat, got: seq<Packet>, data: seq<Frame>, acks: seq<Frame>, t: Track, f: Frame)
    returns (t': Track)
    requires Half(peer, rxSeq, got, data, acks, t) && f.ack == rxSeq
    ensures Half(peer, rxSeq, got, data, acks + [f], t')
  {
    t' := SentAck(TXWINSIZE, CountersOf(peer, rxSeq), data, acks, t, f);
  }

  /** The frames that waking the transmitter sends. */
  function Sent(l: Link, room: seq<Alloc>): seq<Frame>
    requires QueuesOk(l)
    decreases |room|
  {
    if room == [] || Choose(l, room[0]) == SendNothing then []
    else [Outgoing(l, room[0])] + Sent(AfterOne(l, room[0]), room[1..])
  }

  lemma {:induction false} WakeupWrites(l: Link, room: seq<Alloc>)
    requires QueuesOk(l)
    ensures Wrote(l, Wakeup(l, room), Sent(l, room))
    decreases |room|
  {
    hide QueuesOk, AfterOne, Outgoing, Wrote;
    if room == [] || Choose(l, room[0]) == SendNothing {
      WroteNothing(l);
    } else {
      var next := AfterOne(l, room[0]);
      OneWrite(l, room[0]);
      WakeupWrites(next, room[1..]);
      WroteThen(l, next, Wakeup(l, room), [Outgoing(l, room[0])], Sent(next, room[1..]));
    }
  }

  /** The frames that a driver has written since it was in the state `l`. */
  ghost predicate Wrote(l: Link, r: Link, sent: seq<Frame>) {
    r.useCrc == l.useCrc && l.written <= r.written && OnWire(r.written[|l.written|..], sent, l.useCrc)
  }

  lemma WroteNothing(l: Link)
    ensures Wrote(l, l, [])
  {
  }

  lemma WroteAsMany(l: Link, r: Link, sent: seq<Frame>)
    requires Wrote(l, r, sent)
    ensures |r.written| == |l.written| + |sent|
  {
  }

  lemma OneWrite(l: Link, a: Alloc)
    requires QueuesOk(l) && Choose(l, a) != SendNothing
    ensures Wrote(l, AfterOne(l, a), [Outgoing(l, a)])
  {
    hide QueuesOk, Encode, Outgoing;
    var r := AfterOne(l, a);
    assert r.written[|l.written|..] == [Encode(Outgoing(l, a), l.useCrc)];
  }

  lemma WroteThen(l: Link, m: Link, r: Link, x: seq<Frame>, y: seq<Frame>)
    requires Wrote(l, m, x) && Wrote(m, r, y)
    ensures Wrote(l, r, x + y)
  {
    hide OnWire;
    assert r.written[|l.written|..] == m.written[|l.written|..] + r.written[|m.written|..];
    OnWireAppend(m.written[|l.written|..], x, r.written[|m.written|..], y, l.useCrc);
  }

  /** Waking the transmitter keeps both directions, whatever it sends. */
  lemma {:induction false} WakeupSafe(l: Link, peer: Link, room: seq<Alloc>,
      rxPeer: nat, gotPeer: seq<Packet>, gotHere: seq<Packet>,
      out: seq<Frame>, acksIn: seq<Frame>, dataIn: seq<Frame>, t: Track, u: Track)
    returns (t': Track, u': Track)
    requires Half(l, rxPeer, gotPeer, out, acksIn, t)
    requires Half(peer, l.rxseqTxack, gotHere, dataIn, out, u)
    ensures Half(Wakeup(l, room), rxPeer, gotPeer, out + Sent(l, room), acksIn, t')
    ensures Half(peer, l.rxseqTxack, gotHere, dataIn, out + Sent(l, room), u')
    decreases |room|
  {
    hide Safe;
    if room == [] || Choose(l, room[0]) == SendNothing {
      assert out + [] == out;
      t', u' := t, u;
    } else {
      var f := Outgoing(l, room[0]);
      var next := AfterOne(l, room[0]);
      var t1 := SendOne(l, room[0], rxPeer, gotPeer, out, acksIn, t);
      var u1 := SendOneAck(peer, l.rxseqTxack, gotHere, dataIn, out, u, f);
      HalfIgnoresWritten(Dequeued(l, room[0]), next, rxPeer, gotPeer, out + [f], acksIn, t1);
      t', u' := WakeupSafe(next, peer, room[1..], rxPeer, gotPeer, gotHere, out + [f], acksIn, dataIn, t1, u1);
      assert out + Sent(l, room) == (out + [f]) + Sent(next, room[1..]);
    }
  }

  /** A direction depends on the sender's queues and numbers only. */
  lemma HalfIgnoresWritten(l: Link, m: Link, rxSeq: nat, got: seq<Packet>, data: seq<Frame>, acks: seq<Frame>, t: Track)
    requires Half(l, rxSeq, got, data, acks, t) && QueuesOk(m)
    requires m.unack == l.unack && m.rel == l.rel && m.enqueued == l.enqueued && m.msgqTxseq == l.msgqTxseq
    ensures Half(m, rxSeq, got, data, acks, t)
  {
    assert CountersOf(m, rxSeq) == CountersOf(l, rxSeq);
  }

  // ---- Operations of the receiver ----

  /** A frame dropped at the receiver, or lost on the way, is gone for both directions. */
  lemma FrameGone(l: Link, rxSeq: nat, got: seq<Packet>, data: seq<Frame>, acks: seq<Frame>, t: Track,
      i: nat, inData: bool)
    returns (t': Track)
    requires Half(l, rxSeq, got, data, acks, t)
    requires i < if inData then |data| else |acks|
    ensures Half(l, rxSeq, got, if inData then Drop(data, i) else data, if inData then acks else Drop(acks, i), t')
  {
    if inData {
      t' := LostData(TXWINSIZE, CountersOf(l, rxSeq), data, acks, t, i);
    } else {
      t' := LostAck(TXWINSIZE, CountersOf(l, rxSeq), data, acks, t, i);
    }
  }

  /** The expected reliable frame: what is handed up is the sender's next packet. */
  lemma AcceptOne(peer: Link, rxSeq: nat, got: seq<Packet>, data: seq<Frame>, acks: seq<Frame>, t: Track)
    returns (t': Track)
    requires Half(peer, rxSeq, got, data, acks, t) && data != []
    requires data[0].reliable && data[0].seqno == rxSeq
    ensures HandedUp(data[0]).Some?
    ensures Half(peer, (rxSeq + 1) % 8, got + [HandedUp(data[0]).value], data[1..], acks, t')
  {
    var c := CountersOf(peer, rxSeq);
    t' := Accepted(TXWINSIZE, c, data, acks, t);
    var p := peer.enqueued[t.accepted];
    assert p in peer.enqueued;
    assert data[0].body == BodyOf(p);
    assert CountersOf(peer, (rxSeq + 1) % 8) == c.(rxSeq := (rxSeq + 1) % 8);
  }

  /** The acknowledgement of an accepted frame culls only packets that the peer has handed up. */
  lemma CullOne(l: Link, rxPeer: nat, got: seq<Packet>, data: seq<Frame>, acks: seq<Frame>, t: Track)
    returns (t': Track)
    requires Half(l, rxPeer, got, data, acks, t) && acks != [] && l.rxack == acks[0].ack
    ensures Half(Cull(l), rxPeer, got, data, acks[1..], t')
    ensures t.base <= t'.base <= |got|
  {
    hide Safe;
    var m := CullCount(|l.unack|, l.msgqTxseq, l.rxack);
    t' := CullCounters(CountersOf(l, rxPeer), data, acks, t, m);
    CullOk(l);
    assert l.enqueued[t'.base..] == l.enqueued[t.base..][m..];
    assert CountersOf(Cull(l), rxPeer) == CountersOf(l, rxPeer).(unacked := |l.unack| - m);
  }

  lemma CullCounters(c: Counters, data: seq<Frame>, acks: seq<Frame>, t: Track, m: nat) returns (t': Track)
    requires Safe(TXWINSIZE, c, data, acks, t) && acks != []
    requires m == CullCount(c.unacked, c.txSeq, acks[0].ack)
    ensures Safe(TXWINSIZE, c.(unacked := c.unacked - m), data, acks[1..], t')
    ensures t'.base == t.base + m <= t.accepted == t'.accepted
  {
    hide DataInFlight, AcksInFlight;
    if m != 0 {
      CullCountSound(t.base + c.unacked, c.unacked, acks[0].ack);
    }
    t' := Culled(TXWINSIZE, c, data, acks, t, m);
  }

  lemma NextExpected(l: Link)
    requires QueuesOk(l)
    ensures QueuesOk(l.(rxseqTxack := (l.rxseqTxack + 1) % 8, txackReq := true, room := []))
  {
  }

  /** The frames that a driver sends when it hears the frame `f`. */
  function SentOn(l: Link, f: Frame): seq<Frame>
    requires QueuesOk(l)
  {
    if f.reliable && f.seqno == l.rxseqTxack
    then NextExpected(l); Sent(l.(rxseqTxack := (l.rxseqTxack + 1) % 8, txackReq := true, room := []), l.room)
    else []
  }

  /** Everything before the cull: the expected packet is accepted and the transmitter woken. */
  lemma AcceptSafe(l: Link, peer: Link, rxPeer: nat, gotPeer: seq<Packet>,
      out: seq<Frame>, inn: seq<Frame>, t: Track, u: Track)
    returns (sent: seq<Frame>, t': Track, u': Track)
    requires QueuesOk(l) && Half(l, rxPeer, gotPeer, out, inn, t)
    requires Half(peer, l.rxseqTxack, l.upRel, inn, out, u)
    requires inn != [] && inn[0].reliable && inn[0].seqno == l.rxseqTxack
    ensures HandedUp(inn[0]).Some?
    ensures var r := Accept(l, inn[0]);
            && Half(r, rxPeer, gotPeer, out + sent, inn, t')
            && Half(peer, r.rxseqTxack, l.upRel + [HandedUp(inn[0]).value], inn[1..], out + sent, u')
            && r.useCrc == l.useCrc && r.upRel == l.upRel && l.written <= r.written
            && OnWire(r.written[|l.written|..], sent, l.useCrc) && sent == SentOn(l, inn[0])
  {
    hide Safe, Half, Wakeup, Sent, OnWire, QueuesOk, HandedUp;
    NextExpected(l);
    var u1 := AcceptOne(peer, l.rxseqTxack, l.upRel, inn, out, u);
    var l1 := l.(rxseqTxack := (l.rxseqTxack + 1) % 8, txackReq := true, room := []);
    HalfIgnoresWritten(l, l1, rxPeer, gotPeer, out, inn, t);
    sent := Sent(l1, l.room);
    t', u' := WakeupSafe(l1, peer, l.room, rxPeer, gotPeer, l.upRel + [HandedUp(inn[0]).value],
                         out, inn, inn[1..], t, u1);
    WakeupKeeps(l1, l.room);
    WakeupWrites(l1, l.room);
  }

  /** A complete frame at the receiver, from the acknowledgement it triggers to the packet handed up. */
  lemma CompleteSafe(l: Link, peer: Link, rxPeer: nat, gotPeer: seq<Packet>,
      out: seq<Frame>, inn: seq<Frame>, t: Track, u: Track)
    returns (sent: seq<Frame>, t': Track, u': Track)
    requires QueuesOk(l) && Half(l, rxPeer, gotPeer, out, inn, t)
    requires Half(peer, l.rxseqTxack, l.upRel, inn, out, u)
    requires inn != [] && Encodable(inn[0]) && (inn[0].reliable ==> inn[0].seqno == l.rxseqTxack)
    ensures var r := Complete(l, inn[0]);
            && Half(r, rxPeer, gotPeer, out + sent, inn[1..], t')
            && Half(peer, r.rxseqTxack, r.upRel, inn[1..], out + sent, u')
            && r.useCrc == l.useCrc && l.written <= r.written
            && OnWire(r.written[|l.written|..], sent, l.useCrc) && sent == SentOn(l, inn[0])
  {
    hide Safe, Half, Sent;
    var f := inn[0];
    var t1;
    CompleteOk(l, f);
    if f.reliable {
      sent, t1, u' := AcceptSafe(l, peer, rxPeer, gotPeer, out, inn, t, u);
    } else {
      sent, t1 := [], t;
      assert out + sent == out;
      assert Drop(inn, 0) == inn[1..];
      u' := FrameGone(peer, l.rxseqTxack, l.upRel, inn, out, u, 0, true);
    }
    hide Accept;
    var l2 := Accept(l, f).(rxack := f.ack);
    HalfIgnoresWritten(Accept(l, f), l2, rxPeer, gotPeer, out + sent, inn, t1);
    t' := CullOne(l2, rxPeer, gotPeer, out + sent, inn, t1);
    DeliverOk(Cull(l2), f);
    HalfIgnoresWritten(Cull(l2), Complete(l, f), rxPeer, gotPeer, out + sent, inn[1..], t');
  }

  // ---- Every operation keeps the invariant ----

  lemma OnLineSwap(s: State, l: Link, line: Line, fs: seq<Frame>, crc: bool)
    requires OnLine(s, line, fs, crc) && QueuesOk(l) && l.rxseqTxack == s.link.rxseqTxack
    ensures OnLine(s.(link := l), line, fs, crc)
  {
    hide Encode, OnWire, Reading, QueuesOk;
    OnLineValid(s, line, fs, crc);
    SameNumber(s, l);
    if line.begun != [] && Reading(s, fs[0], crc, line.begun) {
      ReadingSwap(s, l, fs[0], crc, line.begun);
    }
  }

  lemma OnLineSend(s: State, line: Line, fs: seq<Frame>, bytes: seq<seq<byte>>, more: seq<Frame>, crc: bool)
    requires OnLine(s, line, fs, crc) && OnWire(bytes, more, crc)
    ensures OnLine(s, Send(line, bytes), fs + more, crc)
  {
    hide OnWire, Reading, Skipping, AtRest;
    if line.begun == [] {
      OnWireAppend(line.waiting, fs, bytes, more, crc);
    } else {
      OnWireAppend(line.waiting, fs[1..], bytes, more, crc);
      assert (fs + more)[1..] == fs[1..] + more;
    }
  }

  lemma OnWireAppend(x: seq<seq<byte>>, f: seq<Frame>, y: seq<seq<byte>>, g: seq<Frame>, crc: bool)
    requires OnWire(x, f, crc) && OnWire(y, g, crc)
    ensures OnWire(x + y, f + g, crc)
  {
  }

  lemma OnWireDrop(x: seq<seq<byte>>, f: seq<Frame>, i: nat, crc: bool)
    requires OnWire(x, f, crc) && i < |x|
    ensures OnWire(Drop(x, i), Drop(f, i), crc)
  {
  }

  lemma SubmitSafe(s: System, w: Witness, p: Packet)
    requires Inv(s, w)
    ensures Inv(Act(s, Submit(p)), w)
  {
    hide Half, OnLine;
    QueuesOkIn(s, w);
    EnqueueOk(s.a.link, p);
    EnqueueSafe(s.a.link, p, s.b.link.rxseqTxack, s.b.link.upRel, w.fab, w.fba, w.tab);
    OnLineSwap(s.a, Enqueue(s.a.link, p), s.ba, w.fba, s.b.link.useCrc);
  }

  lemma QueuesOkIn(s: System, w: Witness)
    requires Inv(s, w)
    ensures QueuesOk(s.a.link) && QueuesOk(s.b.link) && Valid(s.a) && Valid(s.b)
  {
    hide OnLine, Safe, SenderOk;
    OnLineValid(s.a, s.ba, w.fba, s.b.link.useCrc);
    OnLineValid(s.b, s.ab, w.fab, s.a.link.useCrc);
  }

  lemma EnqueueOk(l: Link, p: Packet)
    requires QueuesOk(l)
    ensures QueuesOk(Enqueue(l, p))
  {
  }

  lemma EnqueueSafe(l: Link, p: Packet, rxSeq: nat, got: seq<Packet>, data: seq<Frame>, acks: seq<Frame>, t: Track)
    requires Half(l, rxSeq, got, data, acks, t)
    ensures Half(Enqueue(l, p), rxSeq, got, data, acks, t)
  {
    hide DataInFlight, AcksInFlight;
    var l' := Enqueue(l, p);
    EnqueueOk(l, p);
    if l'.enqueued != l.enqueued {
      Enqueued(TXWINSIZE, CountersOf(l, rxSeq), data, acks, t, BodyOf(p));
      hide Safe, QueuesOk;
      assert CountersOf(l', rxSeq).queued == Bodies(l.enqueued) + [BodyOf(p)];
      assert l'.enqueued[t.base..] == l.enqueued[t.base..] + [p];
      assert l'.unack + l'.rel == l.unack + l.rel + [p];
    } else {
      HalfIgnoresWritten(l, l', rxSeq, got, data, acks, t);
    }
  }

  lemma TransmitSafe(s: System, w: Witness, room: seq<Alloc>) returns (w': Witness)
    requires Inv(s, w)
    ensures Inv(Act(s, Transmit(room)), w')
    ensures w'.fba == w.fba
    ensures var l := Ready(s.a.link, []); QueuesOk(l) && w'.fab == w.fab + Sent(l, room)
  {
    hide Half, OnLine, Wakeup, Sent;
    QueuesOkIn(s, w);
    var l := Ready(s.a.link, []);
    HalfIgnoresWritten(s.a.link, l, s.b.link.rxseqTxack, s.b.link.upRel, w.fab, w.fba, w.tab);
    var t, u := WakeupSafe(l, s.b.link, room, s.b.link.rxseqTxack, s.b.link.upRel, l.upRel,
                           w.fab, w.fba, w.fba, w.tab, w.tba);
    WakeupKeeps(l, room);
    WakeupWrites(l, room);
    var r := Wakeup(l, room);
    assert r.written[0..] == r.written;
    OnLineSend(s.b, s.ab, w.fab, r.written, Sent(l, room), l.useCrc);
    OnLineSwap(s.a, r, s.ba, w.fba, s.b.link.useCrc);
    w' := Witness(w.fab + Sent(l, room), w.fba, t, u);
  }

  lemma OnLineDrop(s: State, line: Line, fs: seq<Frame>, i: nat, crc: bool)
    requires OnLine(s, line, fs, crc) && i < |line.waiting|
    ensures var j := if line.begun == [] then i else i + 1;
            j < |fs| && OnLine(s, line.(waiting := Drop(line.waiting, i)), Drop(fs, j), crc)
  {
    hide AtRest, Encode, Reading, Skipping;
    var j := if line.begun == [] then i else i + 1;
    OnWireDrop(line.waiting, if j == i then fs else fs[1..], i, crc);
    assert j == i + 1 ==> Drop(fs, j)[1..] == Drop(fs[1..], i);
  }

  lemma VanishSafe(s: System, w: Witness, i: nat) returns (w': Witness)
    requires Inv(s, w) && i < |s.ab.waiting|
    ensures Inv(Act(s, Vanish(i)), w')
    ensures w'.fba == w.fba && (forall f :: f in w'.fab ==> f in w.fab)
    ensures exists j :: 0 <= j < |w.fab| && w'.fab == Drop(w.fab, j)
  {
    hide Half, OnLine;
    var j := if s.ab.begun == [] then i else i + 1;
    OnLineDrop(s.b, s.ab, w.fab, i, s.a.link.useCrc);
    var t := FrameGone(s.a.link, s.b.link.rxseqTxack, s.b.link.upRel, w.fab, w.fba, w.tab, j, true);
    var u := FrameGone(s.b.link, s.a.link.rxseqTxack, s.a.link.upRel, w.fba, w.fab, w.tba, j, false);
    w' := Witness(Drop(w.fab, j), w.fba, t, u);
  }

  lemma TimeoutSafe(s: System, w: Witness)
    requires Inv(s, w)
    ensures Inv(Act(s, Timeout), w)
  {
    hide Half, OnLine;
    QueuesOkIn(s, w);
    TimedOutSafe(s.a.link, s.b.link.rxseqTxack, s.b.link.upRel, w.fab, w.fba, w.tab);
    OnLineSwap(s.a, TimedOut(s.a.link), s.ba, w.fba, s.b.link.useCrc);
  }

  lemma TimedOutOk(l: Link)
    requires QueuesOk(l)
    ensures QueuesOk(TimedOut(l))
  {
  }

  lemma TimedOutSafe(l: Link, rxSeq: nat, got: seq<Packet>, data: seq<Frame>, acks: seq<Frame>, t: Track)
    requires Half(l, rxSeq, got, data, acks, t)
    ensures Half(TimedOut(l), rxSeq, got, data, acks, t) && QueuesOk(TimedOut(l))
  {
    hide Safe, DataInFlight, AcksInFlight;
    Rewound(TXWINSIZE, CountersOf(l, rxSeq), data, acks, t);
    TimedOutOk(l);
    assert CountersOf(TimedOut(l), rxSeq) == CountersOf(l, rxSeq).(unacked := 0, txSeq := TimedOut(l).msgqTxseq);
    assert [] + (l.unack + l.rel) == l.unack + l.rel;
  }

  /** Both directions between a driver and its peer. */
  ghost predicate Between(l: Link, peer: Link, out: seq<Frame>, inn: seq<Frame>, t: Track, u: Track) {
    && Half(l, peer.rxseqTxack, peer.upRel, out, inn, t)
    && Half(peer, l.rxseqTxack, l.upRel, inn, out, u)
  }

  /** A frame that is heard or not. */
  lemma OneFate(l: Link, peer: Link, out: seq<Frame>, inn: seq<Frame>, t: Track, u: Track, heard: bool)
    returns (sent: seq<Frame>, t': Track, u': Track)
    requires QueuesOk(l) && Between(l, peer, out, inn, t, u) && inn != [] && Encodable(inn[0])
    ensures var r := if heard then Received(l, inn[0]) else l;
            Between(r, peer, out + sent, inn[1..], t', u') && Wrote(l, r, sent)
    ensures sent == if heard then SentOn(l, inn[0]) else []
  {
    hide Half, Complete, Sent;
    if heard && !(inn[0].reliable && inn[0].seqno != l.rxseqTxack) {
      sent, t', u' := CompleteSafe(l, peer, peer.rxseqTxack, peer.upRel, out, inn, t, u);
    } else {
      assert Drop(inn, 0) == inn[1..] && out + [] == out;
      sent := [];
      t' := FrameGone(l, peer.rxseqTxack, peer.upRel, out, inn, t, 0, false);
      u' := FrameGone(peer, l.rxseqTxack, l.upRel, inn, out, u, 0, true);
    }
  }

  /** The frames that a driver sends during a call in which these frames meet their fates. */
  function FatesSent(l: Link, fs: seq<Frame>, fate: seq<bool>): seq<Frame>
    requires QueuesOk(l) && |fate| <= |fs| && forall f :: f in fs ==> Encodable(f)
    decreases |fate|
  {
    if fate == [] then []
    else
      assert Encodable(fs[0]) by {
        assert fs[0] in fs;
      }
      ReceivedOk(l, fs[0]);
      (if fate[0] then SentOn(l, fs[0]) else [])
      + FatesSent(if fate[0] then Received(l, fs[0]) else l, fs[1..], fate[1..])
  }

  lemma {:induction false} FatesSafe(l: Link, peer: Link, out: seq<Frame>, inn: seq<Frame>, t: Track, u: Track,
      fate: seq<bool>)
    returns (sent: seq<Frame>, t': Track, u': Track)
    requires QueuesOk(l) && Between(l, peer, out, inn, t, u) && |fate| <= |inn| && forall f :: f in inn ==> Encodable(f)
    ensures var r := Fates(l, inn[..|fate|], fate);
            Between(r, peer, out + sent, inn[|fate|..], t', u') && Wrote(l, r, sent)
    ensures sent == FatesSent(l, inn, fate)
    decreases |fate|
  {
    hide Between, Received, QueuesOk, SentOn, Wrote, Encodable;
    if fate == [] {
      sent, t', u' := [], t, u;
      WroteNothing(l);
      assert out + [] == out && inn[0..] == inn;
    } else {
      assert inn[0] in inn;
      var s1, t1, u1 := OneFate(l, peer, out, inn, t, u, fate[0]);
      FatesFirst(l, inn, fate[0], fate[1..]);
      assert [fate[0]] + fate[1..] == fate;
      var l1 := if fate[0] then Received(l, inn[0]) else l;
      var s2;
      s2, t', u' := FatesSafe(l1, peer, out + s1, inn[1..], t1, u1, fate[1..]);
      sent := s1 + s2;
      assert out + sent == (out + s1) + s2;
      WroteThen(l, l1, Fates(l, inn[..|fate|], fate), s1, s2);
    }
  }

  lemma ArriveSafe(s: System, w: Witness, n: nat, grants: nat, room: seq<Alloc>)
    returns (w': Witness, fate: seq<bool>)
    requires Inv(s, w)
    ensures Inv(Act(s, Arrive(n, grants, room)), w')
    ensures w.fab <= w'.fab && |w'.fab| == |w.fab| + |Act(s, Arrive(n, grants, room)).a.link.written|
    ensures |w'.fba| <= |w.fba| && forall f :: f in w'.fba ==> f in w.fba
    ensures var l := Ready(s.a.link, room);
            && QueuesOk(l) && |fate| <= |w.fba| && (forall f :: f in w.fba ==> Encodable(f))
            && Act(s, Arrive(n, grants, room)).a.link == Fates(l, w.fba[..|fate|], fate)
            && w'.fab == w.fab + FatesSent(l, w.fba, fate) && w'.fba == w.fba[|fate|..]
  {
    hide Half, OnLine, Recv, OnWire, FatesSent;
    QueuesOkIn(s, w);
    ReadyOk(s.a, room);
    var l := Ready(s.a.link, room);
    HalfIgnoresWritten(s.a.link, l, s.b.link.rxseqTxack, s.b.link.upRel, w.fab, w.fba, w.tab);
    OnLineSwap(s.a, l, s.ba, w.fba, s.b.link.useCrc);
    var a := s.a.(link := l);
    fate := CallHears(a, s.ba, w.fba, s.b.link.useCrc, n, grants);
    var sent, t, u := FatesSafe(l, s.b.link, w.fab, w.fba, w.tab, w.tba, fate);
    var r := Recv(a, Taken(s.ba, n), grants);
    assert r.link.written[0..] == r.link.written;
    WroteAsMany(l, r.link, sent);
    OnLineSend(s.b, s.ab, w.fab, r.link.written, sent, l.useCrc);
    w' := Witness(w.fab + sent, w.fba[|fate|..], t, u);
  }

  lemma ActSafe(s: System, w: Witness, action: Action) returns (w': Witness)
    requires Inv(s, w)
    ensures Inv(Act(s, action), w')
  {
    hide Inv;
    w' := w;
    match action
    case Submit(p) => SubmitSafe(s, w, p);
    case Transmit(room) => w' := TransmitSafe(s, w, room);
    case Arrive(n, grants, room) =>
      var fate;
      w', fate := ArriveSafe(s, w, n, grants, room);
    case Vanish(i) =>
      if i < |s.ab.waiting| {
        w' := VanishSafe(s, w, i);
      }
    case Timeout => TimeoutSafe(s, w);
  }

  lemma {:induction false} RunSafe(s: System, w: Witness, ops: seq<Op>) returns (w': Witness)
    requires Inv(s, w)
    ensures Inv(Run(s, ops), w')
    decreases |ops|
  {
    hide Inv, Act;
    QueuesOkIn(s, w);
    if ops == [] {
      w' := w;
    } else {
      var w1;
      ActValid(if ops[0].atB then Swap(s) else s, ops[0].action);
      if ops[0].atB {
        InvSwap(s, w);
        w1 := ActSafe(Swap(s), SwapWitness(w), ops[0].action);
        InvSwap(Act(Swap(s), ops[0].action), w1);
        w1 := SwapWitness(w1);
      } else {
        w1 := ActSafe(s, w, ops[0].action);
      }
      w' := RunSafe(Step(s, ops[0]), w1, ops[1..]);
    }
  }

  // ---- Main results ----

  function UpAll(ps: seq<Packet>): (us: seq<Packet>)
    ensures |us| == |ps|
    ensures forall i :: 0 <= i < |ps| ==> us[i] == Up(ps[i])
  {
    seq(|ps|, i requires 0 <= i < |ps| => Up(ps[i]))
  }

  lemma EmptyHalf(l: Link)
    requires l.unack == l.rel == l.unrel == l.enqueued == []
    requires l.msgqTxseq == l.rxseqTxack == l.rxack == 0
    ensures Half(l, 0, [], [], [], START)
  {
  }

  lemma InitialInv(crcA: bool, crcB: bool)
    ensures Inv(Opened(crcA, crcB), Witness([], [], START, START))
  {
    hide Half;
    var s := Opened(crcA, crcB);
    EmptyHalf(s.a.link);
    EmptyHalf(s.b.link);
  }

  /** What the invariant says about packets, without the line and the numbers. */
  lemma InvDelivers(s: System, w: Witness)
    requires Inv(s, w)
    ensures s.b.link.upRel <= UpAll(s.a.link.enqueued)
    ensures s.a.link.upRel <= UpAll(s.b.link.enqueued)
    ensures FreedWereHandedUp(s.a.link, s.b.link) && FreedWereHandedUp(s.b.link, s.a.link)
  {
    hide DataInFlight, AcksInFlight;
  }

  /** Reliable delivery. After any run, the packets handed up at one end are a prefix of those submitted at the
      other: nothing lost, repeated or reordered, in both directions at once. */
  lemma ReliableDelivery(crcA: bool, crcB: bool, ops: seq<Op>)
    ensures var s := Run(Opened(crcA, crcB), ops);
            && s.b.link.upRel <= UpAll(s.a.link.enqueued)
            && s.a.link.upRel <= UpAll(s.b.link.enqueued)
  {
    hide Inv, Run;
    InitialInv(crcA, crcB);
    var w := RunSafe(Opened(crcA, crcB), Witness([], [], START, START), ops);
    InvDelivers(Run(Opened(crcA, crcB), ops), w);
  }

  /** The packets that `l` has freed, those submitted and neither unacknowledged nor waiting, were all handed up by the
      peer `r`. */
  ghost predicate FreedWereHandedUp(l: Link, r: Link) {
    var freed := |l.enqueued| - |l.unack| - |l.rel|;
    && 0 <= freed <= |r.upRel|
    && l.enqueued[freed..] == l.unack + l.rel
    && l.msgqTxseq == (freed + |l.unack|) % 8
    && |l.unack| <= TXWINSIZE
  }

  /** No packet is freed before the peer has handed it up, at either end. */
  lemma CulledWasDelivered(crcA: bool, crcB: bool, ops: seq<Op>)
    ensures var s := Run(Opened(crcA, crcB), ops);
            FreedWereHandedUp(s.a.link, s.b.link) && FreedWereHandedUp(s.b.link, s.a.link)
  {
    hide Inv, Run;
    InitialInv(crcA, crcB);
    var w := RunSafe(Opened(crcA, crcB), Witness([], [], START, START), ops);
    InvDelivers(Run(Opened(crcA, crcB), ops), w);
  }
}
