/** Two Three-wire drivers joined by lines that keep the order of frames and may lose any of them: what every operation
    keeps, from the first synchronisation on. */
module H5Link {
  import opened Octets
  import opened GoBackN
  import opened H5
  import H5Stream

  const WINDOW := 7

  datatype System = System(a: Link, b: Link, ab: seq<Frame>, ba: seq<Frame>)

  /** What can happen at one end. A frame that arrives is heard unless there is no memory to receive it; `Vanish`
      loses a frame that this end has sent. */
  datatype Action =
    | Submit(p: Packet)
    | Transmit(room: seq<Alloc>)
    | Arrive(heard: bool, room: seq<Alloc>)
    | Vanish(i: nat)
    | Timeout

  datatype Op = Op(atB: bool, action: Action)

  function Swap(s: System): System {
    System(s.b, s.a, s.ba, s.ab)
  }

  function Ready(l: Link, room: seq<Alloc>): Link {
    l.(room := room, written := [])
  }

  /** An operation at end A. */
  function Act(s: System, action: Action): (r: System)
    requires QueuesOk(s.a)
    ensures r.b == s.b
  {
    match action
    case Submit(p) => s.(a := Enqueue(s.a, p))
    case Transmit(room) =>
      var l := Wakeup(Ready(s.a, []), room);
      s.(a := l, ab := s.ab + l.written)
    case Arrive(heard, room) =>
      if s.ba == [] then s
      else
        var l := if heard then Received(Ready(s.a, room), s.ba[0]) else Ready(s.a, room);
        s.(a := l, ab := s.ab + l.written, ba := s.ba[1..])
    case Vanish(i) => if i < |s.ab| then s.(ab := Drop(s.ab, i)) else s
    case Timeout => s.(a := TimedOut(s.a))
  }

  function Step(s: System, op: Op): System
    requires QueuesOk(s.a) && QueuesOk(s.b)
  {
    if op.atB then Swap(Act(Swap(s), op.action)) else Act(s, op.action)
  }

  // ---- The invariant ----

  /** Frames that h5_prepare_pkt builds: what is sent reliably depends on the packet type alone. */
  ghost predicate FramesOk(fs: seq<Frame>) {
    forall f :: f in fs ==> H5Stream.Encodable(f) && f.reliable == Reliable(f.body.tag)
  }

  /** What the drivers need to go on: it holds whatever happens. */
  ghost predicate Ok(s: System) {
    QueuesOk(s.a) && QueuesOk(s.b) && FramesOk(s.ab) && FramesOk(s.ba)
  }

  lemma FramesEncoded(s: System)
    requires Ok(s)
    ensures H5Stream.Encoded(s.ab) && H5Stream.Encoded(s.ba)
    ensures (forall f :: f in s.ab ==> f.ack < 8) && (forall f :: f in s.ba ==> f.ack < 8)
  {
  }

  /** The ACL packets among others. */
  function Acl(ps: seq<Packet>): seq<Packet> {
    if ps == [] then []
    else Acl(ps[..|ps| - 1]) + if ps[|ps| - 1].kind == HCI_ACLDATA_PKT then [ps[|ps| - 1]] else []
  }

  lemma AclOne(ps: seq<Packet>, p: Packet)
    ensures Acl(ps + [p]) == Acl(ps) + if p.kind == HCI_ACLDATA_PKT then [p] else []
  {
    assert (ps + [p])[..|ps|] == ps;
  }

  lemma {:induction false} AclPrefix(a: seq<Packet>, b: seq<Packet>)
    requires a <= b
    ensures Acl(a) <= Acl(b)
    decreases |b|
  {
    if a != b {
      AclPrefix(a, b[..|b| - 1]);
    }
  }

  /** Of the reliable packets accepted, the ACL packets are those handed to the HCI layer. */
  ghost predicate AclUp(l: Link) {
    Acl(l.up) == Acl(l.taken)
  }

  function Bodies(ps: seq<Packet>): (bs: seq<Body>)
    ensures |bs| == |ps|
    ensures forall i :: 0 <= i < |ps| ==> bs[i] == Body(ps[i].kind, ps[i].data)
  {
    seq(|ps|, i requires 0 <= i < |ps| => Body(ps[i].kind, ps[i].data))
  }

  function CountersOf(l: Link, rxSeq: nat): Counters {
    Counters(Bodies(l.enqueued), |l.unack|, l.txSeq, rxSeq)
  }

  ghost predicate SenderOk(l: Link, base: nat) {
    && base + |l.unack| + |l.rel| == |l.enqueued|
    && l.enqueued[base..] == l.unack + l.rel
    && |l.unack| <= WINDOW
  }

  /** One direction: the sender `l`, the peer's next expected number and the packets it has accepted. */
  ghost predicate Half(l: Link, rxSeq: nat, got: seq<Packet>, data: seq<Frame>, acks: seq<Frame>, t: Track) {
    && SenderOk(l, t.base)
    && Safe(WINDOW, CountersOf(l, rxSeq), data, acks, t)
    && |got| == t.accepted
    && got <= l.enqueued
  }

  datatype Witness = Witness(tab: Track, tba: Track)

  ghost predicate Inv(s: System, w: Witness) {
    && Ok(s) && AclUp(s.a) && AclUp(s.b)
    && Half(s.a, s.b.txAck, s.b.taken, s.ab, s.ba, w.tab)
    && Half(s.b, s.a.txAck, s.a.taken, s.ba, s.ab, w.tba)
  }

  lemma HalfIgnores(l: Link, m: Link, rxSeq: nat, got: seq<Packet>, data: seq<Frame>, acks: seq<Frame>, t: Track)
    requires Half(l, rxSeq, got, data, acks, t)
    requires m.unack == l.unack && m.rel == l.rel && m.enqueued == l.enqueued && m.txSeq == l.txSeq
    ensures Half(m, rxSeq, got, data, acks, t)
  {
  }

  // ---- Sending ----

  lemma SendOne(l: Link, a: Alloc, rxSeq: nat, got: seq<Packet>, data: seq<Frame>, acks: seq<Frame>, t: Track)
    returns (t': Track)
    requires QueuesOk(l) && Half(l, rxSeq, got, data, acks, t) && Choose(l, a) != SendNothing
    ensures QueuesOk(AfterOne(l, a))
    ensures Half(AfterOne(l, a), rxSeq, got, data + [FrameFor(l, Chosen(l, a))], acks, t')
  {
    hide DataInFlight, AcksInFlight;
    var f := FrameFor(l, Chosen(l, a));
    var c := CountersOf(l, rxSeq);
    if Choose(l, a) == SendRel {
      assert l.rel[0] in l.rel;
      assert l.enqueued[t.base + |l.unack|] == l.enqueued[t.base..][|l.unack|] == l.rel[0];
      t' := SentReliable(WINDOW, c, data, acks, t, f);
      hide Safe;
      assert l.unack + l.rel == (l.unack + [l.rel[0]]) + l.rel[1..];
    } else {
      if Choose(l, a) == SendUnrel {
        assert l.unrel[0] in l.unrel;
      }
      t' := SentUnreliable(WINDOW, c, data, acks, t, f);
    }
    assert CountersOf(AfterOne(l, a), rxSeq).queued == c.queued;
  }

  /** The frames that waking the transmitter sends. */
  function Sent(l: Link, room: seq<Alloc>): seq<Frame>
    requires QueuesOk(l)
    decreases |room|
  {
    if room == [] || Choose(l, room[0]) == SendNothing then []
    else [FrameFor(l, Chosen(l, room[0]))] + Sent(AfterOne(l, room[0]), room[1..])
  }

  lemma OutgoingOk(l: Link, a: Alloc)
    requires QueuesOk(l) && Choose(l, a) != SendNothing
    ensures QueuesOk(AfterOne(l, a)) && FramesOk([FrameFor(l, Chosen(l, a))])
  {
    if Choose(l, a) == SendUnrel {
      assert l.unrel[0] in l.unrel;
    } else if Choose(l, a) == SendRel {
      assert l.rel[0] in l.rel;
    }
  }

  lemma FramesOkAppend(x: seq<Frame>, y: seq<Frame>)
    requires FramesOk(x) && FramesOk(y)
    ensures FramesOk(x + y)
  {
  }

  lemma NoFrames()
    ensures FramesOk([])
  {
  }

  lemma {:induction false} WakeupWrites(l: Link, room: seq<Alloc>)
    requires QueuesOk(l)
    ensures Wakeup(l, room).written == l.written + Sent(l, room) && FramesOk(Sent(l, room))
    decreases |room|
  {
    hide QueuesOk, FramesOk;
    if room == [] || Choose(l, room[0]) == SendNothing {
      NoFrames();
    } else {
      var next := AfterOne(l, room[0]);
      OutgoingOk(l, room[0]);
      WakeupWrites(next, room[1..]);
      FramesOkAppend([FrameFor(l, Chosen(l, room[0]))], Sent(next, room[1..]));
      assert next.written + Sent(next, room[1..]) == l.written + Sent(l, room);
    }
  }

  lemma {:induction false} WakeupKeeps(l: Link, room: seq<Alloc>)
    requires QueuesOk(l)
    ensures var r := Wakeup(l, room);
            r.txAck == l.txAck && r.taken == l.taken && r.up == l.up && r.enqueued == l.enqueued && QueuesOk(r)
    decreases |room|
  {
    if room != [] && Choose(l, room[0]) != SendNothing {
      OutgoingOk(l, room[0]);
      hide QueuesOk;
      WakeupKeeps(AfterOne(l, room[0]), room[1..]);
    }
  }

  lemma SendOneAck(peer: Link, rxSeq: nat, got: seq<Packet>, data: seq<Frame>, acks: seq<Frame>, t: Track, f: Frame)
    returns (t': Track)
    requires Half(peer, rxSeq, got, data, acks, t) && f.ack == rxSeq
    ensures Half(peer, rxSeq, got, data, acks + [f], t')
  {
    t' := SentAck(WINDOW, CountersOf(peer, rxSeq), data, acks, t, f);
  }

  lemma {:induction false} WakeupSafe(l: Link, peer: Link, room: seq<Alloc>,
      rxPeer: nat, gotPeer: seq<Packet>, gotHere: seq<Packet>,
      out: seq<Frame>, acksIn: seq<Frame>, dataIn: seq<Frame>, t: Track, u: Track)
    returns (t': Track, u': Track)
    requires QueuesOk(l) && Half(l, rxPeer, gotPeer, out, acksIn, t)
    requires Half(peer, l.txAck, gotHere, dataIn, out, u)
    ensures Half(Wakeup(l, room), rxPeer, gotPeer, out + Sent(l, room), acksIn, t')
    ensures Half(peer, l.txAck, gotHere, dataIn, out + Sent(l, room), u')
    decreases |room|
  {
    hide Half, QueuesOk;
    if room == [] || Choose(l, room[0]) == SendNothing {
      assert out + [] == out;
      t', u' := t, u;
      HalfIgnores(l, Wakeup(l, room), rxPeer, gotPeer, out, acksIn, t);
    } else {
      var f := FrameFor(l, Chosen(l, room[0]));
      var next := AfterOne(l, room[0]);
      var t1 := SendOne(l, room[0], rxPeer, gotPeer, out, acksIn, t);
      var u1 := SendOneAck(peer, l.txAck, gotHere, dataIn, out, u, f);
      t', u' := WakeupSafe(next, peer, room[1..], rxPeer, gotPeer, gotHere, out + [f], acksIn, dataIn, t1, u1);
      assert out + Sent(l, room) == (out + [f]) + Sent(next, room[1..]);
    }
  }

  // ---- Receiving ----

  lemma FrameGone(l: Link, rxSeq: nat, got: seq<Packet>, data: seq<Frame>, acks: seq<Frame>, t: Track,
      i: nat, inData: bool)
    returns (t': Track)
    requires Half(l, rxSeq, got, data, acks, t)
    requires i < if inData then |data| else |acks|
    ensures Half(l, rxSeq, got, if inData then Drop(data, i) else data, if inData then acks else Drop(acks, i), t')
  {
    if inData {
      t' := LostData(WINDOW, CountersOf(l, rxSeq), data, acks, t, i);
    } else {
      t' := LostAck(WINDOW, CountersOf(l, rxSeq), data, acks, t, i);
    }
  }

  lemma AcceptOne(peer: Link, rxSeq: nat, got: seq<Packet>, data: seq<Frame>, acks: seq<Frame>, t: Track)
    returns (t': Track)
    requires Half(peer, rxSeq, got, data, acks, t) && data != []
    requires data[0].reliable && data[0].seqno == rxSeq
    ensures Half(peer, (rxSeq + 1) % 8, got + [Packet(data[0].body.tag, data[0].body.data)], data[1..], acks, t')
  {
    var c := CountersOf(peer, rxSeq);
    t' := Accepted(WINDOW, c, data, acks, t);
    hide Safe;
    var p := peer.enqueued[t.accepted];
    assert data[0].body == Body(p.kind, p.data);
    assert CountersOf(peer, (rxSeq + 1) % 8) == c.(rxSeq := (rxSeq + 1) % 8);
  }

  /** H5's cull, with its 0-to-255 step, still frees only packets that the peer has accepted. */
  lemma CullOne(l: Link, rxPeer: nat, got: seq<Packet>, data: seq<Frame>, acks: seq<Frame>, t: Track)
    returns (t': Track)
    requires Half(l, rxPeer, got, data, acks, t) && acks != [] && l.rxAck == acks[0].ack < 8
    ensures Half(Cull(l), rxPeer, got, data, acks[1..], t')
    ensures t.base <= t'.base <= |got|
  {
    hide Safe, CullCountU8;
    var m := CullCountU8(|l.unack|, l.txSeq, l.rxAck);
    t' := CullCounters(CountersOf(l, rxPeer), data, acks, t, m);
    assert l.enqueued[t'.base..] == l.enqueued[t.base..][m..];
    assert CountersOf(Cull(l), rxPeer) == CountersOf(l, rxPeer).(unacked := |l.unack| - m);
  }

  lemma CullCounters(c: Counters, data: seq<Frame>, acks: seq<Frame>, t: Track, m: nat) returns (t': Track)
    requires Safe(WINDOW, c, data, acks, t) && acks != [] && acks[0].ack < 8
    requires m == CullCountU8(c.unacked, c.txSeq, acks[0].ack)
    ensures Safe(WINDOW, c.(unacked := c.unacked - m), data, acks[1..], t')
    ensures t'.base == t.base + m <= t.accepted == t'.accepted
  {
    hide DataInFlight, AcksInFlight, CullCountU8, CullCount;
    CullCountU8Exact(c.unacked, c.txSeq, acks[0].ack);
    if m != 0 {
      CullCountSound(t.base + c.unacked, c.unacked, acks[0].ack);
    }
    t' := Culled(WINDOW, c, data, acks, t, m);
  }

  lemma AcceptSafe(l: Link, peer: Link, rxPeer: nat, gotPeer: seq<Packet>,
      out: seq<Frame>, inn: seq<Frame>, t: Track, u: Track)
    returns (sent: seq<Frame>, t': Track, u': Track)
    requires QueuesOk(l) && Half(l, rxPeer, gotPeer, out, inn, t)
    requires Half(peer, l.txAck, l.taken, inn, out, u)
    requires inn != [] && inn[0].reliable && inn[0].seqno == l.txAck
    ensures var r := Accept(l, inn[0]);
            && Half(r, rxPeer, gotPeer, out + sent, inn, t')
            && Half(peer, r.txAck, r.taken, inn[1..], out + sent, u')
            && r.written == l.written + sent && FramesOk(sent) && QueuesOk(r)
            && r.up == l.up && r.taken == l.taken + [Packet(inn[0].body.tag, inn[0].body.data)]
  {
    hide Half;
    var f := inn[0];
    var u1 := AcceptOne(peer, l.txAck, l.taken, inn, out, u);
    var l1 := l.(txAck := (l.txAck + 1) % 8, txAckReq := true, room := [],
                 taken := l.taken + [Packet(f.body.tag, f.body.data)]);
    HalfIgnores(l, l1, rxPeer, gotPeer, out, inn, t);
    sent := Sent(l1, l.room);
    t', u' := WakeupSafe(l1, peer, l.room, rxPeer, gotPeer, l1.taken, out, inn, inn[1..], t, u1);
    WakeupWrites(l1, l.room);
    WakeupKeeps(l1, l.room);
  }

  lemma DeliverKeeps(l: Link, f: Frame, len: nat)
    requires QueuesOk(l) && len <= |f.body.data|
    ensures QueuesOk(Deliver(l, f, len))
    ensures var r := Deliver(l, f, len);
            r.unack == l.unack && r.rel == l.rel && r.enqueued == l.enqueued && r.txSeq == l.txSeq
            && r.txAck == l.txAck && r.taken == l.taken && r.written == l.written
            && r.up == if HandsUp(f.body.tag) then l.up + [Packet(f.body.tag, f.body.data)] else l.up
  {
    DeliverOk(l, f, len);
  }

  lemma RxAckOk(l: Link, a: nat)
    requires QueuesOk(l) && a < 8
    ensures QueuesOk(l.(rxAck := a))
  {
  }

  lemma CompleteSafe(l: Link, peer: Link, rxPeer: nat, gotPeer: seq<Packet>,
      out: seq<Frame>, inn: seq<Frame>, t: Track, u: Track)
    returns (sent: seq<Frame>, t': Track, u': Track)
    requires QueuesOk(l) && Half(l, rxPeer, gotPeer, out, inn, t)
    requires Half(peer, l.txAck, l.taken, inn, out, u)
    requires inn != [] && inn[0].ack < 8
    requires inn[0].reliable ==> inn[0].seqno == l.txAck
    requires AclUp(l) && (inn[0].body.tag == HCI_ACLDATA_PKT ==> inn[0].reliable)
    ensures var r := Complete(l, inn[0], |inn[0].body.data|);
            && Half(r, rxPeer, gotPeer, out + sent, inn[1..], t')
            && Half(peer, r.txAck, r.taken, inn[1..], out + sent, u')
            && r.written == l.written + sent && FramesOk(sent) && QueuesOk(r) && AclUp(r)
  {
    hide Half, QueuesOk, FramesOk, Acl;
    var f := inn[0];
    AclOne(l.taken, Packet(f.body.tag, f.body.data));
    AclOne(l.up, Packet(f.body.tag, f.body.data));
    NoFrames();
    var t1;
    if f.reliable {
      sent, t1, u' := AcceptSafe(l, peer, rxPeer, gotPeer, out, inn, t, u);
    } else {
      sent, t1 := [], t;
      assert out + sent == out;
      assert Drop(inn, 0) == inn[1..];
      u' := FrameGone(peer, l.txAck, l.taken, inn, out, u, 0, true);
    }
    hide Accept, Deliver;
    var l2 := Accept(l, f).(rxAck := f.ack);
    RxAckOk(Accept(l, f), f.ack);
    HalfIgnores(Accept(l, f), l2, rxPeer, gotPeer, out + sent, inn, t1);
    t' := CullOne(l2, rxPeer, gotPeer, out + sent, inn, t1);
    CullOk(l2);
    DeliverKeeps(Cull(l2), f, |f.body.data|);
    HalfIgnores(Cull(l2), Complete(l, f, |f.body.data|), rxPeer, gotPeer, out + sent, inn[1..], t');
  }

  // ---- Every operation keeps the invariant ----

  lemma EnqueueSafe(l: Link, p: Packet, rxSeq: nat, got: seq<Packet>, data: seq<Frame>, acks: seq<Frame>, t: Track)
    requires QueuesOk(l) && Half(l, rxSeq, got, data, acks, t)
    ensures QueuesOk(Enqueue(l, p)) && Half(Enqueue(l, p), rxSeq, got, data, acks, t)
  {
    hide DataInFlight, AcksInFlight;
    var l' := Enqueue(l, p);
    if l'.enqueued != l.enqueued {
      Enqueued(WINDOW, CountersOf(l, rxSeq), data, acks, t, Body(p.kind, p.data));
      hide Safe;
      assert CountersOf(l', rxSeq).queued == Bodies(l.enqueued) + [Body(p.kind, p.data)];
      assert l'.enqueued[t.base..] == l.enqueued[t.base..] + [p];
      assert l'.unack + l'.rel == l.unack + l.rel + [p];
    }
  }

  lemma TimeoutSafe(l: Link, rxSeq: nat, got: seq<Packet>, data: seq<Frame>, acks: seq<Frame>, t: Track)
    requires QueuesOk(l) && Half(l, rxSeq, got, data, acks, t)
    ensures QueuesOk(TimedOut(l)) && Half(TimedOut(l), rxSeq, got, data, acks, t)
  {
    Rewound(WINDOW, CountersOf(l, rxSeq), data, acks, t);
    hide Safe;
    var l' := TimedOut(l);
    if l.state == Active && l.sleep == Awake {
      assert CountersOf(l', rxSeq) == CountersOf(l, rxSeq).(unacked := 0, txSeq := l'.txSeq);
      assert [] + (l.unack + l.rel) == l.unack + l.rel;
    } else {
      HalfIgnores(l, l', rxSeq, got, data, acks, t);
    }
  }

  lemma TransmitSafe(s: System, w: Witness, room: seq<Alloc>) returns (w': Witness)
    requires Inv(s, w)
    ensures Inv(Act(s, Transmit(room)), w')
  {
    hide Half;
    var l := Ready(s.a, []);
    HalfIgnores(s.a, l, s.b.txAck, s.b.taken, s.ab, s.ba, w.tab);
    var t, u := WakeupSafe(l, s.b, room, s.b.txAck, s.b.taken, l.taken, s.ab, s.ba, s.ba, w.tab, w.tba);
    WakeupWrites(l, room);
    WakeupKeeps(l, room);
    assert [] + Sent(l, room) == Sent(l, room);
    hide FramesOk;
    FramesOkAppend(s.ab, Sent(l, room));
    w' := Witness(t, u);
  }

  lemma ArriveSafe(s: System, w: Witness, heard: bool, room: seq<Alloc>) returns (w': Witness)
    requires Inv(s, w) && s.ba != []
    ensures Inv(Act(s, Arrive(heard, room)), w')
  {
    hide Half;
    var f := s.ba[0];
    assert f in s.ba;
    var l := Ready(s.a, room);
    HalfIgnores(s.a, l, s.b.txAck, s.b.taken, s.ab, s.ba, w.tab);
    assert Drop(s.ba, 0) == s.ba[1..];
    assert FramesOk(s.ba[1..]);
    assert QueuesOk(l);
    hide FramesOk, QueuesOk;
    if !heard || (f.reliable && f.seqno != l.txAck) {
      var t := FrameGone(l, s.b.txAck, s.b.taken, s.ab, s.ba, w.tab, 0, false);
      var u := FrameGone(s.b, l.txAck, l.taken, s.ba, s.ab, w.tba, 0, true);
      assert s.ab + [] == s.ab;
      w' := Witness(t, u);
    } else {
      hide Complete;
      var sent, t, u := CompleteSafe(l, s.b, s.b.txAck, s.b.taken, s.ab, s.ba, w.tab, w.tba);
      assert Complete(l, f, |f.body.data|).written == sent;
      FramesOkAppend(s.ab, sent);
      w' := Witness(t, u);
    }
  }

  lemma VanishSafe(s: System, w: Witness, i: nat) returns (w': Witness)
    requires Inv(s, w) && i < |s.ab|
    ensures Inv(Act(s, Vanish(i)), w')
  {
    hide Half, QueuesOk, AclUp;
    var t := FrameGone(s.a, s.b.txAck, s.b.taken, s.ab, s.ba, w.tab, i, true);
    var u := FrameGone(s.b, s.a.txAck, s.a.taken, s.ba, s.ab, w.tba, i, false);
    w' := Witness(t, u);
  }

  lemma ActSafe(s: System, w: Witness, action: Action) returns (w': Witness)
    requires Inv(s, w)
    ensures Inv(Act(s, action), w')
  {
    hide Inv, Enqueue, TimedOut, Wakeup, Received;
    w' := w;
    match action
    case Submit(p) => SubmitSafe(s, w, p);
    case Transmit(room) => w' := TransmitSafe(s, w, room);
    case Arrive(heard, room) =>
      if s.ba != [] {
        w' := ArriveSafe(s, w, heard, room);
      }
    case Vanish(i) =>
      if i < |s.ab| {
        w' := VanishSafe(s, w, i);
      }
    case Timeout => TimerSafe(s, w);
  }

  /** The other direction looks at no queue of this end. */
  lemma SubmitSafe(s: System, w: Witness, p: Packet)
    requires Inv(s, w)
    ensures Inv(Act(s, Submit(p)), w)
  {
    hide Half, FramesOk;
    EnqueueSafe(s.a, p, s.b.txAck, s.b.taken, s.ab, s.ba, w.tab);
  }

  lemma TimerKeeps(l: Link)
    ensures var r := TimedOut(l);
            r.txAck == l.txAck && r.taken == l.taken && r.up == l.up && r.enqueued == l.enqueued
  {
  }

  lemma TimerSafe(s: System, w: Witness)
    requires Inv(s, w)
    ensures Inv(Act(s, Timeout), w)
  {
    hide Half, FramesOk, QueuesOk, Acl;
    TimerKeeps(s.a);
    hide TimedOut;
    TimeoutSafe(s.a, s.b.txAck, s.b.taken, s.ab, s.ba, w.tab);
  }

  lemma StepSafe(s: System, w: Witness, op: Op) returns (w': Witness)
    requires Inv(s, w)
    ensures Inv(Step(s, op), w')
  {
    hide Half;
    if op.atB {
      w' := ActSafe(Swap(s), Witness(w.tba, w.tab), op.action);
      w' := Witness(w'.tba, w'.tab);
    } else {
      w' := ActSafe(s, w, op.action);
    }
  }

  // ---- Runs ----

  lemma ReceivedWrites(l: Link, f: Frame)
    requires QueuesOk(l) && f.ack < 8 && FramesOk(l.written)
    ensures QueuesOk(Received(l, f)) && FramesOk(Received(l, f).written)
  {
    hide Wakeup, FramesOk, QueuesOk, Deliver;
    CompleteOk(l, f, |f.body.data|);
    if !f.reliable || f.seqno == l.txAck {
      if f.reliable {
        var n := l.(txAck := (l.txAck + 1) % 8, txAckReq := true, room := [],
                    taken := l.taken + [Packet(f.body.tag, f.body.data)]);
        AckedOk(l, n);
        WakeupWrites(n, l.room);
        FramesOkAppend(l.written, Sent(n, l.room));
      }
      DeliverWrites(Cull(Accept(l, f).(rxAck := f.ack)), f);
    }
  }

  lemma AckedOk(l: Link, n: Link)
    requires QueuesOk(l) && n == l.(txAck := n.txAck, txAckReq := true, room := [], taken := n.taken) && n.txAck < 8
    ensures QueuesOk(n)
  {
  }

  lemma DeliverWrites(l: Link, f: Frame)
    ensures Deliver(l, f, |f.body.data|).written == l.written
  {
  }

  lemma ActOk(s: System, action: Action)
    requires Ok(s)
    ensures Ok(Act(s, action))
  {
    hide Wakeup, Received, FramesOk;
    NoFrames();
    match action
    case Submit(p) => EnqueueOk(s.a, p);
    case Transmit(room) =>
      var l := Ready(s.a, []);
      WakeupWrites(l, room);
      assert [] + Sent(l, room) == Sent(l, room);
      FramesOkAppend(s.ab, Sent(l, room));
    case Arrive(heard, room) =>
      if s.ba != [] {
        PartOk(s.ba, 0);
        var l := Ready(s.a, room);
        ReceivedWrites(l, s.ba[0]);
        FramesOkAppend(s.ab, if heard then Received(l, s.ba[0]).written else []);
      }
    case Vanish(i) =>
      if i < |s.ab| {
        PartOk(s.ab, i);
      }
    case Timeout => TimedOutOk(s.a);
  }

  lemma PartOk(x: seq<Frame>, i: nat)
    requires FramesOk(x) && i < |x|
    ensures FramesOk(Drop(x, i)) && FramesOk(x[1..]) && x[0].ack < 8
  {
    assert x[0] in x;
  }

  lemma StepOk(s: System, op: Op)
    requires Ok(s)
    ensures Ok(Step(s, op))
  {
    hide QueuesOk, FramesOk, Act;
    ActOk(if op.atB then Swap(s) else s, op.action);
  }

  function Run(s: System, ops: seq<Op>): (r: System)
    requires Ok(s)
    ensures Ok(r)
    decreases |ops|
  {
    if ops == [] then s
    else
      StepOk(s, ops[0]);
      Run(Step(s, ops[0]), ops[1..])
  }

  /** Memory is found for every packet of the unreliable queue. */
  predicate Granted(room: seq<Alloc>) {
    forall x :: x in room ==> x.first
  }

  /** Nothing is lost and memory is found. */
  predicate Lossless(action: Action) {
    match action
    case Submit(_) => true
    case Transmit(room) => Granted(room)
    case Arrive(heard, room) => heard && Granted(room)
    case Vanish(_) => false
    case Timeout => true
  }

  ghost predicate Unsubmitted(ops: seq<Op>) {
    forall op :: op in ops ==> !op.action.Submit?
  }

  function SubmittedBy(action: Action): seq<Packet> {
    if action.Submit? then [action.p] else []
  }

  /** The packets that a run submits at one end. */
  function SubmittedAt(ops: seq<Op>, atB: bool): seq<Packet> {
    if ops == [] then []
    else (if ops[0].atB == atB then SubmittedBy(ops[0].action) else []) + SubmittedAt(ops[1..], atB)
  }

  lemma {:induction false} NoneSubmitted(ops: seq<Op>, atB: bool)
    requires Unsubmitted(ops)
    ensures SubmittedAt(ops, atB) == []
  {
    if ops != [] {
      assert ops[0] in ops;
      NoneSubmitted(ops[1..], atB);
    }
  }

  lemma OneSubmitted(op: Op, atB: bool)
    ensures SubmittedAt([op], atB) == if op.atB == atB then SubmittedBy(op.action) else []
  {
    assert [op][1..] == [];
  }

  lemma {:induction false} SubmittedAppend(x: seq<Op>, y: seq<Op>, atB: bool)
    ensures SubmittedAt(x + y, atB) == SubmittedAt(x, atB) + SubmittedAt(y, atB)
  {
    if x == [] {
      assert x + y == y;
    } else {
      assert (x + y)[0] == x[0] && (x + y)[1..] == x[1..] + y;
      SubmittedAppend(x[1..], y, atB);
    }
  }

  lemma {:induction false} SubmittedFlip(ops: seq<Op>, atB: bool)
    ensures SubmittedAt(Flip(ops), atB) == SubmittedAt(ops, !atB)
  {
    if ops != [] {
      assert Flip(ops)[1..] == Flip(ops[1..]);
      SubmittedFlip(ops[1..], atB);
    }
  }

  /** A frame that faults is next to be heard at one of the ends. */
  ghost predicate AtFault(s: System) {
    (s.ba != [] && H5Stream.Faults(s.a, s.ba[0])) || (s.ab != [] && H5Stream.Faults(s.b, s.ab[0]))
  }

  /** No frame that faults is heard. */
  ghost predicate Sound(s: System, ops: seq<Op>)
    requires Ok(s)
    decreases |ops|
  {
    ops == [] ||
      (StepOk(s, ops[0]);
       !HearsFault(s, ops[0]) && Sound(Step(s, ops[0]), ops[1..]))
  }

  predicate HearsFault(s: System, op: Op) {
    && op.action.Arrive? && op.action.heard
    && if op.atB then s.ab != [] && H5Stream.Faults(s.b, s.ab[0]) else s.ba != [] && H5Stream.Faults(s.a, s.ba[0])
  }

  lemma {:induction false} RunAppend(s: System, x: seq<Op>, y: seq<Op>)
    requires Ok(s)
    ensures Run(s, x + y) == Run(Run(s, x), y)
    ensures Sound(s, x + y) <==> Sound(s, x) && Sound(Run(s, x), y)
    decreases |x|
  {
    hide QueuesOk, FramesOk, Act, HearsFault;
    if x == [] {
      assert x + y == y;
    } else {
      assert (x + y)[0] == x[0] && (x + y)[1..] == x[1..] + y;
      StepOk(s, x[0]);
      RunAppend(Step(s, x[0]), x[1..], y);
    }
  }

  /** The same operations at the other end. */
  function Flip(ops: seq<Op>): (r: seq<Op>)
    ensures |r| == |ops| && forall i :: 0 <= i < |ops| ==> r[i] == Op(!ops[i].atB, ops[i].action)
  {
    seq(|ops|, i requires 0 <= i < |ops| => Op(!ops[i].atB, ops[i].action))
  }

  lemma {:induction false} RunFlip(s: System, ops: seq<Op>)
    requires Ok(s)
    ensures Ok(Swap(s)) && Run(Swap(s), Flip(ops)) == Swap(Run(s, ops))
    ensures Sound(Swap(s), Flip(ops)) <==> Sound(s, ops)
    decreases |ops|
  {
    hide QueuesOk, FramesOk, Act;
    if ops != [] {
      StepOk(s, ops[0]);
      assert Flip(ops)[1..] == Flip(ops[1..]);
      RunFlip(Step(s, ops[0]), ops[1..]);
    }
  }

  lemma {:induction false} RunSafe(s: System, w: Witness, ops: seq<Op>) returns (w': Witness)
    requires Inv(s, w)
    ensures Inv(Run(s, ops), w')
    decreases |ops|
  {
    hide Half, QueuesOk, FramesOk, AclUp, Step;
    w' := w;
    if ops != [] {
      w' := StepSafe(s, w, ops[0]);
      w' := RunSafe(Step(s, ops[0]), w', ops[1..]);
    }
  }

  lemma OpenedInv()
    ensures Inv(System(OPENED, OPENED, [], []), Witness(START, START))
  {
  }

  /** The packets that `l` has freed, those not in its two queues, were all accepted by the peer `r`. */
  ghost predicate FreedWereTaken(l: Link, r: Link) {
    var freed := |l.enqueued| - |l.unack| - |l.rel|;
    && 0 <= freed <= |r.taken|
    && l.enqueued[freed..] == l.unack + l.rel
    && l.txSeq == (freed + |l.unack|) % 8 && |l.unack| <= WINDOW
  }

  /** What the invariant says about packets, without the line and the numbers. */
  lemma InvDelivers(s: System, w: Witness)
    requires Inv(s, w)
    ensures s.b.taken <= s.a.enqueued && s.a.taken <= s.b.enqueued
    ensures Acl(s.b.up) <= Acl(s.a.enqueued) && Acl(s.a.up) <= Acl(s.b.enqueued)
    ensures FreedWereTaken(s.a, s.b) && FreedWereTaken(s.b, s.a)
  {
    hide DataInFlight, AcksInFlight, QueuesOk, Acl;
    AclPrefix(s.b.taken, s.a.enqueued);
    AclPrefix(s.a.taken, s.b.enqueued);
  }
}
