/** What becomes of a Three-wire packet whose acknowledgement is lost. */
module H5Stall {
  import opened Octets
  import opened GoBackN
  import opened H5
  import opened H5Stream
  import opened H5Wire
  import opened Wire
  import H5Chunks
  import H5Link
  import opened H5Handshake

  // As in BCSP, a packet that was accepted and is sent again is out of order, and the header handler drops it without
  // acknowledging it again.

  const EMPTY := Line([], [])

  /** A link that is up and not asleep. */
  predicate Up(l: Link) {
    l.state == Active && l.sleep == Awake
  }

  /** Nothing to send, not even an acknowledgement. */
  predicate Silent(l: Link) {
    Up(l) && l.unack == l.rel == l.unrel == [] && !l.txAckReq
  }

  ghost predicate NoControl(ps: seq<Packet>) {
    forall p :: p in ps ==> p.kind != LINK_PKT
  }

  ghost predicate DataOnly(fs: seq<Frame>) {
    forall f :: f in fs && !f.reliable ==> f.body.tag != LINK_PKT
  }

  /** Every packet of A has been accepted at B, which has nothing to say. */
  ghost predicate Stalled(f: H5Link.System, w: H5Link.Witness) {
    && H5Link.Inv(f, w) && f.ba == [] && Silent(f.b) && |f.b.taken| == |f.a.enqueued|
    && Up(f.a) && NoControl(f.a.unrel) && DataOnly(f.ab)
  }

  lemma OneHolds(l: Link, a: Alloc)
    requires QueuesOk(l) && Up(l) && NoControl(l.unrel) && Choose(l, a) != SendNothing
    ensures var r := AfterOne(l, a);
            Up(r) && NoControl(r.unrel) && r.unack + r.rel == l.unack + l.rel && r.enqueued == l.enqueued
    ensures DataOnly([FrameFor(l, Chosen(l, a))])
  {
    match Choose(l, a)
    case SendUnrel => assert l.unrel[0] in l.unrel;
    case SendRel =>
      assert l.rel[0] in l.rel;
      assert l.unack + l.rel == (l.unack + [l.rel[0]]) + l.rel[1..];
    case SendAck =>
  }

  /** Waking the transmitter frees nothing, and asks for nothing. */
  lemma {:induction false} WakeupHolds(l: Link, room: seq<Alloc>)
    requires QueuesOk(l) && Up(l) && NoControl(l.unrel)
    ensures var r := Wakeup(l, room);
            Up(r) && NoControl(r.unrel) && r.unack + r.rel == l.unack + l.rel && r.enqueued == l.enqueued
    ensures DataOnly(H5Link.Sent(l, room))
    decreases |room|
  {
    if room != [] && Choose(l, room[0]) != SendNothing {
      OneHolds(l, room[0]);
      hide QueuesOk, AfterOne, NoControl;
      WakeupHolds(AfterOne(l, room[0]), room[1..]);
    }
  }

  lemma SilentWakeup(l: Link, room: seq<Alloc>)
    requires QueuesOk(l) && Silent(l)
    ensures Wakeup(l, room) == l
  {
  }

  lemma ReceivedSilent(l: Link, f: Frame)
    requires QueuesOk(l) && Silent(l) && if f.reliable then f.seqno != l.txAck else f.body.tag != LINK_PKT
    ensures var r := Received(l, f); Silent(r) && r.taken == l.taken && r.written == l.written
  {
  }

  lemma FirstHarmless(f: H5Link.System, w: H5Link.Witness)
    requires Stalled(f, w) && f.ab != []
    ensures var x := f.ab[0]; if x.reliable then x.seqno != f.b.txAck else x.body.tag != LINK_PKT
  {
    hide H5Link.SenderOk;
    assert f.ab[0] in f.ab;
    AllOld(H5Link.WINDOW, H5Link.CountersOf(f.a, f.b.txAck), f.ab, f.ba, w.tab);
  }

  /** What A does while it waits: the packets stay in its queues. */
  lemma SenderAct(f: H5Link.System, w: H5Link.Witness, action: H5Link.Action) returns (w': H5Link.Witness)
    requires Stalled(f, w) && !action.Submit?
    ensures var r := H5Link.Act(f, action);
            Stalled(r, w') && r.b == f.b && r.a.unack + r.a.rel == f.a.unack + f.a.rel
  {
    hide H5Link.Half, H5Link.FramesOk, QueuesOk, H5Link.AclUp, Wakeup;
    w' := H5Link.ActSafe(f, w, action);
    match action
    case Transmit(room) =>
      var l := H5Link.Ready(f.a, []);
      ReadyQueues(f.a, []);
      WakeupHolds(l, room);
      H5Link.WakeupWrites(l, room);
      assert [] + H5Link.Sent(l, room) == H5Link.Sent(l, room);
    case Arrive(_, _) =>
    case Vanish(_) =>
    case Timeout => assert [] + (f.a.unack + f.a.rel) == f.a.unack + f.a.rel;
  }

  /** What B does: nothing. */
  lemma PeerAct(f: H5Link.System, w: H5Link.Witness, action: H5Link.Action) returns (w': H5Link.Witness)
    requires Stalled(f, w) && !action.Submit?
    ensures var r := H5Link.Act(H5Link.Swap(f), action);
            Stalled(H5Link.Swap(r), w') && r.b == f.a && r.a.taken == f.b.taken
  {
    hide H5Link.Half, H5Link.FramesOk, QueuesOk, H5Link.AclUp, Wakeup, Received;
    var x := H5Link.Swap(f);
    var v := H5Link.ActSafe(x, H5Link.Witness(w.tba, w.tab), action);
    w' := H5Link.Witness(v.tba, v.tab);
    match action
    case Transmit(room) =>
      ReadyQueues(f.b, []);
      SilentWakeup(H5Link.Ready(f.b, []), room);
    case Arrive(heard, room) =>
      if f.ab != [] {
        FirstHarmless(f, w);
        ReadyQueues(f.b, room);
        ReceivedSilent(H5Link.Ready(f.b, room), f.ab[0]);
      }
    case Vanish(_) =>
    case Timeout => assert TimedOut(f.b).rel == [];
  }

  lemma {:induction false} RunStalls(f: H5Link.System, w: H5Link.Witness, ops: seq<H5Link.Op>)
    returns (w': H5Link.Witness)
    requires Stalled(f, w) && H5Link.Unsubmitted(ops)
    ensures var r := H5Link.Run(f, ops);
            Stalled(r, w') && r.b.taken == f.b.taken && r.a.unack + r.a.rel == f.a.unack + f.a.rel
    decreases |ops|
  {
    hide H5Link.Half, H5Link.FramesOk, QueuesOk, H5Link.AclUp, H5Link.Act, Silent, Up, NoControl, DataOnly;
    w' := w;
    if ops != [] {
      var op := ops[0];
      assert op in ops;
      H5Link.StepOk(f, op);
      if op.atB {
        w' := PeerAct(f, w, op.action);
      } else {
        w' := SenderAct(f, w, op.action);
      }
      w' := RunStalls(H5Link.Step(f, op), w', ops[1..]);
    }
  }

  /** After a run: both links are up, every packet of A has been accepted at B, nothing is on the line, B has nothing to
      say, and A has nothing more to say about the link. */
  ghost predicate Quiescent(s: System) {
    && !Faulted(s) && s.ab == s.ba == EMPTY && Silent(s.b.link) && |s.b.link.taken| == |s.a.link.enqueued|
    && Up(s.a.link) && NoControl(s.a.link.unrel)
  }

  lemma QuiescentStalls(s: System, f: H5Link.System, w: H5Link.Witness)
    requires Follows(s, f, false) && H5Link.Inv(f, w) && Quiescent(s)
    ensures Stalled(f, w)
  {
    hide H5Link.Half, H5Link.FramesOk, QueuesOk, H5Link.AclUp;
  }

  lemma StalledNotAtFault(f: H5Link.System, w: H5Link.Witness)
    requires Stalled(f, w)
    ensures !H5Link.AtFault(f)
  {
  }

  /** From such a state no run of timeouts, transmissions, arrivals and losses frees a packet of A: what was not
      acknowledged by then stays in its queues until one of the two submits another packet. */
  lemma LostAckSticks(before: seq<Op>, after: seq<Op>)
    requires Valid(BOTH_OPENED.a) && Valid(BOTH_OPENED.b) && Quiescent(Run(BOTH_OPENED, before))
    requires forall op :: op in after ==> !op.action.Submit?
    ensures var s := Run(BOTH_OPENED, before);
            var r := Run(s, after);
            && !Faulted(r) && r.a.link.unack + r.a.link.rel == s.a.link.unack + s.a.link.rel
            && r.b.link.taken == s.b.link.taken && Silent(r.b.link)
  {
    hide H5Link.Inv, Run, H5Link.Run, H5Chunks.OnLine, H5Link.Ok, H5Link.Sound, Stalled, Quiescent, H5Link.AtFault;
    OpenedFollows(false);
    H5Link.OpenedInv();
    var s := Run(BOTH_OPENED, before);
    var past := RunFollows(BOTH_OPENED, OPENED_FRAMES, before, false);
    var w := H5Link.RunSafe(OPENED_FRAMES, H5Link.Witness(START, START), past);
    var f := H5Link.Run(OPENED_FRAMES, past);
    NotYet(s);
    QuiescentStalls(s, f, w);
    var frames := RunFollows(s, f, after, false);
    var w' := RunStalls(f, w, frames);
    StalledNotAtFault(H5Link.Run(f, frames), w');
    StillSilent(Run(s, after), H5Link.Run(f, frames), w');
  }

  lemma NotYet(s: System)
    requires Quiescent(s)
    ensures !Faulted(s)
  {
  }

  // ---- It happens ----

  /** Both links come up, and the last requests for configuration are lost. */
  lemma BothUp()
    ensures var x := Shaking([], Active, [Message(CONF_REQ)]); Reached(H5Link.System(x, x, [], []))
  {
    hide Reached, Shaking, Message, Messaging;
    StartReached();
    Chain();
    assert [CONF_REQ] + [] == [CONF_REQ];
    BothSend(CONF_REQ, [], Active, []);
    var x, q := Shaking([], Active, [Message(CONF_REQ)]), [Message(CONF_REQ)];
    OneMessaging(CONF_REQ);
    NoMessages();
    LosesFirst(x, x, CONF_REQ, q);
    ReachSwap(H5Link.System(x, x, [], q));
    LosesFirst(x, x, CONF_REQ, []);
  }

  const ACKED := Frame(false, 0, 1, Body(ACK_PKT, []))

  /** A driver that has accepted its first packet. */
  lemma HearsData(x: Link, p: Packet) returns (r: Link)
    requires x == Shaking([], Active, [Message(CONF_REQ)]) && Sendable(p) && Reliable(p.kind) && QueuesOk(x)
    ensures var l := H5Link.Ready(x, []); QueuesOk(l) && r == Received(l, FirstData(p))
    ensures r == x.(taken := [p], txAck := 1, txAckReq := true, written := [], up := r.up)
  {
    var l := H5Link.Ready(x, []);
    r := Received(l, FirstData(p));
    assert Packet(p.kind, p.data) == p;
    var y := l.(txAck := 1, txAckReq := true, taken := [p]);
    assert Accept(l, FirstData(p)) == y;
    assert Cull(y) == y;
  }

  lemma SendsAck(x: Link, r: Link, p: Packet)
    requires x == Shaking([], Active, [Message(CONF_REQ)]) && QueuesOk(r)
    requires r == x.(taken := [p], txAck := 1, txAckReq := true, written := [], up := r.up)
    ensures var l := H5Link.Ready(r, []);
            QueuesOk(l) && Wakeup(l, [GO]) == r.(txAckReq := false, written := [ACKED])
  {
    assert [GO][1..] == [];
  }

  /** There are such runs, for every reliable packet: B has accepted it, its acknowledgement is lost, and A still holds
      it. */
  lemma LostAckHappens(p: Packet) returns (ops: seq<Op>)
    requires Sendable(p) && Reliable(p.kind)
    ensures Valid(BOTH_OPENED.a) && Valid(BOTH_OPENED.b)
    ensures var s := Run(BOTH_OPENED, ops);
            Quiescent(s) && s.b.link.taken == [p] && s.a.link.unack + s.a.link.rel == [p]
  {
    hide Reached, Run, Act, Wakeup, Received, ReachedBy;
    BothUp();
    var x := Shaking([], Active, [Message(CONF_REQ)]);
    SendsData(x, x, [Message(CONF_REQ)], p);
    var a, d := Waiting(p), [FirstData(p)];
    ReachSwap(H5Link.System(a, x, d, []));
    // B hears the packet.
    ReachStep(H5Link.System(x, a, [], d), H5Link.Arrive(true, []));
    var r := HearsData(x, p);
    assert [] + r.written == [] && d[1..] == [];
    assert Reached(H5Link.System(r, a, [], []));
    // B acknowledges it.
    ReachStep(H5Link.System(r, a, [], []), H5Link.Transmit([GO]));
    SendsAck(x, r, p);
    var b := r.(txAckReq := false, written := [ACKED]);
    assert [] + [ACKED] == [ACKED];
    assert Reached(H5Link.System(b, a, [ACKED], []));
    // The acknowledgement is lost.
    ReachStep(H5Link.System(b, a, [ACKED], []), H5Link.Vanish(0));
    assert Drop([ACKED], 0) == [];
    ReachSwap(H5Link.System(b, a, [], []));
    ops := RunTo(H5Link.System(a, b, [], []));
    assert a.unack + a.rel == [p];
  }

  lemma RunTo(f: H5Link.System) returns (ops: seq<Op>)
    requires Reached(f) && f.ab == f.ba == []
    ensures Valid(BOTH_OPENED.a) && Valid(BOTH_OPENED.b)
    ensures var s := Run(BOTH_OPENED, ops);
            s.a.link == f.a && s.b.link == f.b && s.ab == s.ba == EMPTY && !Faulted(s)
  {
    hide Run;
    ops :| ReachedBy(f, ops);
  }

  lemma StillSilent(s: System, f: H5Link.System, w: H5Link.Witness)
    requires Stalled(f, w) && Same(s.b.link, f.b)
    ensures Silent(s.b.link)
  {
  }
}
