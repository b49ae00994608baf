/** Link establishment in every run without a loss: the order of messages on the line, and why no receiver faults. */
module H5Order {
  import opened Octets
  import opened GoBackN
  import opened H5
  import opened H5Stream
  import opened H5Wire
  import H5Link

  // ---- Messages and levels ----

  /** How much of the handshake a body stands for. Requests to sleep or wake up stand for nothing; everything that is
      not for link control is data. */
  datatype Letter = Other | SyncReq | SyncRsp | ConfReq | ConfRsp | Data

  function LetterOf(b: Body): Letter {
    if b.tag != LINK_PKT then Data
    else if |b.data| < 2 then Other
    else if b.data[..2] == SYNC_REQ then SyncReq
    else if b.data[..2] == SYNC_RSP then SyncRsp
    else if b.data[..2] == [0x03, 0xfc] then ConfReq
    else if b.data[..2] == CONF_RSP then ConfRsp
    else Other
  }

  /** An end is at level 1 when it has heard a request for synchronisation, at 2, 3 and 4 when it has heard an answer, a
      request for configuration and an answer to that. */
  function Heard(level: nat, x: Letter): nat {
    var at := match x { case SyncReq => 1 case SyncRsp => 2 case ConfReq => 3 case ConfRsp => 4 case _ => 0 };
    if at > level then at else level
  }

  /** What may be heard at each level. */
  predicate Fits(level: nat, x: Letter) {
    match x
    case Other => true
    case SyncReq => level <= 2
    case SyncRsp => 1 <= level <= 3
    case ConfReq => 2 <= level
    case ConfRsp => 3 <= level
    case Data => level == 4
  }

  predicate InOrder(level: nat, bs: seq<Body>)
    decreases |bs|
  {
    bs == [] || (Fits(level, LetterOf(bs[0])) && InOrder(Heard(level, LetterOf(bs[0])), bs[1..]))
  }

  /** The level once everything has been heard. */
  function After(level: nat, bs: seq<Body>): nat
    decreases |bs|
  {
    if bs == [] then level else After(Heard(level, LetterOf(bs[0])), bs[1..])
  }

  lemma {:induction false} OrderAppend(level: nat, x: seq<Body>, y: seq<Body>)
    ensures InOrder(level, x + y) <==> InOrder(level, x) && InOrder(After(level, x), y)
    ensures After(level, x + y) == After(After(level, x), y)
    decreases |x|
  {
    hide LetterOf, Fits, Heard;
    if x == [] {
      assert x + y == y;
    } else {
      assert (x + y)[0] == x[0] && (x + y)[1..] == x[1..] + y;
      OrderAppend(Heard(level, LetterOf(x[0])), x[1..], y);
    }
  }

  lemma OrderOne(level: nat, b: Body)
    ensures InOrder(level, [b]) <==> Fits(level, LetterOf(b))
    ensures After(level, [b]) == Heard(level, LetterOf(b))
  {
    hide LetterOf, Fits, Heard;
    assert [b][1..] == [];
  }

  // ---- The invariant ----

  function FrameBodies(fs: seq<Frame>): (bs: seq<Body>)
    ensures |bs| == |fs| && forall i :: 0 <= i < |fs| ==> bs[i] == fs[i].body
  {
    seq(|fs|, i requires 0 <= i < |fs| => fs[i].body)
  }

  /** What the peer is still to hear, oldest first, apart from data that waits for its turn. */
  function Path(fs: seq<Frame>, unrel: seq<Packet>): seq<Body> {
    FrameBodies(fs) + H5Link.Bodies(unrel)
  }

  function StateAt(level: nat): LinkState {
    if level <= 1 then Uninitialized else if level <= 3 then Initialized else Active
  }

  /** An end at some level, the peer's level, and the frames on their way to the peer: it has data to send only when its
      link is up, and it is one message ahead of what it has heard. */
  ghost predicate EndOk(l: Link, level: nat, peer: nat, out: seq<Frame>) {
    && level <= 4 && l.state == StateAt(level)
    && (level < 4 ==> l.rel == [] && l.unack == [] && !l.txAckReq)
    && InOrder(peer, Path(out, l.unrel))
    && After(peer, Path(out, l.unrel)) == Ahead(level)
  }

  function Ahead(level: nat): nat {
    if level < 4 then level + 1 else 4
  }

  ghost predicate Ordered(f: H5Link.System, a: nat, b: nat) {
    EndOk(f.a, a, b, f.ab) && EndOk(f.b, b, a, f.ba)
  }

  lemma OpenedOrdered()
    ensures Ordered(H5Link.System(OPENED, OPENED, [], []), 0, 0)
  {
    var b := Body(LINK_PKT, SYNC_REQ);
    assert Path([], OPENED.unrel) == [b];
    OrderOne(0, b);
    assert SYNC_REQ[..2] == SYNC_REQ;
  }

  // ---- Sending ----

  /** A message joins the unreliable queue. */
  lemma Queues(l: Link, level: nat, peer: nat, out: seq<Frame>, p: Packet)
    requires InOrder(peer, Path(out, l.unrel))
    requires Fits(After(peer, Path(out, l.unrel)), LetterOf(Body(p.kind, p.data)))
    ensures InOrder(peer, Path(out, l.unrel + [p]))
    ensures After(peer, Path(out, l.unrel + [p]))
         == Heard(After(peer, Path(out, l.unrel)), LetterOf(Body(p.kind, p.data)))
  {
    hide LetterOf, Fits, Heard, InOrder, After;
    var b := Body(p.kind, p.data);
    assert Path(out, l.unrel + [p]) == Path(out, l.unrel) + [b];
    OrderAppend(peer, Path(out, l.unrel), [b]);
    OrderOne(After(peer, Path(out, l.unrel)), b);
  }

  /** A frame that overtakes nothing of the handshake. */
  lemma Overtakes(peer: nat, out: seq<Frame>, f: Frame, unrel: seq<Packet>)
    requires InOrder(peer, Path(out, unrel))
    requires LetterOf(f.body) == Other || (unrel == [] && After(peer, Path(out, unrel)) == 4 && LetterOf(f.body) == Data)
    ensures InOrder(peer, Path(out + [f], unrel)) && After(peer, Path(out + [f], unrel)) == After(peer, Path(out, unrel))
  {
    hide LetterOf, InOrder, After;
    var x, y := FrameBodies(out), H5Link.Bodies(unrel);
    assert Path(out + [f], unrel) == x + ([f.body] + y);
    OrderAppend(peer, x, y);
    OrderAppend(peer, x, [f.body] + y);
    OrderAppend(After(peer, x), [f.body], y);
    OrderOne(After(peer, x), f.body);
    if unrel == [] {
      assert x + y == x;
    }
  }

  lemma OneOrdered(l: Link, alloc: Alloc, level: nat, peer: nat, out: seq<Frame>)
    requires QueuesOk(l) && EndOk(l, level, peer, out) && alloc.first && Choose(l, alloc) != SendNothing
    ensures EndOk(AfterOne(l, alloc), level, peer, out + [FrameFor(l, Chosen(l, alloc))])
  {
    hide InOrder, After;
    var f := FrameFor(l, Chosen(l, alloc));
    if Choose(l, alloc) == SendUnrel {
      assert Path(out + [f], l.unrel[1..]) == Path(out, l.unrel);
    } else {
      assert WAKEUP_REQ[..2] == WAKEUP_REQ && WAKEUP_REQ[0] == 5;
      if Choose(l, alloc) == SendRel {
        assert l.rel[0] in l.rel;
      }
      Overtakes(peer, out, f, l.unrel);
    }
  }

  lemma {:induction false} WakeupOrdered(l: Link, room: seq<Alloc>, level: nat, peer: nat, out: seq<Frame>)
    requires QueuesOk(l) && EndOk(l, level, peer, out) && H5Link.Granted(room)
    ensures EndOk(Wakeup(l, room), level, peer, out + H5Link.Sent(l, room))
    decreases |room|
  {
    hide InOrder, After, Path, QueuesOk;
    if room == [] || Choose(l, room[0]) == SendNothing {
      assert out + [] == out;
    } else {
      var f := FrameFor(l, Chosen(l, room[0]));
      H5Link.OutgoingOk(l, room[0]);
      OneOrdered(l, room[0], level, peer, out);
      WakeupOrdered(AfterOne(l, room[0]), room[1..], level, peer, out + [f]);
      assert out + H5Link.Sent(l, room) == (out + [f]) + H5Link.Sent(AfterOne(l, room[0]), room[1..]);
    }
  }

  // ---- Receiving ----

  /** The letters of the messages that a driver sends. */
  lemma Letters(l: Link)
    ensures LetterOf(Body(LINK_PKT, SYNC_REQ)) == SyncReq && LetterOf(Body(LINK_PKT, SYNC_RSP)) == SyncRsp
    ensures LetterOf(Body(LINK_PKT, H5.ConfReq(l))) == ConfReq && LetterOf(Body(LINK_PKT, CONF_RSP)) == ConfRsp
    ensures LetterOf(Body(LINK_PKT, WOKEN_REQ)) == Other
    ensures H5.ConfReq(l)[..2] == [0x03, 0xfc]
  {
    assert SYNC_REQ[..2] == SYNC_REQ && SYNC_RSP[..2] == SYNC_RSP && CONF_RSP[..2] == CONF_RSP;
    assert WOKEN_REQ[..2] == WOKEN_REQ && WOKEN_REQ[0] == 6 && CONF_RSP[0] == 4 && SYNC_REQ[0] == 1 && SYNC_RSP[0] == 2;
  }

  /** A message is answered: the end rises to its level and stays one message ahead. */
  lemma InternalOrdered(l: Link, b: Body, level: nat, peer: nat, out: seq<Frame>)
    requires EndOk(l, level, peer, out) && b.tag == LINK_PKT && Fits(level, LetterOf(b))
    ensures EndOk(Internal(l, b, |b.data|), Heard(level, LetterOf(b)), peer, out)
  {
    hide InOrder, After, Path;
    Letters(l);
    match LetterOf(b)
    case SyncReq => Queues(l, level, peer, out, Packet(LINK_PKT, SYNC_RSP));
    case SyncRsp => Queues(l, level, peer, out, Packet(LINK_PKT, H5.ConfReq(l)));
    case ConfReq =>
      Queues(l, level, peer, out, Packet(LINK_PKT, CONF_RSP));
      Queues(LinkControl(l, CONF_RSP), level, peer, out, Packet(LINK_PKT, H5.ConfReq(l)));
    case ConfRsp =>
    case Data =>
    case Other => Queues(l, level, peer, out, Packet(LINK_PKT, WOKEN_REQ));
  }

  lemma DeliverOrdered(l: Link, f: Frame, level: nat, peer: nat, out: seq<Frame>)
    requires EndOk(l, level, peer, out) && Fits(level, LetterOf(f.body))
    ensures EndOk(Deliver(l, f, |f.body.data|), Heard(level, LetterOf(f.body)), peer, out)
  {
    if f.body.tag == LINK_PKT {
      hide EndOk;
      InternalOrdered(l, f.body, level, peer, out);
    }
  }

  lemma ReceivedOrdered(l: Link, f: Frame, level: nat, peer: nat, out: seq<Frame>) returns (sent: seq<Frame>)
    requires QueuesOk(l) && EndOk(l, level, peer, out) && Fits(level, LetterOf(f.body)) && H5Link.Granted(l.room)
    requires f.reliable == Reliable(f.body.tag) && l.written == []
    ensures sent == Received(l, f).written
    ensures EndOk(Received(l, f), Heard(level, LetterOf(f.body)), peer, out + sent)
  {
    hide InOrder, After, Path, Deliver;
    sent := Received(l, f).written;
    assert out + [] == out;
    if f.reliable && f.seqno != l.txAck {
      return;
    }
    var m := Accept(l, f);
    if f.reliable {
      var n := l.(txAck := (l.txAck + 1) % 8, txAckReq := true, room := [],
                  taken := l.taken + [Packet(f.body.tag, f.body.data)]);
      WakeupOrdered(n, l.room, level, peer, out);
      H5Link.WakeupWrites(n, l.room);
      assert [] + H5Link.Sent(n, l.room) == H5Link.Sent(n, l.room);
    }
    CullOrdered(m.(rxAck := f.ack), level, peer, out + m.written);
    var c := Cull(m.(rxAck := f.ack));
    DeliverKeepsWritten(c, f);
    DeliverOrdered(c, f, level, peer, out + sent);
  }

  lemma CullOrdered(l: Link, level: nat, peer: nat, out: seq<Frame>)
    requires EndOk(l, level, peer, out)
    ensures EndOk(Cull(l), level, peer, out)
  {
    hide InOrder, After, Path, CullCountU8;
  }

  lemma DeliverKeepsWritten(l: Link, f: Frame)
    ensures Deliver(l, f, |f.body.data|).written == l.written
  {
  }

  // ---- Runs ----

  /** What a message on the line may be to its receiver. */
  lemma FirstFits(f: H5Link.System, a: nat, b: nat)
    requires Ordered(f, a, b) && f.ba != []
    ensures Fits(a, LetterOf(f.ba[0].body)) && !Faults(f.a, f.ba[0])
    ensures EndOk(f.b, b, Heard(a, LetterOf(f.ba[0].body)), f.ba[1..])
  {
    hide Heard;
    var p := Path(f.ba, f.b.unrel);
    assert p[0] == f.ba[0].body && p[1..] == Path(f.ba[1..], f.b.unrel);
  }

  lemma ActOrdered(f: H5Link.System, action: H5Link.Action, a: nat, b: nat) returns (a': nat)
    requires H5Link.Ok(f) && Ordered(f, a, b) && H5Link.Lossless(action)
    ensures Ordered(H5Link.Act(f, action), a', b)
  {
    hide InOrder, After, Path, Received, Wakeup, LetterOf, Fits, Heard;
    a' := a;
    match action
    case Submit(p) => SubmitOrdered(f.a, p, a, b, f.ab);
    case Transmit(room) =>
      var l := H5Link.Ready(f.a, []);
      WakeupOrdered(l, room, a, b, f.ab);
      H5Link.WakeupWrites(l, room);
      assert [] + H5Link.Sent(l, room) == H5Link.Sent(l, room);
    case Arrive(_, room) =>
      if f.ba != [] {
        FirstFits(f, a, b);
        assert f.ba[0] in f.ba;
        a' := Heard(a, LetterOf(f.ba[0].body));
        var sent := ReceivedOrdered(H5Link.Ready(f.a, room), f.ba[0], a, b, f.ab);
      }
    case Vanish(_) =>
    case Timeout => TimedOutOrdered(f.a, a, b, f.ab);
  }

  lemma SubmitOrdered(l: Link, p: Packet, level: nat, peer: nat, out: seq<Frame>)
    requires EndOk(l, level, peer, out)
    ensures EndOk(Enqueue(l, p), level, peer, out)
  {
    hide InOrder, After, Path;
    if level == 4 && p.kind == HCI_SCODATA_PKT {
      Queues(l, level, peer, out, p);
    }
  }

  lemma TimedOutOrdered(l: Link, level: nat, peer: nat, out: seq<Frame>)
    requires EndOk(l, level, peer, out)
    ensures EndOk(TimedOut(l), level, peer, out)
  {
    hide InOrder, After, Path;
    Letters(l);
    if level <= 1 {
      Queues(l, level, peer, out, Packet(LINK_PKT, SYNC_REQ));
    } else if level <= 3 {
      Queues(l, level, peer, out, Packet(LINK_PKT, H5.ConfReq(l)));
    }
  }

  lemma {:induction false} RunOrdered(f: H5Link.System, a: nat, b: nat, ops: seq<H5Link.Op>) returns (a': nat, b': nat)
    requires H5Link.Ok(f) && Ordered(f, a, b) && forall op :: op in ops ==> H5Link.Lossless(op.action)
    ensures Ordered(H5Link.Run(f, ops), a', b')
    decreases |ops|
  {
    hide QueuesOk, H5Link.FramesOk, H5Link.Act, EndOk, H5Link.Lossless;
    a', b' := a, b;
    if ops != [] {
      H5Link.StepOk(f, ops[0]);
      if ops[0].atB {
        b' := ActOrdered(H5Link.Swap(f), ops[0].action, b, a);
      } else {
        a' := ActOrdered(f, ops[0].action, a, b);
      }
      a', b' := RunOrdered(H5Link.Step(f, ops[0]), a', b', ops[1..]);
    }
  }

  lemma NeverAtFault(f: H5Link.System, a: nat, b: nat)
    requires Ordered(f, a, b)
    ensures !H5Link.AtFault(f)
  {
    hide EndOk, Fits, Faults;
    if f.ba != [] {
      FirstFits(f, a, b);
    }
    if f.ab != [] {
      FirstFits(H5Link.Swap(f), b, a);
    }
  }

  /** With nothing lost and memory found, no run from h5_open faults, whatever the timers do and however the bytes are
      cut into calls: data leaves an end only behind the answer that brings the other end up. So reliable transfer needs
      no proviso there. */
  lemma LosslessTransfer(ops: seq<Op>)
    requires forall op :: op in ops ==> Lossless(op.action)
    ensures Valid(BOTH_OPENED.a) && Valid(BOTH_OPENED.b)
    ensures var r := Run(BOTH_OPENED, ops);
            && !Faulted(r)
            && r.b.link.taken <= r.a.link.enqueued && r.a.link.taken <= r.b.link.enqueued
            && H5Link.Acl(r.b.link.up) <= H5Link.Acl(r.a.link.enqueued)
            && H5Link.Acl(r.a.link.up) <= H5Link.Acl(r.b.link.enqueued)
  {
    hide Run, H5Link.Run, Faulted, Ordered, Lossless, H5Link.Lossless, H5Link.Sound, Follows, H5Link.AtFault;
    OpenedFollows(true);
    OpenedOrdered();
    var frames := RunFollows(BOTH_OPENED, OPENED_FRAMES, ops, true);
    var a, b := RunOrdered(OPENED_FRAMES, 0, 0, frames);
    NeverAtFault(H5Link.Run(OPENED_FRAMES, frames), a, b);
    ReliableTransfer(ops);
  }
}
