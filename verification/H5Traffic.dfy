/** What goes into a pair of Three-wire drivers and what comes out: SCO data, which is sent without acknowledgement, and
    the packets that join the reliable queue. */
module H5Traffic {
  import opened Octets
  import opened GoBackN
  import opened Sequences
  import opened H5
  import opened H5Stream
  import opened H5Wire
  import H5Chunks
  import H5Link
  import H5Format

  const SCO: set<nat> := {3}
  const RELIABLE: set<nat> := {1, 2}

  function PacketsOf(fs: seq<Frame>): (ps: seq<Packet>)
    ensures |ps| == |fs|
    ensures forall i :: 0 <= i < |fs| ==> ps[i] == Packet(fs[i].body.tag, fs[i].body.data)
  {
    seq(|fs|, i requires 0 <= i < |fs| => Packet(fs[i].body.tag, fs[i].body.data))
  }

  function ScoIn(fs: seq<Frame>): seq<Packet> {
    Only(PacketsOf(fs), SCO)
  }

  lemma ScoAppend(x: seq<Frame>, y: seq<Frame>)
    ensures ScoIn(x + y) == ScoIn(x) + ScoIn(y)
  {
    assert PacketsOf(x + y) == PacketsOf(x) + PacketsOf(y);
    OnlyAppend(PacketsOf(x), PacketsOf(y), SCO);
  }

  lemma ScoOne(f: Frame)
    ensures ScoIn([f]) == (if f.body.tag == 3 then [Packet(3, f.body.data)] else []) && ScoIn([]) == []
  {
    var p := Packet(f.body.tag, f.body.data);
    assert PacketsOf([f]) == [p];
    OnlyOne(p, SCO);
  }

  /** Acceptance into the queues: on a link that is up, and for packets that fit the header, commands and ACL data are
      queued for reliable and SCO data for unreliable transmission; all else is dropped. */
  lemma QueuedExactly(l: Link, p: Packet)
    ensures var r := Enqueue(l, p);
            var taken := l.state == Active && |p.data| <= 0xfff;
            && r.rel == l.rel + (if taken && (p.kind == 1 || p.kind == 2) then [p] else [])
            && r.enqueued == l.enqueued + (if taken && (p.kind == 1 || p.kind == 2) then [p] else [])
            && r.unrel == l.unrel + (if taken && p.kind == 3 then [p] else [])
            && r == l.(rel := r.rel, enqueued := r.enqueued, unrel := r.unrel)
  {
    assert l.rel + [] == l.rel && l.unrel + [] == l.unrel && l.enqueued + [] == l.enqueued;
  }

  /** One direction: the SCO packets handed up at B, on the line and waiting at A are in this order some of those
      submitted at A, and the packets ever queued for reliable transmission are some of the commands and ACL packets
      submitted. */
  ghost predicate Carried(f: H5Link.System, subs: seq<Packet>) {
    && Subsequence(Only(f.b.up, SCO) + ScoIn(f.ab) + Only(f.a.unrel, SCO), Only(subs, SCO))
    && Subsequence(f.a.enqueued, Only(subs, RELIABLE))
  }

  lemma OneCarries(l: Link, a: Alloc)
    requires QueuesOk(l) && Choose(l, a) != SendNothing
    ensures ScoIn([FrameFor(l, Chosen(l, a))]) + Only(AfterOne(l, a).unrel, SCO) == Only(l.unrel, SCO)
  {
    hide Subsequence;
    ScoOne(FrameFor(l, Chosen(l, a)));
    if Choose(l, a) == SendUnrel {
      OnlyFirst(l.unrel, SCO);
    } else if Choose(l, a) == SendRel {
      assert l.rel[0] in l.rel;
    }
  }

  lemma {:induction false} WakeupCarries(l: Link, room: seq<Alloc>)
    requires QueuesOk(l)
    ensures ScoIn(H5Link.Sent(l, room)) + Only(Wakeup(l, room).unrel, SCO) == Only(l.unrel, SCO)
    ensures Wakeup(l, room).enqueued == l.enqueued
    decreases |room|
  {
    hide QueuesOk, Only, ScoIn, AfterOne;
    H5Link.WakeupKeeps(l, room);
    ScoOne(Frame(false, 0, 0, Body(0, [])));
    if room != [] && Choose(l, room[0]) != SendNothing {
      var f, next := FrameFor(l, Chosen(l, room[0])), AfterOne(l, room[0]);
      OneCarries(l, room[0]);
      ScoAppend([f], H5Link.Sent(next, room[1..]));
      WakeupCarries(next, room[1..]);
      assert ScoIn([f]) + (ScoIn(H5Link.Sent(next, room[1..])) + Only(Wakeup(next, room[1..]).unrel, SCO))
          == ScoIn(H5Link.Sent(l, room)) + Only(Wakeup(l, room).unrel, SCO);
    } else {
      NothingDequeued(l, room);
    }
  }

  lemma NothingDequeued(l: Link, room: seq<Alloc>)
    requires QueuesOk(l) && (room == [] || Choose(l, room[0]) == SendNothing)
    ensures Wakeup(l, room).unrel == l.unrel && H5Link.Sent(l, room) == []
  {
  }

  /** The frames sent and the queue left when a frame is heard. */
  lemma ReceivedCarries(l: Link, f: Frame)
    requires QueuesOk(l) && f.ack < 8 && l.written == []
    ensures var r := Received(l, f);
            && ScoIn(r.written) + Only(r.unrel, SCO) == Only(l.unrel, SCO) && r.enqueued == l.enqueued
            && (Only(r.up, SCO) == Only(l.up, SCO) || Only(r.up, SCO) == Only(l.up, SCO) + ScoIn([f]))
  {
    hide QueuesOk, Wakeup, CullCountU8, Deliver, Only, ScoIn;
    ScoOne(f);
    HandedUp(l, f);
    assert [] + Only(l.unrel, SCO) == Only(l.unrel, SCO);
    if !f.reliable || f.seqno == l.txAck {
      if f.reliable {
        var n := l.(txAck := (l.txAck + 1) % 8, txAckReq := true, room := [],
                    taken := l.taken + [Packet(f.body.tag, f.body.data)]);
        H5Link.AckedOk(l, n);
        WakeupCarries(n, l.room);
        H5Link.WakeupWrites(n, l.room);
        assert [] + H5Link.Sent(n, l.room) == H5Link.Sent(n, l.room);
      }
      DeliverCarries(Cull(Accept(l, f).(rxAck := f.ack)), f);
    }
  }

  lemma HandedUp(l: Link, f: Frame)
    requires QueuesOk(l) && f.ack < 8
    ensures var r := Received(l, f);
            Only(r.up, SCO) == Only(l.up, SCO) || Only(r.up, SCO) == Only(l.up, SCO) + ScoIn([f])
  {
    hide QueuesOk, Received, ScoIn;
    var p := Packet(f.body.tag, f.body.data);
    H5Format.HandsUpExactly(l, f);
    OnlyAppend(l.up, [p], SCO);
    OnlyOne(p, SCO);
    ScoOne(f);
    hide Only;
    assert l.up + [] == l.up && Only(l.up, SCO) + [] == Only(l.up, SCO);
  }

  lemma DeliverCarries(l: Link, f: Frame)
    ensures var r := Deliver(l, f, |f.body.data|);
            Only(r.unrel, SCO) == Only(l.unrel, SCO) && r.written == l.written && r.enqueued == l.enqueued
  {
    hide SYNC_REQ, SYNC_RSP, CONF_RSP, WAKEUP_REQ, WOKEN_REQ, SLEEP_REQ, Only;
    MessagesIgnored();
  }

  lemma MessagesIgnored()
    ensures forall l: Link, m: seq<byte> :: Only(LinkControl(l, m).unrel, SCO) == Only(l.unrel, SCO)
  {
    forall l: Link, m: seq<byte>
      ensures Only(LinkControl(l, m).unrel, SCO) == Only(l.unrel, SCO)
    {
      OnlyAppend(l.unrel, [Packet(LINK_PKT, m)], SCO);
      OnlyOne(Packet(LINK_PKT, m), SCO);
    }
  }

  // ---- Every operation ----

  lemma SubmitCarries(f: H5Link.System, p: Packet, subs: seq<Packet>)
    requires Carried(f, subs)
    ensures Carried(f.(a := Enqueue(f.a, p)), subs + [p])
  {
    var l := f.a;
    QueuedExactly(l, p);
    OnlyAppend(subs, [p], SCO);
    OnlyAppend(subs, [p], RELIABLE);
    OnlyAppend(l.unrel, [p], SCO);
    OnlyOne(p, SCO);
    OnlyOne(p, RELIABLE);
    hide Only, ScoIn, Enqueue;
    var x := Only(f.b.up, SCO) + ScoIn(f.ab);
    assert l.unrel + [] == l.unrel && l.enqueued + [] == l.enqueued;
    assert Only(subs, SCO) + [] == Only(subs, SCO) && Only(subs, RELIABLE) + [] == Only(subs, RELIABLE);
    assert x + (Only(l.unrel, SCO) + [p]) == (x + Only(l.unrel, SCO)) + [p];
    SubsequenceSkips(x + Only(l.unrel, SCO), Only(subs, SCO), p);
    SubsequenceSkips(l.enqueued, Only(subs, RELIABLE), p);
  }

  /** The same SCO data, in the same order. */
  lemma MovedOn(f: H5Link.System, g: H5Link.System, sent: seq<Frame>, subs: seq<Packet>)
    requires Carried(f, subs) && g.b == f.b && g.ab == f.ab + sent && g.a.enqueued == f.a.enqueued
    requires ScoIn(sent) + Only(g.a.unrel, SCO) == Only(f.a.unrel, SCO)
    ensures Carried(g, subs)
  {
    hide Only, ScoIn, Subsequence;
    ScoAppend(f.ab, sent);
    assert Only(f.b.up, SCO) + (ScoIn(f.ab) + ScoIn(sent)) + Only(g.a.unrel, SCO)
        == Only(f.b.up, SCO) + ScoIn(f.ab) + (ScoIn(sent) + Only(g.a.unrel, SCO));
  }

  lemma DropSplits(fs: seq<Frame>, i: nat)
    requires i < |fs|
    ensures ScoIn(fs) == ScoIn(fs[..i]) + ScoIn([fs[i]]) + ScoIn(fs[i + 1..])
    ensures ScoIn(Drop(fs, i)) == ScoIn(fs[..i]) + ScoIn(fs[i + 1..])
  {
    hide ScoIn;
    assert fs == fs[..i] + [fs[i]] + fs[i + 1..];
    ScoAppend(fs[..i] + [fs[i]], fs[i + 1..]);
    ScoAppend(fs[..i], [fs[i]]);
    ScoAppend(fs[..i], fs[i + 1..]);
  }

  /** A frame is lost, with the SCO packet that it may have been. */
  lemma LostCarries(f: H5Link.System, g: H5Link.System, i: nat, subs: seq<Packet>)
    requires Carried(f, subs) && i < |f.ab| && g.ab == Drop(f.ab, i) && g.b.up == f.b.up
    requires g.a.enqueued == f.a.enqueued && g.a.unrel == f.a.unrel
    ensures Carried(g, subs)
  {
    DropSplits(f.ab, i);
    ScoOne(f.ab[i]);
    hide Only, ScoIn, Subsequence;
    MayLoseWithin(Only(f.b.up, SCO), ScoIn(f.ab[..i]), ScoIn([f.ab[i]]), ScoIn(f.ab[i + 1..]), Only(f.a.unrel, SCO),
                  Only(subs, SCO));
  }

  /** An operation at the sender. */
  lemma SenderCarries(f: H5Link.System, action: H5Link.Action, subs: seq<Packet>)
    requires H5Link.Ok(f) && Carried(f, subs)
    ensures Carried(H5Link.Act(f, action), subs + H5Link.SubmittedBy(action))
  {
    hide QueuesOk, H5Link.FramesOk, Carried, Wakeup, Received, ScoIn, Only;
    assert subs + [] == subs;
    ScoOne(Frame(false, 0, 0, Body(0, [])));
    assert [] + Only(f.a.unrel, SCO) == Only(f.a.unrel, SCO) && f.ab + [] == f.ab;
    var g := H5Link.Act(f, action);
    match action
    case Submit(p) => SubmitCarries(f, p, subs);
    case Transmit(room) =>
      var l := H5Link.Ready(f.a, []);
      ReadyQueues(f.a, []);
      WakeupCarries(l, room);
      H5Link.WakeupWrites(l, room);
      assert [] + H5Link.Sent(l, room) == H5Link.Sent(l, room);
      MovedOn(f, g, H5Link.Sent(l, room), subs);
    case Arrive(heard, room) =>
      if f.ba == [] {
        MovedOn(f, g, [], subs);
      } else {
        H5Link.FramesEncoded(f);
        assert f.ba[0] in f.ba;
        var l := H5Link.Ready(f.a, room);
        ReadyQueues(f.a, room);
        ReceivedCarries(l, f.ba[0]);
        MovedOn(f, g, if heard then Received(l, f.ba[0]).written else [], subs);
      }
    case Vanish(i) =>
      if i < |f.ab| {
        LostCarries(f, g, i, subs);
      }
    case Timeout => TimerCarries(f, subs);
  }

  lemma TimerCarries(f: H5Link.System, subs: seq<Packet>)
    requires Carried(f, subs)
    ensures Carried(f.(a := TimedOut(f.a)), subs)
  {
    hide Only, Subsequence;
    MessagesIgnored();
  }

  /** An operation at the receiver. */
  lemma ReceiverCarries(f: H5Link.System, action: H5Link.Action, subs: seq<Packet>)
    requires H5Link.Ok(f) && Carried(f, subs)
    ensures Carried(H5Link.Swap(H5Link.Act(H5Link.Swap(f), action)), subs)
  {
    hide QueuesOk, H5Link.FramesOk, Wakeup, Received, ScoIn, Only, Subsequence;
    var x := H5Link.Swap(f);
    match action
    case Submit(_) =>
    case Transmit(room) =>
      ReadyQueues(f.b, []);
      H5Link.WakeupKeeps(H5Link.Ready(f.b, []), room);
    case Arrive(heard, room) =>
      if f.ab != [] {
        H5Link.FramesEncoded(f);
        assert f.ab[0] in f.ab;
        var l := H5Link.Ready(f.b, room);
        ReadyQueues(f.b, room);
        ReceivedCarries(l, f.ab[0]);
        assert Drop(f.ab, 0) == f.ab[1..];
        LostCarries(f, f.(ab := f.ab[1..]), 0, subs);
        DropSplits(f.ab, 0);
        ScoOne(f.ab[0]);
        assert f.ab[..0] == [] && [] + ScoIn([f.ab[0]]) + ScoIn(f.ab[1..]) == ScoIn([f.ab[0]]) + ScoIn(f.ab[1..]);
        assert Only(f.b.up, SCO) + ScoIn([f.ab[0]]) + ScoIn(f.ab[1..]) + Only(f.a.unrel, SCO)
            == Only(f.b.up, SCO) + (ScoIn([f.ab[0]]) + ScoIn(f.ab[1..])) + Only(f.a.unrel, SCO);
      }
    case Vanish(_) =>
    case Timeout =>
  }

  // ---- Runs ----

  lemma {:induction false} RunCarries(f: H5Link.System, ops: seq<H5Link.Op>, subs: seq<Packet>)
    requires H5Link.Ok(f) && Carried(f, subs)
    ensures Carried(H5Link.Run(f, ops), subs + H5Link.SubmittedAt(ops, false))
    decreases |ops|
  {
    hide QueuesOk, H5Link.FramesOk, Carried, H5Link.Act;
    if ops == [] {
      assert subs + [] == subs;
    } else {
      var op := ops[0];
      H5Link.StepOk(f, op);
      var now := if op.atB then [] else H5Link.SubmittedBy(op.action);
      if op.atB {
        ReceiverCarries(f, op.action, subs);
        assert subs + now == subs;
      } else {
        SenderCarries(f, op.action, subs);
      }
      RunCarries(H5Link.Step(f, op), ops[1..], subs + now);
      assert subs + now + H5Link.SubmittedAt(ops[1..], false) == subs + H5Link.SubmittedAt(ops, false);
    }
  }

  lemma OpenedCarries()
    ensures Carried(OPENED_FRAMES, [])
  {
    assert Only([Packet(LINK_PKT, SYNC_REQ)], SCO) == [] by {
      OnlyOne(Packet(LINK_PKT, SYNC_REQ), SCO);
    }
    assert Only([], SCO) == [] && PacketsOf([]) == [];
  }

  lemma CarriedMeans(f: H5Link.System, subs: seq<Packet>)
    requires Carried(f, subs)
    ensures Subsequence(Only(f.b.up, SCO), Only(subs, SCO)) && Subsequence(f.a.enqueued, Only(subs, RELIABLE))
  {
    hide Only, Subsequence;
    assert Only(f.b.up, SCO) + ScoIn(f.ab) + Only(f.a.unrel, SCO)
        == Only(f.b.up, SCO) + (ScoIn(f.ab) + Only(f.a.unrel, SCO));
    SubsequenceShorter(Only(f.b.up, SCO), ScoIn(f.ab) + Only(f.a.unrel, SCO), Only(subs, SCO));
  }

  /** After every run from h5_open without a fault, the SCO packets handed up at each end are, in order, some of those
      submitted at the other, and what each end has ever queued for reliable transmission are some of the commands and ACL
      packets submitted to it. */
  lemma InOrder(ops: seq<Op>)
    ensures Valid(BOTH_OPENED.a) && Valid(BOTH_OPENED.b)
    ensures var r := Run(BOTH_OPENED, ops);
            !Faulted(r) ==>
            && Subsequence(Only(r.b.link.up, SCO), Only(Submitted(ops, false), SCO))
            && Subsequence(Only(r.a.link.up, SCO), Only(Submitted(ops, true), SCO))
            && Subsequence(r.a.link.enqueued, Only(Submitted(ops, false), RELIABLE))
            && Subsequence(r.b.link.enqueued, Only(Submitted(ops, true), RELIABLE))
  {
    hide Run, H5Link.Run, H5Chunks.OnLine, H5Link.Ok, H5Link.Sound, H5Link.Lossless, Carried, Only, Subsequence;
    OpenedFollows(false);
    OpenedCarries();
    var frames := RunFollows(BOTH_OPENED, OPENED_FRAMES, ops, false);
    if !Faulted(Run(BOTH_OPENED, ops)) {
      var f := H5Link.Run(OPENED_FRAMES, frames);
      RunCarries(OPENED_FRAMES, frames, []);
      assert [] + Submitted(ops, false) == Submitted(ops, false) && [] + Submitted(ops, true) == Submitted(ops, true);
      CarriedMeans(f, Submitted(ops, false));
      H5Link.RunFlip(OPENED_FRAMES, frames);
      H5Link.SubmittedFlip(frames, false);
      RunCarries(OPENED_FRAMES, H5Link.Flip(frames), []);
      CarriedMeans(H5Link.Swap(f), Submitted(ops, true));
    }
  }
}
