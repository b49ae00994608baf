/** The three transmit queues of one driver on its own, against a peer that may send anything. */
module SenderQueues {
  import opened Octets
  import opened GoBackN
  import Bcsp
  import H5

  /** What may happen to one driver. `Hear` is a complete frame with any acknowledgement whatever; `len` is the payload
      length in its header, which only H5 looks at again. */
  datatype Event<A> = Submit(p: Packet) | Transmit(room: seq<A>) | Hear(f: Frame, len: nat, room: seq<A>) | Timeout

  // ---- BCSP ----

  ghost predicate BcspConserved(l: Bcsp.Link) {
    Conserved(Bcsp.TXWINSIZE, l.enqueued, l.unack, l.rel, l.msgqTxseq)
  }

  function BcspStep(l: Bcsp.Link, e: Event<Bcsp.Alloc>): (r: Bcsp.Link)
    requires Bcsp.QueuesOk(l)
    ensures Bcsp.QueuesOk(r)
  {
    match e
    case Submit(p) => Bcsp.Enqueue(l, p)
    case Transmit(room) => Bcsp.Wakeup(l, room)
    case Hear(f, _, room) =>
      if f.ack < 8 then Bcsp.CompleteOk(l.(room := room), f); Bcsp.Received(l.(room := room), f) else l
    case Timeout => Bcsp.TimedOut(l)
  }

  function BcspRun(l: Bcsp.Link, es: seq<Event<Bcsp.Alloc>>): Bcsp.Link
    requires Bcsp.QueuesOk(l)
    decreases |es|
  {
    if es == [] then l else BcspRun(BcspStep(l, es[0]), es[1..])
  }

  lemma {:induction false} BcspWakeupConserves(l: Bcsp.Link, room: seq<Bcsp.Alloc>)
    requires Bcsp.QueuesOk(l) && BcspConserved(l)
    ensures BcspConserved(Bcsp.Wakeup(l, room))
    decreases |room|
  {
    if room != [] && Bcsp.Choose(l, room[0]) != Bcsp.SendNothing {
      BcspDequeueConserves(l, room[0]);
      hide Conserved;
      BcspWakeupConserves(Bcsp.AfterOne(l, room[0]), room[1..]);
    }
  }

  lemma BcspDequeueConserves(l: Bcsp.Link, a: Bcsp.Alloc)
    requires Bcsp.QueuesOk(l) && BcspConserved(l)
    ensures BcspConserved(Bcsp.Dequeued(l, a))
  {
    hide Conserved;
    match Bcsp.Choose(l, a)
    case SendUnrel => assert l.unrel[0] in l.unrel;
    case SendRel =>
      assert l.rel[0] in l.rel;
      ConservedBySending(Bcsp.TXWINSIZE, l.enqueued, l.unack, l.rel, l.msgqTxseq);
    case _ =>
  }

  lemma BcspDeliverConserves(l: Bcsp.Link, f: Frame)
    requires BcspConserved(l)
    ensures BcspConserved(Bcsp.Deliver(l, f))
  {
    hide Conserved;
  }

  lemma BcspCompleteConserves(l: Bcsp.Link, f: Frame)
    requires Bcsp.QueuesOk(l) && BcspConserved(l) && f.ack < 8
    ensures BcspConserved(Bcsp.Complete(l, f))
  {
    hide Conserved, Bcsp.Deliver, Bcsp.Wakeup;
    if f.reliable {
      var l1 := l.(rxseqTxack := (l.rxseqTxack + 1) % 8, txackReq := true, room := []);
      assert BcspConserved(l1);
      BcspWakeupConserves(l1, l.room);
    }
    var l2 := Bcsp.Accept(l, f).(rxack := f.ack);
    ConservedByCulling(Bcsp.TXWINSIZE, l2.enqueued, l2.unack, l2.rel, l2.msgqTxseq,
                       CullCount(|l2.unack|, l2.msgqTxseq, l2.rxack));
    BcspDeliverConserves(Bcsp.Cull(l2), f);
  }

  lemma BcspStepConserves(l: Bcsp.Link, e: Event<Bcsp.Alloc>)
    requires Bcsp.QueuesOk(l) && BcspConserved(l)
    ensures BcspConserved(BcspStep(l, e))
  {
    hide Conserved, Bcsp.Complete, Bcsp.Wakeup;
    match e
    case Submit(p) => ConservedByQueueing(Bcsp.TXWINSIZE, l.enqueued, l.unack, l.rel, l.msgqTxseq, p);
    case Transmit(room) => BcspWakeupConserves(l, room);
    case Hear(f, _, room) =>
      if f.ack < 8 {
        assert BcspConserved(l.(room := room));
        BcspCompleteConserves(l.(room := room), f);
      }
    case Timeout => ConservedByRewinding(Bcsp.TXWINSIZE, l.enqueued, l.unack, l.rel, l.msgqTxseq);
  }

  /** For any mix of submissions, transmissions, timeouts and arbitrary frames from the other side, no reliable
      packet is lost, duplicated or reordered inside the sender, and at most four are unacknowledged. */
  lemma {:induction false} BcspSenderConserves(l: Bcsp.Link, es: seq<Event<Bcsp.Alloc>>)
    requires Bcsp.QueuesOk(l) && BcspConserved(l)
    ensures BcspConserved(BcspRun(l, es))
    decreases |es|
  {
    if es != [] {
      BcspStepConserves(l, es[0]);
      hide BcspConserved;
      BcspSenderConserves(BcspStep(l, es[0]), es[1..]);
    }
  }

  lemma BcspOpenedConserved()
    ensures Bcsp.QueuesOk(Bcsp.OPENED.link) && BcspConserved(Bcsp.OPENED.link)
  {
  }

  // ---- H5 ----

  ghost predicate H5Conserved(l: H5.Link) {
    Conserved(7, l.enqueued, l.unack, l.rel, l.txSeq)
  }

  function H5Step(l: H5.Link, e: Event<H5.Alloc>): (r: H5.Link)
    requires H5.QueuesOk(l)
    ensures H5.QueuesOk(r)
  {
    match e
    case Submit(p) => H5.Enqueue(l, p)
    case Transmit(room) => H5.Wakeup(l, room)
    case Hear(f, len, room) =>
      if f.ack < 8 && len <= |f.body.data| then
        H5.CompleteOk(l.(room := room), f, len);
        H5.Heard(l.(room := room), f, len)
      else l
    case Timeout => H5.TimedOutOk(l); H5.TimedOut(l)
  }

  function H5Run(l: H5.Link, es: seq<Event<H5.Alloc>>): H5.Link
    requires H5.QueuesOk(l)
    decreases |es|
  {
    if es == [] then l else H5Run(H5Step(l, es[0]), es[1..])
  }

  lemma H5DequeueConserves(l: H5.Link, a: H5.Alloc)
    requires H5.QueuesOk(l) && H5Conserved(l)
    ensures H5Conserved(H5.Dequeued(l, a))
  {
    hide Conserved;
    match H5.Choose(l, a)
    case SendUnrel => assert l.unrel[0] in l.unrel;
    case SendRel =>
      assert l.rel[0] in l.rel;
      ConservedBySending(7, l.enqueued, l.unack, l.rel, l.txSeq);
    case _ =>
  }

  lemma {:induction false} H5WakeupConserves(l: H5.Link, room: seq<H5.Alloc>)
    requires H5.QueuesOk(l) && H5Conserved(l)
    ensures H5Conserved(H5.Wakeup(l, room))
    decreases |room|
  {
    if room != [] {
      H5DequeueConserves(l, room[0]);
      hide Conserved;
      if H5.Choose(l, room[0]) != H5.SendNothing {
        H5WakeupConserves(H5.AfterOne(l, room[0]), room[1..]);
      }
    }
  }

  lemma H5DeliverConserves(l: H5.Link, f: Frame, len: nat)
    requires H5Conserved(l) && len <= |f.body.data|
    ensures H5Conserved(H5.Deliver(l, f, len))
  {
    hide Conserved;
  }

  lemma H5CompleteConserves(l: H5.Link, f: Frame, len: nat)
    requires H5.QueuesOk(l) && H5Conserved(l) && f.ack < 8 && len <= |f.body.data|
    ensures H5Conserved(H5.Complete(l, f, len))
  {
    hide Conserved, H5.Deliver, H5.Wakeup;
    if f.reliable {
      var l1 := l.(txAck := (l.txAck + 1) % 8, txAckReq := true, room := [],
                   taken := l.taken + [Packet(f.body.tag, f.body.data)]);
      assert H5Conserved(l1);
      H5WakeupConserves(l1, l.room);
    }
    var l2 := H5.Accept(l, f).(rxAck := f.ack);
    ConservedByCulling(7, l2.enqueued, l2.unack, l2.rel, l2.txSeq, CullCountU8(|l2.unack|, l2.txSeq, l2.rxAck));
    H5DeliverConserves(H5.Cull(l2), f, len);
  }

  lemma H5StepConserves(l: H5.Link, e: Event<H5.Alloc>)
    requires H5.QueuesOk(l) && H5Conserved(l)
    ensures H5Conserved(H5Step(l, e))
  {
    hide Conserved, H5.Complete, H5.Wakeup;
    match e
    case Submit(p) => ConservedByQueueing(7, l.enqueued, l.unack, l.rel, l.txSeq, p);
    case Transmit(room) => H5WakeupConserves(l, room);
    case Hear(f, len, room) =>
      if f.ack < 8 && len <= |f.body.data| {
        assert H5Conserved(l.(room := room));
        H5CompleteConserves(l.(room := room), f, len);
      }
    case Timeout => ConservedByRewinding(7, l.enqueued, l.unack, l.rel, l.txSeq);
  }

  /** The same for H5, with link establishment, sleep and changes of the window size in between; at most seven
      packets are unacknowledged. */
  lemma {:induction false} H5SenderConserves(l: H5.Link, es: seq<Event<H5.Alloc>>)
    requires H5.QueuesOk(l) && H5Conserved(l)
    ensures H5Conserved(H5Run(l, es))
    decreases |es|
  {
    if es != [] {
      H5StepConserves(l, es[0]);
      hide H5Conserved;
      H5SenderConserves(H5Step(l, es[0]), es[1..]);
    }
  }

  lemma H5OpenedConserved()
    ensures H5.QueuesOk(H5.OPENED) && H5Conserved(H5.OPENED)
  {
  }
}
