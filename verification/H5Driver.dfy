/** struct h5 and the routines that update it in place, each proved to do what its function in H5 or H5Stream says. */
module H5Driver {
  import opened Octets
  import opened GoBackN
  import opened H5
  import opened H5Stream
  import Slip

  class H5Struct {
    var unack: seq<Packet>
    var rel: seq<Packet>
    var unrel: seq<Packet>
    var rxAck: nat
    var txSeq: nat
    var txAck: nat
    var txWin: nat
    var txAckReq: bool
    var state: LinkState
    var sleep: SleepState
    var rxFunc: RxFunc
    var rxPending: nat
    var rxEsc: bool
    var rxSkb: seq<byte>

    // The surroundings: what the line takes at the next wakeup, the bytes and frames given to it, what was
    // accepted, handed up and queued.
    var room: seq<Alloc>
    var line: seq<seq<byte>>
    ghost var written: seq<Frame>
    ghost var taken: seq<Packet>
    var up: seq<Packet>
    ghost var enqueued: seq<Packet>
    var faulted: bool  // set where the model stops: see H5Stream.Receiver

    ghost function LinkView(): Link
      reads this`unack, this`rel, this`unrel, this`rxAck, this`txSeq, this`txAck, this`txWin, this`txAckReq, this`state,
            this`sleep, this`room, this`written, this`taken, this`up, this`enqueued
    {
      Link(unack, rel, unrel, rxAck, txSeq, txAck, txWin, txAckReq, state, sleep, room, written, taken, up, enqueued)
    }

    ghost function RxView(): Receiver
      reads this`rxFunc, this`rxPending, this`rxEsc, this`rxSkb, this`faulted
    {
      Receiver(rxFunc, rxPending, rxEsc, rxSkb, faulted)
    }

    ghost function View(): State
      reads this
    {
      State(LinkView(), RxView())
    }

    /** h5_open */
    constructor ()
      ensures Valid(View()) && RxView() == RESET
      ensures LinkView() == OPENED
    {
      unack, rel, unrel, rxAck, txSeq, txAck := [], [], [Packet(LINK_PKT, SYNC_REQ)], 0, 0, 0;
      txWin, txAckReq := 4, false;
      state, sleep, rxFunc, rxPending, rxEsc, rxSkb := Uninitialized, Awake, RxDelimiter, 0, false, [];
      room, line, written, taken, up, enqueued, faulted := [], [], [], [], [], [], false;
    }

    /** h5_pkt_cull: the counter goes from 0 to 255 in its u8. */
    method PktCull()
      modifies this`unack
      ensures LinkView() == Cull(old(LinkView()))
    {
      var toRemove := |unack|;
      if toRemove == 0 {
        return;
      }
      var s := txSeq;
      while toRemove > 0 && rxAck != s
        invariant 0 <= toRemove <= |unack|
        invariant CullCountU8(toRemove, s, rxAck) == CullCountU8(|unack|, txSeq, rxAck)
        decreases toRemove
      {
        toRemove := toRemove - 1;
        s := BackU8(s);
      }
      var i := 0;
      while unack != [] && i < toRemove
        invariant 0 <= i <= toRemove <= |old(unack)|
        invariant unack == old(unack)[i..]
        decreases toRemove - i
      {
        i := i + 1;
        unack := unack[1..];
      }
    }

    /** h5_timed_event */
    method TimedEvent()
      requires txSeq < 8
      modifies this`unack, this`rel, this`unrel, this`txSeq, this`sleep
      ensures LinkView() == TimedOut(old(LinkView()))
    {
      if state == Uninitialized {
        unrel := unrel + [Packet(LINK_PKT, SYNC_REQ)];
      } else if state == Initialized {
        unrel := unrel + [Packet(LINK_PKT, [0x03, 0xfc, txWin % 8])];
      } else if sleep != Awake {
        sleep := Sleeping;
      } else {
        Rewind();
      }
    }

    /** Its loop: from the tail of the unacknowledged queue to the head of the reliable one. */
    method Rewind()
      requires txSeq < 8
      modifies this`unack, this`rel, this`txSeq
      ensures unack == [] && rel == old(unack + rel) && txSeq == (old(txSeq) - |old(unack)|) % 8
    {
      ghost var n := |unack|;
      while unack != []
        invariant unack + rel == old(unack) + old(rel)
        invariant |unack| <= n && txSeq == (old(txSeq) - (n - |unack|)) % 8
        decreases |unack|
      {
        var skb := unack[|unack| - 1];
        unack := unack[..|unack| - 1];
        txSeq := Back(txSeq);
        rel := [skb] + rel;
      }
    }

    /** h5_enqueue */
    method Submit(skb: Packet)
      modifies this`rel, this`unrel, this`enqueued
      ensures LinkView() == Enqueue(old(LinkView()), skb)
    {
      if |skb.data| > MAX_DATA || state != Active {
        return;
      }
      if skb.kind == HCI_ACLDATA_PKT || skb.kind == HCI_COMMAND_PKT {
        rel := rel + [skb];
        enqueued := enqueued + [skb];
      } else if skb.kind == HCI_SCODATA_PKT {
        unrel := unrel + [skb];
      }
    }

    /** h5_prepare_pkt, its buffer allocated. */
    method PreparePkt(skb: Packet) returns (nskb: seq<byte>)
      requires txAck < 8 && txSeq < 8 && Sendable(skb)
      modifies this`txAckReq, this`txSeq
      ensures LinkView() == Prepared(old(LinkView()), skb)
      ensures Encodable(FrameFor(old(LinkView()), skb)) && nskb == Encode(FrameFor(old(LinkView()), skb))
    {
      hide Encode;
      var seqno := 0;
      txAckReq := false;
      if skb.kind == HCI_ACLDATA_PKT || skb.kind == HCI_COMMAND_PKT {
        seqno := txSeq;
        txSeq := (txSeq + 1) % 8;
      }
      nskb := Build(Frame(Reliable(skb.kind), seqno, txAck, Body(skb.kind, skb.data)));
    }

    /** Its buffer: the header and the payload go through the byte stuffer. */
    static method Build(f: Frame) returns (nskb: seq<byte>)
      requires Encodable(f)
      ensures nskb == Encode(f)
    {
      var len := |f.body.data|;
      var h0 := 8 * f.ack;
      if f.reliable {
        h0 := h0 + 128 + f.seqno;
      }
      var h1 := f.body.tag + 16 * (len % 16);
      var h2 := len / 16;
      var hdr: seq<byte> := [h0, h1, h2, 255 - (h0 + h1 + h2) % 256];
      assert hdr == Header(f);
      hide Header, Slip.Stuff;
      nskb := StuffOut([Slip.DELIM], hdr);
      nskb := StuffOut(nskb, f.body.data);
      Slip.StuffAppend(hdr, f.body.data);
      nskb := nskb + [Slip.DELIM];
    }

    /** Its byte loop, for the header and for the payload. */
    static method StuffOut(nskb: seq<byte>, bs: seq<byte>) returns (r: seq<byte>)
      ensures r == nskb + Slip.Stuff(bs)
    {
      r := nskb;
      var i := 0;
      while i < |bs|
        invariant 0 <= i <= |bs|
        invariant r == nskb + Slip.Stuff(bs[..i])
      {
        assert bs[..i + 1] == bs[..i] + [bs[i]];
        Slip.StuffAppend(bs[..i], [bs[i]]);
        r := r + Slip.StuffByte(bs[i]);
        i := i + 1;
      }
      assert bs[..i] == bs;
    }

    /** What h5_dequeue returns for the packet it chose. */
    ghost predicate Carries(l: Link, a: Alloc, nskb: seq<byte>)
      requires Choose(l, a) != SendNothing
    {
      var f := FrameFor(l, Chosen(l, a));
      Encodable(f) && nskb == Encode(f)
    }

    /** h5_dequeue */
    method Dequeue(a: Alloc) returns (nskb: Option<seq<byte>>)
      requires QueuesOk(LinkView())
      modifies this`unack, this`rel, this`unrel, this`txAckReq, this`txSeq, this`sleep
      ensures LinkView() == Dequeued(old(LinkView()), a)
      ensures nskb.None? <==> Choose(old(LinkView()), a) == SendNothing
      ensures nskb.Some? ==> Carries(old(LinkView()), a, nskb.value)
    {
      hide QueuesOk, Carries, Dequeued;
      if sleep == Awake && |unrel| > 0 && a.first {
        var bytes := DequeueUnrel(a);
        return Some(bytes);
      }
      if sleep == Awake && |unack| < txWin && |rel| > 0 && a.rel {
        var bytes := DequeueRel(a);
        return Some(bytes);
      }
      if sleep == Awake && txAckReq && a.ack {
        var bytes := DequeueAck(a);
        return Some(bytes);
      }
      if sleep == Sleeping && a.first {
        var bytes := DequeueWakeup(a);
        return Some(bytes);
      }
      NothingDequeued(LinkView(), a);
      if sleep == Sleeping {
        sleep := WakingUp;
      }
      return None;
    }

    method DequeueWakeup(a: Alloc) returns (nskb: seq<byte>)
      requires QueuesOk(LinkView()) && Choose(LinkView(), a) == SendWakeup
      modifies this`txAckReq, this`txSeq, this`sleep
      ensures LinkView() == Dequeued(old(LinkView()), a) && Carries(old(LinkView()), a, nskb)
    {
      HeadsSendable(LinkView());
      hide QueuesOk, Encode, Encodable;
      sleep := WakingUp;
      nskb := PreparePkt(WAKEUP);
    }

    method DequeueUnrel(a: Alloc) returns (nskb: seq<byte>)
      requires QueuesOk(LinkView()) && Choose(LinkView(), a) == SendUnrel
      modifies this`unrel, this`txAckReq, this`txSeq
      ensures LinkView() == Dequeued(old(LinkView()), a) && Carries(old(LinkView()), a, nskb)
    {
      HeadsSendable(LinkView());
      hide QueuesOk, Encode, Encodable;
      var skb := unrel[0];
      unrel := unrel[1..];
      nskb := PreparePkt(skb);
    }

    method DequeueRel(a: Alloc) returns (nskb: seq<byte>)
      requires QueuesOk(LinkView()) && Choose(LinkView(), a) == SendRel
      modifies this`rel, this`unack, this`txAckReq, this`txSeq
      ensures LinkView() == Dequeued(old(LinkView()), a) && Carries(old(LinkView()), a, nskb)
    {
      HeadsSendable(LinkView());
      hide QueuesOk, Encode, Encodable;
      var skb := rel[0];
      rel := rel[1..];
      nskb := PreparePkt(skb);
      unack := unack + [skb];
    }

    method DequeueAck(a: Alloc) returns (nskb: seq<byte>)
      requires QueuesOk(LinkView()) && Choose(LinkView(), a) == SendAck
      modifies this`txAckReq, this`txSeq
      ensures LinkView() == Dequeued(old(LinkView()), a) && Carries(old(LinkView()), a, nskb)
    {
      HeadsSendable(LinkView());
      hide QueuesOk, Encode, Encodable;
      nskb := PreparePkt(ACK);
    }

    /** The sending loop of hci_uart_tx_wakeup. */
    method TxWakeup(plan: seq<Alloc>)
      requires QueuesOk(LinkView())
      modifies this`unack, this`rel, this`unrel, this`txAckReq, this`txSeq, this`sleep, this`line, this`written
      ensures LinkView() == Wakeup(old(LinkView()), plan)
    {
      hide QueuesOk, Carries, Dequeued, Choose;
      var i := 0;
      assert plan[i..] == plan;
      while i < |plan|
        invariant 0 <= i <= |plan|
        invariant QueuesOk(LinkView())
        invariant Wakeup(LinkView(), plan[i..]) == Wakeup(old(LinkView()), plan)
      {
        ghost var l := LinkView();
        assert plan[i..][1..] == plan[i + 1..] && plan[i..][0] == plan[i];
        var nskb := Dequeue(plan[i]);
        if nskb.None? {
          return;
        }
        line := line + [nskb.value];
        written := written + [FrameFor(l, Chosen(l, plan[i]))];
        assert LinkView() == AfterOne(l, plan[i]);
        i := i + 1;
      }
    }

    /** h5_handle_internal_rx; `len` is the length that the header gives. */
    method HandleInternalRx(b: Body, len: nat)
      requires len <= |b.data|
      modifies this`unrel, this`state, this`txWin, this`sleep
      ensures LinkView() == Internal(old(LinkView()), b, len)
    {
      if b.tag != LINK_PKT || len < 2 {
        return;
      }
      var m := b.data[..2];
      var conf: seq<byte> := [0x03, 0xfc, txWin % 8];
      if m == SYNC_REQ {
        unrel := unrel + [Packet(LINK_PKT, SYNC_RSP)];
      } else if m == SYNC_RSP {
        state := Initialized;
        unrel := unrel + [Packet(LINK_PKT, conf)];
      } else if m == conf[..2] {
        unrel := unrel + [Packet(LINK_PKT, CONF_RSP)];
        unrel := unrel + [Packet(LINK_PKT, conf)];
      } else if m == CONF_RSP {
        if len > 2 {
          txWin := b.data[2] % 8;
        }
        state := Active;
      } else if m == SLEEP_REQ {
        sleep := Sleeping;
      } else if m == WOKEN_REQ {
        sleep := Awake;
      } else if m == WAKEUP_REQ {
        unrel := unrel + [Packet(LINK_PKT, WOKEN_REQ)];
        sleep := Awake;
      }
    }

    /** h5_complete_rx_pkt, up to the reset of the receiver. */
    method CompleteRxPkt(f: Frame, len: nat)
      requires QueuesOk(LinkView()) && len <= |f.body.data|
      modifies this`unack, this`rel, this`unrel, this`txAckReq, this`txSeq, this`sleep, this`line, this`written,
               this`txAck, this`room, this`taken, this`rxAck, this`up, this`state, this`txWin
      ensures LinkView() == Complete(old(LinkView()), f, len)
    {
      ghost var l := LinkView();
      hide Cull, Wakeup, Internal;
      if f.reliable {
        txAck := (txAck + 1) % 8;
        txAckReq := true;
        var plan := room;
        room := [];
        taken := taken + [Packet(f.body.tag, f.body.data)];
        TxWakeup(plan);
      }
      assert LinkView() == Accept(l, f);
      hide Accept;
      rxAck := f.ack;
      PktCull();
      if HandsUp(f.body.tag) {
        up := up + [Packet(f.body.tag, f.body.data)];
      } else {
        HandleInternalRx(f.body, len);
      }
    }

    /** h5_unslip_one_byte */
    method UnslipOneByte(c: byte)
      requires rxPending > 0 && !faulted
      modifies this`rxSkb, this`rxPending, this`rxEsc, this`rxFunc
      ensures RxView() == Unslip(old(RxView()), c)
    {
      var b := c;
      if !rxEsc && c == Slip.ESC {
        rxEsc := true;
        return;
      }
      if rxEsc {
        rxEsc := false;
        if c == Slip.ESC_DELIM {
          b := Slip.DELIM;
        } else if c == Slip.ESC_ESC {
          b := Slip.ESC;
        } else {
          ResetRx();
          return;
        }
      }
      rxSkb := rxSkb + [b];
      rxPending := rxPending - 1;
    }

    /** h5_reset_rx */
    method ResetRx()
      requires !faulted
      modifies this`rxSkb, this`rxPending, this`rxEsc, this`rxFunc
      ensures RxView() == RESET
    {
      rxFunc, rxPending, rxEsc, rxSkb := RxDelimiter, 0, false, [];
    }

    /** h5_rx_3wire_hdr, h5_rx_payload, h5_rx_crc */
    method Transition()
      requires Valid(View()) && rxPending == 0 && !faulted
      requires rxFunc.Rx3WireHdr? || rxFunc.RxPayload? || rxFunc.RxCrc?
      modifies this
      ensures View() == Settle(old(View()))
    {
      hide Complete, QueuesOk, H5Struct.LinkView;
      LinkFields();
      if rxFunc == Rx3WireHdr {
        if !ChecksumOk(rxSkb) || (rxSkb[0] >= 128 && rxSkb[0] % 8 != txAck) {
          ResetRx();
        } else if state != Active && rxSkb[1] % 16 != LINK_PKT {
          faulted := true;
        } else {
          rxFunc := RxPayload;
          rxPending := PayloadLen(rxSkb);
        }
      } else if rxFunc == RxPayload && HasCrc(rxSkb) {
        rxFunc := RxCrc;
        rxPending := 2;
      } else {
        CompleteRxPkt(FrameIn(rxSkb), PayloadLen(rxSkb));
        ResetRx();
      }
    }

    lemma LinkFields()
      ensures LinkView().txAck == txAck && LinkView().state == state
    {
    }

    /** h5_recv: one turn of the loop consumes a byte or moves the state machine on. */
    method Receive(data: seq<byte>, grants: nat)
      requires Valid(View())
      modifies this
      ensures Valid(View())
      ensures View() == Recv(old(View()), data, grants)
    {
      hide Byte, Settle, Recv, Valid;
      var i, left := 0, grants;
      assert data[i..] == data;
      while i < |data|
        invariant 0 <= i <= |data|
        invariant Valid(View())
        invariant Recv(View(), data[i..], left) == Recv(old(View()), data, grants)
        decreases |data| - i, Rank(RxView())
      {
        var c := data[i];
        assert data[i..] == [c] + data[i + 1..];
        if faulted {
          FaultedStays(View(), data[i..], left);
          return;
        }
        if rxPending == 0 && rxFunc == RxPktStart && c != Slip.DELIM && left == 0 {
          DropsRest(View(), c, data[i + 1..]);
          ResetRx();
          return;
        }
        var used, buffers := Turn(c, left, data[i + 1..]);
        i, left := i + used, left - buffers;
      }
      assert data[i..] == [];
      NothingLeft(View(), left);
    }

    /** One turn of its loop: it consumes a byte, or takes a buffer, or moves the state machine on. (A delimiter in
        the middle of a packet resets the receiver and is consumed by the turn after; here the two are one.) */
    method Turn(c: byte, left: nat, ghost rest: seq<byte>) returns (used: nat, buffers: nat)
      requires Valid(View()) && !faulted && (NeedsBuffer(View(), c) ==> left > 0)
      modifies this
      ensures Valid(View())
      ensures used <= 1 && buffers <= left
      ensures used == 1 || Rank(RxView()) < old(Rank(RxView()))
      ensures Recv(View(), if used == 1 then rest else [c] + rest, left - buffers) == Recv(old(View()), [c] + rest, left)
    {
      hide Byte, Settle, Recv, Valid, H5Struct.View, H5Struct.LinkView, H5Struct.RxView;
      ghost var s := View();
      RxFields();
      used, buffers := 0, 0;
      if rxPending > 0 || rxFunc == RxDelimiter || (rxFunc == RxPktStart && c == Slip.DELIM) {
        Consume(c);
        used := 1;
        ConsumesByte(s, c, rest, left);
      } else if rxFunc == RxPktStart {
        TakeBuffer();
        RxFields();
        buffers := 1;
        StartsPacket(s, c, rest, left - 1);
      } else {
        Transition();
        RxFields();
        SettlesFirst(s, c, rest, left);
      }
    }

    /** A packet starts. */
    method TakeBuffer()
      requires !faulted
      modifies this`rxFunc, this`rxPending, this`rxEsc, this`rxSkb
      ensures View() == old(View()).(rx := STARTED)
    {
      hide H5Struct.LinkView;
      rxFunc, rxPending, rxEsc, rxSkb := Rx3WireHdr, 4, false, [];
    }

    lemma RxFields()
      ensures View().rx == RxView() && View().link == LinkView()
      ensures RxView().pending == rxPending && RxView().func == rxFunc && RxView().faulted == faulted
    {
    }

    /** The turns that use up a byte. */
    method Consume(c: byte)
      requires Valid(View()) && !faulted
      requires rxPending > 0 || rxFunc == RxDelimiter || (rxFunc == RxPktStart && c == Slip.DELIM)
      modifies this`rxSkb, this`rxPending, this`rxEsc, this`rxFunc
      ensures View() == Byte(old(View()), c)
    {
      if rxPending > 0 {
        if c == Slip.DELIM {
          ResetRx();
          rxFunc := RxPktStart;
        } else {
          UnslipOk(LinkView(), RxView(), c);
          UnslipOneByte(c);
        }
      } else if rxFunc == RxDelimiter && c == Slip.DELIM {
        rxFunc := RxPktStart;
      }
    }
  }

  lemma NothingDequeued(l: Link, a: Alloc)
    requires Choose(l, a) == SendNothing
    ensures Dequeued(l, a) == if l.sleep == Sleeping then l.(sleep := WakingUp) else l
  {
  }

  lemma HeadsSendable(l: Link)
    requires QueuesOk(l)
    ensures l.unrel != [] ==> Sendable(l.unrel[0]) && !Reliable(l.unrel[0].kind)
    ensures l.rel != [] ==> Sendable(l.rel[0]) && Reliable(l.rel[0].kind)
    ensures Sendable(ACK) && Sendable(WAKEUP) && l.txAck < 8 && l.txSeq < 8
  {
    assert l.unrel != [] ==> l.unrel[0] in l.unrel;
    assert l.rel != [] ==> l.rel[0] in l.rel;
  }

  // ---- What one turn of the receive loop means for the bytes still to come ----

  lemma StartsPacket(s: State, c: byte, rest: seq<byte>, left: nat)
    requires Valid(s) && NeedsBuffer(s, c)
    ensures Valid(s.(rx := STARTED))
    ensures Recv(s, [c] + rest, left + 1) == Recv(s.(rx := STARTED), [c] + rest, left)
  {
    assert ([c] + rest)[1..] == rest;
    assert Byte(s, c) == Byte(s.(rx := STARTED), c);
  }

  lemma DropsRest(s: State, c: byte, rest: seq<byte>)
    requires Valid(s) && NeedsBuffer(s, c)
    ensures Valid(s.(rx := RESET)) && Recv(s, [c] + rest, 0) == s.(rx := RESET)
  {
  }

  lemma NothingLeft(s: State, left: nat)
    requires Valid(s)
    ensures Recv(s, [], left) == s
  {
  }

  lemma ConsumesByte(s: State, c: byte, rest: seq<byte>, left: nat)
    requires Valid(s) && !NeedsBuffer(s, c)
    ensures Recv(s, [c] + rest, left) == Recv(Byte(s, c), rest, left)
  {
    hide Byte;
    assert ([c] + rest)[1..] == rest;
  }

  lemma SettlesFirst(s: State, c: byte, rest: seq<byte>, left: nat)
    requires Valid(s) && s.rx.pending == 0 && !s.rx.faulted
    requires s.rx.func.Rx3WireHdr? || s.rx.func.RxPayload? || s.rx.func.RxCrc?
    ensures Recv(s, [c] + rest, left) == Recv(Settle(s), [c] + rest, left)
  {
    NeverStarts(s);
    hide Settle;
    assert Byte(s, c) == Byte(Settle(s), c);
  }

  lemma NeverStarts(s: State)
    requires Valid(s) && s.rx.pending == 0 && !s.rx.faulted
    requires s.rx.func.Rx3WireHdr? || s.rx.func.RxPayload? || s.rx.func.RxCrc?
    ensures Settle(s).rx.func != RxPktStart
  {
  }
}
