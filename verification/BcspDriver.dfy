/** struct bcsp_struct and the routines that update it in place, loop by loop, each proved to do what its
    function in module Bcsp says. */
module BcspDriver {
  import opened Octets
  import opened GoBackN
  import opened Bcsp
  import Slip
  import BcspCrc

  class BcspStruct {
    var unack: seq<Packet>
    var rel: seq<Packet>
    var unrel: seq<Packet>
    var rxCount: nat
    var rxSkb: seq<byte>
    var rxseqTxack: nat
    var rxack: nat
    var rxState: RxState
    var rxEscState: bool
    var messageCrc: BcspCrc.Word
    var txackReq: bool
    var msgqTxseq: nat
    const useCrc: bool

    // The surroundings: what the line takes at the next wakeup, what it was given, what was handed up.
    var room: seq<Alloc>
    var written: seq<seq<byte>>
    var upRel: seq<Packet>
    var upUnrel: seq<Packet>
    ghost var enqueued: seq<Packet>

    ghost function LinkView(): Link
      reads this`unack, this`rel, this`unrel, this`rxseqTxack, this`rxack, this`txackReq, this`msgqTxseq, this`room,
            this`written, this`upRel, this`upUnrel, this`enqueued
    {
      Link(unack, rel, unrel, rxseqTxack, rxack, txackReq, msgqTxseq, useCrc,
           room, written, upRel, upUnrel, enqueued)
    }

    ghost function RxView(): Receiver
      reads this`rxState, this`rxCount, this`rxEscState, this`rxSkb, this`messageCrc
    {
      Receiver(rxState, rxCount, rxEscState, rxSkb, messageCrc)
    }

    ghost function View(): State
      reads this
    {
      State(LinkView(), RxView())
    }

    /** bcsp_open */
    constructor (crc: bool)
      ensures View() == OPENED.(link := OPENED.link.(useCrc := crc))
      ensures Valid(View())
    {
      unack, rel, unrel := [], [], [];
      rxCount, rxSkb, rxseqTxack, rxack := 0, [], 0, 0;
      rxState, rxEscState, messageCrc := W4PktDelimiter, false, BcspCrc.NIL;
      txackReq, msgqTxseq, useCrc := false, 0, crc;
      room, written, upRel, upUnrel, enqueued := [], [], [], [], [];
    }

    /** bcsp_enqueue */
    method Submit(skb: Packet)
      requires QueuesOk(LinkView())
      modifies this
      ensures LinkView() == Enqueue(old(LinkView()), skb) && RxView() == old(RxView())
      ensures QueuesOk(LinkView())
    {
      if |skb.data| > MAX_DATA {
        return;
      }
      if skb.kind == HCI_ACLDATA_PKT || skb.kind == HCI_COMMAND_PKT {
        rel := rel + [skb];
        enqueued := enqueued + [skb];
      } else if skb.kind == HCI_SCODATA_PKT {
        unrel := unrel + [skb];
      }
    }

    /** bcsp_prepare_pkt, its buffer allocated. */
    method PreparePkt(skb: Packet) returns (nskb: seq<byte>)
      requires rxseqTxack < 8 && msgqTxseq < 8 && Sendable(skb)
      modifies this`txackReq, this`msgqTxseq
      ensures LinkView() == Prepared(old(LinkView()), skb)
      ensures Encodable(FrameFor(old(LinkView()), skb))
      ensures nskb == Encode(FrameFor(old(LinkView()), skb), useCrc)
    {
      hide Encode;
      var seqno := 0;
      txackReq := false;
      if Reliable(skb.kind) {
        seqno := msgqTxseq;
        msgqTxseq := (msgqTxseq + 1) % 8;
      }
      nskb := Build(Frame(Reliable(skb.kind), seqno, rxseqTxack, Body(Chan(skb.kind).value, skb.data)));
    }

    /** The header, the payload and the CRC go through the byte stuffer one byte at a time. */
    method Build(f: Frame) returns (nskb: seq<byte>)
      requires Encodable(f)
      ensures nskb == Encode(f, useCrc)
    {
      var len := |f.body.data|;
      var h0 := 8 * f.ack;
      if f.reliable {
        h0 := h0 + 128 + f.seqno;
      }
      if useCrc {
        h0 := h0 + 64;
      }
      var h1 := 16 * (len % 16) + f.body.tag;
      var h2 := len / 16;
      var hdr: seq<byte> := [h0, h1, h2, 255 - (h0 + h1 + h2) % 256];
      assert hdr == Header(f, useCrc);
      BcspCrc.CrcAppend(BcspCrc.CRC_INIT, hdr, f.body.data);
      EncodeParts(f, useCrc);
      hide Header, Encode, Slip.Stuff, BcspCrc.Crc, BcspCrc.Bitrev16, BcspCrc.SplitBe16;
      var crc := BcspCrc.CRC_INIT;
      nskb, crc := StuffOut([Slip.DELIM], hdr, crc);
      nskb, crc := StuffOut(nskb, f.body.data, crc);
      var t: seq<byte> := [];
      if useCrc {
        t := BcspCrc.SplitBe16(BcspCrc.Bitrev16(crc));
      }
      nskb, crc := StuffOut(nskb, t, crc);
      nskb := nskb + [Slip.DELIM];
    }

    /** The byte loop that bcsp_prepare_pkt repeats for header, payload and CRC. */
    method StuffOut(nskb: seq<byte>, bs: seq<byte>, crc: BcspCrc.Word) returns (r: seq<byte>, c: BcspCrc.Word)
      ensures r == nskb + Slip.Stuff(bs)
      ensures c == if useCrc then BcspCrc.Crc(crc, bs) else crc
    {
      hide Slip.Stuff, BcspCrc.Crc, BcspCrc.Update, Slip.StuffByte;
      r, c := nskb, crc;
      var i := 0;
      StuffNothing(crc);
      while i < |bs|
        invariant 0 <= i <= |bs|
        invariant r == nskb + Slip.Stuff(bs[..i])
        invariant c == if useCrc then BcspCrc.Crc(crc, bs[..i]) else crc
      {
        StuffOneMore(bs, i);
        BcspCrc.CrcOneMore(crc, bs, i);
        r := r + Slip.StuffByte(bs[i]);
        if useCrc {
          c := BcspCrc.Update(c, bs[i]);
        }
        i := i + 1;
      }
      assert bs[..i] == bs;
    }

    /** bcsp_dequeue */
    method Dequeue(a: Alloc) returns (nskb: Option<seq<byte>>)
      requires QueuesOk(LinkView())
      modifies this`unack, this`rel, this`unrel, this`txackReq, this`msgqTxseq
      ensures LinkView() == Dequeued(old(LinkView()), a)
      ensures QueuesOk(LinkView())
      ensures nskb == if Choose(old(LinkView()), a) == SendNothing then None
                      else Some(Encode(Outgoing(old(LinkView()), a), useCrc))
    {
      DequeuedOk(LinkView(), a);
      hide QueuesOk, Encode, Encodable, Prepared, FrameFor, Dequeued, Outgoing;
      if |unrel| > 0 && a.unrel {
        var bytes := DequeueUnrel(a);
        return Some(bytes);
      }
      if |unack| < TXWINSIZE && |rel| > 0 && a.rel {
        var bytes := DequeueRel(a);
        return Some(bytes);
      }
      if txackReq && a.ack {
        var bytes := DequeueAck(a);
        return Some(bytes);
      }
      NothingDequeued(LinkView(), a);
      return None;
    }

    method DequeueUnrel(a: Alloc) returns (nskb: seq<byte>)
      requires QueuesOk(LinkView()) && Choose(LinkView(), a) == SendUnrel
      modifies this`unrel, this`txackReq, this`msgqTxseq
      ensures LinkView() == Dequeued(old(LinkView()), a)
      ensures nskb == Encode(Outgoing(old(LinkView()), a), useCrc)
    {
      ghost var l := LinkView();
      HeadsSendable(l);
      hide QueuesOk, Encode, Encodable;
      var skb := unrel[0];
      unrel := unrel[1..];
      nskb := PreparePkt(skb);
    }

    method DequeueRel(a: Alloc) returns (nskb: seq<byte>)
      requires QueuesOk(LinkView()) && Choose(LinkView(), a) == SendRel
      modifies this`rel, this`unack, this`txackReq, this`msgqTxseq
      ensures LinkView() == Dequeued(old(LinkView()), a)
      ensures nskb == Encode(Outgoing(old(LinkView()), a), useCrc)
    {
      ghost var l := LinkView();
      HeadsSendable(l);
      RelDequeued(l, a);
      hide QueuesOk, Encode, Encodable, Choose, Dequeued, Outgoing, FrameFor;
      var skb := rel[0];
      rel := rel[1..];
      nskb := PreparePkt(skb);
      unack := unack + [skb];
    }

    method DequeueAck(a: Alloc) returns (nskb: seq<byte>)
      requires QueuesOk(LinkView()) && Choose(LinkView(), a) == SendAck
      modifies this`txackReq, this`msgqTxseq
      ensures LinkView() == Dequeued(old(LinkView()), a)
      ensures nskb == Encode(Outgoing(old(LinkView()), a), useCrc)
    {
      HeadsSendable(LinkView());
      hide QueuesOk, Encode, Encodable;
      nskb := PreparePkt(ACK);
    }

    /** The sending loop of hci_uart_tx_wakeup. */
    method TxWakeup(plan: seq<Alloc>)
      requires QueuesOk(LinkView())
      modifies this`unack, this`rel, this`unrel, this`txackReq, this`msgqTxseq, this`written
      ensures LinkView() == Wakeup(old(LinkView()), plan)
      ensures QueuesOk(LinkView())
    {
      hide QueuesOk, Encode, Outgoing, Choose;
      var i := 0;
      while i < |plan|
        invariant 0 <= i <= |plan|
        invariant QueuesOk(LinkView())
        invariant Wakeup(LinkView(), plan[i..]) == Wakeup(old(LinkView()), plan)
      {
        ghost var before := LinkView();
        assert plan[i..][1..] == plan[i + 1..] && plan[i..][0] == plan[i];
        var nskb := Dequeue(plan[i]);
        if nskb.None? {
          assert LinkView() == before;
          return;
        }
        written := written + [nskb.value];
        assert LinkView() == AfterOne(before, plan[i]);
        i := i + 1;
      }
    }

    /** bcsp_pkt_cull: count back from the next number to the acknowledged one, then unlink from the front. */
    method PktCull()
      modifies this`unack
      ensures LinkView() == Cull(old(LinkView()))
    {
      var pktsToBeRemoved := |unack|;
      var seqno := msgqTxseq;
      while pktsToBeRemoved > 0 && rxack != seqno
        invariant 0 <= pktsToBeRemoved <= |unack|
        invariant CullCount(pktsToBeRemoved, seqno, rxack) == CullCount(|unack|, msgqTxseq, rxack)
        decreases pktsToBeRemoved
      {
        pktsToBeRemoved := pktsToBeRemoved - 1;
        seqno := Back(seqno);
      }
      var i := 0;
      while unack != [] && i < pktsToBeRemoved
        invariant 0 <= i <= pktsToBeRemoved <= |old(unack)|
        invariant unack == old(unack)[i..]
        decreases pktsToBeRemoved - i
      {
        i := i + 1;
        unack := unack[1..];
      }
    }

    /** bcsp_timed_event: from the tail of the unacknowledged queue to the head of the reliable one. */
    method TimedEvent()
      requires msgqTxseq < 8
      modifies this`unack, this`rel, this`msgqTxseq
      ensures LinkView() == TimedOut(old(LinkView()))
    {
      ghost var n := |unack|;
      while unack != []
        invariant unack + rel == old(unack) + old(rel)
        invariant |unack| <= n && msgqTxseq == (old(msgqTxseq) - (n - |unack|)) % 8
        decreases |unack|
      {
        var skb := unack[|unack| - 1];
        unack := unack[..|unack| - 1];
        msgqTxseq := Back(msgqTxseq);
        rel := [skb] + rel;
      }
    }

    /** bcsp_unslip_one_byte */
    method UnslipOneByte(c: byte)
      requires rxCount > 0
      modifies this`rxSkb, this`rxCount, this`rxEscState, this`rxState, this`messageCrc
      ensures RxView() == Unslip(old(RxView()), c)
    {
      if !rxEscState {
        if c == Slip.ESC {
          rxEscState := true;
        } else {
          PutByte(c);
        }
      } else if c == Slip.ESC_DELIM {
        PutByte(Slip.DELIM);
      } else if c == Slip.ESC_ESC {
        PutByte(Slip.ESC);
      } else {
        rxState := W4PktDelimiter;
        rxCount := 0;
      }
    }

    /** The lines that bcsp_unslip_one_byte repeats for each stored byte. */
    method PutByte(c: byte)
      requires rxCount > 0
      modifies this`rxSkb, this`rxCount, this`rxEscState, this`messageCrc
      ensures RxView() == Put(old(RxView()), c)
    {
      rxSkb := rxSkb + [c];
      if HasCrc(rxSkb) && rxState != W4Crc {
        messageCrc := BcspCrc.Update(messageCrc, c);
      }
      rxEscState := false;
      rxCount := rxCount - 1;
    }

    /** bcsp_complete_rx_pkt, on the frame in the receive buffer. */
    method CompleteRxPkt(f: Frame)
      requires QueuesOk(LinkView())
      modifies this`unack, this`rel, this`unrel, this`txackReq, this`msgqTxseq, this`written, this`rxseqTxack, this`room,
               this`rxack, this`upRel, this`upUnrel, this`rxState, this`rxSkb
      ensures LinkView() == Complete(old(LinkView()), f)
      ensures rxState == W4PktDelimiter && rxSkb == []
    {
      ghost var l := LinkView();
      hide QueuesOk, Accept, Cull, Deliver;
      AcceptPkt(f);
      rxack := f.ack;
      assert LinkView() == Accept(l, f).(rxack := f.ack);
      PktCull();
      HandUp(f);
      rxState := W4PktDelimiter;
      rxSkb := [];
    }

    /** Its first part: an accepted reliable packet is acknowledged at once, if the line has room. */
    method AcceptPkt(f: Frame)
      requires QueuesOk(LinkView())
      modifies this`unack, this`rel, this`unrel, this`txackReq, this`msgqTxseq, this`written, this`rxseqTxack, this`room
      ensures LinkView() == Accept(old(LinkView()), f)
    {
      hide Wakeup;
      if f.reliable {
        rxseqTxack := (rxseqTxack + 1) % 8;
        txackReq := true;
        var plan := room;
        room := [];
        TxWakeup(plan);
      }
    }

    /** Its last part: the channel decides who gets the packet. */
    method HandUp(f: Frame)
      modifies this`upRel, this`upUnrel, this`unrel
      ensures LinkView() == Deliver(old(LinkView()), f)
    {
      match HandedUp(f) {
        case Some(p) =>
          if f.reliable {
            upRel := upRel + [p];
          } else {
            upUnrel := upUnrel + [p];
          }
        case None =>
          if f.body.tag == 1 && !f.reliable && f.body.data == CONF_PKT {
            unrel := [Packet(BCSP_LE_PKT, CONF_RSP_PKT)] + unrel;
          }
      }
    }

    /** bcsp_recv */
    method Receive(data: seq<byte>, grants: nat)
      requires Valid(View())
      modifies this
      ensures Valid(View())
      ensures View() == Recv(old(View()), data, grants)
    {
      hide Byte, Settle, Recv, Valid, Rank, BcspStruct.View, BcspStruct.LinkView, BcspStruct.RxView, NeedsBuffer;
      var i, left := 0, grants;
      assert data[i..] == data;
      while i < |data|
        invariant 0 <= i <= |data|
        invariant Valid(View())
        invariant Recv(View(), data[i..], left) == Recv(old(View()), data, grants)
        decreases |data| - i, Rank(RxView())
      {
        var c := data[i];
        HeadAndTail(data, i);
        if NeedsBufferNow(c) && left == 0 {
          DropsRest(View(), c, data[i + 1..]);
          DropCall();
          return;
        }
        var used, buffers := Turn(c, left, data[i + 1..]);
        i, left := i + used, left - buffers;
      }
      assert data[i..] == [];
      NothingLeft(View(), left);
    }

    /** No buffer could be had for a packet. */
    method DropCall()
      modifies this`rxState, this`rxCount, this`rxEscState, this`rxSkb, this`messageCrc
      ensures View() == old(View()).(rx := Receiver(W4PktDelimiter, 0, false, [], BcspCrc.CRC_INIT))
    {
      hide BcspStruct.LinkView;
      rxState, rxCount, rxEscState, rxSkb, messageCrc := W4PktDelimiter, 0, false, [], BcspCrc.CRC_INIT;
    }

    predicate NeedsBufferNow(c: byte)
      reads this
      ensures NeedsBufferNow(c) == NeedsBuffer(View(), c)
    {
      rxCount == 0 && rxState == W4PktStart && c != Slip.DELIM
    }

    /** One turn of its loop: it consumes a byte, or takes a buffer, or moves the state machine on. */
    method Turn(c: byte, left: nat, ghost rest: seq<byte>) returns (used: nat, buffers: nat)
      requires Valid(View()) && (NeedsBuffer(View(), c) ==> left > 0)
      modifies this
      ensures Valid(View())
      ensures used <= 1 && buffers <= left
      ensures used == 1 || Rank(RxView()) < old(Rank(RxView()))
      ensures Recv(View(), if used == 1 then rest else [c] + rest, left - buffers) == Recv(old(View()), [c] + rest, left)
    {
      hide Byte, Settle, Recv, Valid, BcspStruct.View, BcspStruct.LinkView, BcspStruct.RxView;
      ghost var s := View();
      RxFields();
      used, buffers := 0, 0;
      if NeedsBufferNow(c) {
        TakeBuffer();
        RxFields();
        buffers := 1;
        StartsPacket(s, c, rest, left - 1);
      } else if rxCount > 0 || rxState == W4PktDelimiter || rxState == W4PktStart {
        Consume(c);
        used := 1;
        ConsumesByte(s, c, rest, left);
      } else {
        Transition();
        RxFields();
        SettlesFirst(s, c, rest, left);
      }
    }

    /** A packet starts. */
    method TakeBuffer()
      modifies this`rxState, this`rxCount, this`rxEscState, this`rxSkb, this`messageCrc
      ensures View() == old(View()).(rx := Receiver(W4BcspHdr, 4, false, [], BcspCrc.CRC_INIT))
    {
      hide BcspStruct.LinkView;
      rxState, rxCount, rxEscState := W4BcspHdr, 4, false;
      messageCrc := BcspCrc.CRC_INIT;
      rxSkb := [];
    }

    lemma RxFields()
      ensures View().rx == RxView() && View().link == LinkView()
      ensures RxView().count == rxCount && RxView().state == rxState
    {
    }

    /** The turns that use up a byte. */
    method Consume(c: byte)
      requires Valid(View())
      requires rxCount > 0 || rxState == W4PktDelimiter || (rxState == W4PktStart && c == Slip.DELIM)
      modifies this`rxSkb, this`rxCount, this`rxEscState, this`rxState, this`messageCrc
      ensures View() == Byte(old(View()), c)
    {
      hide BcspStruct.LinkView, Unslip;
      if rxCount > 0 {
        UnslipOk(LinkView(), RxView(), c);
        if c == Slip.DELIM {
          rxState := W4PktStart;
          rxCount := 0;
        } else {
          UnslipOneByte(c);
        }
      } else if rxState == W4PktDelimiter && c == Slip.DELIM {
        rxState := W4PktStart;
      }
    }

    /** The turns that look at the state alone. */
    method Transition()
      requires Valid(View()) && rxCount == 0
      requires rxState.W4BcspHdr? || rxState.W4Data? || rxState.W4Crc?
      modifies this
      ensures View() == Settle(old(View()))
    {
      hide Complete, QueuesOk, BcspCrc.Bitrev16, BcspCrc.Be16, FrameIn;
      if rxState == W4BcspHdr {
        if !ChecksumOk(rxSkb) || (rxSkb[0] >= 128 && rxSkb[0] % 8 != rxseqTxack) {
          rxState := W4PktDelimiter;
        } else {
          rxState := W4Data;
          rxCount := PayloadLen(rxSkb);
        }
      } else if rxState == W4Data {
        if HasCrc(rxSkb) {
          rxState := W4Crc;
          rxCount := 2;
        } else {
          CompleteRxPkt(FrameIn(rxSkb));
        }
      } else {
        var n := |rxSkb| - 2;
        if BcspCrc.Bitrev16(messageCrc) != BcspCrc.Be16(rxSkb[n], rxSkb[n + 1]) {
          rxState := W4PktDelimiter;
        } else {
          CompleteRxPkt(FrameIn(rxSkb[..n]));
        }
      }
    }
  }

  lemma StuffNothing(crc: BcspCrc.Word)
    ensures Slip.Stuff([]) == [] && BcspCrc.Crc(crc, []) == crc
  {
  }

  lemma StuffOneMore(bs: seq<byte>, i: nat)
    requires i < |bs|
    ensures Slip.Stuff(bs[..i + 1]) == Slip.Stuff(bs[..i]) + Slip.StuffByte(bs[i])
  {
    hide Slip.StuffByte;
    var c := bs[i];
    assert bs[..i + 1] == bs[..i] + [c] && [c][1..] == [];
    Slip.StuffAppend(bs[..i], [c]);
    assert Slip.Stuff([c]) == Slip.StuffByte(c) + Slip.Stuff([]);
  }

  lemma HeadAndTail(data: seq<byte>, i: nat)
    requires i < |data|
    ensures data[i..] == [data[i]] + data[i + 1..]
  {
  }

  lemma HeadsSendable(l: Link)
    requires QueuesOk(l)
    ensures l.unrel != [] ==> Sendable(l.unrel[0]) && !Reliable(l.unrel[0].kind)
    ensures l.rel != [] ==> Sendable(l.rel[0]) && Reliable(l.rel[0].kind)
    ensures Sendable(ACK) && !Reliable(ACK.kind)
    ensures l.rxseqTxack < 8 && l.msgqTxseq < 8
  {
    assert l.unrel != [] ==> l.unrel[0] in l.unrel;
    assert l.rel != [] ==> l.rel[0] in l.rel;
  }

  lemma RelDequeued(l: Link, a: Alloc)
    requires QueuesOk(l) && Choose(l, a) == SendRel
    ensures l.rel != [] && Sendable(l.rel[0]) && Outgoing(l, a) == FrameFor(l, l.rel[0])
    ensures Dequeued(l, a) == Prepared(l, l.rel[0]).(rel := l.rel[1..], unack := l.unack + [l.rel[0]])
  {
    HeadsSendable(l);
  }

  lemma NothingDequeued(l: Link, a: Alloc)
    requires Choose(l, a) == SendNothing
    ensures Dequeued(l, a) == l
  {
  }

  lemma EncodeParts(f: Frame, crc: bool)
    requires Encodable(f)
    ensures Encode(f, crc) == [Slip.DELIM] + Slip.Stuff(Header(f, crc)) + Slip.Stuff(f.body.data)
                              + Slip.Stuff(Trailer(f, crc)) + [Slip.DELIM]
  {
    hide Header, Trailer, Slip.Stuff;
    Slip.StuffAppend(Header(f, crc) + f.body.data, Trailer(f, crc));
    Slip.StuffAppend(Header(f, crc), f.body.data);
  }

  // ---- What one turn of the receive loop means for the bytes still to come ----

  /** A fresh buffer does not consume the byte that asked for it. */
  lemma StartsPacket(s: State, c: byte, rest: seq<byte>, left: nat)
    requires Valid(s) && NeedsBuffer(s, c)
    ensures var started := s.(rx := Receiver(W4BcspHdr, 4, false, [], BcspCrc.CRC_INIT));
            Valid(started) && Recv(s, [c] + rest, left + 1) == Recv(started, [c] + rest, left)
  {
    assert ([c] + rest)[1..] == rest;
    var started := s.(rx := Receiver(W4BcspHdr, 4, false, [], BcspCrc.CRC_INIT));
    assert Byte(s, c) == Byte(started, c);
  }

  lemma DropsRest(s: State, c: byte, rest: seq<byte>)
    requires Valid(s) && NeedsBuffer(s, c)
    ensures Recv(s, [c] + rest, 0) == s.(rx := Receiver(W4PktDelimiter, 0, false, [], BcspCrc.CRC_INIT))
    ensures Valid(s.(rx := Receiver(W4PktDelimiter, 0, false, [], BcspCrc.CRC_INIT)))
  {
  }

  lemma NothingLeft(s: State, left: nat)
    requires Valid(s)
    ensures Recv(s, [], left) == s
  {
  }

  lemma ConsumesByte(s: State, c: byte, rest: seq<byte>, left: nat)
    requires Valid(s) && !NeedsBuffer(s, c)
    ensures Recv(s, [c] + rest, left) == Recv(Byte(s, c), rest, left)
  {
    hide Byte;
    assert ([c] + rest)[1..] == rest;
  }

  lemma SettlesFirst(s: State, c: byte, rest: seq<byte>, left: nat)
    requires Valid(s) && s.rx.count == 0
    requires s.rx.state.W4BcspHdr? || s.rx.state.W4Data? || s.rx.state.W4Crc?
    ensures Recv(s, [c] + rest, left) == Recv(Settle(s), [c] + rest, left)
  {
    hide Settle;
    NeverStarts(s);
    assert Byte(s, c) == Byte(Settle(s), c);
  }

  lemma NeverStarts(s: State)
    requires Valid(s) && s.rx.count == 0
    requires s.rx.state.W4BcspHdr? || s.rx.state.W4Data? || s.rx.state.W4Crc?
    ensures Settle(s).rx.state != W4PktStart
  {
  }
}
