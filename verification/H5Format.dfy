/** What another implementation of the Three-wire protocol finds on the line, and what the HCI layer gets from it. */
module H5Format {
  import opened Octets
  import opened GoBackN
  import opened H5
  import opened H5Stream
  import H5Link
  import opened Headers
  import Slip

  // ---- Packet types ----

  /** The type of a packet is the type in the header; commands and ACL data are sent reliably, with a number, all else
      without. */
  lemma FrameFields(l: Link, p: Packet)
    ensures var f := FrameFor(l, p);
            && f.body == Body(p.kind, p.data) && f.ack == l.txAck
            && (f.reliable <==> p.kind == 1 || p.kind == 2) && f.seqno == (if f.reliable then l.txSeq else 0)
  {
  }

  lemma {:induction false} WakeupUp(l: Link, room: seq<Alloc>)
    requires QueuesOk(l)
    ensures Wakeup(l, room).up == l.up && Wakeup(l, room).taken == l.taken
    decreases |room|
  {
    H5Link.WakeupKeeps(l, room);
  }

  /** What a frame that is heard adds to what the HCI layer gets: an event, ACL data or SCO data as they are, and nothing
      of any other type. */
  lemma HandsUpExactly(l: Link, f: Frame)
    requires QueuesOk(l) && f.ack < 8
    ensures var heard := !f.reliable || f.seqno == l.txAck;
            Received(l, f).up ==
              l.up + if heard && (f.body.tag == 4 || f.body.tag == 2 || f.body.tag == 3)
                     then [Packet(f.body.tag, f.body.data)] else []
  {
    hide QueuesOk, Wakeup, CullCountU8, Deliver;
    assert l.up + [] == l.up;
    if !f.reliable || f.seqno == l.txAck {
      if f.reliable {
        var n := l.(txAck := (l.txAck + 1) % 8, txAckReq := true, room := [],
                    taken := l.taken + [Packet(f.body.tag, f.body.data)]);
        H5Link.AckedOk(l, n);
        WakeupUp(n, l.room);
      }
      DeliverUp(Cull(Accept(l, f).(rxAck := f.ack)), f);
    }
  }

  lemma DeliverUp(l: Link, f: Frame)
    ensures Deliver(l, f, |f.body.data|).up ==
              l.up + if f.body.tag == 4 || f.body.tag == 2 || f.body.tag == 3
                     then [Packet(f.body.tag, f.body.data)] else []
  {
    hide SYNC_REQ, SYNC_RSP, CONF_RSP, WAKEUP_REQ, WOKEN_REQ, SLEEP_REQ;
    assert l.up + [] == l.up;
  }

  // ---- Header ----

  /** Four bytes are the header of a frame exactly when its fields stand in them. */
  lemma HeaderExact(f: Frame, a: byte, b: byte, c: byte, d: byte)
    requires Encodable(f)
    ensures [a, b, c, d] == Header(f) <==> HeaderHas(f, false, a, b, c, d)
  {
    var g := Header(f);
    HeaderFields(f);
    if HeaderHas(f, false, a, b, c, d) {
      hide Header;
      HeaderUnique(f, false, a, b, c, d, g[0], g[1], g[2], g[3]);
    }
  }

  lemma HeaderFields(f: Frame)
    requires Encodable(f)
    ensures var g := Header(f); HeaderHas(f, false, g[0], g[1], g[2], g[3])
  {
    FirstByte(f);
    var g := Header(f);
    ChecksumFits(g[0] as int + g[1] as int + g[2] as int);
  }

  lemma FirstByte(f: Frame)
    requires Encodable(f)
    ensures var h0 := Header(f)[0];
            && h0 % 8 == (if f.reliable then f.seqno else 0) && h0 / 8 % 8 == f.ack
            && (h0 / 64 % 2 == 1 <==> false) && (h0 / 128 == 1 <==> f.reliable)
  {
  }

  /** The first frame of an opened driver, byte by byte: its request for synchronisation. */
  lemma FirstFrame(a: Alloc)
    requires a.first
    ensures Choose(OPENED, a) == SendUnrel
    ensures Encode(FrameFor(OPENED, Chosen(OPENED, a))) == [0xc0, 0x00, 0x2f, 0x00, 0xd0, 0x01, 0x7e, 0xc0]
  {
    var f := FrameFor(OPENED, Packet(LINK_PKT, SYNC_REQ));
    SyncHeader();
    hide Header, Encode;
    SyncEncoded(f);
  }

  lemma SyncHeader()
    ensures var f := FrameFor(OPENED, Packet(LINK_PKT, SYNC_REQ));
            Encodable(f) && f.body.data == [0x01, 0x7e] && Header(f) == [0x00, 0x2f, 0x00, 0xd0]
  {
  }

  lemma SyncEncoded(f: Frame)
    requires Encodable(f) && f.body.data == [0x01, 0x7e] && Header(f) == [0x00, 0x2f, 0x00, 0xd0]
    ensures Encode(f) == [0xc0, 0x00, 0x2f, 0x00, 0xd0, 0x01, 0x7e, 0xc0]
  {
    hide Header, Slip.Stuff;
    var content: seq<byte> := [0x00, 0x2f, 0x00, 0xd0, 0x01, 0x7e];
    assert Header(f) + f.body.data == content;
    Slip.Unescaped(content);
    assert [0xc0] + content + [0xc0] == [0xc0, 0x00, 0x2f, 0x00, 0xd0, 0x01, 0x7e, 0xc0];
  }

  // ---- The receiver ----

  predicate Storing(rx: Receiver) {
    !rx.faulted && (rx.func == Rx3WireHdr || rx.func == RxPayload || rx.func == RxCrc)
  }

  /** The bytes that a receiver has stored, as they came. */
  function AsReceived(rx: Receiver): seq<byte> {
    Slip.Stuff(rx.skb) + if rx.esc then [0xdb] else []
  }

  lemma UnslipStores(rx: Receiver, c: byte)
    requires rx.pending > 0 && Storing(rx) && c != 0xc0
    ensures var r := Unslip(rx, c); r.func != RxPktStart && (Storing(r) ==> AsReceived(r) == AsReceived(rx) + [c])
  {
    hide Slip.Stuff;
    Slip.StuffMore(rx.skb, c);
    Slip.StuffMore(rx.skb, 0xc0);
    Slip.StuffMore(rx.skb, 0xdb);
    var t := Slip.Stuff(rx.skb);
    assert t + [0xdb, 0xdc] == t + [0xdb] + [0xdc] && t + [0xdb, 0xdd] == t + [0xdb] + [0xdd];
  }

  lemma {:induction false} ByteStores(s: State, c: byte, before: seq<byte>)
    requires Valid(s) && Storing(s.rx) && c != 0xc0 && AsReceived(s.rx) == before
    ensures var r := Byte(s, c).rx; (r.faulted || r.func != RxPktStart) && (Storing(r) ==> AsReceived(r) == before + [c])
    decreases Rank(s.rx)
  {
    hide AsReceived, Unslip, Complete, QueuesOk;
    if s.rx.pending > 0 {
      UnslipStores(s.rx, c);
    } else {
      var t := Settle(s);
      if Storing(t.rx) {
        SettleStores(s);
        ByteStores(t, c, before);
      }
    }
  }

  lemma SettleStores(s: State)
    requires Valid(s) && s.rx.pending == 0 && Storing(s.rx) && Storing(Settle(s).rx)
    ensures AsReceived(Settle(s).rx) == AsReceived(s.rx)
  {
    hide Complete, Slip.Stuff;
  }

  /** What is stored of a packet is always, once stuffed, exactly what has come since its delimiter: a byte that no
      stuffing produces ends the packet. */
  lemma {:induction false} StoredExactly(s: State, bytes: seq<byte>)
    requires Valid(s) && !s.rx.faulted && s.rx.func == RxPktStart && 0xc0 !in bytes && bytes != []
    ensures var r := Feed(s, bytes).rx; (r.faulted || r.func != RxPktStart) && (Storing(r) ==> AsReceived(r) == bytes)
    decreases |bytes|
  {
    hide Byte, AsReceived, Valid;
    var n := |bytes| - 1;
    var c, before := bytes[n], bytes[..n];
    assert bytes == before + [c];
    FeedAppend(s, before, [c]);
    FeedOne(Feed(s, before), c);
    if n == 0 {
      assert Feed(s, []) == s && bytes == [c];
      FirstStores(s, c);
    } else {
      StoredExactly(s, before);
      var m := Feed(s, before);
      if Storing(m.rx) {
        ByteStores(m, c, before);
      } else {
        Skips(m, c);
      }
    }
  }

  lemma FirstStores(s: State, c: byte)
    requires Valid(s) && !s.rx.faulted && s.rx.func == RxPktStart && c != 0xc0
    ensures var r := Byte(s, c).rx; (r.faulted || r.func != RxPktStart) && (Storing(r) ==> AsReceived(r) == [c])
  {
    UnslipStores(STARTED, c);
    assert AsReceived(STARTED) == [] && [] + [c] == [c];
  }

  lemma Skips(s: State, c: byte)
    requires Valid(s) && !Storing(s.rx) && (s.rx.faulted || s.rx.func != RxPktStart) && c != 0xc0
    ensures var r := Byte(s, c).rx; !Storing(r) && (r.faulted || r.func != RxPktStart)
  {
  }

  /** A complete header is accepted exactly when its four bytes add up to 255 modulo 256 and a reliable one carries the
      number that is due; then, if the link is up or the packet is for link control, as many bytes are awaited as it
      says. */
  lemma HeaderJudged(s: State)
    requires Valid(s) && !s.rx.faulted && s.rx.func == Rx3WireHdr && s.rx.pending == 0
    ensures var a: int, b: int, c: int, d: int := s.rx.skb[0], s.rx.skb[1], s.rx.skb[2], s.rx.skb[3];
            var ok := (a + b + c + d) % 256 == 255 && (a / 128 == 1 ==> a % 8 == s.link.txAck);
            Settle(s) == if !ok then s.(rx := Receiver(RxDelimiter, 0, false, [], false))
                         else if s.link.state != Active && b % 16 != 15 then s.(rx := s.rx.(faulted := true))
                         else s.(rx := s.rx.(func := RxPayload, pending := b / 16 + 16 * c))
  {
  }

  /** After the payload the packet is complete, two bytes later if bit 6 of the first byte announces a CRC. */
  lemma PayloadJudged(s: State)
    requires Valid(s) && !s.rx.faulted && s.rx.pending == 0 && (s.rx.func == RxPayload || s.rx.func == RxCrc)
    ensures if s.rx.func == RxPayload && s.rx.skb[0] / 64 % 2 == 1
            then Settle(s) == s.(rx := s.rx.(func := RxCrc, pending := 2))
            else Settle(s).link == Complete(s.link, FrameIn(s.rx.skb), s.rx.skb[1] / 16 + 16 * s.rx.skb[2] as int)
                 && Settle(s).rx.func == RxDelimiter
  {
    hide Complete;
  }

  // ---- Sending ----

  /** What is sent next, unless the peer sleeps: unreliable packets first, then reliable ones while fewer than the window
      allows are unacknowledged, then an acknowledgement if one is due. */
  lemma SendsNext(l: Link, a: Alloc)
    requires l.sleep == Awake
    ensures Choose(l, a) ==
              if l.unrel != [] && a.first then SendUnrel
              else if l.rel != [] && a.rel && |l.unack| < l.txWin then SendRel
              else if l.txAckReq && a.ack then SendAck else SendNothing
    ensures Choose(l, a) != SendNothing ==>
              var p, r := Chosen(l, a), Dequeued(l, a);
              && !r.txAckReq && r.sleep == Awake
              && match Choose(l, a)
                 case SendUnrel => [p] + r.unrel == l.unrel && r.rel == l.rel && r.unack == l.unack
                 case SendRel => [p] + r.rel == l.rel && r.unack == l.unack + [p] && r.unrel == l.unrel
                 case _ => p == Packet(0, []) && r.rel == l.rel && r.unack == l.unack && r.unrel == l.unrel
  {
  }

  /** A reliable packet that is accepted is acknowledged at once, if the line takes a frame and memory is found. */
  lemma HeardIsAcknowledged(l: Link, f: Frame)
    requires QueuesOk(l) && f.ack < 8 && f.reliable && f.seqno == l.txAck && l.sleep == Awake && l.written == []
    requires l.room != [] && l.room[0] == Alloc(true, true, true)
    ensures var r, n := Received(l, f), (l.txAck + 1) % 8; r.written != [] && r.written[0].ack == n && r.txAck == n
  {
    hide QueuesOk, CullCountU8, Deliver;
    var n := l.(txAck := (l.txAck + 1) % 8, txAckReq := true, room := [],
                taken := l.taken + [Packet(f.body.tag, f.body.data)]);
    H5Link.AckedOk(l, n);
    H5Link.WakeupWrites(n, l.room);
    H5Link.WakeupKeeps(n, l.room);
    var c := Cull(Accept(l, f).(rxAck := f.ack));
    H5Link.DeliverWrites(c, f);
    DeliverNumber(c, f);
  }

  lemma DeliverNumber(l: Link, f: Frame)
    ensures Deliver(l, f, |f.body.data|).txAck == l.txAck
  {
  }

  /** The timer asks again for what the handshake still lacks. */
  lemma TimerAsks(l: Link)
    ensures l.state == Uninitialized ==> TimedOut(l) == l.(unrel := l.unrel + [Packet(15, [0x01, 0x7e])])
    ensures l.state == Initialized ==> TimedOut(l) == l.(unrel := l.unrel + [Packet(15, [0x03, 0xfc, l.txWin % 8])])
  {
  }

  // ---- Sleep ----

  /** A driver whose peer sleeps sends nothing but one request to wake up until it hears an answer, and the timer makes it
      ask again. */
  lemma AsleepAsksOnly(l: Link, room: seq<Alloc>)
    requires QueuesOk(l) && l.sleep != Awake
    ensures H5Link.Sent(l, room) ==
              if l.sleep == Sleeping && room != [] && room[0].first
              then [Frame(false, 0, l.txAck, Body(15, [0x05, 0xfa]))] else []
    ensures room != [] ==> Wakeup(l, room).sleep == WakingUp
    ensures l.state == Active ==> TimedOut(l).sleep == Sleeping
  {
    if room != [] && Choose(l, room[0]) != SendNothing {
      var n := AfterOne(l, room[0]);
      assert H5Link.Sent(n, room[1..]) == [];
    }
  }

  /** What the three sleep messages do: 07 78 puts the peer to sleep, 06 f9 and 05 fa wake it, and 05 fa is answered with
      06 f9. */
  lemma SleepMessages(l: Link, data: seq<byte>)
    requires |data| >= 2
    ensures var r := Internal(l, Body(15, data), |data|);
            && (data[0] == 0x07 && data[1] == 0x78 ==> r == l.(sleep := Sleeping))
            && (data[0] == 0x06 && data[1] == 0xf9 ==> r == l.(sleep := Awake))
            && (data[0] == 0x05 && data[1] == 0xfa ==>
                  r == l.(sleep := Awake, unrel := l.unrel + [Packet(15, [0x06, 0xf9])]))
  {
    var m := data[..2];
    assert m == [data[0], data[1]];
    assert SYNC_REQ[0] == 1 && SYNC_RSP[0] == 2 && ConfReq(l)[..2][0] == 3 && CONF_RSP[0] == 4;
  }

  /** And those of the handshake: 01 7e is answered with 02 7d; 02 7d initialises the link and asks for configuration, 03
      fc is answered with 04 7b and asked back, and 04 7b brings the link up with the window in its third byte. */
  lemma HandshakeMessages(l: Link, data: seq<byte>)
    requires |data| >= 2
    ensures var r, ask := Internal(l, Body(15, data), |data|), Packet(15, [0x03, 0xfc, l.txWin % 8]);
            && (data[0] == 0x01 && data[1] == 0x7e ==> r == l.(unrel := l.unrel + [Packet(15, [0x02, 0x7d])]))
            && (data[0] == 0x02 && data[1] == 0x7d ==> r == l.(state := Initialized, unrel := l.unrel + [ask]))
            && (data[0] == 0x03 && data[1] == 0xfc ==>
                  r == l.(unrel := l.unrel + [Packet(15, [0x04, 0x7b])] + [ask]))
            && (data[0] == 0x04 && data[1] == 0x7b ==>
                  r == l.(state := Active, txWin := if |data| > 2 then data[2] % 8 else l.txWin))
  {
    var m := data[..2];
    assert m == [data[0], data[1]];
    assert SYNC_REQ[0] == 1 && SYNC_RSP[0] == 2 && ConfReq(l)[..2] == [0x03, 0xfc] && CONF_RSP[0] == 4;
  }
}
