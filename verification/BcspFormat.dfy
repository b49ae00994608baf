/** The bytes of a BCSP frame as another implementation of the protocol finds them. */
module BcspFormat {
  import opened Octets
  import opened GoBackN
  import opened Bcsp
  import opened BcspFraming
  import BcspCrc
  import opened Headers
  import Slip

  // ---- Channels ----

  /** Commands go to channel 5, ACL data to 6, both reliably; SCO data to 7, link establishment to 1 and bare
      acknowledgements to 0, without a number. */
  lemma FrameFields(l: Link, p: Packet)
    requires Sendable(p)
    ensures var f := FrameFor(l, p);
            && f.body.data == p.data && f.ack == l.rxseqTxack
            && f.body.tag == (if p.kind == 1 then 5 else if p.kind == 2 then 6 else if p.kind == 3 then 7
                              else if p.kind == 6 then 1 else 0)
            && (f.reliable <==> p.kind == 1 || p.kind == 2) && f.seqno == (if f.reliable then l.msgqTxseq else 0)
  {
  }

  /** What a frame that is heard adds to what the HCI layer gets: a reliable one in order on channel 6 or 5 is ACL data or
      an event, one on channel 7 is SCO data, and nothing else is handed up. */
  lemma HandsUpExactly(l: Link, f: Frame)
    requires QueuesOk(l) && f.ack < 8
    ensures var r := Received(l, f);
            var heard := !f.reliable || f.seqno == l.rxseqTxack;
            var tag, p := f.body.tag, f.body.data;
            && r.upRel == l.upRel + (if !heard || !f.reliable then []
                                     else if tag == 6 then [Packet(2, p)] else if tag == 5 then [Packet(4, p)]
                                     else if tag == 7 then [Packet(3, p)] else [])
            && r.upUnrel == l.upUnrel + (if f.reliable || tag != 7 then [] else [Packet(3, p)])
  {
    hide QueuesOk, Wakeup, Cull, Deliver;
    assert l.upRel + [] == l.upRel && l.upUnrel + [] == l.upUnrel;
    if !f.reliable || f.seqno == l.rxseqTxack {
      if f.reliable {
        AckedOk(l);
        WakeupUp(l.(rxseqTxack := (l.rxseqTxack + 1) % 8, txackReq := true, room := []), l.room);
      }
      var m := Accept(l, f).(rxack := f.ack);
      CullUp(m);
      DeliverUp(Cull(m), f);
    }
  }

  lemma AckedOk(l: Link)
    requires QueuesOk(l)
    ensures QueuesOk(l.(rxseqTxack := (l.rxseqTxack + 1) % 8, txackReq := true, room := []))
  {
  }

  lemma CullUp(l: Link)
    ensures Cull(l).upRel == l.upRel && Cull(l).upUnrel == l.upUnrel
  {
  }

  lemma DeliverUp(l: Link, f: Frame)
    ensures var r := Deliver(l, f);
            var tag, p := f.body.tag, f.body.data;
            && r.upRel == l.upRel + (if !f.reliable then []
                                     else if tag == 6 then [Packet(2, p)] else if tag == 5 then [Packet(4, p)]
                                     else if tag == 7 then [Packet(3, p)] else [])
            && r.upUnrel == l.upUnrel + (if f.reliable || tag != 7 then [] else [Packet(3, p)])
  {
    assert l.upRel + [] == l.upRel && l.upUnrel + [] == l.upUnrel;
  }

  /** The request for configuration, as it comes on channel 1 without a number, is answered in front of everything that
      waits; nothing else on any channel is answered. */
  lemma RequestAnswered(l: Link, f: Frame)
    ensures Deliver(l, f).unrel ==
              (if f.body.tag == 1 && !f.reliable && f.body.data == [0xad, 0xef, 0xac, 0xed]
               then [Packet(6, [0xde, 0xad, 0xd0, 0xd0])] else []) + l.unrel
  {
    assert [] + l.unrel == l.unrel;
  }

  /** What is sent next: unreliable packets first, then reliable ones while fewer than four are unacknowledged, then an
      acknowledgement if one is due. */
  lemma SendsNext(l: Link, a: Alloc)
    ensures Choose(l, a) ==
              if l.unrel != [] && a.unrel then SendUnrel
              else if l.rel != [] && a.rel && |l.unack| <= 3 then SendRel
              else if l.txackReq && a.ack then SendAck else SendNothing
    ensures Choose(l, a) != SendNothing ==>
              var p, r := Chosen(l, a), Dequeued(l, a);
              && !r.txackReq
              && match Choose(l, a)
                 case SendUnrel => [p] + r.unrel == l.unrel && r.rel == l.rel && r.unack == l.unack
                 case SendRel => [p] + r.rel == l.rel && r.unack == l.unack + [p] && r.unrel == l.unrel
                 case _ => p == Packet(5, []) && r.rel == l.rel && r.unack == l.unack && r.unrel == l.unrel
  {
  }

  lemma {:induction false} WakeupUp(l: Link, room: seq<Alloc>)
    requires QueuesOk(l)
    ensures Wakeup(l, room).upRel == l.upRel && Wakeup(l, room).upUnrel == l.upUnrel
    decreases |room|
  {
    hide QueuesOk, Encode;
    if room != [] && Choose(l, room[0]) != SendNothing {
      WakeupUp(AfterOne(l, room[0]), room[1..]);
    }
  }

  // ---- Header ----

  /** Four bytes are the header of a frame exactly when its fields stand in them. */
  lemma HeaderExact(f: Frame, crc: bool, a: byte, b: byte, c: byte, d: byte)
    requires Encodable(f)
    ensures [a, b, c, d] == Header(f, crc) <==> HeaderHas(f, crc, a, b, c, d)
  {
    var g := Header(f, crc);
    HeaderFields(f, crc);
    if HeaderHas(f, crc, a, b, c, d) {
      hide Header;
      HeaderUnique(f, crc, a, b, c, d, g[0], g[1], g[2], g[3]);
    }
  }

  lemma HeaderFields(f: Frame, crc: bool)
    requires Encodable(f)
    ensures var g := Header(f, crc); HeaderHas(f, crc, g[0], g[1], g[2], g[3])
  {
    FirstByte(f, crc);
    var g := Header(f, crc);
    ChecksumFits(g[0] as int + g[1] as int + g[2] as int);
  }

  lemma FirstByte(f: Frame, crc: bool)
    requires Encodable(f)
    ensures var h0 := Header(f, crc)[0];
            && h0 % 8 == (if f.reliable then f.seqno else 0) && h0 / 8 % 8 == f.ack
            && (h0 / 64 % 2 == 1 <==> crc) && (h0 / 128 == 1 <==> f.reliable)
  {
  }

  // ---- The receiver ----

  predicate Storing(rx: Receiver) {
    rx.state == W4BcspHdr || rx.state == W4Data || rx.state == W4Crc
  }

  /** The bytes that a receiver has stored, as they came. */
  function AsReceived(rx: Receiver): seq<byte> {
    Slip.Stuff(rx.skb) + if rx.esc then [0xdb] else []
  }

  lemma UnslipStores(rx: Receiver, c: byte)
    requires rx.count > 0 && Storing(rx) && c != 0xc0
    ensures var r := Unslip(rx, c); Storing(r) ==> AsReceived(r) == AsReceived(rx) + [c]
  {
    hide Slip.Stuff, BcspCrc.Update, HasCrc;
    Slip.StuffMore(rx.skb, c);
    Slip.StuffMore(rx.skb, 0xc0);
    Slip.StuffMore(rx.skb, 0xdb);
    var t := Slip.Stuff(rx.skb);
    assert t + [0xdb, 0xdc] == t + [0xdb] + [0xdc] && t + [0xdb, 0xdd] == t + [0xdb] + [0xdd];
  }

  lemma {:induction false} ByteStores(s: State, c: byte, before: seq<byte>)
    requires Valid(s) && Storing(s.rx) && c != 0xc0 && AsReceived(s.rx) == before
    ensures var r := Byte(s, c).rx; r.state != W4PktStart && (Storing(r) ==> AsReceived(r) == before + [c])
    decreases Rank(s.rx)
  {
    hide AsReceived, Unslip, Complete, QueuesOk;
    if s.rx.count > 0 {
      UnslipStores(s.rx, c);
      UnslipStops(s.rx, c);
    } else {
      var t := Settle(s);
      if Storing(t.rx) {
        SettleStores(s);
        ByteStores(t, c, before);
      }
    }
  }

  lemma UnslipStops(rx: Receiver, c: byte)
    requires rx.count > 0 && Storing(rx)
    ensures Unslip(rx, c).state != W4PktStart
  {
  }

  lemma SettleStores(s: State)
    requires Valid(s) && s.rx.count == 0 && Storing(s.rx) && Storing(Settle(s).rx)
    ensures AsReceived(Settle(s).rx) == AsReceived(s.rx)
  {
    hide Complete, Slip.Stuff;
  }

  /** What is stored of a packet is always, once stuffed, exactly what has come since its delimiter: a byte that no
      stuffing produces ends the packet. */
  lemma {:induction false} StoredExactly(s: State, bytes: seq<byte>)
    requires Valid(s) && s.rx.state == W4PktStart && 0xc0 !in bytes && bytes != []
    ensures var r := Feed(s, bytes).rx; r.state != W4PktStart && (Storing(r) ==> AsReceived(r) == bytes)
    decreases |bytes|
  {
    hide Byte, AsReceived, Valid;
    var n := |bytes| - 1;
    var c, before := bytes[n], bytes[..n];
    assert bytes == before + [c];
    FeedAppend(s, before, [c]);
    FeedOne(Feed(s, before), c);
    if n == 0 {
      assert Feed(s, []) == s && bytes == [c];
      FirstStores(s, c);
    } else {
      StoredExactly(s, before);
      var m := Feed(s, before);
      if Storing(m.rx) {
        ByteStores(m, c, before);
      } else {
        Skips(m, c);
      }
    }
  }

  lemma FirstStores(s: State, c: byte)
    requires Valid(s) && s.rx.state == W4PktStart && c != 0xc0
    ensures var r := Byte(s, c).rx; r.state != W4PktStart && (Storing(r) ==> AsReceived(r) == [c])
  {
    var blank := Receiver(W4BcspHdr, 4, false, [], BcspCrc.CRC_INIT);
    UnslipStores(blank, c);
    UnslipStops(blank, c);
    assert AsReceived(blank) == [] && [] + [c] == [c];
  }

  lemma Skips(s: State, c: byte)
    requires Valid(s) && !Storing(s.rx) && s.rx.state != W4PktStart && c != 0xc0
    ensures var r := Byte(s, c).rx; r.state != W4PktStart && !Storing(r)
  {
  }

  /** A complete header is accepted exactly when its four bytes add up to 255 modulo 256 and a reliable one carries the
      number that is due; then as many bytes are awaited as it says, and two more after them if it says that there is a
      CRC. */
  lemma HeaderJudged(s: State)
    requires Valid(s) && s.rx.state == W4BcspHdr && s.rx.count == 0
    ensures var a: int, b: int, c: int, d: int := s.rx.skb[0], s.rx.skb[1], s.rx.skb[2], s.rx.skb[3];
            Settle(s) == if (a + b + c + d) % 256 == 255 && (a / 128 == 1 ==> a % 8 == s.link.rxseqTxack)
                         then s.(rx := s.rx.(state := W4Data, count := b / 16 + 16 * c))
                         else s.(rx := s.rx.(state := W4PktDelimiter))
  {
    SumExact(s.rx.skb[0] as int + s.rx.skb[1] as int + s.rx.skb[2] as int, s.rx.skb[3]);
  }

  lemma SumExact(sum: int, last: byte)
    ensures (sum + last) % 256 == 255 <==> last == 255 - sum % 256
  {
    ChecksumFits(sum);
    if (sum + last) % 256 == 255 {
      SumSame(sum, last, 255 - sum % 256);
    }
  }

  /** After the payload the packet is complete, unless bit 6 of the first byte announces a CRC. */
  lemma PayloadJudged(s: State)
    requires Valid(s) && s.rx.state == W4Data && s.rx.count == 0
    ensures if s.rx.skb[0] / 64 % 2 == 1 then Settle(s) == s.(rx := s.rx.(state := W4Crc, count := 2))
            else Settle(s).link == Complete(s.link, FrameIn(s.rx.skb)) && Settle(s).rx.state == W4PktDelimiter
  {
    hide Complete;
  }

  // ---- The CRC ----

  /** The last two bytes of a frame with a CRC make what stands in front of them divisible. */
  lemma ContentDivides(f: Frame)
    requires Encodable(f)
    ensures var c := Content(f, true);
            var n := |c| - 2;
            && n == 4 + |f.body.data| && c[..4] == Header(f, true) && c[4..n] == f.body.data
            && forall hi: byte, lo: byte :: BcspCrc.Divisible(c[..n], hi, lo) <==> [hi, lo] == c[n..]
  {
    hide BcspCrc.Divisible, BcspCrc.Crc, BcspCrc.Bitrev16, BcspCrc.SplitBe16, Header;
    var c := Content(f, true);
    var n := |c| - 2;
    assert c[..n] == Header(f, true) + f.body.data && c[n..] == Trailer(f, true);
    forall hi: byte, lo: byte
      ensures BcspCrc.Divisible(c[..n], hi, lo) <==> [hi, lo] == c[n..]
    {
      BcspCrc.DivisibleExact(c[..n], hi, lo);
    }
  }

  /** The running CRC of the receiver covers what it has stored of header and payload. */
  predicate CrcTracks(rx: Receiver) {
    match rx.state
    case W4PktDelimiter => true
    case W4PktStart => true
    case W4Crc =>
      |rx.skb| >= 4 && |rx.skb| >= 4 + PayloadLen(rx.skb)
      && HasCrc(rx.skb) && rx.crc == BcspCrc.Crc(BcspCrc.CRC_INIT, rx.skb[..4 + PayloadLen(rx.skb)])
    case _ =>
      if rx.skb == [] then rx.crc == BcspCrc.CRC_INIT
      else HasCrc(rx.skb) ==> rx.crc == BcspCrc.Crc(BcspCrc.CRC_INIT, rx.skb)
  }

  lemma CrcGoesOn(skb: seq<byte>, c: byte)
    ensures BcspCrc.Crc(BcspCrc.CRC_INIT, skb + [c]) == BcspCrc.Update(BcspCrc.Crc(BcspCrc.CRC_INIT, skb), c)
    ensures BcspCrc.Crc(BcspCrc.CRC_INIT, []) == BcspCrc.CRC_INIT
  {
    hide BcspCrc.Update;
    BcspCrc.CrcOneMore(BcspCrc.CRC_INIT, skb + [c], |skb|);
    assert (skb + [c])[..|skb|] == skb && (skb + [c])[..|skb| + 1] == skb + [c];
  }

  lemma PutTracks(rx: Receiver, c: byte)
    requires rx.count > 0 && CrcTracks(rx)
    ensures CrcTracks(Put(rx, c))
  {
    hide BcspCrc.Crc, BcspCrc.Update;
    CrcGoesOn(rx.skb, c);
    var skb := rx.skb + [c];
    if rx.skb != [] {
      assert skb[0] == rx.skb[0];
    }
    if rx.state == W4Crc {
      var n := 4 + PayloadLen(rx.skb);
      assert skb[1] == rx.skb[1] && skb[2] == rx.skb[2];
      assert skb[..n] == rx.skb[..n];
    }
  }

  lemma UnslipTracks(rx: Receiver, c: byte)
    requires rx.count > 0 && CrcTracks(rx)
    ensures CrcTracks(Unslip(rx, c))
  {
    hide Put;
    PutTracks(rx, c);
    PutTracks(rx, Slip.DELIM);
    PutTracks(rx, Slip.ESC);
  }

  lemma SettleTracks(s: State)
    requires Valid(s) && s.rx.count == 0 && CrcTracks(s.rx)
    requires s.rx.state.W4BcspHdr? || s.rx.state.W4Data? || s.rx.state.W4Crc?
    ensures CrcTracks(Settle(s).rx)
  {
    hide Complete, BcspCrc.Crc, BcspCrc.Bitrev16, BcspCrc.Be16;
    if s.rx.state == W4Data {
      assert s.rx.skb[..4 + PayloadLen(s.rx.skb)] == s.rx.skb;
    }
  }

  lemma {:induction false} ByteTracks(s: State, c: byte)
    requires Valid(s) && CrcTracks(s.rx)
    ensures CrcTracks(Byte(s, c).rx)
    decreases Rank(s.rx)
  {
    hide CrcTracks, Settle, Unslip;
    if s.rx.count > 0 {
      UnslipTracks(s.rx, c);
      Waiting(s.rx.(state := W4PktStart, count := 0));
    } else {
      match s.rx.state
      case W4PktDelimiter => Waiting(s.rx.(state := W4PktStart));
      case W4PktStart =>
        var blank := Receiver(W4BcspHdr, 4, false, [], BcspCrc.CRC_INIT);
        Blank();
        UnslipTracks(blank, c);
      case _ =>
        SettleTracks(s);
        ByteTracks(Settle(s), c);
    }
  }

  lemma Waiting(rx: Receiver)
    requires rx.state == W4PktDelimiter || rx.state == W4PktStart
    ensures CrcTracks(rx)
  {
  }

  lemma Blank()
    ensures CrcTracks(Receiver(W4BcspHdr, 4, false, [], BcspCrc.CRC_INIT))
  {
  }

  /** It does so after any bytes, in calls of any size, with any memory. */
  lemma {:induction false} RecvTracks(s: State, bytes: seq<byte>, grants: nat)
    requires Valid(s) && CrcTracks(s.rx)
    ensures CrcTracks(Recv(s, bytes, grants).rx)
    decreases |bytes|
  {
    hide Byte, CrcTracks;
    if bytes != [] {
      if NeedsBuffer(s, bytes[0]) && grants == 0 {
        Waiting(Receiver(W4PktDelimiter, 0, false, [], BcspCrc.CRC_INIT));
      } else {
        ByteTracks(s, bytes[0]);
        RecvTracks(Byte(s, bytes[0]), bytes[1..], if NeedsBuffer(s, bytes[0]) then grants - 1 else grants);
      }
    }
  }

  lemma OpenedTracks()
    ensures CrcTracks(OPENED.rx)
  {
  }

  /** So a packet with a CRC is accepted exactly when the bytes in front of its last two are divisible with these. */
  lemma AcceptsExactly(s: State)
    requires Valid(s) && CrcTracks(s.rx) && s.rx.state == W4Crc && s.rx.count == 0
    ensures var skb := s.rx.skb;
            var n := |skb| - 2;
            && n >= 4
            && Settle(s).link == if BcspCrc.Divisible(skb[..n], skb[n], skb[n + 1])
                                 then Complete(s.link, FrameIn(skb[..n])) else s.link
  {
    hide Complete, BcspCrc.Crc, BcspCrc.Bitrev16, BcspCrc.Be16, BcspCrc.SplitBe16, BcspCrc.Divisible, QueuesOk;
    var skb := s.rx.skb;
    var n := |skb| - 2;
    BcspCrc.DivisibleExact(skb[..n], skb[n], skb[n + 1]);
  }
}
