/** The byte stream of BCSP: a frame survives stuffing, header, CRC and the receiver's state machine;
    a delimiter resynchronises from anywhere; the way the bytes are cut into calls does not matter. */
module BcspFraming {
  import opened Octets
  import opened GoBackN
  import opened Bcsp
  import Slip
  import BcspCrc

  /** Bytes received with every buffer granted. */
  function Feed(s: State, bytes: seq<byte>): (r: State)
    requires Valid(s)
    ensures Valid(r)
    decreases |bytes|
  {
    if bytes == [] then s else Feed(Byte(s, bytes[0]), bytes[1..])
  }

  lemma {:induction false} FeedAppend(s: State, a: seq<byte>, b: seq<byte>)
    requires Valid(s)
    ensures Feed(s, a + b) == Feed(Feed(s, a), b)
    decreases |a|
  {
    if a == [] {
      assert a + b == b;
    } else {
      assert (a + b)[1..] == a[1..] + b;
      FeedAppend(Byte(s, a[0]), a[1..], b);
    }
  }

  // ---- Memory for receive buffers ----

  /** How many receive buffers a call allocates when none is refused. */
  function Buffers(s: State, bytes: seq<byte>): (n: nat)
    requires Valid(s)
    decreases |bytes|
  {
    if bytes == [] then 0
    else (if NeedsBuffer(s, bytes[0]) then 1 else 0) + Buffers(Byte(s, bytes[0]), bytes[1..])
  }

  lemma {:induction false} EnoughBuffers(s: State, bytes: seq<byte>, grants: nat)
    requires Valid(s) && Buffers(s, bytes) <= grants
    ensures Recv(s, bytes, grants) == Feed(s, bytes)
    decreases |bytes|
  {
    if bytes != [] {
      EnoughBuffers(Byte(s, bytes[0]), bytes[1..], if NeedsBuffer(s, bytes[0]) then grants - 1 else grants);
    }
  }

  /** Receiving a and then b is receiving them in one call, as long as memory lasts. */
  lemma ChunkingIndependent(s: State, a: seq<byte>, b: seq<byte>, grants: nat, more: nat)
    requires Valid(s)
    requires Buffers(s, a) <= grants && Buffers(Feed(s, a), b) <= more
    ensures Recv(Recv(s, a, grants), b, more) == Recv(s, a + b, grants + more)
  {
    hide Byte;
    var mid := Feed(s, a);
    calc {
      Recv(Recv(s, a, grants), b, more);
      { EnoughBuffers(s, a, grants); }
      Recv(mid, b, more);
      { EnoughBuffers(mid, b, more); }
      Feed(mid, b);
      { FeedAppend(s, a, b); }
      Feed(s, a + b);
      { BuffersAppend(s, a, b); EnoughBuffers(s, a + b, grants + more); }
      Recv(s, a + b, grants + more);
    }
  }

  lemma {:induction false} BuffersAppend(s: State, a: seq<byte>, b: seq<byte>)
    requires Valid(s)
    ensures Buffers(s, a + b) == Buffers(s, a) + Buffers(Feed(s, a), b)
    decreases |a|
  {
    if a == [] {
      assert a + b == b;
    } else {
      assert (a + b)[1..] == a[1..] + b;
      BuffersAppend(Byte(s, a[0]), a[1..], b);
    }
  }

  // ---- Resynchronisation ----

  /** A delimiter leaves the receiver waiting for a packet start, whatever it was doing. */
  lemma {:induction false} DelimiterResynchronises(s: State)
    requires Valid(s)
    ensures Byte(s, Slip.DELIM).rx.state == W4PktStart && Byte(s, Slip.DELIM).rx.count == 0
    decreases Rank(s.rx)
  {
    if s.rx.count == 0 && !s.rx.state.W4PktDelimiter? && !s.rx.state.W4PktStart? {
      DelimiterResynchronises(Settle(s));
    }
  }

  /** The receive buffer never outgrows its allocation, and what a call leaves behind is a state the next
      call can start from. */
  lemma BufferBounded(s: State, bytes: seq<byte>, grants: nat)
    requires Valid(s)
    ensures var rx := Recv(s, bytes, grants).rx;
            rx.state.W4BcspHdr? || rx.state.W4Data? || rx.state.W4Crc? ==> |rx.skb| + rx.count <= RX_BUFFER
  {
  }

  // ---- Round trip ----

  /** Storing bytes one after the other. */
  function PutAll(rx: Receiver, bs: seq<byte>): Receiver
    requires |bs| <= rx.count
    decreases |bs|
  {
    if bs == [] then rx else PutAll(Put(rx, bs[0]), bs[1..])
  }

  lemma {:induction false} PutAllAppends(rx: Receiver, bs: seq<byte>)
    requires |bs| <= rx.count && !rx.esc
    ensures var r := PutAll(rx, bs);
            && r.skb == rx.skb + bs && r.count == rx.count - |bs| && r.state == rx.state && !r.esc
    decreases |bs|
  {
    hide BcspCrc.Update, HasCrc;
    if bs != [] {
      PutAllAppends(Put(rx, bs[0]), bs[1..]);
      assert rx.skb + [bs[0]] + bs[1..] == rx.skb + bs;
    }
  }

  /** The running CRC covers what is stored, once the first byte says that there is one. */
  lemma {:induction false} PutAllCrc(rx: Receiver, bs: seq<byte>)
    requires |bs| <= rx.count && !rx.esc && rx.state != W4Crc
    requires rx.skb + bs != [] && HasCrc(rx.skb + bs)
    ensures PutAll(rx, bs).crc == BcspCrc.Crc(rx.crc, bs)
    decreases |bs|
  {
    if bs != [] {
      assert (rx.skb + [bs[0]]) + bs[1..] == rx.skb + bs;
      PutAllCrc(Put(rx, bs[0]), bs[1..]);
    }
  }

  lemma {:induction false} PutAllKeepsCrc(rx: Receiver, bs: seq<byte>)
    requires |bs| <= rx.count && rx.state == W4Crc
    ensures PutAll(rx, bs).crc == rx.crc
    decreases |bs|
  {
    if bs != [] {
      PutAllKeepsCrc(Put(rx, bs[0]), bs[1..]);
    }
  }

  /** Stuffed bytes are stored as they were before stuffing. */
  lemma {:induction false} FeedStuffed(s: State, bs: seq<byte>)
    requires Valid(s) && !s.rx.esc && |bs| <= s.rx.count
    ensures Feed(s, Slip.Stuff(bs)) == s.(rx := PutAll(s.rx, bs))
    decreases |bs|
  {
    if bs != [] {
      FeedAppend(s, Slip.StuffByte(bs[0]), Slip.Stuff(bs[1..]));
      FeedStuffedByte(s, bs[0]);
      FeedStuffed(s.(rx := Put(s.rx, bs[0])), bs[1..]);
    }
  }

  lemma FeedStuffedByte(s: State, c: byte)
    requires Valid(s) && !s.rx.esc && s.rx.count > 0
    ensures Valid(s.(rx := Put(s.rx, c)))
    ensures Feed(s, Slip.StuffByte(c)) == s.(rx := Put(s.rx, c))
  {
    hide BcspCrc.Update;
    PutOk(s.link, s.rx, c);
    if c == Slip.DELIM || c == Slip.ESC {
      var x := if c == Slip.DELIM then Slip.ESC_DELIM else Slip.ESC_ESC;
      var mid := Byte(s, Slip.ESC);
      assert mid == s.(rx := s.rx.(esc := true));
      assert Feed(s, [Slip.ESC, x]) == Feed(mid, [x]) == Feed(Byte(mid, x), []) by {
        assert [Slip.ESC, x][1..] == [x];
      }
    } else {
      assert Feed(s, [c]) == Feed(Byte(s, c), []);
    }
  }

  /** Bytes that follow a finished section behave as if the section had been settled at once. */
  lemma FeedSettles(s: State, bytes: seq<byte>)
    requires Valid(s) && s.rx.count == 0 && bytes != []
    requires s.rx.state.W4BcspHdr? || s.rx.state.W4Data? || s.rx.state.W4Crc?
    ensures Feed(s, bytes) == Feed(Settle(s), bytes)
  {
  }

  /** The receiver reads back the fields that the sender wrote. */
  lemma HeaderRoundTrip(f: Frame, crc: bool, rest: seq<byte>)
    requires Encodable(f)
    ensures var skb := Header(f, crc) + rest;
            && ChecksumOk(skb)
            && PayloadLen(skb) == |f.body.data|
            && HasCrc(skb) == crc
            && FrameIn(skb) == f.(body := Body(f.body.tag, rest))
  {
    var skb := Header(f, crc) + rest;
    assert skb[4..] == rest;
    var h0: int := skb[0];
    assert f.reliable <==> h0 >= 128;
    assert h0 % 8 == if f.reliable then f.seqno else 0;
    assert h0 / 8 % 8 == f.ack;
    assert h0 / 64 % 2 == if crc then 1 else 0;
    assert skb[1] / 16 == |f.body.data| % 16;
  }

  /** The receiver just after the opening delimiter and the four header bytes. */
  lemma FeedHeader(s: State, f: Frame, crc: bool) returns (r: Receiver)
    requires Valid(s) && s.rx.state == W4PktStart && Encodable(f)
    ensures r.state == W4BcspHdr && r.count == 0 && !r.esc && r.skb == Header(f, crc)
    ensures crc ==> r.crc == BcspCrc.Crc(BcspCrc.CRC_INIT, Header(f, crc))
    ensures Valid(s.(rx := r)) && Feed(s, Slip.Stuff(Header(f, crc))) == s.(rx := r)
  {
    var h := Header(f, crc);
    var blank := Receiver(W4BcspHdr, 4, false, [], BcspCrc.CRC_INIT);
    r := PutAll(blank, h);
    PutAllAppends(blank, h);
    HeaderRoundTrip(f, crc, []);
    assert h + [] == h;
    if crc {
      PutAllCrc(blank, h);
    }
    FeedStuffed(s.(rx := blank), h);
    var st := Slip.Stuff(h);
    assert st[0] != Slip.DELIM;
    assert Byte(s, st[0]) == Byte(s.(rx := blank), st[0]);
  }

  /** The state in which the payload of an acceptable frame is awaited. */
  lemma FeedPayload(s: State, f: Frame, crc: bool, r: Receiver) returns (d: Receiver)
    requires Valid(s.(rx := r)) && Encodable(f)
    requires r.state == W4Data && r.count == |f.body.data| && !r.esc && r.skb == Header(f, crc)
    requires crc ==> r.crc == BcspCrc.Crc(BcspCrc.CRC_INIT, Header(f, crc))
    ensures d.state == W4Data && d.count == 0 && !d.esc && d.skb == Header(f, crc) + f.body.data
    ensures crc ==> d.crc == BcspCrc.Crc(BcspCrc.CRC_INIT, Header(f, crc) + f.body.data)
    ensures Valid(s.(rx := d)) && Feed(s.(rx := r), Slip.Stuff(f.body.data)) == s.(rx := d)
  {
    hide Header, Slip.Stuff, BcspCrc.Crc, ChecksumOk, PayloadLen, Byte;
    d := PutAll(r, f.body.data);
    PutAllAppends(r, f.body.data);
    HeaderRoundTrip(f, crc, f.body.data);
    if crc {
      PutAllCrc(r, f.body.data);
      BcspCrc.CrcAppend(BcspCrc.CRC_INIT, Header(f, crc), f.body.data);
    }
    FeedStuffed(s.(rx := r), f.body.data);
  }

  /** The CRC bytes that the sender appended pass the receiver's check. */
  lemma FeedTrailer(s: State, f: Frame, d: Receiver) returns (e: Receiver)
    requires Valid(s.(rx := d)) && Encodable(f)
    requires d.state == W4Crc && d.count == 2 && !d.esc && d.skb == Header(f, true) + f.body.data
    requires d.crc == BcspCrc.Crc(BcspCrc.CRC_INIT, d.skb)
    ensures e.state == W4Crc && e.count == 0 && |e.skb| >= 2 && e.skb[..|e.skb| - 2] == d.skb
    ensures BcspCrc.Bitrev16(e.crc) == BcspCrc.Be16(e.skb[|e.skb| - 2], e.skb[|e.skb| - 1])
    ensures Valid(s.(rx := e))
    ensures Feed(s.(rx := d), Slip.Stuff(BcspCrc.SplitBe16(BcspCrc.Bitrev16(d.crc)))) == s.(rx := e)
  {
    var t := BcspCrc.SplitBe16(BcspCrc.Bitrev16(d.crc));
    e := PutAll(d, t);
    PutAllAppends(d, t);
    PutAllKeepsCrc(d, t);
    BcspCrc.Be16Exact(BcspCrc.Bitrev16(d.crc), t[0], t[1]);
    assert t == [t[0], t[1]];
    FeedStuffed(s.(rx := d), t);
  }

  /** Whatever bytes remain of a rejected frame are skipped up to its closing delimiter. */
  lemma {:induction false} SkipToDelimiter(s: State, bytes: seq<byte>)
    requires Valid(s) && s.rx.state == W4PktDelimiter && Slip.DELIM !in bytes
    ensures Feed(s, bytes) == s
    decreases |bytes|
  {
    if bytes != [] {
      SkipToDelimiter(s, bytes[1..]);
    }
  }

  /** The stuffed bytes that follow the header. */
  function AfterHeader(f: Frame, crc: bool): seq<byte>
    requires Encodable(f)
  {
    Slip.Stuff(f.body.data) + (Slip.Stuff(Trailer(f, crc)) + [Slip.DELIM])
  }

  lemma ContentStuffed(f: Frame, crc: bool)
    requires Encodable(f)
    ensures Slip.Stuff(Content(f, crc)) + [Slip.DELIM] == Slip.Stuff(Header(f, crc)) + AfterHeader(f, crc)
  {
    hide Header, Trailer, Slip.Stuff;
    Slip.StuffAppend(Header(f, crc) + f.body.data, Trailer(f, crc));
    Slip.StuffAppend(Header(f, crc), f.body.data);
  }

  /** A reliable frame with the wrong number is dropped at its header. */
  lemma RejectedFrame(s: State, r: Receiver, f: Frame, crc: bool)
    requires Valid(s.(rx := r)) && Encodable(f)
    requires r.state == W4BcspHdr && r.count == 0 && r.skb == Header(f, crc)
    requires f.reliable && f.seqno != s.link.rxseqTxack
    ensures var e := Feed(s.(rx := r), AfterHeader(f, crc));
            e.link == s.link && e.rx.state == W4PktStart
  {
    var rest := Slip.Stuff(f.body.data) + Slip.Stuff(Trailer(f, crc));
    assert AfterHeader(f, crc) == rest + [Slip.DELIM];
    HeaderRoundTrip(f, crc, []);
    assert r.skb + [] == r.skb;
    FeedSettles(s.(rx := r), rest + [Slip.DELIM]);
    var rejected := Settle(s.(rx := r));
    FeedAppend(rejected, rest, [Slip.DELIM]);
    SkipToDelimiter(rejected, rest);
    FeedOne(rejected, Slip.DELIM);
  }

  /** After the payload: check the CRC, if there is one, and complete the packet. */
  lemma CompletedFrame(s: State, d: Receiver, f: Frame, crc: bool)
    requires Valid(s.(rx := d)) && Encodable(f)
    requires d.state == W4Data && d.count == 0 && !d.esc && d.skb == Header(f, crc) + f.body.data
    requires crc ==> d.crc == BcspCrc.Crc(BcspCrc.CRC_INIT, d.skb)
    ensures var e := Feed(s.(rx := d), Slip.Stuff(Trailer(f, crc)) + [Slip.DELIM]);
            e.link == Complete(s.link, f) && e.rx.state == W4PktStart
  {
    HeaderRoundTrip(f, crc, f.body.data);
    assert FrameIn(d.skb) == f;
    hide Header, FrameIn, Complete;
    FeedSettles(s.(rx := d), Slip.Stuff(Trailer(f, crc)) + [Slip.DELIM]);
    if crc {
      CheckedFrame(s, d.(state := W4Crc, count := 2), f);
    } else {
      assert Slip.Stuff(Trailer(f, crc)) + [Slip.DELIM] == [Slip.DELIM];
      FeedOne(Settle(s.(rx := d)), Slip.DELIM);
    }
  }

  lemma CheckedFrame(s: State, d: Receiver, f: Frame)
    requires Valid(s.(rx := d)) && Encodable(f)
    requires d.state == W4Crc && d.count == 2 && !d.esc && d.skb == Header(f, true) + f.body.data
    requires FrameIn(d.skb) == f
    requires d.crc == BcspCrc.Crc(BcspCrc.CRC_INIT, d.skb)
    ensures var e := Feed(s.(rx := d), Slip.Stuff(Trailer(f, true)) + [Slip.DELIM]);
            e.link == Complete(s.link, f) && e.rx.state == W4PktStart
  {
    hide Header, FrameIn, Complete;
    var e := FeedTrailer(s, f, d);
    FeedAppend(s.(rx := d), Slip.Stuff(Trailer(f, true)), [Slip.DELIM]);
    FeedSettles(s.(rx := e), [Slip.DELIM]);
    FeedOne(Settle(s.(rx := e)), Slip.DELIM);
  }

  lemma AcceptedFrame(s: State, r: Receiver, f: Frame, crc: bool)
    requires Valid(s.(rx := r)) && Encodable(f)
    requires r.state == W4BcspHdr && r.count == 0 && !r.esc && r.skb == Header(f, crc)
    requires crc ==> r.crc == BcspCrc.Crc(BcspCrc.CRC_INIT, Header(f, crc))
    requires !f.reliable || f.seqno == s.link.rxseqTxack
    ensures var e := Feed(s.(rx := r), AfterHeader(f, crc));
            e.link == Complete(s.link, f) && e.rx.state == W4PktStart
  {
    HeaderRoundTrip(f, crc, []);
    assert r.skb + [] == r.skb;
    FeedSettles(s.(rx := r), AfterHeader(f, crc));
    var waiting := Settle(s.(rx := r));
    var d := FeedPayload(s, f, crc, waiting.rx);
    FeedAppend(waiting, Slip.Stuff(f.body.data), Slip.Stuff(Trailer(f, crc)) + [Slip.DELIM]);
    CompletedFrame(s, d, f, crc);
  }

  /** From a packet start, the bytes of bcsp_prepare_pkt do to the link exactly what the frame means, and leave
      the receiver at the next packet start. */
  lemma FrameRoundTripFromStart(s: State, f: Frame, crc: bool)
    requires Valid(s) && s.rx.state == W4PktStart && Encodable(f)
    ensures var r := Feed(s, Slip.Stuff(Content(f, crc)) + [Slip.DELIM]);
            r.link == Received(s.link, f) && r.rx.state == W4PktStart
  {
    hide Content, Slip.Stuff, Byte, Complete, Header, AfterHeader, Feed;
    ContentStuffed(f, crc);
    var r := FeedHeader(s, f, crc);
    FeedAppend(s, Slip.Stuff(Header(f, crc)), AfterHeader(f, crc));
    if f.reliable && f.seqno != s.link.rxseqTxack {
      RejectedFrame(s, r, f, crc);
    } else {
      AcceptedFrame(s, r, f, crc);
    }
  }

  lemma FeedOne(s: State, c: byte)
    requires Valid(s)
    ensures Feed(s, [c]) == Byte(s, c)
  {
    assert Feed(s, [c]) == Feed(Byte(s, c), [c][1..]);
  }

  /** From every state of the receiver, even in the middle of another packet: the opening delimiter disposes of
      what was there, and the frame arrives whole. */
  lemma FrameRoundTrip(s: State, f: Frame, crc: bool)
    requires Valid(s) && Encodable(f)
    ensures var r := Feed(s, Encode(f, crc));
            r.link == Received(Byte(s, Slip.DELIM).link, f) && r.rx.state == W4PktStart
  {
    hide Content, Slip.Stuff, Byte, Received;
    var body := Slip.Stuff(Content(f, crc)) + [Slip.DELIM];
    assert Encode(f, crc) == [Slip.DELIM] + body;
    assert Encode(f, crc)[1..] == body;
    DelimiterResynchronises(s);
    FrameRoundTripFromStart(Byte(s, Slip.DELIM), f, crc);
  }

  /** Between packets no buffer is needed, and without a delimiter no new packet starts. */
  lemma {:induction false} OneByteKeepsPacket(s: State, c: byte)
    requires Valid(s) && s.rx.state != W4PktStart && c != Slip.DELIM
    ensures Byte(s, c).rx.state != W4PktStart
    decreases Rank(s.rx)
  {
    if s.rx.count == 0 && !s.rx.state.W4PktDelimiter? {
      OneByteKeepsPacket(Settle(s), c);
    }
  }

  lemma {:induction false} NoMoreBuffers(s: State, bytes: seq<byte>)
    requires Valid(s) && s.rx.state != W4PktStart && Slip.DELIM !in bytes
    ensures Buffers(s, bytes + [Slip.DELIM]) == 0
    decreases |bytes|
  {
    var all := bytes + [Slip.DELIM];
    if bytes == [] {
      assert all[1..] == [];
    } else {
      assert all[1..] == bytes[1..] + [Slip.DELIM];
      OneByteKeepsPacket(s, bytes[0]);
      NoMoreBuffers(Byte(s, bytes[0]), bytes[1..]);
    }
  }

  lemma ContentSome(f: Frame, crc: bool)
    requires Encodable(f)
    ensures var stuffed := Slip.Stuff(Content(f, crc)); stuffed != [] && stuffed[0] != Slip.DELIM
  {
    hide Trailer;
  }

  lemma PacketBegins(s: State, c: byte)
    requires Valid(s) && s.rx.state == W4PktStart && c != Slip.DELIM
    ensures NeedsBuffer(s, c) && Byte(s, c).rx.state != W4PktStart
  {
  }

  /** One receive buffer is enough for one frame. */
  lemma FrameNeedsOneBuffer(s: State, f: Frame, crc: bool)
    requires Valid(s) && Encodable(f)
    ensures Buffers(s, Encode(f, crc)) == 1
  {
    hide Content, Slip.Stuff, Byte;
    var stuffed := Slip.Stuff(Content(f, crc));
    var start := Byte(s, Slip.DELIM);
    DelimiterResynchronises(s);
    ContentSome(f, crc);
    assert Encode(f, crc)[1..] == stuffed + [Slip.DELIM];
    assert stuffed == [stuffed[0]] + stuffed[1..];
    assert (stuffed + [Slip.DELIM])[1..] == stuffed[1..] + [Slip.DELIM];
    PacketBegins(start, stuffed[0]);
    NoMoreBuffers(Byte(start, stuffed[0]), stuffed[1..]);
  }

  /** Without memory the frame is lost, and nothing else happens. */
  lemma FrameWithoutBuffer(s: State, f: Frame, crc: bool)
    requires Valid(s) && Encodable(f)
    ensures var r := Recv(s, Encode(f, crc), 0);
            r.link == Byte(s, Slip.DELIM).link && r.rx.state == W4PktDelimiter
  {
    hide Byte, Encode, Recv, Valid;
    DelimiterResynchronises(s);
    EncodeHead(f, crc);
    FreeByte(s, Encode(f, crc));
    DroppedBytes(Byte(s, Slip.DELIM), Encode(f, crc)[1..]);
  }

  /** A frame opens with a delimiter, and one only. */
  lemma EncodeHead(f: Frame, crc: bool)
    requires Encodable(f)
    ensures var e := Encode(f, crc); |e| >= 2 && e[0] == Slip.DELIM && e[1] != Slip.DELIM
  {
    hide Content, Slip.Stuff;
    ContentSome(f, crc);
  }

  /** A delimiter never needs a buffer. */
  lemma FreeByte(s: State, bytes: seq<byte>)
    requires Valid(s) && bytes != [] && bytes[0] == Slip.DELIM
    ensures Recv(s, bytes, 0) == Recv(Byte(s, Slip.DELIM), bytes[1..], 0)
  {
    hide Byte;
  }

  lemma DroppedBytes(s: State, bytes: seq<byte>)
    requires Valid(s) && s.rx.state == W4PktStart && bytes != [] && bytes[0] != Slip.DELIM
    ensures var r := Recv(s, bytes, 0); r.link == s.link && r.rx.state == W4PktDelimiter
  {
    hide Byte;
  }

  /** The stuffed frame fits the buffer that bcsp_prepare_pkt allocates. */
  lemma EncodedFits(f: Frame, crc: bool)
    requires Encodable(f)
    ensures |Encode(f, crc)| <= (|f.body.data| + 6) * 2 + 2
  {
  }
}
