/** The byte stream of Three-wire H5: h5_recv and its handlers, and the frames that h5_prepare_pkt builds. */
module H5Stream {
  import opened Octets
  import opened GoBackN
  import opened H5
  import Slip

  datatype RxFunc = RxDelimiter | RxPktStart | Rx3WireHdr | RxPayload | RxCrc

  /** `faulted` marks the receiver after a data packet reached a link that is not up: the header handler falls
      through after resetting the receiver, and the model follows it no further. */
  datatype Receiver = Receiver(func: RxFunc, pending: nat, esc: bool, skb: seq<byte>, faulted: bool)

  datatype State = State(link: Link, rx: Receiver)

  // ---- Frames ----

  predicate Encodable(f: Frame) {
    && f.seqno < 8 && f.ack < 8 && f.body.tag < 16 && |f.body.data| <= MAX_DATA
    && (f.reliable || f.seqno == 0)
  }

  ghost predicate Encoded(fs: seq<Frame>) {
    forall f :: f in fs ==> Encodable(f)
  }

  function Header(f: Frame): (h: seq<byte>)
    requires Encodable(f)
    ensures |h| == 4
  {
    var h0 := 8 * f.ack + if f.reliable then 128 + f.seqno else 0;
    var h1 := f.body.tag + 16 * (|f.body.data| % 16);
    var h2 := |f.body.data| / 16;
    [h0, h1, h2, 255 - (h0 + h1 + h2) % 256]
  }

  /** The bytes that h5_prepare_pkt builds: no CRC. */
  function Encode(f: Frame): seq<byte>
    requires Encodable(f)
  {
    [Slip.DELIM] + Slip.Stuff(Header(f) + f.body.data) + [Slip.DELIM]
  }

  predicate ChecksumOk(skb: seq<byte>)
    requires |skb| >= 4
  {
    var sum: int := skb[0] as int + skb[1] as int + skb[2] as int + skb[3] as int;
    sum % 256 == 0xff
  }

  function PayloadLen(skb: seq<byte>): (n: nat)
    requires |skb| >= 4
    ensures n <= MAX_DATA
  {
    skb[1] as int / 16 + 16 * (skb[2] as int)
  }

  predicate HasCrc(skb: seq<byte>)
    requires |skb| >= 1
  {
    skb[0] / 64 % 2 == 1
  }

  /** The frame in the buffer. A CRC, when there is one, is not checked and stays at the end of the payload. */
  function FrameIn(skb: seq<byte>): (f: Frame)
    requires |skb| >= 4
  {
    Frame(skb[0] >= 128, skb[0] % 8, skb[0] / 8 % 8, Body(skb[1] % 16, skb[4..]))
  }

  // ---- Receiver ----

  /** h5_reset_rx */
  const RESET := Receiver(RxDelimiter, 0, false, [], false)
  const STARTED := Receiver(Rx3WireHdr, 4, false, [], false)

  ghost predicate HeaderOk(l: Link, skb: seq<byte>) {
    && |skb| >= 4
    && ChecksumOk(skb)
    && (skb[0] >= 128 ==> skb[0] % 8 == l.txAck)
  }

  ghost predicate RxOk(l: Link, rx: Receiver) {
    !rx.faulted ==>
      match rx.func
      case RxDelimiter => rx.pending == 0 && !rx.esc
      case RxPktStart => rx.pending == 0 && !rx.esc
      case Rx3WireHdr => |rx.skb| + rx.pending == 4 && (rx.esc ==> rx.pending > 0)
      case RxPayload =>
        HeaderOk(l, rx.skb) && |rx.skb| + rx.pending == 4 + PayloadLen(rx.skb) && (rx.esc ==> rx.pending > 0)
      case RxCrc =>
        HeaderOk(l, rx.skb) && |rx.skb| + rx.pending == 4 + PayloadLen(rx.skb) + 2 && (rx.esc ==> rx.pending > 0)
  }

  ghost predicate Valid(s: State) {
    QueuesOk(s.link) && RxOk(s.link, s.rx)
  }

  function Put(rx: Receiver, c: byte): Receiver
    requires rx.pending > 0
  {
    rx.(skb := rx.skb + [c], pending := rx.pending - 1, esc := false)
  }

  /** h5_unslip_one_byte */
  function Unslip(rx: Receiver, c: byte): Receiver
    requires rx.pending > 0
  {
    if !rx.esc then
      if c == Slip.ESC then rx.(esc := true) else Put(rx, c)
    else if c == Slip.ESC_DELIM then Put(rx, Slip.DELIM)
    else if c == Slip.ESC_ESC then Put(rx, Slip.ESC)
    else RESET
  }

  lemma PutOk(l: Link, rx: Receiver, c: byte)
    requires RxOk(l, rx) && rx.pending > 0 && !rx.faulted
    ensures RxOk(l, Put(rx, c))
  {
    if |rx.skb| >= 4 {
      var skb := rx.skb + [c];
      assert skb[0] == rx.skb[0] && skb[1] == rx.skb[1] && skb[2] == rx.skb[2] && skb[3] == rx.skb[3];
    }
  }

  lemma UnslipOk(l: Link, rx: Receiver, c: byte)
    requires RxOk(l, rx) && rx.pending > 0 && !rx.faulted
    ensures RxOk(l, Unslip(rx, c)) && !Unslip(rx, c).faulted
  {
    PutOk(l, rx, c);
    PutOk(l, rx, Slip.DELIM);
    PutOk(l, rx, Slip.ESC);
  }

  function Rank(rx: Receiver): nat {
    if rx.pending > 0 || rx.faulted then 0
    else match rx.func
      case RxDelimiter => 1
      case RxPktStart => 1
      case Rx3WireHdr => 4
      case RxPayload => 3
      case RxCrc => 2
  }

  /** The handlers that return 0: they look at the state and consume no byte. */
  function Settle(s: State): (r: State)
    requires Valid(s) && s.rx.pending == 0 && !s.rx.faulted
    requires s.rx.func.Rx3WireHdr? || s.rx.func.RxPayload? || s.rx.func.RxCrc?
    ensures Valid(r) && Rank(r.rx) < Rank(s.rx)
  {
    var rx := s.rx;
    match rx.func
    case Rx3WireHdr =>
      if !ChecksumOk(rx.skb) || (rx.skb[0] >= 128 && rx.skb[0] % 8 != s.link.txAck) then s.(rx := RESET)
      else if s.link.state != Active && rx.skb[1] % 16 != LINK_PKT then s.(rx := rx.(faulted := true))
      else s.(rx := rx.(func := RxPayload, pending := PayloadLen(rx.skb)))
    case RxPayload =>
      if HasCrc(rx.skb) then s.(rx := rx.(func := RxCrc, pending := 2))
      else Completed(s)
    case RxCrc => Completed(s)
  }

  function Completed(s: State): (r: State)
    requires Valid(s) && |s.rx.skb| >= 4 && |s.rx.skb| >= 4 + PayloadLen(s.rx.skb)
    ensures Valid(r) && r.rx == RESET
  {
    CompleteOk(s.link, FrameIn(s.rx.skb), PayloadLen(s.rx.skb));
    State(Complete(s.link, FrameIn(s.rx.skb), PayloadLen(s.rx.skb)), RESET)
  }

  /** One received byte, with every receive buffer granted. */
  function Byte(s: State, c: byte): (r: State)
    requires Valid(s)
    ensures Valid(r)
    decreases Rank(s.rx)
  {
    if s.rx.faulted then s
    else if s.rx.pending > 0 then
      if c == Slip.DELIM then s.(rx := RESET.(func := RxPktStart))
      else UnslipOk(s.link, s.rx, c); s.(rx := Unslip(s.rx, c))
    else match s.rx.func
      case RxDelimiter => if c == Slip.DELIM then s.(rx := s.rx.(func := RxPktStart)) else s
      case RxPktStart => if c == Slip.DELIM then s else s.(rx := Unslip(STARTED, c))
      case _ => Byte(Settle(s), c)
  }

  predicate NeedsBuffer(s: State, c: byte) {
    !s.rx.faulted && s.rx.pending == 0 && s.rx.func == RxPktStart && c != Slip.DELIM
  }

  /** h5_recv with `grants` receive buffers to be had; without one it resets and drops the rest of the call. */
  function Recv(s: State, bytes: seq<byte>, grants: nat): (r: State)
    requires Valid(s)
    ensures Valid(r)
    decreases |bytes|
  {
    if bytes == [] then s
    else if NeedsBuffer(s, bytes[0]) then
      if grants == 0 then s.(rx := RESET) else Recv(Byte(s, bytes[0]), bytes[1..], grants - 1)
    else Recv(Byte(s, bytes[0]), bytes[1..], grants)
  }

  /** Bytes received with every buffer granted. */
  function Feed(s: State, bytes: seq<byte>): (r: State)
    requires Valid(s)
    ensures Valid(r)
    decreases |bytes|
  {
    if bytes == [] then s else Feed(Byte(s, bytes[0]), bytes[1..])
  }

  // ---- Chunking and resynchronisation ----

  function Buffers(s: State, bytes: seq<byte>): (n: nat)
    requires Valid(s)
    decreases |bytes|
  {
    if bytes == [] then 0
    else (if NeedsBuffer(s, bytes[0]) then 1 else 0) + Buffers(Byte(s, bytes[0]), bytes[1..])
  }

  lemma {:induction false} EnoughBuffers(s: State, bytes: seq<byte>, grants: nat)
    requires Valid(s) && Buffers(s, bytes) <= grants
    ensures Recv(s, bytes, grants) == Feed(s, bytes)
    decreases |bytes|
  {
    hide Byte;
    if bytes != [] {
      EnoughBuffers(Byte(s, bytes[0]), bytes[1..], if NeedsBuffer(s, bytes[0]) then grants - 1 else grants);
    }
  }

  lemma {:induction false} FeedAppend(s: State, a: seq<byte>, b: seq<byte>)
    requires Valid(s)
    ensures Feed(s, a + b) == Feed(Feed(s, a), b)
    ensures Buffers(s, a + b) == Buffers(s, a) + Buffers(Feed(s, a), b)
    decreases |a|
  {
    hide Byte;
    if a == [] {
      assert a + b == b;
    } else {
      assert (a + b)[1..] == a[1..] + b;
      FeedAppend(Byte(s, a[0]), a[1..], b);
    }
  }

  /** Receiving a and then b is receiving them in one call, as long as memory lasts. */
  lemma ChunkingIndependent(s: State, a: seq<byte>, b: seq<byte>, grants: nat, more: nat)
    requires Valid(s)
    requires Buffers(s, a) <= grants && Buffers(Feed(s, a), b) <= more
    ensures Recv(Recv(s, a, grants), b, more) == Recv(s, a + b, grants + more)
  {
    hide Byte;
    var mid := Feed(s, a);
    calc {
      Recv(Recv(s, a, grants), b, more);
      { EnoughBuffers(s, a, grants); }
      Recv(mid, b, more);
      { EnoughBuffers(mid, b, more); }
      Feed(mid, b);
      { FeedAppend(s, a, b); }
      Feed(s, a + b);
      { FeedAppend(s, a, b); EnoughBuffers(s, a + b, grants + more); }
      Recv(s, a + b, grants + more);
    }
  }

  /** A complete header of a data packet that is not refused, on a link that is not up. */
  predicate HeaderFaults(s: State) {
    var skb := s.rx.skb;
    && s.rx.func == Rx3WireHdr && s.rx.pending == 0 && |skb| == 4
    && ChecksumOk(skb) && (skb[0] >= 128 ==> skb[0] % 8 == s.link.txAck)
    && s.link.state != Active && skb[1] % 16 != LINK_PKT
  }

  /** A delimiter leaves the receiver waiting for a packet start, exactly unless a data packet has reached a link that
      is not up. */
  lemma {:induction false} DelimiterResynchronises(s: State)
    requires Valid(s)
    ensures var rx := Byte(s, Slip.DELIM).rx;
            (rx.faulted <==> s.rx.faulted || HeaderFaults(s)) && (!rx.faulted ==> rx.func == RxPktStart)
    decreases Rank(s.rx)
  {
    if s.rx.pending == 0 && !s.rx.faulted && !s.rx.func.RxDelimiter? && !s.rx.func.RxPktStart? {
      if s.rx.func == Rx3WireHdr {
        DelimiterResynchronises(Settle(s));
      }
    }
  }

  /** The receive buffer never outgrows its allocation. */
  lemma BufferBounded(s: State, bytes: seq<byte>, grants: nat)
    requires Valid(s)
    ensures var rx := Recv(s, bytes, grants).rx;
            !rx.faulted && (rx.func.Rx3WireHdr? || rx.func.RxPayload? || rx.func.RxCrc?) ==>
              |rx.skb| + rx.pending <= MAX_LEN
  {
  }

  // ---- Round trip ----

  function PutAll(rx: Receiver, bs: seq<byte>): Receiver
    requires |bs| <= rx.pending
    decreases |bs|
  {
    if bs == [] then rx else PutAll(Put(rx, bs[0]), bs[1..])
  }

  lemma {:induction false} PutAllAppends(rx: Receiver, bs: seq<byte>)
    requires |bs| <= rx.pending && !rx.esc
    ensures PutAll(rx, bs) == rx.(skb := rx.skb + bs, pending := rx.pending - |bs|)
    decreases |bs|
  {
    if bs == [] {
      assert rx.skb + bs == rx.skb;
    } else {
      PutAllAppends(Put(rx, bs[0]), bs[1..]);
      assert rx.skb + [bs[0]] + bs[1..] == rx.skb + bs;
    }
  }

  lemma {:induction false} FeedStuffed(s: State, bs: seq<byte>)
    requires Valid(s) && !s.rx.esc && !s.rx.faulted && |bs| <= s.rx.pending
    ensures Feed(s, Slip.Stuff(bs)) == s.(rx := PutAll(s.rx, bs))
    decreases |bs|
  {
    if bs != [] {
      FeedAppend(s, Slip.StuffByte(bs[0]), Slip.Stuff(bs[1..]));
      FeedStuffedByte(s, bs[0]);
      FeedStuffed(s.(rx := Put(s.rx, bs[0])), bs[1..]);
    }
  }

  lemma FeedStuffedByte(s: State, c: byte)
    requires Valid(s) && !s.rx.esc && !s.rx.faulted && s.rx.pending > 0
    ensures Valid(s.(rx := Put(s.rx, c)))
    ensures Feed(s, Slip.StuffByte(c)) == s.(rx := Put(s.rx, c))
  {
    PutOk(s.link, s.rx, c);
    if c == Slip.DELIM || c == Slip.ESC {
      var x := if c == Slip.DELIM then Slip.ESC_DELIM else Slip.ESC_ESC;
      var mid := Byte(s, Slip.ESC);
      assert mid == s.(rx := s.rx.(esc := true));
      assert [Slip.ESC, x][1..] == [x];
      FeedOne(mid, x);
    } else {
      FeedOne(s, c);
    }
  }

  lemma FeedOne(s: State, c: byte)
    requires Valid(s)
    ensures Feed(s, [c]) == Byte(s, c)
  {
    assert Feed(s, [c]) == Feed(Byte(s, c), [c][1..]);
  }

  lemma FeedSettles(s: State, bytes: seq<byte>)
    requires Valid(s) && s.rx.pending == 0 && !s.rx.faulted && bytes != []
    requires s.rx.func.Rx3WireHdr? || s.rx.func.RxPayload? || s.rx.func.RxCrc?
    ensures Feed(s, bytes) == Feed(Settle(s), bytes)
  {
  }

  lemma {:induction false} SkipToDelimiter(s: State, bytes: seq<byte>)
    requires Valid(s) && s.rx == RESET && Slip.DELIM !in bytes
    ensures Feed(s, bytes) == s
    decreases |bytes|
  {
    if bytes != [] {
      SkipToDelimiter(s, bytes[1..]);
    }
  }

  lemma HeaderRoundTrip(f: Frame, rest: seq<byte>)
    requires Encodable(f)
    ensures var skb := Header(f) + rest;
            && ChecksumOk(skb)
            && PayloadLen(skb) == |f.body.data|
            && !HasCrc(skb)
            && FrameIn(skb) == f.(body := Body(f.body.tag, rest))
  {
    var skb := Header(f) + rest;
    assert skb[4..] == rest;
    var h0: int := skb[0];
    assert f.reliable <==> h0 >= 128;
    assert h0 % 8 == if f.reliable then f.seqno else 0;
    assert h0 / 8 % 8 == f.ack;
    assert h0 / 64 % 2 == 0;
    assert skb[1] / 16 == |f.body.data| % 16;
  }

  /** The receiver after the header of a frame. */
  lemma FeedHeader(s: State, f: Frame) returns (h: State)
    requires Valid(s) && s.rx.func == RxPktStart && !s.rx.faulted && Encodable(f)
    ensures h == s.(rx := Receiver(Rx3WireHdr, 0, false, Header(f), false))
    ensures Valid(h) && Feed(s, Slip.Stuff(Header(f))) == h
  {
    var st := Slip.Stuff(Header(f));
    assert st[0] != Slip.DELIM;
    FeedStuffed(s.(rx := STARTED), Header(f));
    PutAllAppends(STARTED, Header(f));
    h := s.(rx := Receiver(Rx3WireHdr, 0, false, Header(f), false));
    assert [] + Header(f) == Header(f);
    assert Byte(s, st[0]) == Byte(s.(rx := STARTED), st[0]);
  }

  lemma RejectedFrame(h: State, f: Frame)
    requires Valid(h) && Encodable(f) && h.rx == Receiver(Rx3WireHdr, 0, false, Header(f), false)
    requires f.reliable && f.seqno != h.link.txAck
    ensures Feed(h, Slip.Stuff(f.body.data) + [Slip.DELIM]) == h.(rx := RESET.(func := RxPktStart))
  {
    HeaderRoundTrip(f, []);
    assert Header(f) + [] == Header(f);
    var rest := Slip.Stuff(f.body.data);
    FeedSettles(h, rest + [Slip.DELIM]);
    var r := h.(rx := RESET);
    FeedAppend(r, rest, [Slip.DELIM]);
    SkipToDelimiter(r, rest);
    FeedOne(r, Slip.DELIM);
  }

  /** The frames that make the header handler fall through after its reset: not for link control, not refused, and on
      a link that is not up. */
  predicate Faults(l: Link, f: Frame) {
    l.state != Active && f.body.tag != LINK_PKT && (f.reliable ==> f.seqno == l.txAck)
  }

  lemma FaultingFrame(h: State, f: Frame)
    requires Valid(h) && Encodable(f) && h.rx == Receiver(Rx3WireHdr, 0, false, Header(f), false)
    requires Faults(h.link, f)
    ensures Feed(h, Slip.Stuff(f.body.data) + [Slip.DELIM]) == h.(rx := h.rx.(faulted := true))
  {
    HeaderRoundTrip(f, []);
    assert Header(f) + [] == Header(f);
    var rest := Slip.Stuff(f.body.data) + [Slip.DELIM];
    FeedSettles(h, rest);
    FaultedDeaf(Settle(h), rest);
  }

  /** The model follows a receiver no further than its fault. */
  lemma {:induction false} FaultedDeaf(s: State, bytes: seq<byte>)
    requires Valid(s) && s.rx.faulted
    ensures Feed(s, bytes) == s
    decreases |bytes|
  {
    if bytes != [] {
      FaultedDeaf(s, bytes[1..]);
    }
  }

  lemma {:induction false} FaultedStays(s: State, bytes: seq<byte>, left: nat)
    requires Valid(s) && s.rx.faulted
    ensures Recv(s, bytes, left) == s
    decreases |bytes|
  {
    if bytes != [] {
      FaultedStays(s, bytes[1..], left);
    }
  }

  lemma AcceptedFrame(h: State, f: Frame)
    requires Valid(h) && Encodable(f) && h.rx == Receiver(Rx3WireHdr, 0, false, Header(f), false)
    requires !Faults(h.link, f) && (f.reliable ==> f.seqno == h.link.txAck)
    ensures Feed(h, Slip.Stuff(f.body.data) + [Slip.DELIM])
         == State(Complete(h.link, f, |f.body.data|), RESET.(func := RxPktStart))
  {
    HeaderRoundTrip(f, []);
    HeaderRoundTrip(f, f.body.data);
    assert Header(f) + [] == Header(f);
    var rest := Slip.Stuff(f.body.data);
    FeedSettles(h, rest + [Slip.DELIM]);
    var p := Settle(h);
    hide Complete;
    FeedAppend(p, rest, [Slip.DELIM]);
    FeedStuffed(p, f.body.data);
    PutAllAppends(p.rx, f.body.data);
    var d := p.(rx := p.rx.(skb := Header(f) + f.body.data, pending := 0));
    assert FrameIn(d.rx.skb) == f;
    FeedSettles(d, [Slip.DELIM]);
    FeedOne(Settle(d), Slip.DELIM);
  }

  /** From every state of the receiver: the opening delimiter disposes of what was there, and the frame does to the
      link exactly what it means, unless it is one of those that fault. */
  lemma FrameRoundTrip(s: State, f: Frame)
    requires Valid(s) && !s.rx.faulted && !HeaderFaults(s) && Encodable(f)
    ensures var l, r := Byte(s, Slip.DELIM).link, Feed(s, Encode(f));
            && (r.rx.faulted <==> Faults(l, f))
            && (!r.rx.faulted ==> r.rx.func == RxPktStart && r.link == Received(l, f))
  {
    var st := Byte(s, Slip.DELIM);
    DelimiterResynchronises(s);
    Slip.StuffAppend(Header(f), f.body.data);
    var tail := Slip.Stuff(f.body.data) + [Slip.DELIM];
    assert Encode(f) == [Slip.DELIM] + (Slip.Stuff(Header(f)) + tail);
    assert Encode(f)[1..] == Slip.Stuff(Header(f)) + tail;
    var h := FeedHeader(st, f);
    FeedAppend(st, Slip.Stuff(Header(f)), tail);
    hide Byte, Encode, Slip.Stuff;
    if f.reliable && f.seqno != h.link.txAck {
      RejectedFrame(h, f);
    } else if Faults(h.link, f) {
      FaultingFrame(h, f);
    } else {
      AcceptedFrame(h, f);
    }
  }

  // ---- Whole frames at a receiver between packets ----

  ghost predicate AtRest(s: State) {
    Valid(s) && !s.rx.faulted && (s.rx.func == RxPktStart || s.rx.func == RxDelimiter)
  }

  lemma {:induction false} OneByteKeepsPacket(s: State, c: byte)
    requires Valid(s) && s.rx.func != RxPktStart && c != Slip.DELIM
    ensures Byte(s, c).rx.func != RxPktStart
    decreases Rank(s.rx)
  {
    if s.rx.pending == 0 && !s.rx.faulted && s.rx.func != RxDelimiter {
      OneByteKeepsPacket(Settle(s), c);
    }
  }

  /** Without a delimiter no new packet starts, so no buffer is asked for. */
  lemma {:induction false} NoMoreBuffers(s: State, bytes: seq<byte>)
    requires Valid(s) && s.rx.func != RxPktStart && Slip.DELIM !in bytes
    ensures Buffers(s, bytes + [Slip.DELIM]) == 0
    decreases |bytes|
  {
    hide Byte;
    var all := bytes + [Slip.DELIM];
    if bytes == [] {
      assert all[1..] == [];
    } else {
      assert all[1..] == bytes[1..] + [Slip.DELIM];
      OneByteKeepsPacket(s, bytes[0]);
      NoMoreBuffers(Byte(s, bytes[0]), bytes[1..]);
    }
  }

  /** The opening delimiter and the byte after it: where the buffer is needed. */
  lemma EncodeOpens(s: State, f: Frame) returns (start: State, c: byte, rest: seq<byte>)
    requires AtRest(s) && Encodable(f)
    ensures Encode(f) == [Slip.DELIM] + ([c] + (rest + [Slip.DELIM])) && c != Slip.DELIM && Slip.DELIM !in rest
    ensures start == Byte(s, Slip.DELIM) == s.(rx := s.rx.(func := RxPktStart))
    ensures NeedsBuffer(start, c) && Byte(start, c).rx.func != RxPktStart
  {
    var stuffed := Slip.Stuff(Header(f) + f.body.data);
    assert stuffed != [] && stuffed[0] in stuffed;
    start, c, rest := Byte(s, Slip.DELIM), stuffed[0], stuffed[1..];
    assert stuffed == [c] + rest;
    assert [c] + rest + [Slip.DELIM] == [c] + (rest + [Slip.DELIM]);
  }

  /** The bytes of a frame at a receiver between packets: without memory for a buffer they are lost, otherwise they
      either fault or do to the link exactly what the frame means. */
  lemma FrameArrives(s: State, f: Frame, grants: nat)
    requires AtRest(s) && Encodable(f)
    ensures var r := Recv(s, Encode(f), grants);
            && (r.rx.faulted <==> grants > 0 && Faults(s.link, f))
            && (!r.rx.faulted ==> AtRest(r) && r.link == if grants == 0 then s.link else Received(s.link, f))
  {
    hide Byte, Encode;
    var start, c, rest := EncodeOpens(s, f);
    var tail := rest + [Slip.DELIM];
    assert Encode(f)[1..] == [c] + tail && ([c] + tail)[1..] == tail;
    assert Recv(s, Encode(f), grants) == Recv(start, [c] + tail, grants);
    if grants > 0 {
      NoMoreBuffers(Byte(start, c), rest);
      assert Buffers(s, Encode(f)) == 1 + Buffers(Byte(start, c), tail);
      EnoughBuffers(s, Encode(f), grants);
      FrameRoundTrip(s, f);
    }
  }

  lemma EncodedFits(f: Frame)
    requires Encodable(f)
    ensures |Encode(f)| <= (|f.body.data| + 6) * 2 + 2
  {
  }
}
