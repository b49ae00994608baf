/** A BCSP frame that reaches bcsp_recv in pieces. */
module BcspChunks {
  import opened Octets
  import opened GoBackN
  import opened Bcsp
  import opened BcspFraming
  import opened Wire
  import BcspCrc
  import Slip

  // ---- Bytes that complete no packet ----

  /** The receiver has everything that it needs to hand a packet on at the next byte. */
  predicate Completing(rx: Receiver)
    requires rx.count == 0 && (rx.state.W4Data? ==> rx.skb != []) && (rx.state.W4Crc? ==> |rx.skb| >= 2)
  {
    || (rx.state.W4Data? && !HasCrc(rx.skb))
    || (rx.state.W4Crc? && var n := |rx.skb| - 2;
                           BcspCrc.Bitrev16(rx.crc) == BcspCrc.Be16(rx.skb[n], rx.skb[n + 1]))
  }

  /** The CRC check passes for the two bytes that the sender appends and for no others. */
  lemma CrcCheckExact(rx: Receiver)
    requires rx.state == W4Crc && rx.count == 0 && |rx.skb| >= 2
    ensures Completing(rx) <==> rx.skb[|rx.skb| - 2..] == BcspCrc.SplitBe16(BcspCrc.Bitrev16(rx.crc))
  {
    hide BcspCrc.Be16, BcspCrc.SplitBe16, BcspCrc.Bitrev16;
    var n := |rx.skb| - 2;
    BcspCrc.Be16Exact(BcspCrc.Bitrev16(rx.crc), rx.skb[n], rx.skb[n + 1]);
    assert rx.skb[n..] == [rx.skb[n], rx.skb[n + 1]];
  }

  ghost predicate Quiet(s: State)
    requires Valid(s)
    decreases Rank(s.rx)
  {
    s.rx.count == 0 && (s.rx.state.W4BcspHdr? || s.rx.state.W4Data? || s.rx.state.W4Crc?) ==>
      !Completing(s.rx) && Quiet(Settle(s))
  }

  ghost predicate QuietRun(s: State, bytes: seq<byte>)
    requires Valid(s)
    decreases |bytes|
  {
    bytes == [] || (Quiet(s) && QuietRun(Byte(s, bytes[0]), bytes[1..]))
  }

  /** The receiver looks at no other field of the link than the number it expects. */
  lemma SameNumber(s: State, l: Link)
    requires Valid(s) && QueuesOk(l) && l.rxseqTxack == s.link.rxseqTxack
    ensures Valid(s.(link := l))
  {
  }

  lemma {:induction false} QuietByte(s: State, l: Link, c: byte)
    requires Valid(s) && Quiet(s) && QueuesOk(l) && l.rxseqTxack == s.link.rxseqTxack
    ensures Valid(s.(link := l)) && Quiet(s.(link := l))
    ensures Byte(s.(link := l), c) == State(l, Byte(s, c).rx) && Byte(s, c).link == s.link
    decreases Rank(s.rx)
  {
    hide QueuesOk, Unslip, Complete;
    SameNumber(s, l);
    if s.rx.count == 0 && (s.rx.state.W4BcspHdr? || s.rx.state.W4Data? || s.rx.state.W4Crc?) {
      assert Settle(s).link == s.link && Settle(s.(link := l)) == State(l, Settle(s).rx);
      QuietByte(Settle(s), l, c);
    }
  }

  lemma {:induction false} QuietSwap(s: State, l: Link, bytes: seq<byte>)
    requires Valid(s) && QuietRun(s, bytes) && QueuesOk(l) && l.rxseqTxack == s.link.rxseqTxack
    ensures Valid(s.(link := l)) && QuietRun(s.(link := l), bytes)
    ensures Feed(s.(link := l), bytes) == State(l, Feed(s, bytes).rx) && Feed(s, bytes).link == s.link
    decreases |bytes|
  {
    hide QueuesOk, Byte, Quiet;
    SameNumber(s, l);
    if bytes != [] {
      QuietByte(s, l, bytes[0]);
      QuietSwap(Byte(s, bytes[0]), l, bytes[1..]);
    }
  }

  lemma {:induction false} QuietAppend(s: State, a: seq<byte>, b: seq<byte>)
    requires Valid(s)
    ensures QuietRun(s, a + b) <==> QuietRun(s, a) && QuietRun(Feed(s, a), b)
    decreases |a|
  {
    hide Byte, Quiet;
    if a == [] {
      assert a + b == b;
    } else {
      assert (a + b)[1..] == a[1..] + b;
      QuietAppend(Byte(s, a[0]), a[1..], b);
    }
  }

  lemma {:induction false} QuietStuffed(s: State, bs: seq<byte>)
    requires Valid(s) && !s.rx.esc && |bs| <= s.rx.count
    ensures QuietRun(s, Slip.Stuff(bs))
    decreases |bs|
  {
    if bs != [] {
      QuietAppend(s, Slip.StuffByte(bs[0]), Slip.Stuff(bs[1..]));
      QuietStuffedByte(s, bs[0]);
      FeedStuffedByte(s, bs[0]);
      QuietStuffed(s.(rx := Put(s.rx, bs[0])), bs[1..]);
    }
  }

  lemma QuietStuffedByte(s: State, c: byte)
    requires Valid(s) && !s.rx.esc && s.rx.count > 0
    ensures QuietRun(s, Slip.StuffByte(c))
  {
    var st := Slip.StuffByte(c);
    assert QuietRun(Byte(s, st[0]), st[1..]) by {
      if |st| == 2 {
        assert st[1..] == [st[1]] && [st[1]][1..] == [];
      }
    }
  }

  lemma QuietSettles(s: State, bytes: seq<byte>)
    requires Valid(s) && s.rx.count == 0
    requires s.rx.state.W4BcspHdr? || s.rx.state.W4Data? || s.rx.state.W4Crc?
    requires !Completing(s.rx) && QuietRun(Settle(s), bytes)
    ensures QuietRun(s, bytes)
  {
  }

  lemma {:induction false} QuietSkip(s: State, bytes: seq<byte>)
    requires Valid(s) && s.rx.state == W4PktDelimiter && Slip.DELIM !in bytes
    ensures QuietRun(s, bytes)
    decreases |bytes|
  {
    if bytes != [] {
      QuietSkip(s, bytes[1..]);
    }
  }

  // ---- A frame on its way in ----

  /** Between frames: nothing of a packet is stored. */
  ghost predicate AtRest(s: State) {
    Valid(s) && (s.rx.state == W4PktStart || s.rx.state == W4PktDelimiter)
  }

  lemma RestDelimiter(s: State)
    requires AtRest(s)
    ensures Byte(s, Slip.DELIM) == s.(rx := s.rx.(state := W4PktStart)) && Quiet(s)
  {
  }

  /** Nothing is handed on before the closing delimiter. */
  lemma FrameQuiet(s: State, f: Frame, crc: bool)
    requires AtRest(s) && Encodable(f)
    ensures QuietRun(s, [Slip.DELIM] + Slip.Stuff(Content(f, crc)))
  {
    hide Byte, Quiet, Slip.Stuff, Content, Header, Trailer, Settle;
    RestDelimiter(s);
    var start := s.(rx := s.rx.(state := W4PktStart));
    var all := [Slip.DELIM] + Slip.Stuff(Content(f, crc));
    assert all[1..] == Slip.Stuff(Content(f, crc));
    var head, tail := Slip.Stuff(Header(f, crc)), Slip.Stuff(f.body.data) + Slip.Stuff(Trailer(f, crc));
    ContentParts(f, crc);
    QuietAppend(start, head, tail);
    QuietHeader(start, f, crc);
    var r := FeedHeader(start, f, crc);
    QuietRest(start, r, f, crc);
  }

  lemma ContentParts(f: Frame, crc: bool)
    requires Encodable(f)
    ensures Slip.Stuff(Content(f, crc))
         == Slip.Stuff(Header(f, crc)) + (Slip.Stuff(f.body.data) + Slip.Stuff(Trailer(f, crc)))
  {
    hide Header, Trailer, Slip.Stuff;
    Slip.StuffAppend(Header(f, crc) + f.body.data, Trailer(f, crc));
    Slip.StuffAppend(Header(f, crc), f.body.data);
  }

  lemma QuietHeader(s: State, f: Frame, crc: bool)
    requires Valid(s) && s.rx.state == W4PktStart && Encodable(f)
    ensures QuietRun(s, Slip.Stuff(Header(f, crc)))
  {
    var blank := s.(rx := Receiver(W4BcspHdr, 4, false, [], BcspCrc.CRC_INIT));
    var st := Slip.Stuff(Header(f, crc));
    QuietStuffed(blank, Header(f, crc));
    assert st[0] != Slip.DELIM && Byte(s, st[0]) == Byte(blank, st[0]);
  }

  /** The bytes after the header, up to the closing delimiter. */
  lemma QuietRest(s: State, r: Receiver, f: Frame, crc: bool)
    requires Valid(s.(rx := r)) && Encodable(f)
    requires r.state == W4BcspHdr && r.count == 0 && !r.esc && r.skb == Header(f, crc)
    requires crc ==> r.crc == BcspCrc.Crc(BcspCrc.CRC_INIT, Header(f, crc))
    ensures QuietRun(s.(rx := r), Slip.Stuff(f.body.data) + Slip.Stuff(Trailer(f, crc)))
  {
    hide Byte, Quiet, Slip.Stuff, Trailer, Settle, Header, HeaderOk;
    SettledHeader(s.(rx := r), f, crc);
    var data, trailer := Slip.Stuff(f.body.data), Slip.Stuff(Trailer(f, crc));
    var h := s.(rx := r);
    if f.reliable && f.seqno != s.link.rxseqTxack {
      QuietSkip(Settle(h), data + trailer);
    } else {
      var d := FeedPayload(s, f, crc, Settle(h).rx);
      QuietAppend(Settle(h), data, trailer);
      QuietStuffed(Settle(h), f.body.data);
      QuietTrailer(s.(rx := d), f, crc);
    }
    QuietSettles(h, data + trailer);
  }

  /** What the header of a frame leads to. */
  lemma SettledHeader(h: State, f: Frame, crc: bool)
    requires Valid(h) && Encodable(f) && h.rx.state == W4BcspHdr && h.rx.count == 0 && h.rx.skb == Header(f, crc)
    ensures !Completing(h.rx)
    ensures Settle(h) == if f.reliable && f.seqno != h.link.rxseqTxack then h.(rx := h.rx.(state := W4PktDelimiter))
                         else h.(rx := h.rx.(state := W4Data, count := |f.body.data|))
  {
    HeaderRoundTrip(f, crc, []);
    assert Header(f, crc) + [] == Header(f, crc);
  }

  lemma QuietTrailer(s: State, f: Frame, crc: bool)
    requires Valid(s) && Encodable(f)
    requires s.rx.state == W4Data && s.rx.count == 0 && !s.rx.esc && s.rx.skb == Header(f, crc) + f.body.data
    ensures QuietRun(s, Slip.Stuff(Trailer(f, crc)))
  {
    hide Byte, Quiet, Header, FrameIn;
    HeaderRoundTrip(f, crc, f.body.data);
    if crc {
      QuietStuffed(Settle(s), Trailer(f, crc));
      QuietSettles(s, Slip.Stuff(Trailer(f, crc)));
    }
  }

  /** The receiver has taken the part `p` of a frame, of which `r` is still to come. */
  ghost predicate ReadSoFar(s: State, rx0: Receiver, p: seq<byte>, f: Frame, crc: bool, r: seq<byte>)
    requires Encodable(f)
  {
    && AtRest(State(s.link, rx0))
    && p + r == Encode(f, crc)
    && Feed(State(s.link, rx0), p) == s
  }

  ghost predicate Reading(s: State, f: Frame, crc: bool, r: seq<byte>)
    requires Encodable(f)
  {
    r != [] && exists rx0, p :: ReadSoFar(s, rx0, p, f, crc, r)
  }

  lemma ReadingStarts(s: State, f: Frame, crc: bool)
    requires AtRest(s) && Encodable(f)
    ensures Reading(s, f, crc, Encode(f, crc))
  {
    hide Byte, Content;
    assert ReadSoFar(s, s.rx, [], f, crc, Encode(f, crc));
  }

  /** A proper part of a frame is quiet. */
  lemma PartQuiet(s: State, f: Frame, crc: bool, a: seq<byte>, b: seq<byte>)
    requires AtRest(s) && Encodable(f) && a + b == Encode(f, crc) && b != []
    ensures QuietRun(s, a)
  {
    hide QuietRun, Content, Feed;
    var q := [Slip.DELIM] + Slip.Stuff(Content(f, crc));
    assert Encode(f, crc) == q + [Slip.DELIM];
    var rest := q[|a|..];
    assert a == Encode(f, crc)[..|a|] == q[..|a|];
    assert q == a + rest;
    FrameQuiet(s, f, crc);
    QuietAppend(s, a, rest);
  }

  lemma ReadingGoesOn(s: State, f: Frame, crc: bool, r: seq<byte>, n: nat)
    requires Encodable(f) && Reading(s, f, crc, r) && n < |r|
    ensures Valid(s) && QuietRun(s, r[..n])
    ensures var t := Feed(s, r[..n]); t.link == s.link && Reading(t, f, crc, r[n..])
  {
    hide Byte, Quiet, Encode, QuietRun;
    var rx0, p :| ReadSoFar(s, rx0, p, f, crc, r);
    var s0 := State(s.link, rx0);
    var c := r[..n];
    assert (p + c) + r[n..] == Encode(f, crc);
    PartQuiet(s0, f, crc, p + c, r[n..]);
    QuietAppend(s0, p, c);
    FeedAppend(s0, p, c);
    QuietSwap(s, s.link, c);
    assert ReadSoFar(Feed(s, c), rx0, p + c, f, crc, r[n..]);
  }

  lemma ReadingEnds(s: State, f: Frame, crc: bool, r: seq<byte>)
    requires Encodable(f) && Reading(s, f, crc, r)
    ensures Valid(s) && AtRest(Feed(s, r)) && Feed(s, r).link == Received(s.link, f)
    ensures Buffers(s, r) <= 1
  {
    hide Byte, Encode, Received;
    var rx0, p :| ReadSoFar(s, rx0, p, f, crc, r);
    var s0 := State(s.link, rx0);
    FeedAppend(s0, p, r);
    BuffersAppend(s0, p, r);
    RestDelimiter(s0);
    FrameRoundTrip(s0, f, crc);
    FrameNeedsOneBuffer(s0, f, crc);
  }

  /** What the driver does with its queues in the meantime does not matter. */
  lemma ReadingSwap(s: State, l: Link, f: Frame, crc: bool, r: seq<byte>)
    requires Encodable(f) && Reading(s, f, crc, r) && QueuesOk(l) && l.rxseqTxack == s.link.rxseqTxack
    ensures Reading(s.(link := l), f, crc, r)
  {
    hide Byte, Quiet, Encode, QuietRun, QueuesOk;
    var rx0, p :| ReadSoFar(s, rx0, p, f, crc, r);
    var s0 := State(s.link, rx0);
    PartQuiet(s0, f, crc, p, r);
    QuietSwap(s0, l, p);
    assert ReadSoFar(s.(link := l), rx0, p, f, crc, r);
  }

  // ---- Memory ----

  /** The receiver after a call in which no buffer could be had. */
  const BLANK := Receiver(W4PktDelimiter, 0, false, [], BcspCrc.CRC_INIT)

  lemma {:induction false} DryCall(s: State, a: seq<byte>, rest: seq<byte>)
    requires Valid(s) && QuietRun(s, a) && Buffers(s, a) > 0
    ensures Recv(s, a + rest, 0) == s.(rx := BLANK)
    decreases |a|
  {
    hide Byte, Quiet;
    assert (a + rest)[1..] == a[1..] + rest;
    if !NeedsBuffer(s, a[0]) {
      QuietByte(s, s.link, a[0]);
      DryCall(Byte(s, a[0]), a[1..], rest);
    }
  }

  lemma {:induction false} RecvAppend(s: State, a: seq<byte>, b: seq<byte>, grants: nat)
    requires Valid(s) && Buffers(s, a) <= grants
    ensures Recv(s, a + b, grants) == Recv(Feed(s, a), b, grants - Buffers(s, a))
    decreases |a|
  {
    hide Byte;
    if a == [] {
      assert a + b == b;
    } else {
      assert (a + b)[1..] == a[1..] + b;
      RecvAppend(Byte(s, a[0]), a[1..], b, if NeedsBuffer(s, a[0]) then grants - 1 else grants);
    }
  }

  /** The rest of a frame whose beginning was dropped. */
  ghost predicate Skipping(s: State, r: seq<byte>) {
    && Valid(s) && s.rx.state == W4PktDelimiter
    && r != [] && r[|r| - 1] == Slip.DELIM && Slip.DELIM !in r[..|r| - 1]
  }

  lemma SkippingGoesOn(s: State, r: seq<byte>, n: nat)
    requires Skipping(s, r) && n < |r|
    ensures Feed(s, r[..n]) == s && Buffers(s, r[..n]) == 0 && Skipping(s, r[n..])
  {
    var body := r[..|r| - 1];
    assert r[..n] == body[..n] && r[n..][..|r| - n - 1] == body[n..];
    assert body == body[..n] + body[n..];
    SkipToDelimiter(s, r[..n]);
    SkipBuffers(s, r[..n]);
  }

  lemma SkippingEnds(s: State, r: seq<byte>)
    requires Skipping(s, r)
    ensures AtRest(Feed(s, r)) && Feed(s, r).link == s.link && Buffers(s, r) == 0
  {
    hide Byte;
    var a := r[..|r| - 1];
    assert r == a + [Slip.DELIM];
    FeedAppend(s, a, [Slip.DELIM]);
    BuffersAppend(s, a, [Slip.DELIM]);
    SkipToDelimiter(s, a);
    SkipBuffers(s, a);
    FeedOne(s, Slip.DELIM);
    RestDelimiter(s);
    assert [Slip.DELIM][1..] == [];
  }

  lemma {:induction false} SkipBuffers(s: State, bytes: seq<byte>)
    requires Valid(s) && s.rx.state == W4PktDelimiter && Slip.DELIM !in bytes
    ensures Buffers(s, bytes) == 0
    decreases |bytes|
  {
    if bytes != [] {
      SkipBuffers(s, bytes[1..]);
    }
  }

  /** Once its first byte is gone, a frame holds no other delimiter than its last byte. */
  lemma TailSkips(s: State, f: Frame, crc: bool, k: nat)
    requires Encodable(f) && 1 <= k < |Encode(f, crc)| && Valid(s) && s.rx.state == W4PktDelimiter
    ensures Skipping(s, Encode(f, crc)[k..])
  {
    hide Content, Slip.Stuff, Valid;
    var st := Slip.Stuff(Content(f, crc));
    var r := Encode(f, crc)[k..];
    assert Encode(f, crc) == [Slip.DELIM] + st + [Slip.DELIM];
    assert r[..|r| - 1] == st[k - 1..];
    assert st == st[..k - 1] + st[k - 1..];
  }

  /** Without memory, the frame being read is dropped from where the call stands. */
  lemma ReadingDry(s: State, f: Frame, crc: bool, r: seq<byte>, n: nat, rest: seq<byte>)
    requires Encodable(f) && Reading(s, f, crc, r) && n < |r| && Valid(s) && Buffers(s, r[..n]) > 0
    ensures Recv(s, r[..n] + rest, 0) == s.(rx := BLANK)
    ensures Skipping(s.(rx := BLANK), r[n..])
  {
    hide Byte, Quiet, Encode, QuietRun;
    ReadingGoesOn(s, f, crc, r, n);
    DryCall(s, r[..n], rest);
    var rx0, p :| ReadSoFar(s, rx0, p, f, crc, r);
    assert n > 0;
    assert Encode(f, crc)[|p| + n..] == r[n..];
    TailSkips(s.(rx := BLANK), f, crc, |p| + n);
  }

  /** The closing delimiter needs no buffer. */
  lemma BuffersBeforeEnd(s: State, f: Frame, crc: bool, r: seq<byte>)
    requires Encodable(f) && Reading(s, f, crc, r) && Valid(s)
    ensures r[|r| - 1] == Slip.DELIM && Buffers(s, r) == Buffers(s, r[..|r| - 1])
  {
    hide Byte, Content, QuietRun;
    var rx0, p :| ReadSoFar(s, rx0, p, f, crc, r);
    var n := |r| - 1;
    assert r[n] == (p + r)[|p| + n] == Slip.DELIM;
    assert r == r[..n] + [Slip.DELIM];
    BuffersAppend(s, r[..n], [Slip.DELIM]);
    assert [Slip.DELIM][1..] == [];
  }

  // ---- The line ----

  ghost predicate OnWire(bytes: seq<seq<byte>>, frames: seq<Frame>, crc: bool) {
    && |bytes| == |frames|
    && (forall i :: 0 <= i < |frames| ==> Encodable(frames[i]) && bytes[i] == Encode(frames[i], crc))
  }

  /** The receiver `s` and the line to it, which carries the frames `fs`, the first of them perhaps half delivered. */
  ghost predicate OnLine(s: State, line: Line, fs: seq<Frame>, crc: bool) {
    if line.begun == [] then AtRest(s) && OnWire(line.waiting, fs, crc)
    else
      && fs != [] && Encodable(fs[0]) && OnWire(line.waiting, fs[1..], crc)
      && (Reading(s, fs[0], crc, line.begun) || Skipping(s, line.begun))
  }

  /** Frames that reach a driver one after the other, of which only those whose fate says so are heard. */
  function Fates(l: Link, fs: seq<Frame>, fate: seq<bool>): (r: Link)
    requires QueuesOk(l) && |fate| == |fs| && forall f :: f in fs ==> Encodable(f)
    ensures QueuesOk(r)
    decreases |fs|
  {
    if fs == [] then l
    else
      assert Encodable(fs[0]) by {
        assert fs[0] in fs;
      }
      CompleteOk(l, fs[0]);
      Fates(if fate[0] then Received(l, fs[0]) else l, fs[1..], fate[1..])
  }

  lemma AllEncodable(s: State, line: Line, fs: seq<Frame>, crc: bool)
    requires OnLine(s, line, fs, crc)
    ensures forall f :: f in fs ==> Encodable(f)
    ensures Valid(s) && QueuesOk(s.link)
  {
    hide AtRest, Encode, Skipping, Reading;
    if line.begun != [] {
      assert fs == [fs[0]] + fs[1..];
      OnLineValid(s, line, fs, crc);
    } else {
      OnLineValid(s, line, fs, crc);
    }
  }

  lemma OnLineValid(s: State, line: Line, fs: seq<Frame>, crc: bool)
    requires OnLine(s, line, fs, crc)
    ensures Valid(s)
  {
    if line.begun != [] && Reading(s, fs[0], crc, line.begun) {
      ReadingEnds(s, fs[0], crc, line.begun);
    }
  }

  lemma EncodeSome(f: Frame, crc: bool)
    requires Encodable(f)
    ensures Encode(f, crc) != []
  {
    hide Content;
  }

  lemma NothingTaken(s: State, line: Line, fs: seq<Frame>, n: nat, grants: nat)
    requires Valid(s) && line.begun == [] && (n == 0 || line.waiting == []) && forall f :: f in fs ==> Encodable(f)
    ensures Recv(s, Taken(line, n), grants) == s && Advance(line, n) == line
    ensures Fates(s.link, fs[..0], []) == s.link && fs[0..] == fs
  {
  }

  lemma FrameBegins(s: State, line: Line, fs: seq<Frame>, crc: bool)
    requires OnLine(s, line, fs, crc) && line.begun == [] && line.waiting != []
    ensures OnLine(s, Line(line.waiting[0], line.waiting[1..]), fs, crc) && line.waiting[0] != []
  {
    hide Encode, Reading, AtRest;
    EncodeSome(fs[0], crc);
    ReadingStarts(s, fs[0], crc);
  }

  /** A call that ends before the frame does. */
  lemma PartHeard(s: State, line: Line, fs: seq<Frame>, crc: bool, n: nat, grants: nat)
    requires OnLine(s, line, fs, crc) && n < |line.begun| && Valid(s) && forall f :: f in fs ==> Encodable(f)
    ensures var r := Recv(s, Taken(line, n), grants);
            r.link == s.link && OnLine(r, Advance(line, n), fs, crc)
    ensures Fates(s.link, fs[..0], []) == s.link && fs[0..] == fs
  {
    hide Encode, QueuesOk, OnWire, QuietRun, Byte;
    var c := line.begun[..n];
    assert c + [] == c;
    if Skipping(s, line.begun) {
      SkippingGoesOn(s, line.begun, n);
      EnoughBuffers(s, c, grants);
    } else {
      ReadingGoesOn(s, fs[0], crc, line.begun, n);
      ReadingEnds(s, fs[0], crc, line.begun);
      assert line.begun == c + line.begun[n..];
      BuffersAppend(s, c, line.begun[n..]);
      if Buffers(s, c) <= grants {
        EnoughBuffers(s, c, grants);
      } else {
        ReadingDry(s, fs[0], crc, line.begun, n, []);
      }
    }
  }

  /** A call that goes on to the end of the frame, and perhaps beyond. Without memory it takes nothing of what follows. */
  lemma RestHeard(s: State, line: Line, fs: seq<Frame>, crc: bool, grants: nat, more: seq<byte>)
    returns (heard: Option<bool>)
    requires OnLine(s, line, fs, crc) && line.begun != [] && Valid(s)
    ensures heard.Some? ==>
              var t := Feed(s, line.begun);
              && AtRest(t) && t.link == (if heard.value then Received(s.link, fs[0]) else s.link)
              && Buffers(s, line.begun) <= grants
              && Recv(s, line.begun + more, grants) == Recv(t, more, grants - Buffers(s, line.begun))
    ensures heard.None? ==> Recv(s, line.begun + more, grants) == s.(rx := BLANK) && AtRest(s.(rx := BLANK))
  {
    hide Encode, QueuesOk, OnWire, QuietRun, Byte, Received;
    var r := line.begun;
    if Skipping(s, r) {
      SkippingEnds(s, r);
      RecvAppend(s, r, more, grants);
      heard := Some(false);
    } else {
      ReadingEnds(s, fs[0], crc, r);
      if Buffers(s, r) <= grants {
        RecvAppend(s, r, more, grants);
        heard := Some(true);
      } else {
        BuffersBeforeEnd(s, fs[0], crc, r);
        var n := |r| - 1;
        ReadingDry(s, fs[0], crc, r, n, [Slip.DELIM] + more);
        assert r + more == r[..n] + ([Slip.DELIM] + more);
        heard := None;
      }
    }
  }

  lemma FatesFirst(l: Link, fs: seq<Frame>, heard: bool, fate: seq<bool>)
    requires QueuesOk(l) && |fate| < |fs| && forall f :: f in fs ==> Encodable(f)
    ensures QueuesOk(Received(l, fs[0]))
    ensures Fates(l, fs[..1 + |fate|], [heard] + fate)
         == Fates(if heard then Received(l, fs[0]) else l, fs[1..][..|fate|], fate)
    ensures fs[1..][|fate|..] == fs[1 + |fate|..]
  {
    hide Received, QueuesOk;
    assert fs[0] in fs;
    CompleteOk(l, fs[0]);
    ReceivedOk(l, fs[0]);
    var x := fs[..1 + |fate|];
    assert x[0] == fs[0] && x[1..] == fs[1..][..|fate|] && ([heard] + fate)[1..] == fate;
  }

  lemma ReceivedOk(l: Link, f: Frame)
    requires QueuesOk(l) && f.ack < 8
    ensures QueuesOk(Received(l, f))
  {
    CompleteOk(l, f);
  }

  /** Bytes that a call drops for want of memory. */
  lemma {:induction false} LineDropped(s: State, line: Line, fs: seq<Frame>, crc: bool, n: nat) returns (fate: seq<bool>)
    requires OnLine(s, line, fs, crc) && line.begun == [] && s.rx == BLANK && QueuesOk(s.link)
    ensures |fate| <= |fs| && forall f :: f in fs ==> Encodable(f)
    ensures Fates(s.link, fs[..|fate|], fate) == s.link && OnLine(s, Advance(line, n), fs[|fate|..], crc)
    decreases |line.waiting|
  {
    hide Encode, QueuesOk, Received, Reading;
    AllEncodable(s, line, fs, crc);
    fate := [];
    assert fs[..0] == [] && fs[0..] == fs;
    if n > 0 && line.waiting != [] {
      var w := line.waiting[0];
      EncodeSome(fs[0], crc);
      if n < |w| {
        TailSkips(s, fs[0], crc, n);
      } else {
        var rest := Line([], line.waiting[1..]);
        TakenSplit(Line(w, line.waiting[1..]), n);
        var more := LineDropped(s, rest, fs[1..], crc, n - |w|);
        fate := [false] + more;
        FatesFirst(s.link, fs, false, more);
      }
    }
  }

  /** A call that is given any number of bytes from the line hears some of the frames that end in them, in order, and
      loses the others; the receiver and the line are again in step. */
  lemma {:induction false} CallHears(s: State, line: Line, fs: seq<Frame>, crc: bool, n: nat, grants: nat)
    returns (fate: seq<bool>)
    requires OnLine(s, line, fs, crc)
    ensures Valid(s) && |fate| <= |fs| && forall f :: f in fs ==> Encodable(f)
    ensures var r := Recv(s, Taken(line, n), grants);
            r.link == Fates(s.link, fs[..|fate|], fate) && OnLine(r, Advance(line, n), fs[|fate|..], crc)
    decreases |line.waiting|, |line.begun|
  {
    hide Recv, Feed, AtRest, Reading, Skipping, Encode, Received, QueuesOk, Valid, OnWire, Fates;
    AllEncodable(s, line, fs, crc);
    if line.begun == [] {
      if n == 0 || line.waiting == [] {
        fate := [];
        NothingTaken(s, line, fs, n, grants);
      } else {
        var next := Line(line.waiting[0], line.waiting[1..]);
        FrameBegins(s, line, fs, crc);
        assert [] + Taken(next, n) == Taken(next, n);
        fate := CallHears(s, next, fs, crc, n, grants);
      }
    } else if n < |line.begun| {
      fate := [];
      PartHeard(s, line, fs, crc, n, grants);
    } else {
      var rest := Line([], line.waiting);
      var more := Taken(rest, n - |line.begun|);
      TakenSplit(line, n);
      var heard := RestHeard(s, line, fs, crc, grants, more);
      if heard.Some? {
        var t := Feed(s, line.begun);
        var more' := CallHears(t, rest, fs[1..], crc, n - |line.begun|, grants - Buffers(s, line.begun));
        fate := [heard.value] + more';
        FatesFirst(s.link, fs, heard.value, more');
      } else {
        var lost := LineDropped(s.(rx := BLANK), rest, fs[1..], crc, n - |line.begun|);
        fate := [false] + lost;
        FatesFirst(s.link, fs, false, lost);
      }
    }
  }
}
