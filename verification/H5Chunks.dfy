/** A Three-wire frame that reaches h5_recv in pieces. */
module H5Chunks {
  import opened Octets
  import opened GoBackN
  import opened H5
  import opened H5Stream
  import opened Wire
  import Slip

  // ---- Bytes that complete no packet ----

  /** The receiver has everything that it needs to hand a packet on at the next byte. */
  predicate Completing(rx: Receiver) {
    (rx.func.RxPayload? && (rx.skb != [] ==> !HasCrc(rx.skb))) || rx.func.RxCrc?
  }

  predicate Handling(rx: Receiver) {
    !rx.faulted && rx.pending == 0 && (rx.func.Rx3WireHdr? || rx.func.RxPayload? || rx.func.RxCrc?)
  }

  ghost predicate Quiet(s: State)
    requires Valid(s)
    decreases Rank(s.rx)
  {
    Handling(s.rx) ==> !Completing(s.rx) && Quiet(Settle(s))
  }

  ghost predicate QuietRun(s: State, bytes: seq<byte>)
    requires Valid(s)
    decreases |bytes|
  {
    bytes == [] || (Quiet(s) && QuietRun(Byte(s, bytes[0]), bytes[1..]))
  }

  /** The receiver looks at no other fields of the link than the number it expects and whether the link is up. */
  predicate Alike(l: Link, m: Link) {
    l.txAck == m.txAck && l.state == m.state
  }

  lemma SameNumber(s: State, l: Link)
    requires Valid(s) && QueuesOk(l) && Alike(l, s.link)
    ensures Valid(s.(link := l))
  {
  }

  lemma {:induction false} QuietByte(s: State, l: Link, c: byte)
    requires Valid(s) && Quiet(s) && QueuesOk(l) && Alike(l, s.link)
    ensures Valid(s.(link := l)) && Quiet(s.(link := l))
    ensures Byte(s.(link := l), c) == State(l, Byte(s, c).rx) && Byte(s, c).link == s.link
    decreases Rank(s.rx)
  {
    hide QueuesOk, Unslip, Complete;
    SameNumber(s, l);
    if Handling(s.rx) {
      assert Settle(s).link == s.link && Settle(s.(link := l)) == State(l, Settle(s).rx);
      QuietByte(Settle(s), l, c);
    }
  }

  lemma {:induction false} QuietSwap(s: State, l: Link, bytes: seq<byte>)
    requires Valid(s) && QuietRun(s, bytes) && QueuesOk(l) && Alike(l, s.link)
    ensures Valid(s.(link := l)) && QuietRun(s.(link := l), bytes)
    ensures Feed(s.(link := l), bytes) == State(l, Feed(s, bytes).rx) && Feed(s, bytes).link == s.link
    decreases |bytes|
  {
    hide QueuesOk, Byte, Quiet;
    SameNumber(s, l);
    if bytes != [] {
      QuietByte(s, l, bytes[0]);
      QuietSwap(Byte(s, bytes[0]), l, bytes[1..]);
    }
  }

  lemma {:induction false} QuietAppend(s: State, a: seq<byte>, b: seq<byte>)
    requires Valid(s)
    ensures QuietRun(s, a + b) <==> QuietRun(s, a) && QuietRun(Feed(s, a), b)
    decreases |a|
  {
    hide Byte, Quiet;
    if a == [] {
      assert a + b == b;
    } else {
      assert (a + b)[1..] == a[1..] + b;
      QuietAppend(Byte(s, a[0]), a[1..], b);
    }
  }

  lemma {:induction false} QuietStuffed(s: State, bs: seq<byte>)
    requires Valid(s) && !s.rx.esc && !s.rx.faulted && |bs| <= s.rx.pending
    ensures QuietRun(s, Slip.Stuff(bs))
    decreases |bs|
  {
    if bs != [] {
      QuietAppend(s, Slip.StuffByte(bs[0]), Slip.Stuff(bs[1..]));
      QuietStuffedByte(s, bs[0]);
      FeedStuffedByte(s, bs[0]);
      QuietStuffed(s.(rx := Put(s.rx, bs[0])), bs[1..]);
    }
  }

  lemma QuietStuffedByte(s: State, c: byte)
    requires Valid(s) && !s.rx.esc && !s.rx.faulted && s.rx.pending > 0
    ensures QuietRun(s, Slip.StuffByte(c))
  {
    var st := Slip.StuffByte(c);
    assert QuietRun(Byte(s, st[0]), st[1..]) by {
      if |st| == 2 {
        assert st[1..] == [st[1]] && [st[1]][1..] == [];
      }
    }
  }

  lemma {:induction false} QuietSkip(s: State, bytes: seq<byte>)
    requires Valid(s) && s.rx == RESET && Slip.DELIM !in bytes
    ensures QuietRun(s, bytes)
    decreases |bytes|
  {
    if bytes != [] {
      QuietSkip(s, bytes[1..]);
    }
  }

  lemma {:induction false} QuietDeaf(s: State, bytes: seq<byte>)
    requires Valid(s) && s.rx.faulted
    ensures QuietRun(s, bytes)
    decreases |bytes|
  {
    if bytes != [] {
      QuietDeaf(s, bytes[1..]);
    }
  }

  // ---- A frame on its way in ----

  lemma RestDelimiter(s: State)
    requires AtRest(s)
    ensures Byte(s, Slip.DELIM) == s.(rx := s.rx.(func := RxPktStart)) && Quiet(s)
  {
  }

  /** Nothing is handed on before the closing delimiter. */
  lemma FrameQuiet(s: State, f: Frame)
    requires AtRest(s) && Encodable(f)
    ensures QuietRun(s, [Slip.DELIM] + Slip.Stuff(Header(f) + f.body.data))
  {
    hide Byte, Quiet, Slip.Stuff, Header, Settle;
    RestDelimiter(s);
    var start := s.(rx := s.rx.(func := RxPktStart));
    var head, data := Slip.Stuff(Header(f)), Slip.Stuff(f.body.data);
    Slip.StuffAppend(Header(f), f.body.data);
    var all := [Slip.DELIM] + (head + data);
    assert all[1..] == head + data;
    QuietAppend(start, head, data);
    QuietHeader(start, f);
    var h := FeedHeader(start, f);
    QuietPayload(h, f);
  }

  lemma QuietHeader(s: State, f: Frame)
    requires Valid(s) && s.rx.func == RxPktStart && !s.rx.faulted && Encodable(f)
    ensures QuietRun(s, Slip.Stuff(Header(f)))
  {
    var st := Slip.Stuff(Header(f));
    QuietStuffed(s.(rx := STARTED), Header(f));
    assert st[0] != Slip.DELIM && Byte(s, st[0]) == Byte(s.(rx := STARTED), st[0]);
  }

  /** What the header of a frame leads to. */
  lemma SettledHeader(h: State, f: Frame)
    requires Valid(h) && Encodable(f) && h.rx == Receiver(Rx3WireHdr, 0, false, Header(f), false)
    ensures var r := Settle(h);
            r == h.(rx := RESET) || r.rx.faulted
            || (r.rx.pending == |f.body.data| && !r.rx.esc)
  {
    HeaderRoundTrip(f, []);
    assert Header(f) + [] == Header(f);
  }

  lemma QuietPayload(h: State, f: Frame)
    requires Valid(h) && Encodable(f) && h.rx == Receiver(Rx3WireHdr, 0, false, Header(f), false)
    ensures QuietRun(h, Slip.Stuff(f.body.data))
  {
    hide Byte, Quiet, Header, Settle;
    var r, data := Settle(h), Slip.Stuff(f.body.data);
    SettledHeader(h, f);
    if r.rx.faulted {
      QuietDeaf(r, data);
    } else if r.rx == RESET {
      QuietSkip(r, data);
    } else {
      QuietStuffed(r, f.body.data);
    }
    QuietSettles(h, data);
  }

  lemma QuietSettles(s: State, bytes: seq<byte>)
    requires Valid(s) && Handling(s.rx) && !Completing(s.rx) && QuietRun(Settle(s), bytes)
    ensures QuietRun(s, bytes)
  {
  }

  /** The receiver has taken the part `p` of a frame, of which `r` is still to come. */
  ghost predicate ReadSoFar(s: State, rx0: Receiver, p: seq<byte>, f: Frame, r: seq<byte>)
    requires Encodable(f)
  {
    && AtRest(State(s.link, rx0))
    && p + r == Encode(f)
    && Feed(State(s.link, rx0), p) == s
  }

  ghost predicate Reading(s: State, f: Frame, r: seq<byte>)
    requires Encodable(f)
  {
    !s.rx.faulted && r != [] && exists rx0, p :: ReadSoFar(s, rx0, p, f, r)
  }

  lemma ReadingStarts(s: State, f: Frame)
    requires AtRest(s) && Encodable(f)
    ensures Reading(s, f, Encode(f))
  {
    hide Byte;
    assert ReadSoFar(s, s.rx, [], f, Encode(f));
  }

  /** A proper part of a frame is quiet. */
  lemma PartQuiet(s: State, f: Frame, a: seq<byte>, b: seq<byte>)
    requires AtRest(s) && Encodable(f) && a + b == Encode(f) && b != []
    ensures QuietRun(s, a)
  {
    hide QuietRun, Header, Feed;
    var q := [Slip.DELIM] + Slip.Stuff(Header(f) + f.body.data);
    assert Encode(f) == q + [Slip.DELIM];
    var rest := q[|a|..];
    assert a == Encode(f)[..|a|] == q[..|a|];
    assert q == a + rest;
    FrameQuiet(s, f);
    QuietAppend(s, a, rest);
  }

  /** A part of a frame leaves its receiver reading on, unless the frame is one of those that fault. */
  lemma ReadingGoesOn(s: State, f: Frame, r: seq<byte>, n: nat)
    requires Encodable(f) && Reading(s, f, r) && n < |r|
    ensures Valid(s) && QuietRun(s, r[..n])
    ensures var t := Feed(s, r[..n]);
            t.link == s.link && if t.rx.faulted then Faults(s.link, f) else Reading(t, f, r[n..])
  {
    hide Byte, Quiet, Encode, QuietRun;
    var rx0, p :| ReadSoFar(s, rx0, p, f, r);
    var s0 := State(s.link, rx0);
    var c := r[..n];
    assert (p + c) + r[n..] == Encode(f);
    PartQuiet(s0, f, p + c, r[n..]);
    QuietAppend(s0, p, c);
    FeedAppend(s0, p, c);
    QuietSwap(s, s.link, c);
    var t := Feed(s, c);
    assert ReadSoFar(t, rx0, p + c, f, r[n..]);
    if t.rx.faulted {
      FeedAppend(s0, p + c, r[n..]);
      FaultedDeaf(t, r[n..]);
      RestFaults(s0, f);
    }
  }

  lemma RestFaults(s: State, f: Frame)
    requires AtRest(s) && Encodable(f)
    ensures var r := Feed(s, Encode(f));
            && (r.rx.faulted <==> Faults(s.link, f))
            && (!r.rx.faulted ==> AtRest(r) && r.link == Received(s.link, f))
    ensures Buffers(s, Encode(f)) <= 1
  {
    hide Byte, Encode, Received;
    FrameRoundTrip(s, f);
    RestDelimiter(s);
    var start, c, rest := EncodeOpens(s, f);
    var tail := rest + [Slip.DELIM];
    assert Encode(f)[1..] == [c] + tail && ([c] + tail)[1..] == tail;
    NoMoreBuffers(Byte(start, c), rest);
    assert Buffers(s, Encode(f)) == 1 + Buffers(Byte(start, c), tail);
  }

  lemma ReadingEnds(s: State, f: Frame, r: seq<byte>)
    requires Encodable(f) && Reading(s, f, r)
    ensures Valid(s) && Buffers(s, r) <= 1
    ensures var t := Feed(s, r);
            && (t.rx.faulted <==> Faults(s.link, f))
            && (!t.rx.faulted ==> AtRest(t) && t.link == Received(s.link, f))
  {
    hide Byte, Encode, Received, AtRest, Faults;
    var rx0, p :| ReadSoFar(s, rx0, p, f, r);
    var s0 := State(s.link, rx0);
    RestValid(s0);
    FeedAppend(s0, p, r);
    RestFaults(s0, f);
  }

  lemma RestValid(s: State)
    requires AtRest(s)
    ensures Valid(s) && QueuesOk(s.link)
  {
  }

  /** What the driver does with its queues in the meantime does not matter. */
  lemma ReadingSwap(s: State, l: Link, f: Frame, r: seq<byte>)
    requires Encodable(f) && Reading(s, f, r) && QueuesOk(l) && Alike(l, s.link)
    ensures Reading(s.(link := l), f, r)
  {
    hide Byte, Quiet, Encode, QuietRun, QueuesOk;
    var rx0, p :| ReadSoFar(s, rx0, p, f, r);
    var s0 := State(s.link, rx0);
    PartQuiet(s0, f, p, r);
    QuietSwap(s0, l, p);
    assert ReadSoFar(s.(link := l), rx0, p, f, r);
  }

  // ---- Memory ----

  lemma {:induction false} DryCall(s: State, a: seq<byte>, rest: seq<byte>)
    requires Valid(s) && QuietRun(s, a) && Buffers(s, a) > 0
    ensures Recv(s, a + rest, 0) == s.(rx := RESET)
    decreases |a|
  {
    hide Byte, Quiet;
    assert (a + rest)[1..] == a[1..] + rest;
    if !NeedsBuffer(s, a[0]) {
      QuietByte(s, s.link, a[0]);
      DryCall(Byte(s, a[0]), a[1..], rest);
    }
  }

  lemma {:induction false} RecvAppend(s: State, a: seq<byte>, b: seq<byte>, grants: nat)
    requires Valid(s) && Buffers(s, a) <= grants
    ensures Recv(s, a + b, grants) == Recv(Feed(s, a), b, grants - Buffers(s, a))
    decreases |a|
  {
    hide Byte;
    if a == [] {
      assert a + b == b;
    } else {
      assert (a + b)[1..] == a[1..] + b;
      RecvAppend(Byte(s, a[0]), a[1..], b, if NeedsBuffer(s, a[0]) then grants - 1 else grants);
    }
  }

  lemma {:induction false} FewBuffers(s: State, bytes: seq<byte>)
    requires Valid(s)
    ensures Buffers(s, bytes) <= |bytes|
    decreases |bytes|
  {
    hide Byte;
    if bytes != [] {
      FewBuffers(Byte(s, bytes[0]), bytes[1..]);
    }
  }

  /** The rest of a frame whose beginning was dropped. */
  ghost predicate Skipping(s: State, r: seq<byte>) {
    && Valid(s) && s.rx == RESET
    && r != [] && r[|r| - 1] == Slip.DELIM && Slip.DELIM !in r[..|r| - 1]
  }

  lemma SkippingGoesOn(s: State, r: seq<byte>, n: nat)
    requires Skipping(s, r) && n < |r|
    ensures Feed(s, r[..n]) == s && Buffers(s, r[..n]) == 0 && Skipping(s, r[n..])
  {
    var body := r[..|r| - 1];
    assert r[..n] == body[..n] && r[n..][..|r| - n - 1] == body[n..];
    assert body == body[..n] + body[n..];
    SkipToDelimiter(s, r[..n]);
    SkipBuffers(s, r[..n]);
  }

  lemma SkippingEnds(s: State, r: seq<byte>)
    requires Skipping(s, r)
    ensures AtRest(Feed(s, r)) && Feed(s, r).link == s.link && Buffers(s, r) == 0
  {
    hide Byte;
    var a := r[..|r| - 1];
    assert r == a + [Slip.DELIM];
    FeedAppend(s, a, [Slip.DELIM]);
    SkipToDelimiter(s, a);
    NoMoreBuffers(s, a);
    FeedOne(s, Slip.DELIM);
    RestDelimiter(s);
  }

  lemma {:induction false} SkipBuffers(s: State, bytes: seq<byte>)
    requires Valid(s) && s.rx == RESET && Slip.DELIM !in bytes
    ensures Buffers(s, bytes) == 0
    decreases |bytes|
  {
    if bytes != [] {
      SkipBuffers(s, bytes[1..]);
    }
  }

  /** Once its first byte is gone, a frame holds no other delimiter than its last byte. */
  lemma TailSkips(s: State, f: Frame, k: nat)
    requires Encodable(f) && 1 <= k < |Encode(f)| && Valid(s) && s.rx == RESET
    ensures Skipping(s, Encode(f)[k..])
  {
    hide Header, Slip.Stuff, Valid;
    var st := Slip.Stuff(Header(f) + f.body.data);
    var r := Encode(f)[k..];
    assert Encode(f) == [Slip.DELIM] + st + [Slip.DELIM];
    assert r[..|r| - 1] == st[k - 1..];
    assert st == st[..k - 1] + st[k - 1..];
  }

  lemma ResetValid(s: State)
    requires Valid(s)
    ensures Valid(s.(rx := RESET)) && AtRest(s.(rx := RESET))
  {
  }

  /** Without memory, the frame being read is dropped from where the call stands. */
  lemma ReadingDry(s: State, f: Frame, r: seq<byte>, n: nat, rest: seq<byte>)
    requires Encodable(f) && Reading(s, f, r) && n < |r| && Valid(s) && Buffers(s, r[..n]) > 0
    ensures Recv(s, r[..n] + rest, 0) == s.(rx := RESET)
    ensures Skipping(s.(rx := RESET), r[n..])
  {
    hide Byte, Quiet, Encode, QuietRun, AtRest, Skipping;
    ReadingGoesOn(s, f, r, n);
    DryCall(s, r[..n], rest);
    var rx0, p :| ReadSoFar(s, rx0, p, f, r);
    assert n > 0;
    assert Encode(f)[|p| + n..] == r[n..];
    ResetValid(s);
    TailSkips(s.(rx := RESET), f, |p| + n);
  }

  /** The closing delimiter needs no buffer. */
  lemma BuffersBeforeEnd(s: State, f: Frame, r: seq<byte>)
    requires Encodable(f) && Reading(s, f, r) && Valid(s)
    ensures r[|r| - 1] == Slip.DELIM && Buffers(s, r) == Buffers(s, r[..|r| - 1])
  {
    hide Byte, Header, QuietRun, AtRest, Valid;
    var rx0, p :| ReadSoFar(s, rx0, p, f, r);
    var n := |r| - 1;
    assert r[n] == (p + r)[|p| + n] == Slip.DELIM;
    assert r == r[..n] + [Slip.DELIM];
    FeedAppend(s, r[..n], [Slip.DELIM]);
    assert [Slip.DELIM][1..] == [];
  }

  // ---- The line ----

  /** The bytes of the frames given to the line. */
  function Wired(fs: seq<Frame>): (bytes: seq<seq<byte>>)
    ensures |bytes| == |fs|
    ensures forall i :: 0 <= i < |fs| ==> bytes[i] == if Encodable(fs[i]) then Encode(fs[i]) else []
  {
    seq(|fs|, i requires 0 <= i < |fs| => if Encodable(fs[i]) then Encode(fs[i]) else [])
  }

  /** The receiver `s` and the line to it, which carries the frames `fs`, the first of them perhaps half delivered; on a
      `clean` line it is being read. */
  ghost predicate OnLine(s: State, line: Line, fs: seq<Frame>, clean: bool) {
    Encoded(fs) &&
    if line.begun == [] then AtRest(s) && line.waiting == Wired(fs)
    else
      && fs != [] && line.waiting == Wired(fs[1..])
      && Encodable(fs[0]) && (Reading(s, fs[0], line.begun) || (!clean && Skipping(s, line.begun)))
  }

  /** Frames that reach a driver one after the other, of which only those whose fate says so are heard. */
  function Fates(l: Link, fs: seq<Frame>, fate: seq<bool>): (r: Link)
    requires QueuesOk(l) && |fate| <= |fs| && forall f :: f in fs ==> f.ack < 8
    ensures QueuesOk(r)
    decreases |fate|
  {
    if fate == [] then l
    else
      ReceivedOk(l, fs[0]);
      Fates(if fate[0] then Received(l, fs[0]) else l, fs[1..], fate[1..])
  }

  lemma ReceivedOk(l: Link, f: Frame)
    requires QueuesOk(l) && f.ack < 8
    ensures QueuesOk(Received(l, f))
  {
    CompleteOk(l, f, |f.body.data|);
  }

  /** None of the frames heard is one that faults. */
  ghost predicate Sound(l: Link, fs: seq<Frame>, fate: seq<bool>)
    requires QueuesOk(l) && |fate| <= |fs| && forall f :: f in fs ==> f.ack < 8
    decreases |fate|
  {
    fate == [] ||
      (ReceivedOk(l, fs[0]);
       (fate[0] ==> !Faults(l, fs[0])) && Sound(if fate[0] then Received(l, fs[0]) else l, fs[1..], fate[1..]))
  }

  lemma OnLineValid(s: State, line: Line, fs: seq<Frame>, clean: bool)
    requires OnLine(s, line, fs, clean)
    ensures Valid(s) && QueuesOk(s.link) && Encoded(fs) && !s.rx.faulted
    ensures forall f :: f in fs ==> f.ack < 8
  {
    hide Encode;
    if line.begun != [] && Reading(s, fs[0], line.begun) {
      ReadingEnds(s, fs[0], line.begun);
    }
  }

  lemma FrameBegins(s: State, line: Line, fs: seq<Frame>, clean: bool)
    requires OnLine(s, line, fs, clean) && line.begun == [] && line.waiting != []
    ensures OnLine(s, Line(line.waiting[0], line.waiting[1..]), fs, clean) && line.waiting[0] != []
  {
    hide Reading, AtRest, Header;
    assert fs[0] in fs;
    WiredRest(fs);
    ReadingStarts(s, fs[0]);
  }

  lemma WiredRest(fs: seq<Frame>)
    requires fs != []
    ensures Wired(fs)[1..] == Wired(fs[1..])
  {
    hide Encode;
  }

  /** What a call leaves: the frames that ended in it have met their fates, and the receiver is in step with the line,
      or has faulted at the next frame. */
  ghost predicate Heard(s: State, r: State, line: Line, fs: seq<Frame>, fate: seq<bool>, clean: bool)
    requires QueuesOk(s.link) && forall f :: f in fs ==> f.ack < 8
  {
    && |fate| <= |fs| && (clean ==> forall b :: b in fate ==> b)
    && Sound(s.link, fs, fate)
    && var l := Fates(s.link, fs, fate);
       if r.rx.faulted then |fate| < |fs| && Faults(l, fs[|fate|])
       else r.link == l && OnLine(r, line, fs[|fate|..], clean)
  }

  lemma NothingHeard(s: State, r: State, line: Line, fs: seq<Frame>, clean: bool)
    requires QueuesOk(s.link) && (forall f :: f in fs ==> f.ack < 8)
    requires if r.rx.faulted then fs != [] && Faults(s.link, fs[0]) else r.link == s.link && OnLine(r, line, fs, clean)
    ensures Heard(s, r, line, fs, [], clean)
  {
    hide OnLine, Faults;
    assert fs[0..] == fs;
  }

  /** A call that ends before the frame does. */
  lemma PartHeard(s: State, line: Line, fs: seq<Frame>, n: nat, grants: nat, clean: bool)
    requires OnLine(s, line, fs, clean) && n < |line.begun| && Valid(s) && (clean ==> grants >= n)
    requires forall f :: f in fs ==> f.ack < 8
    ensures Heard(s, Recv(s, Taken(line, n), grants), Advance(line, n), fs, [], clean)
  {
    hide Encode, QueuesOk, QuietRun, Byte, Heard, Faults, Wired, AtRest, Encoded;
    var c := line.begun[..n];
    assert c + [] == c;
    if Reading(s, fs[0], line.begun) {
      ReadingGoesOn(s, fs[0], line.begun, n);
      ReadingEnds(s, fs[0], line.begun);
      FewBuffers(s, c);
      assert line.begun == c + line.begun[n..];
      FeedAppend(s, c, line.begun[n..]);
      if Buffers(s, c) <= grants {
        EnoughBuffers(s, c, grants);
      } else {
        ReadingDry(s, fs[0], line.begun, n, []);
      }
    } else {
      SkippingGoesOn(s, line.begun, n);
      EnoughBuffers(s, c, grants);
    }
    NothingHeard(s, Recv(s, c, grants), Advance(line, n), fs, clean);
  }

  /** A call that goes on to the end of the frame, and perhaps beyond. Without memory it takes nothing of what follows. */
  lemma RestHeard(s: State, line: Line, fs: seq<Frame>, grants: nat, more: seq<byte>, clean: bool)
    returns (heard: Option<bool>)
    requires OnLine(s, line, fs, clean) && line.begun != [] && Valid(s) && (clean ==> grants >= |line.begun|)
    ensures heard.Some? ==>
              var t := Feed(s, line.begun);
              && Buffers(s, line.begun) <= grants && Buffers(s, line.begun) <= |line.begun|
              && Recv(s, line.begun + more, grants) == Recv(t, more, grants - Buffers(s, line.begun))
              && (t.rx.faulted <==> heard.value && Faults(s.link, fs[0]))
              && (!t.rx.faulted ==> AtRest(t) && t.link == if heard.value then Received(s.link, fs[0]) else s.link)
    ensures heard.None? ==> Recv(s, line.begun + more, grants) == s.(rx := RESET) && AtRest(s.(rx := RESET))
    ensures clean ==> heard == Some(true)
  {
    hide Encode, QueuesOk, QuietRun, Byte, Received, Faults, Encoded, Wired;
    var r := line.begun;
    FewBuffers(s, r);
    if Reading(s, fs[0], r) {
      ReadingEnds(s, fs[0], r);
      if Buffers(s, r) <= grants {
        RecvAppend(s, r, more, grants);
        heard := Some(true);
      } else {
        BuffersBeforeEnd(s, fs[0], r);
        var n := |r| - 1;
        ReadingDry(s, fs[0], r, n, [Slip.DELIM] + more);
        assert r + more == r[..n] + ([Slip.DELIM] + more);
        ResetValid(s);
        heard := None;
      }
    } else {
      SkippingEnds(s, r);
      RecvAppend(s, r, more, grants);
      heard := Some(false);
    }
  }

  /** The first frame of several has met its fate. */
  lemma HeardThen(s: State, t: State, r: State, line: Line, fs: seq<Frame>, heard: bool, fate: seq<bool>, clean: bool)
    requires fs != [] && QueuesOk(s.link) && QueuesOk(t.link) && (forall f :: f in fs ==> f.ack < 8)
    requires t.link == (if heard then Received(s.link, fs[0]) else s.link) && (heard ==> !Faults(s.link, fs[0]))
    requires Heard(t, r, line, fs[1..], fate, clean) && (clean ==> heard)
    ensures Heard(s, r, line, fs, [heard] + fate, clean)
  {
    hide Received, QueuesOk, OnLine, Faults;
    assert ([heard] + fate)[1..] == fate;
    assert fs[1..][|fate|..] == fs[1 + |fate|..];
  }

  lemma Behind(s: State, line: Line, fs: seq<Frame>, t: State, clean: bool)
    requires OnLine(s, line, fs, clean) && line.begun != [] && AtRest(t)
    ensures OnLine(t, Line([], line.waiting), fs[1..], true)
  {
    hide Encode, Reading, Skipping;
  }

  /** Bytes that a call drops for want of memory. */
  lemma {:induction false} LineDropped(s: State, line: Line, fs: seq<Frame>, n: nat) returns (fate: seq<bool>)
    requires OnLine(s, line, fs, false) && line.begun == [] && s.rx == RESET && QueuesOk(s.link)
    requires forall f :: f in fs ==> f.ack < 8
    ensures Heard(s, s, Advance(line, n), fs, fate, false)
    decreases |line.waiting|
  {
    hide Encode, QueuesOk, Received, Reading, Heard, Faults, Skipping, AtRest;
    fate := [];
    if n > 0 && line.waiting != [] {
      var w, rest := line.waiting[0], Line([], line.waiting[1..]);
      assert fs[0] in fs;
      WiredRest(fs);
      if n < |w| {
        OnLineValid(s, line, fs, false);
        TailSkips(s, fs[0], n);
        assert Advance(line, n) == Line(w[n..], rest.waiting);
        NothingHeard(s, s, Advance(line, n), fs, false);
      } else {
        TakenSplit(Line(w, rest.waiting), n);
        var more := LineDropped(s, rest, fs[1..], n - |w|);
        HeardThen(s, s, s, Advance(line, n), fs, false, more, false);
        fate := [false] + more;
      }
    } else {
      NothingHeard(s, s, line, fs, false);
    }
  }

  /** A call that is given any number of bytes from the line hears some of the frames that end in them, in order, and
      loses the others, and the receiver and the line are again in step, unless one of the frames faults. With a buffer
      for every byte none is lost. */
  lemma {:induction false} CallHears(s: State, line: Line, fs: seq<Frame>, n: nat, grants: nat, clean: bool)
    returns (fate: seq<bool>)
    requires OnLine(s, line, fs, clean) && (clean ==> grants >= n)
    ensures Valid(s) && forall f :: f in fs ==> f.ack < 8
    ensures Heard(s, Recv(s, Taken(line, n), grants), Advance(line, n), fs, fate, clean)
    decreases |line.waiting|, |line.begun|
  {
    hide Recv, Feed, AtRest, Reading, Skipping, Encode, Received, QueuesOk, Valid, Fates, Heard, Faults, Sound, OnLine;
    OnLineValid(s, line, fs, clean);
    if line.begun == [] {
      if n == 0 || line.waiting == [] {
        fate := [];
        NothingTaken(s, line, n, grants);
        NothingHeard(s, s, line, fs, clean);
      } else {
        var next := Line(line.waiting[0], line.waiting[1..]);
        FrameBegins(s, line, fs, clean);
        assert [] + Taken(next, n) == Taken(next, n);
        fate := CallHears(s, next, fs, n, grants, clean);
      }
    } else if n < |line.begun| {
      fate := [];
      PartHeard(s, line, fs, n, grants, clean);
    } else {
      fate := FirstEnds(s, line, fs, n, grants, clean);
    }
  }

  lemma NothingTaken(s: State, line: Line, n: nat, grants: nat)
    requires Valid(s) && line.begun == [] && (n == 0 || line.waiting == [])
    ensures Recv(s, Taken(line, n), grants) == s && Advance(line, n) == line
  {
  }

  lemma {:induction false} FirstEnds(s: State, line: Line, fs: seq<Frame>, n: nat, grants: nat, clean: bool)
    returns (fate: seq<bool>)
    requires OnLine(s, line, fs, clean) && (clean ==> grants >= n) && 0 < |line.begun| <= n
    requires Valid(s) && QueuesOk(s.link) && forall f :: f in fs ==> f.ack < 8
    ensures Heard(s, Recv(s, Taken(line, n), grants), Advance(line, n), fs, fate, clean)
    decreases |line.waiting|, |line.begun|, 0
  {
    hide Recv, Feed, Reading, Skipping, Encode, Received, QueuesOk, Valid, Fates, Heard, Faults, Sound;
    var rest := Line([], line.waiting);
    var more := Taken(rest, n - |line.begun|);
    TakenSplit(line, n);
    var heard := RestHeard(s, line, fs, grants, more, clean);
    if heard.None? {
      var dry := s.(rx := RESET);
      Behind(s, line, fs, dry, clean);
      RestValid(dry);
      var lost := LineDropped(dry, rest, fs[1..], n - |line.begun|);
      fate := [false] + lost;
      HeardThen(s, dry, dry, Advance(line, n), fs, false, lost, false);
      assert !clean;
    } else {
      var t, left := Feed(s, line.begun), grants - Buffers(s, line.begun);
      if t.rx.faulted {
        fate := [];
        FaultedStays(t, more, left);
        NothingHeard(s, t, Advance(line, n), fs, clean);
      } else {
        Behind(s, line, fs, t, clean);
        RestValid(t);
        var later := CallHears(t, rest, fs[1..], n - |line.begun|, left, clean);
        fate := [heard.value] + later;
        HeardThen(s, t, Recv(t, more, left), Advance(line, n), fs, heard.value, later, clean);
      }
    }
  }
}
