/** How two Three-wire drivers make up for lost packets. */
module H5Recovery {
  import opened Octets
  import opened GoBackN
  import opened H5
  import opened H5Stream
  import opened H5Chunks
  import opened H5Wire
  import opened Wire
  import H5Link
  import H5Format
  import H5Handshake
  import H5Stall

  /** The first `n` waiting packets as data frames, numbered from `p` on. */
  function Data(l: Link, p: nat, n: nat): (fs: seq<Frame>)
    requires QueuesOk(l) && n <= |l.rel|
    ensures |fs| == n && DataFrames(fs, p)
  {
    assert forall i :: 0 <= i < n ==> l.rel[i] in l.rel;
    seq(n, i requires 0 <= i < n => Frame(true, Number(p, i), l.txAck, Body(l.rel[i].kind, l.rel[i].data)))
  }

  ghost predicate DataFrames(fs: seq<Frame>, p: nat) {
    forall i :: 0 <= i < |fs| ==>
      Encodable(fs[i]) && fs[i].reliable && fs[i].seqno == Number(p, i) && fs[i].body.tag != LINK_PKT
  }

  function Grants(n: nat): seq<Alloc> {
    if n == 0 then [] else [H5Handshake.GO] + Grants(n - 1)
  }

  /** With room for them and nothing more urgent, that many packets are sent. */
  lemma {:induction false} SendsAll(l: Link, n: nat)
    requires QueuesOk(l) && l.unrel == [] && l.sleep == Awake && |l.unack| + n <= l.txWin && n <= |l.rel|
    ensures var r := Wakeup(l, Grants(n));
            r.written == l.written + Data(l, l.txSeq, n) && r.enqueued == l.enqueued
    decreases n
  {
    hide QueuesOk, Number, AfterOne, Choose, Wakeup, Grants, Data;
    if n == 0 {
      NoneSent(l);
      assert l.written + [] == l.written;
    } else {
      OneSent(l, n);
      var next := AfterOne(l, H5Handshake.GO);
      SendsAll(next, n - 1);
      GrantsFirst(l, n);
      var fs, more := Data(l, l.txSeq, n), Data(next, next.txSeq, n - 1);
      assert l.written + ([fs[0]] + more) == (l.written + [fs[0]]) + more;
    }
  }

  lemma NoneSent(l: Link)
    requires QueuesOk(l)
    ensures Wakeup(l, Grants(0)) == l && Data(l, l.txSeq, 0) == []
  {
  }

  lemma GrantsFirst(l: Link, n: nat)
    requires QueuesOk(l) && n > 0 && Choose(l, H5Handshake.GO) == SendRel
    ensures Wakeup(l, Grants(n)) == Wakeup(AfterOne(l, H5Handshake.GO), Grants(n - 1))
  {
    assert Grants(n)[0] == H5Handshake.GO && Grants(n)[1..] == Grants(n - 1);
  }

  /** The first of them. */
  lemma OneSent(l: Link, n: nat)
    requires QueuesOk(l) && l.unrel == [] && l.sleep == Awake && |l.unack| < l.txWin && 0 < n <= |l.rel|
    ensures Choose(l, H5Handshake.GO) == SendRel
    ensures var next, fs := AfterOne(l, H5Handshake.GO), Data(l, l.txSeq, n);
            && QueuesOk(next) && next.unrel == [] && next.rel == l.rel[1..] && |next.unack| == |l.unack| + 1
            && next.sleep == Awake && next.txWin == l.txWin && next.enqueued == l.enqueued
            && next.written == l.written + [fs[0]] && fs == [fs[0]] + Data(next, next.txSeq, n - 1)
  {
    assert l.rel[0] in l.rel;
    var next, fs := AfterOne(l, H5Handshake.GO), Data(l, l.txSeq, n);
    assert fs[0] == FrameFor(l, l.rel[0]);
    var more := Data(next, next.txSeq, n - 1);
    forall i | 0 <= i < n - 1
      ensures more[i] == fs[i + 1]
    {
      NextNumber(l.txSeq, i);
    }
    assert fs[1..] == more;
  }

  // ---- One frame ----

  /** A call that is given the next frame whole, with memory for it. */
  function Whole(x: Frame): Op
    requires Encodable(x)
  {
    Op(true, Arrive(|Encode(x)|, 1, []))
  }

  /** Both links of a pair of drivers, and the frames and numbers behind the bytes. */
  ghost predicate Sure(s: System, f: H5Link.System, w: H5Link.Witness) {
    Follows(s, f, false) && H5Link.Inv(f, w)
  }

  lemma SureValid(s: System, f: H5Link.System, w: H5Link.Witness)
    requires Sure(s, f, w)
    ensures Valid(s.a) && Valid(s.b) && QueuesOk(s.a.link) && QueuesOk(s.b.link)
    ensures s.b.link.txAck == |s.b.link.taken| % 8 && !Faulted(s)
    ensures s.ab.begun == [] ==> AtRest(s.b)
  {
    hide DataInFlight, AcksInFlight, H5Link.FramesOk, AtRest;
    OnLineValid(s.a, s.ba, f.ba, false);
    OnLineValid(s.b, s.ab, f.ab, false);
  }

  /** An operation that makes no receiver fault. */
  lemma SureStep(s: System, f: H5Link.System, w: H5Link.Witness, op: Op)
    returns (g: H5Link.System, v: H5Link.Witness)
    requires Sure(s, f, w) && Valid(s.a) && Valid(s.b) && !Faulted(Step(s, op))
    ensures Sure(Step(s, op), g, v)
  {
    hide Follows, H5Link.Inv, Step, Faulted;
    SureOk(s, f, w);
    var frames := StepFollows(s, f, op, false);
    g := H5Link.Run(f, frames);
    v := H5Link.RunSafe(f, w, frames);
  }

  lemma SureOk(s: System, f: H5Link.System, w: H5Link.Witness)
    requires Sure(s, f, w)
    ensures H5Link.Ok(f)
  {
  }

  /** What a reliable frame adds to the packets accepted. */
  lemma TakesOne(l: Link, x: Frame)
    requires QueuesOk(l) && x.ack < 8 && x.reliable && l.room == [] && l.written == []
    ensures var r := Received(l, x);
            && |r.taken| == |l.taken| + (if x.seqno == l.txAck then 1 else 0) && r.written == []
            && (x.body.tag == LINK_PKT || r.state == l.state)
  {
    hide CullCountU8;
    if x.seqno == l.txAck {
      var n := l.(txAck := (l.txAck + 1) % 8, txAckReq := true, room := [],
                  taken := l.taken + [Packet(x.body.tag, x.body.data)]);
      assert Wakeup(n, []) == n;
    }
  }

  /** The packet of position `p` arrives at a receiver that has all before it: then it has it too. */
  lemma HearOne(s: System, f: H5Link.System, w: H5Link.Witness, x: Frame, rest: seq<seq<byte>>, p: nat)
    returns (g: H5Link.System, v: H5Link.Witness)
    requires Sure(s, f, w) && Encodable(x) && s.ab == Line([], [Encode(x)] + rest) && s.b.link.state == Active
    requires x.reliable && x.seqno == p % 8 && x.body.tag != LINK_PKT && p <= |s.b.link.taken|
    ensures Valid(s.a) && Valid(s.b)
    ensures var r := Step(s, Whole(x));
            && Sure(r, g, v) && r.a == s.a && r.ab == Line([], rest) && r.b.link.state == Active
            && |r.b.link.taken| >= p + 1 && |r.b.link.taken| >= |s.b.link.taken|
  {
    hide Sure, Encode, Recv, Received, AtRest, Taken, Advance;
    SureValid(s, f, w);
    EncodeSome(x);
    FirstTaken(Encode(x), rest);
    ReadyRests(s.b);
    var b := s.b.(link := H5Link.Ready(s.b.link, []));
    FrameArrives(b, x, 1);
    ReadyQueues(s.b.link, []);
    TakesOne(b.link, x);
    NoLine(s.ba);
    ArrivalSound(s, x, rest);
    g, v := SureStep(s, f, w, Whole(x));
  }

  lemma EncodeSome(x: Frame)
    requires Encodable(x)
    ensures Encode(x) != []
  {
    hide Header;
  }

  lemma ReadyRests(b: State)
    requires AtRest(b)
    ensures AtRest(b.(link := H5Link.Ready(b.link, [])))
  {
  }

  lemma NoLine(line: Line)
    ensures Send(line, Wired([])) == line
  {
    assert line.waiting + [] == line.waiting;
  }

  lemma ArrivalSound(s: System, x: Frame, rest: seq<seq<byte>>)
    requires Valid(s.a) && Valid(s.b) && Encodable(x) && s.ab == Line([], [Encode(x)] + rest) && !s.a.rx.faulted
    requires Taken(s.ab, |Encode(x)|) == Encode(x)
    requires Valid(s.b.(link := H5Link.Ready(s.b.link, [])))
    requires !Recv(s.b.(link := H5Link.Ready(s.b.link, [])), Encode(x), 1).rx.faulted
    ensures !Faulted(Step(s, Whole(x)))
  {
    hide Recv, Taken, Advance, Encode, Wired;
  }

  // ---- All of them ----

  /** Calls at B, each given one frame and memory for it. */
  predicate Arrivals(ops: seq<Op>) {
    forall i :: 0 <= i < |ops| ==> ops[i].atB && ops[i].action.Arrive? && ops[i].action.grants == 1
  }

  lemma {:induction false} HearAll(s: System, f: H5Link.System, w: H5Link.Witness, fs: seq<Frame>, p: nat)
    returns (ops: seq<Op>, g: H5Link.System, v: H5Link.Witness)
    requires Sure(s, f, w) && DataFrames(fs, p) && s.ab == Line([], Wired(fs)) && p <= |s.b.link.taken|
    requires s.b.link.state == Active
    ensures Valid(s.a) && Valid(s.b) && Arrivals(ops)
    ensures var r := Run(s, ops); Sure(r, g, v) && r.a == s.a && |r.b.link.taken| >= p + |fs|
    decreases |fs|
  {
    hide Sure, Encode, Act, Valid, Wired, Whole;
    SureValid(s, f, w);
    ops, g, v := [], f, w;
    if fs != [] {
      var x, rest := fs[0], fs[1..];
      WiredFirst(fs);
      g, v := HearOne(s, f, w, x, Wired(rest), p);
      var op := Whole(x);
      WholeArrives(x);
      ActValid(Swap(s), op.action);
      forall i | 0 <= i < |rest|
        ensures rest[i] == fs[i + 1] && Number(p + 1, i) == Number(p, i + 1)
      {
      }
      var later;
      later, g, v := HearAll(Step(s, op), g, v, rest, p + 1);
      ops := [op] + later;
      assert ops[0] == op && ops[1..] == later;
    }
  }

  lemma WiredFirst(fs: seq<Frame>)
    requires fs != [] && Encodable(fs[0])
    ensures Wired(fs) == [Encode(fs[0])] + Wired(fs[1..])
  {
    hide Encode;
    WiredRest(fs);
  }

  lemma WholeArrives(x: Frame)
    requires Encodable(x)
    ensures var op := Whole(x); op.atB && op.action.Arrive? && op.action.grants == 1
  {
  }

  /** The packets that A has not freed yet. */
  function Pending(s: System): seq<Packet> {
    s.a.link.unack + s.a.link.rel
  }

  function Window(s: System): nat {
    if |Pending(s)| < s.a.link.txWin then |Pending(s)| else s.a.link.txWin
  }

  lemma FreedFirst(s: System, f: H5Link.System, w: H5Link.Witness)
    requires Sure(s, f, w)
    ensures var p := |s.a.link.enqueued| - |Pending(s)|;
            && 0 <= p <= |s.b.link.taken| && s.a.link.txSeq == (p + |s.a.link.unack|) % 8
            && s.b.link.taken <= s.a.link.enqueued
  {
    hide H5Link.Inv, OnLine;
    H5Link.InvDelivers(f, w);
  }

  /** After the timer. */
  lemma Rewound(l: Link, p: nat, n: nat) returns (fs: seq<Frame>)
    requires QueuesOk(l) && H5Stall.Up(l) && l.unrel == [] && l.txSeq == (p + |l.unack|) % 8
    requires n <= l.txWin && n <= |l.unack + l.rel|
    ensures var m := H5Link.Ready(TimedOut(l), []);
            && QueuesOk(m)
            && var r := Wakeup(m, Grants(n)); r.enqueued == l.enqueued && |fs| == n && r.written == fs
    ensures DataFrames(fs, p)
  {
    hide Wakeup;
    var m := H5Link.Ready(TimedOut(l), []);
    Renumbered(p, |l.unack|);
    SendsAll(m, n);
    fs := Data(m, p, n);
    assert fs == Data(m, m.txSeq, n) by {
      forall i: nat | i < n
        ensures Number(p % 8, i) == Number(p, i)
      {
        NextNumber(p, i);
      }
    }
    assert [] + fs == fs;
  }

  lemma Renumbered(p: nat, n: nat)
    ensures ((p + n) % 8 - n) % 8 == p % 8
  {
  }

  /** The timer and one wake-up put the first packets that A has not freed, as many as the window holds, on the line. */
  lemma SentAgain(s: System, f: H5Link.System, w: H5Link.Witness)
    returns (g: H5Link.System, v: H5Link.Witness, fs: seq<Frame>, p: nat)
    requires Sure(s, f, w) && s.ab == H5Stall.EMPTY && s.a.link.unrel == [] && H5Stall.Up(s.a.link)
    ensures Valid(s.a) && Valid(s.b) && p == |s.a.link.enqueued| - |Pending(s)| <= |s.b.link.taken|
    ensures var t := Act(s, Timeout);
            && Valid(t.a) && Valid(t.b)
            && var r := Act(t, Transmit(Grants(Window(s))));
               && Sure(r, g, v) && r.b == s.b && r.a.link.enqueued == s.a.link.enqueued
               && |fs| == Window(s) && r.ab == Line([], Wired(fs))
    ensures DataFrames(fs, p)
  {
    hide Sure, Wakeup, QueuesOk, TimedOut, Wired, AtRest, Valid;
    SureValid(s, f, w);
    FreedFirst(s, f, w);
    p := |s.a.link.enqueued| - |Pending(s)|;
    ActValid(s, Timeout);
    var t := Act(s, Timeout);
    g, v := SureStep(s, f, w, Op(false, Timeout));
    var n := Window(s);
    ActValid(t, Transmit(Grants(n)));
    SureValid(t, g, v);
    g, v := SureStep(t, g, v, Op(false, Transmit(Grants(n))));
    fs := Rewound(s.a.link, p, n);
    assert [] + Wired(fs) == Wired(fs);
  }

  /** The operations that make up for losses: the timer and a wake-up at A, and arrivals at B. */
  predicate Recovering(ops: seq<Op>, n: nat) {
    && |ops| >= 2 && ops[0] == Op(false, Timeout) && ops[1] == Op(false, Transmit(Grants(n))) && Arrivals(ops[2..])
  }

  /** After any run from h5_open, whatever was lost in it, once both links are up, the line is empty and A has nothing
      more urgent to send, the timer, one wake-up and the arrival of what is sent have B accept the oldest packets that
      A still holds, as many as the window takes. */
  lemma LossesAreMadeUpFor(before: seq<Op>) returns (ops: seq<Op>)
    requires Valid(BOTH_OPENED.a) && Valid(BOTH_OPENED.b)
    requires var s := Run(BOTH_OPENED, before);
             && !Faulted(s) && s.ab == H5Stall.EMPTY && s.a.link.unrel == []
             && H5Stall.Up(s.a.link) && s.b.link.state == Active
    ensures var s := Run(BOTH_OPENED, before);
            && Recovering(ops, Window(s))
            && var r := Run(s, ops);
               && r.a.link.enqueued == s.a.link.enqueued
               && |r.b.link.taken| >= |s.a.link.enqueued| - |Pending(s)| + Window(s)
               && r.b.link.taken <= s.a.link.enqueued
  {
    hide Run, Act, Follows, H5Link.Inv, H5Link.Run, H5Link.Sound, H5Link.AtFault, H5Link.Lossless;
    OpenedFollows(false);
    H5Link.OpenedInv();
    FollowsOk(BOTH_OPENED, OPENED_FRAMES);
    var s := Run(BOTH_OPENED, before);
    var past := RunFollows(BOTH_OPENED, OPENED_FRAMES, before, false);
    var w := H5Link.RunSafe(OPENED_FRAMES, H5Link.Witness(START, START), past);
    var f := H5Link.Run(OPENED_FRAMES, past);
    var g, v, fs, p := SentAgain(s, f, w);
    var n := Window(s);
    var r := Act(Act(s, Timeout), Transmit(Grants(n)));
    var later, g', v' := HearAll(r, g, v, fs, p);
    ops := [Op(false, Timeout), Op(false, Transmit(Grants(n)))] + later;
    assert ops[2..] == later;
    TwoThen(s, ops, n);
    FreedFirst(Run(r, later), g', v');
  }

  lemma FollowsOk(s: System, f: H5Link.System)
    requires Follows(s, f, false)
    ensures H5Link.Ok(f)
  {
  }

  lemma TwoThen(s: System, ops: seq<Op>, n: nat)
    requires Valid(s.a) && Valid(s.b) && Recovering(ops, n)
    ensures var t := Act(s, Timeout);
            && Valid(t.a) && Valid(t.b)
            && var r := Act(t, Transmit(Grants(n)));
               Valid(r.a) && Valid(r.b) && Run(s, ops) == Run(r, ops[2..])
  {
    hide Act, Valid;
    ActValid(s, Timeout);
    ActValid(Act(s, Timeout), Transmit(Grants(n)));
    assert ops[1..][0] == ops[1] && ops[1..][1..] == ops[2..];
    assert Run(s, ops) == Run(Act(s, Timeout), ops[1..]);
  }

  // ---- Acknowledgements ----

  /** The acknowledgement that the peer would send now frees exactly what it has accepted, once all of that has been sent
      again, unless it is a 7 that the cull misses. */
  lemma CurrentAckFrees(f: H5Link.System, w: H5Link.Witness)
    requires H5Link.Inv(f, w) && |f.b.taken| <= |f.a.enqueued| - |f.a.rel|
    ensures var l := Cull(f.a.(rxAck := f.b.txAck));
            l.unack + l.rel == if f.b.txAck != 7 || f.a.txSeq == 7 then f.a.enqueued[|f.b.taken|..]
                               else f.a.unack + f.a.rel
  {
    hide H5Link.Inv, CullCountU8, QueuesOk;
    var l := f.a;
    var m := AckCounts(f, w);
    assert l.unack[m..] + l.rel == (l.unack + l.rel)[m..];
    assert l.unack[0..] == l.unack;
  }

  /** How many packets that is. */
  lemma AckCounts(f: H5Link.System, w: H5Link.Witness) returns (m: nat)
    requires H5Link.Inv(f, w) && |f.b.taken| <= |f.a.enqueued| - |f.a.rel|
    ensures m <= |f.a.unack| && (f.a.unack + f.a.rel)[m..] == f.a.enqueued[|f.b.taken|..]
    ensures CullCountU8(|f.a.unack|, f.a.txSeq, f.b.txAck) == if f.b.txAck != 7 || f.a.txSeq == 7 then m else 0
  {
    hide DataInFlight, AcksInFlight, QueuesOk, CullCount, CullCountU8, H5Link.FramesOk, H5Link.AclUp;
    var l, t := f.a, w.tab;
    CullCountHits(t.base + |l.unack|, |l.unack|, t.accepted);
    CullCountU8Exact(|l.unack|, l.txSeq, f.b.txAck);
    m := t.accepted - t.base;
    assert l.enqueued[t.base..][m..] == l.enqueued[t.accepted..];
  }
}
