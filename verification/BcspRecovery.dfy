/** How two BCSP drivers make up for lost packets. */
module BcspRecovery {
  import opened Octets
  import opened GoBackN
  import opened Bcsp
  import opened BcspFraming
  import opened BcspChunks
  import opened BcspLink
  import opened BcspStall
  import opened Wire
  import BcspFormat
  import Slip

  ghost predicate AllEncodable(fs: seq<Frame>) {
    forall i :: 0 <= i < |fs| ==> Encodable(fs[i])
  }

  function Bytes(fs: seq<Frame>, crc: bool): (bs: seq<seq<byte>>)
    requires AllEncodable(fs)
    ensures |bs| == |fs| && forall i :: 0 <= i < |fs| ==> bs[i] == Encode(fs[i], crc)
  {
    seq(|fs|, i requires 0 <= i < |fs| => Encode(fs[i], crc))
  }

  /** The first `n` waiting packets as data frames, numbered from `p` on. */
  function Data(l: Link, p: nat, n: nat): (fs: seq<Frame>)
    requires QueuesOk(l) && n <= |l.rel|
    ensures |fs| == n && AllEncodable(fs)
    ensures forall i :: 0 <= i < n ==> fs[i].reliable && fs[i].seqno == Number(p, i) && fs[i].body.tag in {5, 6}
  {
    assert forall i :: 0 <= i < n ==> l.rel[i] in l.rel;
    seq(n, i requires 0 <= i < n => Frame(true, Number(p, i), l.rxseqTxack, BodyOf(l.rel[i])))
  }

  function Grants(n: nat): seq<Alloc> {
    if n == 0 then [] else [GO] + Grants(n - 1)
  }

  /** With room for them and nothing more urgent, that many packets are sent. */
  lemma {:induction false} SendsAll(l: Link, n: nat)
    requires QueuesOk(l) && l.unrel == [] && |l.unack| + n <= 4 && n <= |l.rel|
    ensures var r := Wakeup(l, Grants(n));
            r.written == l.written + Bytes(Data(l, l.msgqTxseq, n), l.useCrc) && r.enqueued == l.enqueued
            && r.useCrc == l.useCrc
    decreases n
  {
    hide Encode, QueuesOk, Number, AfterOne, Outgoing, Choose, Wakeup, Grants, Data, Bytes, Encodable;
    WakeupKeeps(l, Grants(n));
    if n == 0 {
      NoneSent(l);
      assert l.written + [] == l.written;
    } else {
      OneSent(l, n);
      var next := AfterOne(l, GO);
      SendsAll(next, n - 1);
      GrantsFirst(l, n);
      var fs, more := Data(l, l.msgqTxseq, n), Data(next, next.msgqTxseq, n - 1);
      BytesFirst(fs, more, l.useCrc);
      assert l.written + ([Encode(fs[0], l.useCrc)] + Bytes(more, l.useCrc))
          == (l.written + [Encode(fs[0], l.useCrc)]) + Bytes(more, l.useCrc);
    }
  }

  lemma NoneSent(l: Link)
    requires QueuesOk(l)
    ensures Wakeup(l, Grants(0)) == l && Bytes(Data(l, l.msgqTxseq, 0), l.useCrc) == []
  {
  }

  lemma GrantsFirst(l: Link, n: nat)
    requires QueuesOk(l) && n > 0 && Choose(l, GO) == SendRel
    ensures Wakeup(l, Grants(n)) == Wakeup(AfterOne(l, GO), Grants(n - 1))
  {
    assert Grants(n)[0] == GO && Grants(n)[1..] == Grants(n - 1);
  }

  lemma BytesFirst(fs: seq<Frame>, more: seq<Frame>, crc: bool)
    requires AllEncodable(fs) && fs != [] && fs == [fs[0]] + more
    ensures AllEncodable(more) && Bytes(fs, crc) == [Encode(fs[0], crc)] + Bytes(more, crc)
  {
    hide Encode, Encodable;
    assert more == fs[1..];
  }

  /** The first of them. */
  lemma OneSent(l: Link, n: nat)
    requires QueuesOk(l) && l.unrel == [] && |l.unack| < 4 && 0 < n <= |l.rel|
    ensures Choose(l, GO) == SendRel
    ensures var next, fs := AfterOne(l, GO), Data(l, l.msgqTxseq, n);
            && QueuesOk(next) && next.unrel == [] && next.rel == l.rel[1..] && |next.unack| == |l.unack| + 1
            && next.useCrc == l.useCrc && next.enqueued == l.enqueued
            && next.written == l.written + [Encode(fs[0], l.useCrc)]
            && fs == [fs[0]] + Data(next, next.msgqTxseq, n - 1)
  {
    hide Encode;
    assert l.rel[0] in l.rel;
    var next, fs := AfterOne(l, GO), Data(l, l.msgqTxseq, n);
    assert fs[0] == Outgoing(l, GO);
    var more := Data(next, next.msgqTxseq, n - 1);
    forall i | 0 <= i < n - 1
      ensures more[i] == fs[i + 1]
    {
      NextNumber(l.msgqTxseq, i);
    }
    assert fs[1..] == more;
  }

  // ---- One frame ----

  /** A call that is given the next frame whole, with memory for it. */
  function Whole(f: Frame, crc: bool): Op
    requires Encodable(f)
  {
    Op(true, Arrive(|Encode(f, crc)|, 1, []))
  }

  /** The receiver has handed up as many packets as the number that it expects says. */
  lemma CountIsNumber(s: System, w: Witness)
    requires Inv(s, w)
    ensures s.b.link.rxseqTxack == |s.b.link.upRel| % 8
  {
    hide OnLine, DataInFlight, AcksInFlight, QueuesOk;
  }

  lemma RestsBetween(s: System, w: Witness)
    requires Inv(s, w) && s.ab.begun == []
    ensures AtRest(s.b) && AtRest(s.b.(link := Ready(s.b.link, [])))
  {
    hide Half;
  }

  /** The bytes of the frame make the receiver hear it. */
  lemma HearsWhole(b: State, f: Frame, crc: bool)
    requires AtRest(b) && Encodable(f)
    ensures Valid(b) && Recv(b, Encode(f, crc), 1).link == Received(b.link, f)
  {
    hide Encode, Received, Byte;
    FrameNeedsOneBuffer(b, f, crc);
    EnoughBuffers(b, Encode(f, crc), 1);
    RestDelimiter(b);
    FrameRoundTrip(b, f, crc);
  }

  /** The packet of position `p` arrives at a receiver that has all before it: then it has it too. */
  lemma HearOne(s: System, w: Witness, f: Frame, rest: seq<seq<byte>>, p: nat) returns (w': Witness)
    requires Inv(s, w) && Encodable(f) && s.ab == Line([], [Encode(f, s.a.link.useCrc)] + rest)
    requires f.reliable && f.seqno == p % 8 && f.body.tag in {5, 6} && p <= |s.b.link.upRel|
    ensures Valid(s.a) && Valid(s.b)
    ensures var r := Step(s, Whole(f, s.a.link.useCrc));
            && Inv(r, w') && r.a == s.a && r.ab == Line([], rest) && |r.b.link.upRel| >= p + 1
            && |r.b.link.upRel| >= |s.b.link.upRel|
  {
    hide Inv, Encode, Recv, Received, AtRest, Taken, Advance;
    var crc := s.a.link.useCrc;
    var enc := Encode(f, crc);
    QueuesOkIn(s, w);
    CountIsNumber(s, w);
    RestsBetween(s, w);
    EncodeSome(f, crc);
    FirstTaken(enc, rest);
    InvSwap(s, w);
    var x := Swap(s);
    var fate;
    w', fate := ArriveSafe(x, SwapWitness(w), |enc|, 1, []);
    InvSwap(Act(x, Arrive(|enc|, 1, [])), w');
    w' := SwapWitness(w');
    var b := s.b.(link := Ready(s.b.link, []));
    HearsWhole(b, f, crc);
    ReadyOk(s.b, []);
    BcspFormat.HandsUpExactly(Ready(s.b.link, []), f);
  }

  // ---- All of them ----

  lemma {:induction false} HearAll(s: System, w: Witness, fs: seq<Frame>, p: nat) returns (ops: seq<Op>, w': Witness)
    requires Inv(s, w) && AllEncodable(fs) && s.ab == Line([], Bytes(fs, s.a.link.useCrc)) && p <= |s.b.link.upRel|
    requires forall i :: 0 <= i < |fs| ==> fs[i].reliable && fs[i].seqno == Number(p, i) && fs[i].body.tag in {5, 6}
    ensures Valid(s.a) && Valid(s.b) && Arrivals(ops)
    ensures var r := Run(s, ops); Inv(r, w') && r.a == s.a && |r.b.link.upRel| >= p + |fs|
    decreases |fs|
  {
    hide Inv, Encode, Act;
    QueuesOkIn(s, w);
    ops, w' := [], w;
    if fs != [] {
      var crc := s.a.link.useCrc;
      var f, rest := fs[0], fs[1..];
      assert Bytes(fs, crc) == [Encode(f, crc)] + Bytes(rest, crc);
      var v := HearOne(s, w, f, Bytes(rest, crc), p);
      var op := Whole(f, crc);
      ActValid(Swap(s), op.action);
      forall i | 0 <= i < |rest|
        ensures rest[i] == fs[i + 1] && Number(p + 1, i) == Number(p, i + 1)
      {
      }
      var later;
      later, w' := HearAll(Step(s, op), v, rest, p + 1);
      ops := [op] + later;
      assert ops[0] == op && ops[1..] == later;
    }
  }

  /** Calls at B, each given as many bytes as it can take and memory for one packet. */
  predicate Arrivals(ops: seq<Op>) {
    forall i :: 0 <= i < |ops| ==> ops[i].atB && ops[i].action.Arrive? && ops[i].action.grants == 1
  }

  /** The packets that A has not freed yet. */
  function Pending(s: System): seq<Packet> {
    s.a.link.unack + s.a.link.rel
  }

  function Window(s: System): nat {
    if |Pending(s)| < 4 then |Pending(s)| else 4
  }

  lemma FreedFirst(s: System, w: Witness)
    requires Inv(s, w)
    ensures var p := |s.a.link.enqueued| - |Pending(s)|;
            && 0 <= p <= |s.b.link.upRel| && s.a.link.msgqTxseq == (p + |s.a.link.unack|) % 8
  {
    hide Inv;
    InvDelivers(s, w);
  }

  /** The timer and one wake-up put the first packets that A has not freed, as many as the window holds, on the line. */
  lemma SentAgain(s: System, w: Witness) returns (w': Witness, fs: seq<Frame>, p: nat)
    requires Inv(s, w) && s.ab == EMPTY && s.a.link.unrel == []
    ensures Valid(s.a) && Valid(s.b) && p == |s.a.link.enqueued| - |Pending(s)| <= |s.b.link.upRel|
    ensures var t := Act(s, Timeout);
            && Valid(t.a) && Valid(t.b)
            && var r := Act(t, Transmit(Grants(Window(s))));
               && Inv(r, w') && r.b == s.b && r.a.link.enqueued == s.a.link.enqueued
               && |fs| == Window(s) && AllEncodable(fs) && r.ab == Line([], Bytes(fs, r.a.link.useCrc))
    ensures forall i :: 0 <= i < |fs| ==> fs[i].reliable && fs[i].seqno == Number(p, i) && fs[i].body.tag in {5, 6}
  {
    hide Inv, Encode, Wakeup, QueuesOk, TimedOut, Bytes;
    QueuesOkIn(s, w);
    FreedFirst(s, w);
    p := |s.a.link.enqueued| - |Pending(s)|;
    TimeoutSafe(s, w);
    ActValid(s, Timeout);
    var t := Act(s, Timeout);
    w' := TransmitSafe(t, w, Grants(Window(s)));
    fs := Rewound(s.a.link, p, Window(s));
    TimedOutKeeps(s.a.link);
    NothingBefore(Wakeup(Ready(t.a.link, []), Grants(Window(s))).written);
  }

  lemma TimedOutKeeps(l: Link)
    ensures TimedOut(l).useCrc == l.useCrc
  {
  }

  lemma NothingBefore(frames: seq<seq<byte>>)
    ensures Send(EMPTY, frames) == Line([], frames)
  {
    assert [] + frames == frames;
  }

  /** After the timer. */
  lemma Rewound(l: Link, p: nat, n: nat) returns (fs: seq<Frame>)
    requires QueuesOk(l) && l.unrel == [] && l.msgqTxseq == (p + |l.unack|) % 8 && n <= 4 && n <= |l.unack + l.rel|
    ensures var m := Ready(TimedOut(l), []);
            && QueuesOk(m) && m.msgqTxseq == p % 8
            && var r := Wakeup(m, Grants(n));
               r.enqueued == l.enqueued && |fs| == n && AllEncodable(fs) && r.written == Bytes(fs, r.useCrc)
    ensures forall i :: 0 <= i < |fs| ==> fs[i].reliable && fs[i].seqno == Number(p, i) && fs[i].body.tag in {5, 6}
  {
    hide Encode, Wakeup;
    var m := Ready(TimedOut(l), []);
    Renumbered(p, |l.unack|);
    SendsAll(m, n);
    fs := Data(m, p, n);
    SameNumbers(m, p, n);
    assert [] + Bytes(fs, m.useCrc) == Bytes(fs, m.useCrc);
  }

  lemma Renumbered(p: nat, n: nat)
    ensures ((p + n) % 8 - n) % 8 == p % 8
  {
  }

  lemma SameNumbers(l: Link, p: nat, n: nat)
    requires QueuesOk(l) && n <= |l.rel| && l.msgqTxseq == p % 8
    ensures Data(l, l.msgqTxseq, n) == Data(l, p, n)
  {
    forall i: nat | i < n
      ensures Number(p % 8, i) == Number(p, i)
    {
      NextNumber(p, i);
    }
  }

  /** The operations that make up for losses: the timer and a wake-up at A, and arrivals at B. */
  predicate Recovering(ops: seq<Op>, n: nat) {
    && |ops| >= 2 && ops[0] == Op(false, Timeout) && ops[1] == Op(false, Transmit(Grants(n))) && Arrivals(ops[2..])
  }

  /** After any run, whatever was lost in it, once the line is empty and A has nothing more urgent to send, the timer, one
      wake-up and the arrival of what is sent hand up at B the oldest packets that A still holds, as many as the window
      takes. */
  lemma LossesAreMadeUpFor(crcA: bool, crcB: bool, before: seq<Op>) returns (ops: seq<Op>)
    requires var s := Run(Opened(crcA, crcB), before); s.ab == EMPTY && s.a.link.unrel == []
    ensures var s := Run(Opened(crcA, crcB), before);
            && Recovering(ops, Window(s))
            && var r := Run(s, ops);
               && r.a.link.enqueued == s.a.link.enqueued
               && |r.b.link.upRel| >= |s.a.link.enqueued| - |Pending(s)| + Window(s)
               && r.b.link.upRel <= UpAll(s.a.link.enqueued)
  {
    hide Inv, Run, Act, Encode;
    InitialInv(crcA, crcB);
    var s := Run(Opened(crcA, crcB), before);
    var w := RunSafe(Opened(crcA, crcB), Witness([], [], START, START), before);
    var v, fs, p := SentAgain(s, w);
    var n := Window(s);
    var r := Act(Act(s, Timeout), Transmit(Grants(n)));
    var later, u := HearAll(r, v, fs, p);
    ops := [Op(false, Timeout), Op(false, Transmit(Grants(n)))] + later;
    assert ops[2..] == later;
    TwoThen(s, ops, n);
    InvDelivers(Run(r, later), u);
  }

  lemma TwoThen(s: System, ops: seq<Op>, n: nat)
    requires Valid(s.a) && Valid(s.b) && Recovering(ops, n)
    ensures var t := Act(s, Timeout);
            && Valid(t.a) && Valid(t.b)
            && var r := Act(t, Transmit(Grants(n)));
               Valid(r.a) && Valid(r.b) && Run(s, ops) == Run(r, ops[2..])
  {
    hide Act, Valid;
    ActValid(s, Timeout);
    ActValid(Act(s, Timeout), Transmit(Grants(n)));
    assert ops[1..][0] == ops[1] && ops[1..][1..] == ops[2..];
    assert Run(s, ops) == Run(Act(s, Timeout), ops[1..]);
  }
}
