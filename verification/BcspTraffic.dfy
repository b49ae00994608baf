/** What goes into a pair of BCSP drivers and what comes out: SCO data, which is sent without acknowledgement, and the
    packets that join the reliable queue. */
module BcspTraffic {
  import opened Octets
  import opened GoBackN
  import opened Sequences
  import opened Bcsp
  import opened BcspFraming
  import opened BcspChunks
  import opened BcspLink
  import BcspFormat

  const SCO: set<nat> := {3}

  /** The SCO packets in unreliable frames: those on channel 7. */
  function ScoIn(fs: seq<Frame>): seq<Packet> {
    if fs == [] then []
    else
      var f := fs[|fs| - 1];
      ScoIn(fs[..|fs| - 1]) + if f.body.tag == 7 && !f.reliable then [Packet(3, f.body.data)] else []
  }

  lemma {:induction false} ScoAppend(x: seq<Frame>, y: seq<Frame>)
    ensures ScoIn(x + y) == ScoIn(x) + ScoIn(y)
  {
    if y == [] {
      assert x + y == x;
    } else {
      var n := |y| - 1;
      ScoAppend(x, y[..n]);
      assert (x + y)[..|x + y| - 1] == x + y[..n] && (x + y)[|x + y| - 1] == y[n];
    }
  }

  lemma ScoOne(f: Frame)
    ensures ScoIn([f]) == (if f.body.tag == 7 && !f.reliable then [Packet(3, f.body.data)] else []) && ScoIn([]) == []
  {
    assert [f][..0] == [];
  }

  /** Acceptance into the queues: of packets that fit the header, commands and ACL data are queued for reliable and SCO
      data for unreliable transmission; all else is dropped. */
  lemma QueuedExactly(l: Link, p: Packet)
    ensures var r := Enqueue(l, p);
            var fits := |p.data| <= 0xfff;
            && r.rel == l.rel + (if fits && (p.kind == 1 || p.kind == 2) then [p] else [])
            && r.enqueued == l.enqueued + (if fits && (p.kind == 1 || p.kind == 2) then [p] else [])
            && r.unrel == l.unrel + (if fits && p.kind == 3 then [p] else [])
            && r == l.(rel := r.rel, enqueued := r.enqueued, unrel := r.unrel)
  {
    assert l.rel + [] == l.rel && l.unrel + [] == l.unrel && l.enqueued + [] == l.enqueued;
  }

  /** The commands and ACL packets that fit the header. */
  function Accepted(ps: seq<Packet>): seq<Packet> {
    if ps == [] then []
    else
      var p := ps[|ps| - 1];
      Accepted(ps[..|ps| - 1]) + if (p.kind == 1 || p.kind == 2) && |p.data| <= 0xfff then [p] else []
  }

  lemma AcceptedMore(ps: seq<Packet>, p: Packet)
    ensures Accepted(ps + [p]) == Accepted(ps) + if (p.kind == 1 || p.kind == 2) && |p.data| <= 0xfff then [p] else []
  {
    assert (ps + [p])[..|ps|] == ps;
  }

  /** One direction: the SCO packets handed up at B, on the line and waiting at A are in this order some of those
      submitted at A, and the packets ever queued for reliable transmission are exactly the acceptable ones submitted. */
  ghost predicate Carried(a: Link, b: Link, out: seq<Frame>, subs: seq<Packet>) {
    && Subsequence(b.upUnrel + ScoIn(out) + Only(a.unrel, SCO), Only(subs, SCO))
    && a.enqueued == Accepted(subs)
  }

  lemma OneCarries(l: Link, a: Alloc)
    requires QueuesOk(l) && Choose(l, a) != SendNothing
    ensures ScoIn([Outgoing(l, a)]) + Only(AfterOne(l, a).unrel, SCO) == Only(l.unrel, SCO)
  {
    hide Encode;
    ScoOne(Outgoing(l, a));
    if Choose(l, a) == SendUnrel {
      assert l.unrel[0] in l.unrel;
      OnlyFirst(l.unrel, SCO);
    } else if Choose(l, a) == SendRel {
      assert l.rel[0] in l.rel;
    }
  }

  /** A reliable packet that is accepted is acknowledged at once, if the line takes a frame and memory is found. */
  lemma HeardIsAcknowledged(l: Link, f: Frame)
    requires QueuesOk(l) && f.reliable && f.seqno == l.rxseqTxack && f.ack < 8
    requires l.room != [] && l.room[0] == Alloc(true, true, true)
    ensures var sent := SentOn(l, f); sent != [] && sent[0].ack == (l.rxseqTxack + 1) % 8
    ensures Received(l, f).rxseqTxack == (l.rxseqTxack + 1) % 8
  {
    hide QueuesOk, CullCount, Encode;
    NextExpected(l);
    WakeupKeeps(l.(rxseqTxack := (l.rxseqTxack + 1) % 8, txackReq := true, room := []), l.room);
  }

  lemma {:induction false} WakeupCarries(l: Link, room: seq<Alloc>)
    requires QueuesOk(l)
    ensures ScoIn(Sent(l, room)) + Only(Wakeup(l, room).unrel, SCO) == Only(l.unrel, SCO)
    decreases |room|
  {
    hide QueuesOk, Only, AfterOne, Outgoing;
    if room != [] && Choose(l, room[0]) != SendNothing {
      hide ScoIn;
      var f, next := Outgoing(l, room[0]), AfterOne(l, room[0]);
      OneCarries(l, room[0]);
      ScoAppend([f], Sent(next, room[1..]));
      WakeupCarries(next, room[1..]);
      assert ScoIn([f]) + (ScoIn(Sent(next, room[1..])) + Only(Wakeup(next, room[1..]).unrel, SCO))
          == ScoIn(Sent(l, room)) + Only(Wakeup(l, room).unrel, SCO);
    }
  }

  /** The frames sent and the queue left when a frame is heard. */
  lemma ReceivedCarries(l: Link, f: Frame)
    requires QueuesOk(l) && f.ack < 8
    ensures var r := Received(l, f);
            && ScoIn(SentOn(l, f)) + Only(r.unrel, SCO) == Only(l.unrel, SCO) && r.enqueued == l.enqueued
            && r.upUnrel == l.upUnrel + ScoIn([f])
  {
    hide QueuesOk, Wakeup, CullCount, Deliver, Only, Sent;
    ScoOne(f);
    BcspFormat.HandsUpExactly(l, f);
    assert [] + Only(l.unrel, SCO) == Only(l.unrel, SCO);
    if !f.reliable || f.seqno == l.rxseqTxack {
      if f.reliable {
        NextExpected(l);
        var n := l.(rxseqTxack := (l.rxseqTxack + 1) % 8, txackReq := true, room := []);
        WakeupCarries(n, l.room);
        WakeupKeeps(n, l.room);
      }
      DeliverCarries(Cull(Accept(l, f).(rxack := f.ack)), f);
    }
  }

  lemma DeliverCarries(l: Link, f: Frame)
    ensures Only(Deliver(l, f).unrel, SCO) == Only(l.unrel, SCO) && Deliver(l, f).enqueued == l.enqueued
  {
    var p := Packet(BCSP_LE_PKT, CONF_RSP_PKT);
    OnlyFirst([p] + l.unrel, SCO);
    assert ([p] + l.unrel)[1..] == l.unrel;
    assert [] + Only(l.unrel, SCO) == Only(l.unrel, SCO);
  }

  lemma FirstReceived(l: Link, fs: seq<Frame>, heard: bool)
    requires QueuesOk(l) && fs != [] && forall f :: f in fs ==> Encodable(f)
    ensures fs[0].ack < 8 && QueuesOk(Received(l, fs[0]))
    ensures var m := if heard then Received(l, fs[0]) else l;
            && ScoIn(if heard then SentOn(l, fs[0]) else []) + Only(m.unrel, SCO) == Only(l.unrel, SCO)
            && m.enqueued == l.enqueued && (m.upUnrel == l.upUnrel || m.upUnrel == l.upUnrel + ScoIn([fs[0]]))
  {
    hide QueuesOk, Received, Only, SentOn, Encodable;
    assert fs[0] in fs;
    AckFits(fs[0]);
    ReceivedOk(l, fs[0]);
    ReceivedCarries(l, fs[0]);
    ScoOne(fs[0]);
    assert [] + Only(l.unrel, SCO) == Only(l.unrel, SCO);
  }

  /** What a driver sends while frames meet their fates at it is in order. */
  lemma {:induction false} FatesSend(l: Link, fs: seq<Frame>, fate: seq<bool>, n: nat)
    requires QueuesOk(l) && n == |fate| <= |fs| && forall f :: f in fs ==> Encodable(f)
    ensures var r := Fates(l, fs[..n], fate);
            ScoIn(FatesSent(l, fs, fate)) + Only(r.unrel, SCO) == Only(l.unrel, SCO) && r.enqueued == l.enqueued
    decreases n
  {
    hide QueuesOk, Received, Only, SentOn, Encodable, ScoIn;
    if n == 0 {
      ScoOne(Frame(false, 0, 0, Body(0, [])));
      assert [] + Only(l.unrel, SCO) == Only(l.unrel, SCO);
    } else {
      FirstReceived(l, fs, fate[0]);
      var m := if fate[0] then Received(l, fs[0]) else l;
      var now, later := if fate[0] then SentOn(l, fs[0]) else [], FatesSent(m, fs[1..], fate[1..]);
      FatesSend(m, fs[1..], fate[1..], n - 1);
      FatesFirst(l, fs, fate[0], fate[1..]);
      assert [fate[0]] + fate[1..] == fate;
      ScoAppend(now, later);
      var r := Fates(l, fs[..n], fate);
      assert ScoIn(now) + ScoIn(later) + Only(r.unrel, SCO) == ScoIn(now) + (ScoIn(later) + Only(r.unrel, SCO));
    }
  }

  /** Of the SCO packets in them, some are handed up, in order. */
  lemma {:induction false} FatesHandUp(l: Link, fs: seq<Frame>, fate: seq<bool>, n: nat,
      rest: seq<Packet>, all: seq<Packet>)
    requires QueuesOk(l) && n == |fate| <= |fs| && forall f :: f in fs ==> Encodable(f)
    requires Subsequence(l.upUnrel + ScoIn(fs) + rest, all)
    ensures Subsequence(Fates(l, fs[..n], fate).upUnrel + ScoIn(fs[n..]) + rest, all)
    decreases n
  {
    hide QueuesOk, Received, Only, SentOn, Subsequence, Encodable, ScoIn;
    if n == 0 {
      assert fs[..0] == [] && fs[0..] == fs;
    } else {
      FirstReceived(l, fs, fate[0]);
      var m := if fate[0] then Received(l, fs[0]) else l;
      OneHeard(l.upUnrel, m.upUnrel, fs, rest, all);
      FatesHandUp(m, fs[1..], fate[1..], n - 1, rest, all);
      FatesFirst(l, fs, fate[0], fate[1..]);
      assert [fate[0]] + fate[1..] == fate && fs[1..][n - 1..] == fs[n..];
    }
  }

  lemma AckFits(f: Frame)
    requires Encodable(f)
    ensures f.ack < 8
  {
  }

  /** The first frame is handed up or lost. */
  lemma OneHeard(up: seq<Packet>, up': seq<Packet>, fs: seq<Frame>, rest: seq<Packet>, all: seq<Packet>)
    requires fs != [] && Subsequence(up + ScoIn(fs) + rest, all)
    requires up' == up || up' == up + ScoIn([fs[0]])
    ensures Subsequence(up' + ScoIn(fs[1..]) + rest, all)
  {
    hide Subsequence, ScoIn;
    assert fs == [fs[0]] + fs[1..];
    ScoAppend([fs[0]], fs[1..]);
    ScoOne(fs[0]);
    MayLose(up, ScoIn([fs[0]]), ScoIn(fs[1..]), rest, all);
  }

  // ---- Every operation ----

  function SubmittedBy(action: Action): seq<Packet> {
    if action.Submit? then [action.p] else []
  }

  lemma SubmitCarries(a: Link, b: Link, out: seq<Frame>, p: Packet, subs: seq<Packet>)
    requires Carried(a, b, out, subs)
    ensures Carried(Enqueue(a, p), b, out, subs + [p])
  {
    QueuedExactly(a, p);
    AcceptedMore(subs, p);
    OnlyAppend(subs, [p], SCO);
    OnlyAppend(a.unrel, [p], SCO);
    OnlyOne(p, SCO);
    hide Only, ScoIn, Enqueue, Accepted;
    var x := b.upUnrel + ScoIn(out);
    assert a.unrel + [] == a.unrel && a.enqueued + [] == a.enqueued;
    assert Only(subs, SCO) + [] == Only(subs, SCO);
    assert x + (Only(a.unrel, SCO) + [p]) == (x + Only(a.unrel, SCO)) + [p];
    SubsequenceSkips(x + Only(a.unrel, SCO), Only(subs, SCO), p);
  }

  lemma MovedOn(a: Link, a': Link, b: Link, out: seq<Frame>, sent: seq<Frame>, subs: seq<Packet>)
    requires Carried(a, b, out, subs) && a'.enqueued == a.enqueued
    requires ScoIn(sent) + Only(a'.unrel, SCO) == Only(a.unrel, SCO)
    ensures Carried(a', b, out + sent, subs)
  {
    hide Only, ScoIn, Subsequence;
    ScoAppend(out, sent);
    assert b.upUnrel + (ScoIn(out) + ScoIn(sent)) + Only(a'.unrel, SCO)
        == b.upUnrel + ScoIn(out) + (ScoIn(sent) + Only(a'.unrel, SCO));
  }

  lemma LostCarries(a: Link, b: Link, out: seq<Frame>, i: nat, subs: seq<Packet>)
    requires Carried(a, b, out, subs) && i < |out|
    ensures Carried(a, b, Drop(out, i), subs)
  {
    hide Subsequence, ScoIn;
    var x, f, y := out[..i], out[i], out[i + 1..];
    assert out == x + [f] + y;
    ScoAppend(x + [f], y);
    ScoAppend(x, [f]);
    ScoAppend(x, y);
    ScoOne(f);
    hide Only;
    MayLoseWithin(b.upUnrel, ScoIn(x), ScoIn([f]), ScoIn(y), Only(a.unrel, SCO), Only(subs, SCO));
  }

  /** Both directions. */
  ghost predicate BothCarried(s: System, w: Witness, atA: seq<Packet>, atB: seq<Packet>) {
    Inv(s, w) && Carried(s.a.link, s.b.link, w.fab, atA) && Carried(s.b.link, s.a.link, w.fba, atB)
  }

  lemma TransmitCarries(s: System, w: Witness, room: seq<Alloc>, atA: seq<Packet>, atB: seq<Packet>)
    returns (w': Witness)
    requires BothCarried(s, w, atA, atB)
    ensures BothCarried(Act(s, Transmit(room)), w', atA, atB)
  {
    hide Inv, Wakeup, Sent, Only, ScoIn, Subsequence, Accepted;
    w' := TransmitSafe(s, w, room);
    var l := Ready(s.a.link, []);
    WakeupCarries(l, room);
    WakeupKeeps(l, room);
    MovedOn(s.a.link, Wakeup(l, room), s.b.link, w.fab, Sent(l, room), atA);
  }

  lemma ArriveCarries(s: System, w: Witness, n: nat, grants: nat, room: seq<Alloc>, atA: seq<Packet>, atB: seq<Packet>)
    returns (w': Witness)
    requires BothCarried(s, w, atA, atB)
    ensures BothCarried(Act(s, Arrive(n, grants, room)), w', atA, atB)
  {
    hide Inv, Only, ScoIn, Subsequence, Accepted, Fates, FatesSent, Recv, Encodable;
    var fate;
    QueuesOkIn(s, w);
    w', fate := ArriveSafe(s, w, n, grants, room);
    var l := Ready(s.a.link, room);
    FatesSend(l, w.fba, fate, |fate|);
    FatesHandUp(l, w.fba, fate, |fate|, Only(s.b.link.unrel, SCO), Only(atB, SCO));
    var r := Act(s, Arrive(n, grants, room)).a.link;
    MovedOn(s.a.link, r, s.b.link, w.fab, FatesSent(l, w.fba, fate), atA);
  }

  lemma VanishCarries(s: System, w: Witness, i: nat, atA: seq<Packet>, atB: seq<Packet>) returns (w': Witness)
    requires BothCarried(s, w, atA, atB) && i < |s.ab.waiting|
    ensures BothCarried(Act(s, Vanish(i)), w', atA, atB)
  {
    hide Inv, Only, ScoIn, Subsequence, Accepted;
    w' := VanishSafe(s, w, i);
    var j :| 0 <= j < |w.fab| && w'.fab == Drop(w.fab, j);
    LostCarries(s.a.link, s.b.link, w.fab, j, atA);
  }

  lemma ActCarries(s: System, w: Witness, action: Action, atA: seq<Packet>, atB: seq<Packet>) returns (w': Witness)
    requires BothCarried(s, w, atA, atB)
    ensures BothCarried(Act(s, action), w', atA + SubmittedBy(action), atB)
  {
    hide Inv, Only, ScoIn, Subsequence, Accepted, Recv, Wakeup;
    assert atA + [] == atA;
    w' := w;
    match action
    case Submit(p) =>
      SubmitSafe(s, w, p);
      SubmitCarries(s.a.link, s.b.link, w.fab, p, atA);
      QueuedExactly(s.a.link, p);
    case Transmit(room) => w' := TransmitCarries(s, w, room, atA, atB);
    case Arrive(n, grants, room) => w' := ArriveCarries(s, w, n, grants, room, atA, atB);
    case Vanish(i) =>
      if i < |s.ab.waiting| {
        w' := VanishCarries(s, w, i, atA, atB);
      }
    case Timeout => TimeoutSafe(s, w);
  }

  // ---- Runs ----

  /** The packets that a run submits at one end. */
  function SubmittedAt(ops: seq<Op>, atB: bool): seq<Packet> {
    if ops == [] then []
    else (if ops[0].atB == atB then SubmittedBy(ops[0].action) else []) + SubmittedAt(ops[1..], atB)
  }

  lemma {:induction false} RunCarries(s: System, w: Witness, ops: seq<Op>, atA: seq<Packet>, atB: seq<Packet>)
    returns (w': Witness)
    requires BothCarried(s, w, atA, atB)
    ensures Valid(s.a) && Valid(s.b)
    ensures BothCarried(Run(s, ops), w', atA + SubmittedAt(ops, false), atB + SubmittedAt(ops, true))
    decreases |ops|
  {
    hide Inv, Act, Carried;
    QueuesOkIn(s, w);
    w' := w;
    if ops == [] {
      assert atA + [] == atA && atB + [] == atB;
    } else {
      var op := ops[0];
      var now := SubmittedBy(op.action);
      ActValid(if op.atB then Swap(s) else s, op.action);
      if op.atB {
        InvSwap(s, w);
        w' := ActCarries(Swap(s), SwapWitness(w), op.action, atB, atA);
        InvSwap(Act(Swap(s), op.action), w');
        w' := SwapWitness(w');
        w' := RunCarries(Step(s, op), w', ops[1..], atA, atB + now);
        assert atB + now + SubmittedAt(ops[1..], true) == atB + SubmittedAt(ops, true);
        assert atA + SubmittedAt(ops[1..], false) == atA + SubmittedAt(ops, false);
      } else {
        w' := ActCarries(s, w, op.action, atA, atB);
        w' := RunCarries(Step(s, op), w', ops[1..], atA + now, atB);
        assert atA + now + SubmittedAt(ops[1..], false) == atA + SubmittedAt(ops, false);
        assert atB + SubmittedAt(ops[1..], true) == atB + SubmittedAt(ops, true);
      }
    }
  }

  /** After every run, the SCO packets handed up at each end are, in order, some of those submitted at the other, and what
      each end has ever queued for reliable transmission are exactly the commands and ACL packets submitted to it that fit
      a frame. */
  lemma InOrder(crcA: bool, crcB: bool, ops: seq<Op>)
    ensures var r := Run(Opened(crcA, crcB), ops);
            && Subsequence(r.b.link.upUnrel, Only(SubmittedAt(ops, false), SCO))
            && Subsequence(r.a.link.upUnrel, Only(SubmittedAt(ops, true), SCO))
            && r.a.link.enqueued == Accepted(SubmittedAt(ops, false))
            && r.b.link.enqueued == Accepted(SubmittedAt(ops, true))
  {
    hide Inv, Run, Only, Subsequence, Accepted;
    InitialInv(crcA, crcB);
    OpenedCarries(crcA, crcB);
    var s, w := Opened(crcA, crcB), Witness([], [], START, START);
    var w' := RunCarries(s, w, ops, [], []);
    var r, atA, atB := Run(s, ops), SubmittedAt(ops, false), SubmittedAt(ops, true);
    assert [] + atA == atA && [] + atB == atB;
    CarriedMeans(r.a.link, r.b.link, w'.fab, atA);
    CarriedMeans(r.b.link, r.a.link, w'.fba, atB);
  }

  lemma OpenedCarries(crcA: bool, crcB: bool)
    ensures var s := Opened(crcA, crcB); Carried(s.a.link, s.b.link, [], []) && Carried(s.b.link, s.a.link, [], [])
  {
  }

  lemma CarriedMeans(a: Link, b: Link, out: seq<Frame>, subs: seq<Packet>)
    requires Carried(a, b, out, subs)
    ensures Subsequence(b.upUnrel, Only(subs, SCO)) && a.enqueued == Accepted(subs)
  {
    hide Only, Subsequence, ScoIn, Accepted;
    assert b.upUnrel + ScoIn(out) + Only(a.unrel, SCO) == b.upUnrel + (ScoIn(out) + Only(a.unrel, SCO));
    SubsequenceShorter(b.upUnrel, ScoIn(out) + Only(a.unrel, SCO), Only(subs, SCO));
  }
}
