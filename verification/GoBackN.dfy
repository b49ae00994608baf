/** The sliding window of BCSP and H5, in one direction. */
module GoBackN {
  import opened Octets
  import opened Arith

  // A sender numbers its reliable packets modulo 8, a receiver accepts only the number it expects; a channel of data
  // frames and a channel of acknowledgements keep order and may lose frames. The proof compares the 3-bit numbers with
  // the unbounded positions they stand for (`Track`), which no step of the protocol ever reads.

  /** What a frame carries: the 4-bit tag of its header (BCSP channel, H5 packet type) and its payload. */
  datatype Body = Body(tag: nat, data: seq<byte>)

  datatype Frame = Frame(reliable: bool, seqno: nat, ack: nat, body: Body)

  /** Sender and receiver counters of one direction, as the drivers keep them.
      `queued` is every body put on the reliable queue so far, `unacked` the number sent and not culled. */
  datatype Counters = Counters(queued: seq<Body>, unacked: nat, txSeq: nat, rxSeq: nat)

  /** The unbounded positions behind the 3-bit numbers: packets culled, packets accepted by the peer, one past
      the highest packet ever sent, and the position of every frame and acknowledgement in flight. */
  datatype Track = Track(base: nat, accepted: nat, high: nat, data: seq<int>, acks: seq<int>)

  ghost predicate DataOk(window: nat, queued: seq<Body>, t: Track, f: Frame, k: int) {
    f.reliable ==>
      && 0 <= k < t.high <= |queued|
      && t.accepted <= k + window
      && f.seqno == k % 8
      && f.body == queued[k]
  }

  ghost predicate DataInFlight(window: nat, queued: seq<Body>, frames: seq<Frame>, t: Track) {
    && |t.data| == |frames|
    && (forall i :: 0 <= i < |frames| ==> DataOk(window, queued, t, frames[i], t.data[i]))
    && (forall i, j :: 0 <= i < j < |frames| && frames[i].reliable && frames[j].reliable ==>
          t.data[i] < t.data[j] + window)
  }

  ghost predicate AckOk(t: Track, f: Frame, a: int) {
    t.base <= a <= t.accepted && f.ack == a % 8
  }

  ghost predicate AcksInFlight(frames: seq<Frame>, t: Track) {
    && |t.acks| == |frames|
    && (forall i :: 0 <= i < |frames| ==> AckOk(t, frames[i], t.acks[i]))
    && (forall i, j :: 0 <= i < j < |frames| ==> t.acks[i] <= t.acks[j])
  }

  ghost predicate Positions(window: nat, c: Counters, t: Track) {
    && window <= 7
    && t.base <= t.accepted <= t.high <= t.base + window
    && t.base + c.unacked <= t.high <= |c.queued|
    && c.txSeq == (t.base + c.unacked) % 8
    && c.rxSeq == t.accepted % 8
  }

  /** The invariant of one direction: `data` runs from the sender to the receiver, `acks` runs back. */
  ghost predicate Safe(window: nat, c: Counters, data: seq<Frame>, acks: seq<Frame>, t: Track) {
    && Positions(window, c, t)
    && DataInFlight(window, c.queued, data, t)
    && AcksInFlight(acks, t)
  }

  const START := Track(0, 0, 0, [], [])

  function Drop<T>(s: seq<T>, i: nat): (r: seq<T>)
    requires i < |s|
  {
    s[..i] + s[i + 1..]
  }

  /** When every packet has been accepted, those in flight are all old. */
  lemma AllOld(window: nat, c: Counters, data: seq<Frame>, acks: seq<Frame>, t: Track)
    requires Safe(window, c, data, acks, t) && t.accepted == |c.queued|
    ensures forall i :: 0 <= i < |data| && data[i].reliable ==> data[i].seqno != c.rxSeq
  {
    hide AcksInFlight;
    forall i | 0 <= i < |data| && data[i].reliable
      ensures data[i].seqno != c.rxSeq
    {
      assert DataOk(window, c.queued, t, data[i], t.data[i]);
      ResiduesDiffer(t.data[i], t.accepted);
    }
  }

  lemma ResiduesDiffer(k: nat, n: nat)
    requires k < n < k + 8
    ensures k % 8 != n % 8
  {
    var d := n - k;
    assert n % 8 == (k % 8 + d) % 8;
  }

  /** A packet joins the reliable queue. */
  lemma Enqueued(window: nat, c: Counters, data: seq<Frame>, acks: seq<Frame>, t: Track, b: Body)
    requires Safe(window, c, data, acks, t)
    ensures Safe(window, c.(queued := c.queued + [b]), data, acks, t)
  {
  }

  /** The oldest unsent packet goes out, numbered `txSeq`. */
  lemma SentReliable(window: nat, c: Counters, data: seq<Frame>, acks: seq<Frame>, t: Track, f: Frame)
    returns (t': Track)
    requires Safe(window, c, data, acks, t)
    requires c.unacked < window && t.base + c.unacked < |c.queued|
    requires f.reliable && f.seqno == c.txSeq && f.body == c.queued[t.base + c.unacked]
    ensures Safe(window, c.(unacked := c.unacked + 1, txSeq := (c.txSeq + 1) % 8), data + [f], acks, t')
    ensures t'.base == t.base && t'.accepted == t.accepted
  {
    var n: nat := t.base + c.unacked;
    t' := t.(high := if t.high < n + 1 then n + 1 else t.high, data := t.data + [n]);
    hide DataInFlight, AcksInFlight;
    DataAppended(window, c.queued, data, t, t', f, n);
    AcksIgnoreData(acks, t, t');
    NextResidue(n);
  }

  lemma AcksIgnoreData(acks: seq<Frame>, t: Track, t': Track)
    requires AcksInFlight(acks, t)
    requires t'.base == t.base && t'.accepted == t.accepted && t'.acks == t.acks
    ensures AcksInFlight(acks, t')
  {
  }

  lemma DataAppended(window: nat, queued: seq<Body>, data: seq<Frame>, t: Track, t': Track, f: Frame, n: int)
    requires DataInFlight(window, queued, data, t)
    requires t' == t.(high := t'.high, data := t.data + [n])
    requires t.high <= t'.high <= |queued| && t.high <= n + window
    requires f.reliable && DataOk(window, queued, t', f, n)
    ensures DataInFlight(window, queued, data + [f], t')
  {
    forall i, j | 0 <= i < j < |data + [f]| && (data + [f])[i].reliable && (data + [f])[j].reliable
      ensures t'.data[i] < t'.data[j] + window
    {
      if j == |data| {
        assert DataOk(window, queued, t, data[i], t.data[i]);
      }
    }
  }

  /** An unreliable frame shares the data channel. */
  lemma SentUnreliable(window: nat, c: Counters, data: seq<Frame>, acks: seq<Frame>, t: Track, f: Frame)
    returns (t': Track)
    requires Safe(window, c, data, acks, t) && !f.reliable
    ensures Safe(window, c, data + [f], acks, t')
    ensures t'.base == t.base && t'.accepted == t.accepted
  {
    t' := t.(data := t.data + [0]);
  }

  /** Every frame of the receiver acknowledges what it has accepted so far. */
  lemma SentAck(window: nat, c: Counters, data: seq<Frame>, acks: seq<Frame>, t: Track, f: Frame)
    returns (t': Track)
    requires Safe(window, c, data, acks, t) && f.ack == c.rxSeq
    ensures Safe(window, c, data, acks + [f], t')
    ensures t'.base == t.base && t'.accepted == t.accepted
  {
    t' := t.(acks := t.acks + [t.accepted]);
    assert forall i, j :: 0 <= i < j < |acks + [f]| ==> t'.acks[i] <= t'.acks[j] by {
      forall i, j | 0 <= i < j < |acks + [f]|
        ensures t'.acks[i] <= t'.acks[j]
      {
        if j == |acks| {
          assert AckOk(t, acks[i], t.acks[i]);
        }
      }
    }
  }

  /** The channel loses any one of its data frames. */
  lemma LostData(window: nat, c: Counters, data: seq<Frame>, acks: seq<Frame>, t: Track, i: nat)
    returns (t': Track)
    requires Safe(window, c, data, acks, t) && i < |data|
    ensures Safe(window, c, Drop(data, i), acks, t')
    ensures t'.base == t.base && t'.accepted == t.accepted
  {
    t' := t.(data := Drop(t.data, i));
    var d := Drop(data, i);
    forall j | 0 <= j < |d|
      ensures DataOk(window, c.queued, t', d[j], t'.data[j])
    {
      assert DataOk(window, c.queued, t, data[if j < i then j else j + 1], t.data[if j < i then j else j + 1]);
    }
  }

  /** The channel loses any one of its acknowledgements. */
  lemma LostAck(window: nat, c: Counters, data: seq<Frame>, acks: seq<Frame>, t: Track, i: nat)
    returns (t': Track)
    requires Safe(window, c, data, acks, t) && i < |acks|
    ensures Safe(window, c, data, Drop(acks, i), t')
    ensures t'.base == t.base && t'.accepted == t.accepted
  {
    t' := t.(acks := Drop(t.acks, i));
    var a := Drop(acks, i);
    forall j | 0 <= j < |a|
      ensures AckOk(t', a[j], t'.acks[j])
    {
      assert AckOk(t, acks[if j < i then j else j + 1], t.acks[if j < i then j else j + 1]);
    }
  }

  /** A reliable frame with the expected number is exactly the next packet, never an old or a later one
      that shares its number modulo 8. */
  lemma AcceptedIsNext(window: nat, c: Counters, data: seq<Frame>, acks: seq<Frame>, t: Track)
    requires Safe(window, c, data, acks, t) && data != []
    requires data[0].reliable && data[0].seqno == c.rxSeq
    ensures t.data[0] == t.accepted < t.high
    ensures data[0].body == c.queued[t.accepted]
  {
    assert DataOk(window, c.queued, t, data[0], t.data[0]);
    SameResidue(t.data[0], t.accepted);
  }

  lemma SameResidue(x: int, y: int)
    requires x % 8 == y % 8 && -8 < x - y < 8
    ensures x == y
  {
  }

  /** The receiver accepts the first frame of the data channel. */
  lemma Accepted(window: nat, c: Counters, data: seq<Frame>, acks: seq<Frame>, t: Track)
    returns (t': Track)
    requires Safe(window, c, data, acks, t) && data != []
    requires data[0].reliable && data[0].seqno == c.rxSeq
    ensures Safe(window, c.(rxSeq := (c.rxSeq + 1) % 8), data[1..], acks, t')
    ensures t'.base == t.base && t'.accepted == t.accepted + 1 <= |c.queued|
    ensures data[0].body == c.queued[t.accepted]
  {
    AcceptedIsNext(window, c, data, acks, t);
    t' := t.(accepted := t.accepted + 1, data := t.data[1..]);
    DataAccepted(window, c.queued, data, t, t');
    hide DataInFlight;
    NextResidue(t.accepted);
  }

  lemma DataAccepted(window: nat, queued: seq<Body>, data: seq<Frame>, t: Track, t': Track)
    requires DataInFlight(window, queued, data, t) && data != [] && data[0].reliable
    requires t.data[0] == t.accepted
    requires t' == t.(accepted := t.accepted + 1, data := t.data[1..])
    ensures DataInFlight(window, queued, data[1..], t')
  {
    forall i | 0 <= i < |data[1..]|
      ensures DataOk(window, queued, t', data[1..][i], t'.data[i])
    {
      assert DataOk(window, queued, t, data[i + 1], t.data[i + 1]);
    }
  }

  /** The sender receives the first acknowledgement and culls `m` packets: either none, or as many as make
      its base agree with the number acknowledged. The packets culled have all been accepted by the peer. */
  lemma Culled(window: nat, c: Counters, data: seq<Frame>, acks: seq<Frame>, t: Track, m: nat)
    returns (t': Track)
    requires Safe(window, c, data, acks, t) && acks != []
    requires m <= c.unacked
    requires m == 0 || (t.base + m) % 8 == acks[0].ack
    ensures Safe(window, c.(unacked := c.unacked - m), data, acks[1..], t')
    ensures t'.base == t.base + m <= t.accepted == t'.accepted
  {
    assert AckOk(t, acks[0], t.acks[0]);
    if m != 0 {
      SameResidue(t.base + m, t.acks[0]);
    }
    t' := t.(base := t.base + m, acks := t.acks[1..]);
    forall i | 0 <= i < |acks[1..]|
      ensures AckOk(t', acks[1..][i], t'.acks[i])
    {
      assert AckOk(t, acks[i + 1], t.acks[i + 1]);
    }
  }

  /** The timer puts every unacknowledged packet back: the numbering rewinds to the base. */
  lemma Rewound(window: nat, c: Counters, data: seq<Frame>, acks: seq<Frame>, t: Track)
    requires Safe(window, c, data, acks, t)
    ensures Safe(window, c.(unacked := 0, txSeq := (c.txSeq - c.unacked) % 8), data, acks, t)
  {
    hide DataInFlight, AcksInFlight;
    RewindResidue(t.base, c.unacked);
  }

  lemma RewindResidue(base: nat, n: nat)
    ensures ((base + n) % 8 - n) % 8 == base % 8
  {
    var q := (base + n) / 8;
    assert (base + n) % 8 - n == base - 8 * q;
  }

  lemma NextResidue(x: nat)
    ensures (x % 8 + 1) % 8 == (x + 1) % 8
  {
  }

  // ---- Culling: how far back from the next sequence number an acknowledgement lies ----

  /** BCSP's step back: `(seqno - 1) & 0x07`. */
  function Back(s: nat): (r: nat) {
    (s + 7) % 8
  }

  /** H5's step back, `(seq - 1) % 8` stored in a u8: C truncates, so 0 becomes -1 and then 255. */
  function BackU8(s: nat): (r: nat) {
    if s == 0 then 255 else (s - 1) % 8
  }

  /** The counting loop of bcsp_pkt_cull: packets left to remove once the walk back meets the acknowledgement. */
  function CullCount(left: nat, seqno: nat, ack: nat): (m: nat)
    ensures m <= left
  {
    if left == 0 || seqno == ack then left else CullCount(left - 1, Back(seqno), ack)
  }

  /** The same loop with H5's step. */
  function CullCountU8(left: nat, seqno: nat, ack: nat): (m: nat)
    ensures m <= left
  {
    if left == 0 || seqno == ack then left else CullCountU8(left - 1, BackU8(seqno), ack)
  }

  lemma BackIsPredecessor(x: nat)
    requires x > 0
    ensures Back(x % 8) == (x - 1) % 8
  {
  }

  /** Whatever is culled ends just before the acknowledged number. */
  lemma {:induction false} CullCountSound(next: nat, left: nat, ack: nat)
    requires left <= next
    requires CullCount(left, next % 8, ack) != 0
    ensures (next - left + CullCount(left, next % 8, ack)) % 8 == ack
  {
    if next % 8 != ack {
      BackIsPredecessor(next);
      CullCountSound(next - 1, left - 1, ack);
    }
  }

  /** An acknowledgement of any position in the window culls exactly the packets before it. */
  lemma {:induction false} CullCountHits(next: nat, left: nat, acked: nat)
    requires left <= 7 && acked <= next <= acked + left
    ensures CullCount(left, next % 8, acked % 8) == left - (next - acked)
  {
    if acked < next {
      if next % 8 == acked % 8 {
        SameResidue(next, acked);
      }
      BackIsPredecessor(next);
      CullCountHits(next - 1, left - 1, acked);
    }
  }

  /** From a number below 7 the u8 walk never stands on 7. */
  lemma {:induction false} U8WalkMissesSeven(left: nat, s: nat)
    requires s < 7 && left <= 7
    ensures CullCountU8(left, s, 7) == 0
  {
    if left != 0 {
      if s != 0 {
        U8WalkMissesSeven(left - 1, s - 1);
      } else if left >= 2 {
        assert BackU8(255) == 6;
        U8WalkMissesSeven(left - 2, 6);
      }
    }
  }

  /** For every other acknowledgement it agrees with BCSP's walk, step by step. */
  lemma {:induction false} U8WalkAgrees(left: nat, s: nat, ack: nat)
    requires s < 8 && ack < 7
    ensures CullCountU8(left, s, ack) == CullCount(left, s, ack)
  {
    if left != 0 && s != ack {
      if s != 0 {
        U8WalkAgrees(left - 1, s - 1, ack);
        assert Back(s) == s - 1;
      } else if left >= 2 {
        assert BackU8(255) == 6 == Back(Back(0));
        U8WalkAgrees(left - 2, 6, ack);
      }
    }
  }

  /** H5 culls what BCSP culls, except that it misses an acknowledgement of 7 unless 7 is also the next
      number to send. */
  lemma CullCountU8Exact(left: nat, s: nat, ack: nat)
    requires s < 8 && ack < 8 && left <= 7
    ensures CullCountU8(left, s, ack) == if ack == 7 && s != 7 then 0 else CullCount(left, s, ack)
  {
    if ack < 7 {
      U8WalkAgrees(left, s, ack);
    } else if s < 7 {
      U8WalkMissesSeven(left, s);
    }
  }

  // ---- Conservation: what a sender keeps whatever acknowledgements arrive ----

  /** Culled, unacknowledged and waiting packets are, in this order, all packets ever queued; the next number
      counts the packets culled and sent. */
  ghost predicate Conserved(window: nat, queued: seq<Packet>, unack: seq<Packet>, rel: seq<Packet>, txSeq: nat) {
    && |unack| <= window
    && |unack| + |rel| <= |queued|
    && queued[|queued| - |unack| - |rel|..] == unack + rel
    && txSeq == (|queued| - |rel|) % 8
  }

  lemma ConservedByQueueing(window: nat, queued: seq<Packet>, unack: seq<Packet>, rel: seq<Packet>, txSeq: nat, p: Packet)
    requires Conserved(window, queued, unack, rel, txSeq)
    ensures Conserved(window, queued + [p], unack, rel + [p], txSeq)
  {
    var n := |queued| - |unack| - |rel|;
    assert (queued + [p])[n..] == queued[n..] + [p];
    assert unack + (rel + [p]) == unack + rel + [p];
  }

  lemma ConservedBySending(window: nat, queued: seq<Packet>, unack: seq<Packet>, rel: seq<Packet>, txSeq: nat)
    requires Conserved(window, queued, unack, rel, txSeq) && rel != [] && |unack| < window
    ensures Conserved(window, queued, unack + [rel[0]], rel[1..], (txSeq + 1) % 8)
  {
    assert unack + rel == (unack + [rel[0]]) + rel[1..];
    NextResidue(|queued| - |rel|);
  }

  lemma ConservedByCulling(window: nat, queued: seq<Packet>, unack: seq<Packet>, rel: seq<Packet>, txSeq: nat, m: nat)
    requires Conserved(window, queued, unack, rel, txSeq) && m <= |unack|
    ensures Conserved(window, queued, unack[m..], rel, txSeq)
  {
    var n := |queued| - |unack| - |rel|;
    assert queued[n + m..] == queued[n..][m..] == (unack + rel)[m..] == unack[m..] + rel;
  }

  lemma ConservedByRewinding(window: nat, queued: seq<Packet>, unack: seq<Packet>, rel: seq<Packet>, txSeq: nat)
    requires Conserved(window, queued, unack, rel, txSeq)
    ensures Conserved(window, queued, [], unack + rel, (txSeq - |unack|) % 8)
  {
    assert [] + (unack + rel) == unack + rel;
    RewindResidue(|queued| - |rel| - |unack|, |unack|);
  }

  // ---- Numbers of packets one after the other ----

  /** The number of the packet `i` places behind position `p`. */
  function Number(p: nat, i: nat): nat {
    (p + i) % 8
  }

  lemma NextNumber(p: nat, i: nat)
    ensures Number((p + 1) % 8, i) == Number(p, i + 1) && Number(p % 8, i) == Number(p, i)
  {
    SameNumber8(p + 1, i);
    SameNumber8(p, i);
  }

  lemma SameNumber8(p: nat, i: nat)
    ensures (p % 8 + i) % 8 == (p + i) % 8
  {
    var q := p / 8;
    assert p % 8 + i == p + i - q * 8;
    ResidueDrops(p + i, q, 8);
  }
}
