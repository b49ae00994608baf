/** The Three-wire UART driver (hci_h5.c) as functions on values. */
module H5 {
  import opened Octets
  import opened GoBackN

  const ACK_PKT := 0
  const LINK_PKT := 15
  const MAX_DATA := 0xfff
  const MAX_LEN := 4 + 0xfff + 2

  datatype LinkState = Uninitialized | Initialized | Active
  datatype SleepState = Awake | Sleeping | WakingUp

  /** Whether each allocation that one call of h5_dequeue may attempt succeeds. */
  datatype Alloc = Alloc(first: bool, rel: bool, ack: bool)

  /** struct h5 without its receiver. The last five fields belong to the surroundings: what the line takes at the
      next wakeup, the frames given to it, the reliable packets accepted from the peer, the packets handed to the
      HCI layer, and every packet put on the reliable queue. */
  datatype Link = Link(
    unack: seq<Packet>, rel: seq<Packet>, unrel: seq<Packet>,
    rxAck: nat, txSeq: nat, txAck: nat, txWin: nat, txAckReq: bool, state: LinkState, sleep: SleepState,
    room: seq<Alloc>, written: seq<Frame>, taken: seq<Packet>, up: seq<Packet>, enqueued: seq<Packet>)

  /** h5_open, with its first request for synchronisation queued. */
  const OPENED :=
    Link([], [], [Packet(LINK_PKT, SYNC_REQ)], 0, 0, 0, 4, false, Uninitialized, Awake, [], [], [], [], [])

  const SYNC_REQ: seq<byte> := [0x01, 0x7e]
  const SYNC_RSP: seq<byte> := [0x02, 0x7d]
  const CONF_RSP: seq<byte> := [0x04, 0x7b]
  const WAKEUP_REQ: seq<byte> := [0x05, 0xfa]
  const WOKEN_REQ: seq<byte> := [0x06, 0xf9]
  const SLEEP_REQ: seq<byte> := [0x07, 0x78]

  function ConfReq(l: Link): seq<byte> {
    [0x03, 0xfc, l.txWin % 8]
  }

  predicate Reliable(kind: nat) {
    kind == HCI_ACLDATA_PKT || kind == HCI_COMMAND_PKT
  }

  /** valid_packet_type, and a length that fits the header. */
  predicate Sendable(p: Packet) {
    && (Reliable(p.kind) || p.kind == HCI_SCODATA_PKT || p.kind == LINK_PKT || p.kind == ACK_PKT)
    && |p.data| <= MAX_DATA
  }

  ghost predicate QueuesOk(l: Link) {
    && (forall p :: p in l.unrel ==> Sendable(p) && !Reliable(p.kind))
    && (forall p :: p in l.rel ==> Sendable(p) && Reliable(p.kind))
    && (forall p :: p in l.unack ==> Sendable(p) && Reliable(p.kind))
    && (forall p :: p in l.enqueued ==> Sendable(p) && Reliable(p.kind))
    && l.txSeq < 8 && l.txAck < 8 && l.rxAck < 8 && l.txWin <= 7
  }

  // ---- Transmit side ----

  /** h5_link_control */
  function LinkControl(l: Link, data: seq<byte>): Link {
    l.(unrel := l.unrel + [Packet(LINK_PKT, data)])
  }

  function Enqueue(l: Link, p: Packet): Link {
    if |p.data| > MAX_DATA || l.state != Active then l
    else if Reliable(p.kind) then l.(rel := l.rel + [p], enqueued := l.enqueued + [p])
    else if p.kind == HCI_SCODATA_PKT then l.(unrel := l.unrel + [p])
    else l
  }

  function FrameFor(l: Link, p: Packet): Frame {
    Frame(Reliable(p.kind), if Reliable(p.kind) then l.txSeq else 0, l.txAck, Body(p.kind, p.data))
  }

  /** h5_prepare_pkt once its buffer is allocated. */
  function Prepared(l: Link, p: Packet): Link {
    l.(txAckReq := false, txSeq := if Reliable(p.kind) then (l.txSeq + 1) % 8 else l.txSeq)
  }

  const ACK := Packet(ACK_PKT, [])
  const WAKEUP := Packet(LINK_PKT, WAKEUP_REQ)

  datatype Choice = SendWakeup | SendUnrel | SendRel | SendAck | SendNothing

  /** What h5_dequeue sends: a wakeup request to a sleeping peer and nothing else until it answers; otherwise
      unreliable, reliable within the window, bare acknowledgement. */
  function Choose(l: Link, a: Alloc): Choice {
    if l.sleep != Awake then (if l.sleep == Sleeping && a.first then SendWakeup else SendNothing)
    else if l.unrel != [] && a.first then SendUnrel
    else if |l.unack| < l.txWin && l.rel != [] && a.rel then SendRel
    else if l.txAckReq && a.ack then SendAck
    else SendNothing
  }

  function Chosen(l: Link, a: Alloc): (p: Packet)
    requires Choose(l, a) != SendNothing
  {
    match Choose(l, a)
    case SendWakeup => WAKEUP
    case SendUnrel => l.unrel[0]
    case SendRel => l.rel[0]
    case SendAck => ACK
  }

  /** The state after h5_dequeue. A sleeping peer counts as being woken even if no memory was found to ask it. */
  function Dequeued(l: Link, a: Alloc): Link {
    match Choose(l, a)
    case SendWakeup => Prepared(l, WAKEUP).(sleep := WakingUp)
    case SendUnrel => Prepared(l, l.unrel[0]).(unrel := l.unrel[1..])
    case SendRel => Prepared(l, l.rel[0]).(rel := l.rel[1..], unack := l.unack + [l.rel[0]])
    case SendAck => Prepared(l, ACK)
    case SendNothing => if l.sleep == Sleeping then l.(sleep := WakingUp) else l
  }

  function AfterOne(l: Link, a: Alloc): (r: Link)
    requires QueuesOk(l) && Choose(l, a) != SendNothing
    ensures QueuesOk(r)
  {
    Dequeued(l, a).(written := l.written + [FrameFor(l, Chosen(l, a))])
  }

  /** hci_uart_tx_wakeup */
  function Wakeup(l: Link, room: seq<Alloc>): (r: Link)
    requires QueuesOk(l)
    ensures QueuesOk(r)
    decreases |room|
  {
    if room == [] then l
    else if Choose(l, room[0]) == SendNothing then Dequeued(l, room[0])
    else Wakeup(AfterOne(l, room[0]), room[1..])
  }

  /** h5_timed_event */
  function TimedOut(l: Link): Link {
    match l.state
    case Uninitialized => LinkControl(l, SYNC_REQ)
    case Initialized => LinkControl(l, ConfReq(l))
    case Active =>
      if l.sleep != Awake then l.(sleep := Sleeping)
      else l.(unack := [], rel := l.unack + l.rel, txSeq := (l.txSeq - |l.unack|) % 8)
  }

  lemma EnqueueOk(l: Link, p: Packet)
    requires QueuesOk(l)
    ensures QueuesOk(Enqueue(l, p)) && Enqueue(l, p).txAck == l.txAck
  {
  }

  lemma TimedOutOk(l: Link)
    requires QueuesOk(l)
    ensures QueuesOk(TimedOut(l)) && TimedOut(l).txAck == l.txAck
  {
  }

  // ---- Receive side ----

  /** h5_pkt_cull, with the step that takes 0 to 255. */
  function Cull(l: Link): Link {
    l.(unack := l.unack[CullCountU8(|l.unack|, l.txSeq, l.rxAck)..])
  }

  predicate HandsUp(tag: nat) {
    tag == HCI_EVENT_PKT || tag == HCI_ACLDATA_PKT || tag == HCI_SCODATA_PKT
  }

  /** h5_handle_internal_rx; `len` is the length that the header gives, which leaves out a CRC. */
  function Internal(l: Link, b: Body, len: nat): Link
    requires len <= |b.data|
  {
    if b.tag != LINK_PKT || len < 2 then l
    else
      var m := b.data[..2];
      if m == SYNC_REQ then LinkControl(l, SYNC_RSP)
      else if m == SYNC_RSP then LinkControl(l.(state := Initialized), ConfReq(l))
      else if m == ConfReq(l)[..2] then LinkControl(LinkControl(l, CONF_RSP), ConfReq(l))
      else if m == CONF_RSP then l.(state := Active, txWin := if len > 2 then b.data[2] % 8 else l.txWin)
      else if m == SLEEP_REQ then l.(sleep := Sleeping)
      else if m == WOKEN_REQ then l.(sleep := Awake)
      else if m == WAKEUP_REQ then LinkControl(l, WOKEN_REQ).(sleep := Awake)
      else l
  }

  function Deliver(l: Link, f: Frame, len: nat): Link
    requires len <= |f.body.data|
  {
    if HandsUp(f.body.tag) then l.(up := l.up + [Packet(f.body.tag, f.body.data)]) else Internal(l, f.body, len)
  }

  /** The part of h5_complete_rx_pkt before the cull, with the transmitter woken. */
  function Accept(l: Link, f: Frame): Link
    requires QueuesOk(l)
  {
    if f.reliable
    then Wakeup(l.(txAck := (l.txAck + 1) % 8, txAckReq := true, room := [],
                   taken := l.taken + [Packet(f.body.tag, f.body.data)]), l.room)
    else l
  }

  function Complete(l: Link, f: Frame, len: nat): Link
    requires QueuesOk(l) && len <= |f.body.data|
  {
    Deliver(Cull(Accept(l, f).(rxAck := f.ack)), f, len)
  }

  lemma CompleteOk(l: Link, f: Frame, len: nat)
    requires QueuesOk(l) && f.ack < 8 && len <= |f.body.data|
    ensures QueuesOk(Accept(l, f)) && QueuesOk(Complete(l, f, len))
  {
    hide Wakeup;
    CullOk(Accept(l, f).(rxAck := f.ack));
    DeliverOk(Cull(Accept(l, f).(rxAck := f.ack)), f, len);
  }

  lemma CullOk(l: Link)
    requires QueuesOk(l)
    ensures QueuesOk(Cull(l))
  {
  }

  lemma DeliverOk(l: Link, f: Frame, len: nat)
    requires QueuesOk(l) && len <= |f.body.data|
    ensures QueuesOk(Deliver(l, f, len))
  {
    hide SYNC_REQ, SYNC_RSP, CONF_RSP, WAKEUP_REQ, WOKEN_REQ, SLEEP_REQ;
    MessagesOk(l);
  }

  /** The messages that a driver sends can be sent. */
  lemma MessagesOk(l: Link)
    ensures forall m :: m in [SYNC_REQ, SYNC_RSP, CONF_RSP, WOKEN_REQ, ConfReq(l)] ==> Sendable(Packet(LINK_PKT, m))
  {
  }

  /** A whole frame, its header giving the length `len`, at a driver that does not refuse it. */
  function Heard(l: Link, f: Frame, len: nat): Link
    requires QueuesOk(l) && len <= |f.body.data|
  {
    if f.reliable && f.seqno != l.txAck then l else Complete(l, f, len)
  }

  /** A frame without CRC, as these drivers send it. */
  function Received(l: Link, f: Frame): Link
    requires QueuesOk(l)
  {
    Heard(l, f, |f.body.data|)
  }
}
