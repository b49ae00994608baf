/** The BCSP driver (hci_bcsp.c) as functions on values: what each entry point does to the driver's state.
    The class in BcspDriver runs the source's own loops against these functions. */
module Bcsp {
  import opened Octets
  import opened GoBackN
  import Slip
  import BcspCrc

  const TXWINSIZE := 4
  const MAX_DATA := 0xFFF
  const RX_BUFFER := 0x1005
  const BCSP_ACK_PKT := 5
  const BCSP_LE_PKT := 6

  /** Whether each of the three allocations that one call of bcsp_dequeue may attempt succeeds. */
  datatype Alloc = Alloc(unrel: bool, rel: bool, ack: bool)

  /** The transmit side and the acknowledgement state. The last five fields belong to the surroundings:
      the frames that the line will take at the next wakeup, the frames written to it, the packets handed
      to the HCI layer (reliable and unreliable apart), and every packet put on the reliable queue. */
  datatype Link = Link(
    unack: seq<Packet>, rel: seq<Packet>, unrel: seq<Packet>,
    rxseqTxack: nat, rxack: nat, txackReq: bool, msgqTxseq: nat, useCrc: bool,
    room: seq<Alloc>, written: seq<seq<byte>>,
    upRel: seq<Packet>, upUnrel: seq<Packet>, enqueued: seq<Packet>)

  datatype RxState = W4PktDelimiter | W4PktStart | W4BcspHdr | W4Data | W4Crc

  datatype Receiver = Receiver(state: RxState, count: nat, esc: bool, skb: seq<byte>, crc: BcspCrc.Word)

  datatype State = State(link: Link, rx: Receiver)

  const OPENED := State(
    Link([], [], [], 0, 0, false, 0, true, [], [], [], [], []),
    Receiver(W4PktDelimiter, 0, false, [], BcspCrc.NIL))

  // ---- Header and frame ----

  /** The channel of a packet type, None for a type bcsp_prepare_pkt refuses. */
  function Chan(kind: nat): Option<nat> {
    if kind == HCI_ACLDATA_PKT then Some(6)
    else if kind == HCI_COMMAND_PKT then Some(5)
    else if kind == HCI_SCODATA_PKT then Some(7)
    else if kind == BCSP_LE_PKT then Some(1)
    else if kind == BCSP_ACK_PKT then Some(0)
    else None
  }

  predicate Reliable(kind: nat) {
    kind == HCI_ACLDATA_PKT || kind == HCI_COMMAND_PKT
  }

  /** A packet that may sit on one of the queues: bcsp_enqueue refuses everything else. */
  predicate Sendable(p: Packet) {
    Chan(p.kind).Some? && |p.data| <= MAX_DATA
  }

  function BodyOf(p: Packet): (b: Body)
    requires Sendable(p)
  {
    Body(Chan(p.kind).value, p.data)
  }

  /** A frame that fits the header: 3-bit numbers, 4-bit channel, 12-bit length; an unreliable frame has
      no sequence number. */
  predicate Encodable(f: Frame) {
    && f.seqno < 8 && f.ack < 8 && f.body.tag < 16 && |f.body.data| <= MAX_DATA
    && (f.reliable || f.seqno == 0)
  }

  /** The four header bytes. */
  function Header(f: Frame, crc: bool): (h: seq<byte>)
    requires Encodable(f)
    ensures |h| == 4
  {
    var h0 := (if f.reliable then 128 + f.seqno else 0) + (if crc then 64 else 0) + 8 * f.ack;
    var h1 := 16 * (|f.body.data| % 16) + f.body.tag;
    var h2 := |f.body.data| / 16;
    [h0, h1, h2, 255 - (h0 + h1 + h2) % 256]
  }

  predicate HasCrc(skb: seq<byte>)
    requires |skb| >= 1
  {
    skb[0] / 64 % 2 == 1
  }

  predicate ChecksumOk(skb: seq<byte>)
    requires |skb| >= 4
  {
    var sum: int := skb[0] as int + skb[1] as int + skb[2] as int;
    255 - sum % 256 == skb[3]
  }

  function PayloadLen(skb: seq<byte>): (n: nat)
    requires |skb| >= 4
    ensures n <= MAX_DATA
  {
    skb[1] as int / 16 + 16 * (skb[2] as int)
  }

  /** The frame in a buffer that holds a header and a payload. */
  function FrameIn(skb: seq<byte>): (f: Frame)
    requires |skb| >= 4
  {
    Frame(skb[0] >= 128, skb[0] % 8, skb[0] / 8 % 8, Body(skb[1] % 16, skb[4..]))
  }

  /** The CRC over header and payload, bits reversed, most significant byte first. */
  function Trailer(f: Frame, crc: bool): seq<byte>
    requires Encodable(f)
  {
    if crc
    then BcspCrc.SplitBe16(BcspCrc.Bitrev16(BcspCrc.Crc(BcspCrc.CRC_INIT, Header(f, crc) + f.body.data)))
    else []
  }

  /** Everything between the two delimiters, before stuffing. */
  function Content(f: Frame, crc: bool): seq<byte>
    requires Encodable(f)
  {
    Header(f, crc) + f.body.data + Trailer(f, crc)
  }

  /** The bytes that bcsp_prepare_pkt builds. */
  function Encode(f: Frame, crc: bool): seq<byte>
    requires Encodable(f)
  {
    [Slip.DELIM] + Slip.Stuff(Content(f, crc)) + [Slip.DELIM]
  }

  // ---- Transmit side ----

  function Enqueue(l: Link, p: Packet): Link {
    if |p.data| > MAX_DATA then l
    else if Reliable(p.kind) then l.(rel := l.rel + [p], enqueued := l.enqueued + [p])
    else if p.kind == HCI_SCODATA_PKT then l.(unrel := l.unrel + [p])
    else l
  }

  ghost predicate QueuesOk(l: Link) {
    && (forall p :: p in l.unrel ==> Sendable(p) && !Reliable(p.kind))
    && (forall p :: p in l.rel ==> Sendable(p) && Reliable(p.kind))
    && (forall p :: p in l.unack ==> Sendable(p) && Reliable(p.kind))
    && (forall p :: p in l.enqueued ==> Sendable(p) && Reliable(p.kind))
    && l.rxseqTxack < 8 && l.msgqTxseq < 8 && l.rxack < 8
  }

  /** The header fields that bcsp_prepare_pkt fills in for a packet. */
  function FrameFor(l: Link, p: Packet): Frame
    requires Sendable(p)
  {
    Frame(Reliable(p.kind), if Reliable(p.kind) then l.msgqTxseq else 0, l.rxseqTxack, BodyOf(p))
  }

  /** bcsp_prepare_pkt once its buffer is allocated: the acknowledgement rides along, a reliable packet
      takes the next number. */
  function Prepared(l: Link, p: Packet): Link {
    l.(txackReq := false,
       msgqTxseq := if Reliable(p.kind) then (l.msgqTxseq + 1) % 8 else l.msgqTxseq)
  }

  const ACK := Packet(BCSP_ACK_PKT, [])

  /** Which packet bcsp_dequeue sends, if any: unreliable first, then reliable within the window, then a
      bare acknowledgement that is due. */
  datatype Choice = SendUnrel | SendRel | SendAck | SendNothing

  function Choose(l: Link, a: Alloc): Choice {
    if l.unrel != [] && a.unrel then SendUnrel
    else if |l.unack| < TXWINSIZE && l.rel != [] && a.rel then SendRel
    else if l.txackReq && a.ack then SendAck
    else SendNothing
  }

  function Chosen(l: Link, a: Alloc): (p: Packet)
    requires Choose(l, a) != SendNothing
  {
    match Choose(l, a)
    case SendUnrel => l.unrel[0]
    case SendRel => l.rel[0]
    case _ => ACK
  }

  /** The state after bcsp_dequeue. */
  function Dequeued(l: Link, a: Alloc): Link {
    match Choose(l, a)
    case SendUnrel => Prepared(l, l.unrel[0]).(unrel := l.unrel[1..])
    case SendRel => Prepared(l, l.rel[0]).(rel := l.rel[1..], unack := l.unack + [l.rel[0]])
    case SendAck => Prepared(l, ACK)
    case SendNothing => l
  }

  /** The frame bcsp_dequeue returns. */
  function Outgoing(l: Link, a: Alloc): (f: Frame)
    requires QueuesOk(l) && Choose(l, a) != SendNothing
    ensures Encodable(f)
  {
    FrameFor(l, Chosen(l, a))
  }

  /** One frame dequeued and written to the line. */
  function AfterOne(l: Link, a: Alloc): (r: Link)
    requires QueuesOk(l) && Choose(l, a) != SendNothing
    ensures QueuesOk(r)
  {
    DequeuedOk(l, a);
    Dequeued(l, a).(written := l.written + [Encode(Outgoing(l, a), l.useCrc)])
  }

  /** hci_uart_tx_wakeup: dequeue and write until nothing is left or the line is full. */
  function Wakeup(l: Link, room: seq<Alloc>): (r: Link)
    requires QueuesOk(l)
    ensures QueuesOk(r)
    decreases |room|
  {
    if room == [] || Choose(l, room[0]) == SendNothing then l else Wakeup(AfterOne(l, room[0]), room[1..])
  }

  lemma DequeuedOk(l: Link, a: Alloc)
    requires QueuesOk(l)
    ensures QueuesOk(Dequeued(l, a))
  {
  }

  /** bcsp_timed_event: everything unacknowledged goes back in front of the reliable queue. */
  function TimedOut(l: Link): Link {
    l.(unack := [], rel := l.unack + l.rel, msgqTxseq := (l.msgqTxseq - |l.unack|) % 8)
  }

  // ---- Receive side ----

  function Cull(l: Link): Link {
    l.(unack := l.unack[CullCount(|l.unack|, l.msgqTxseq, l.rxack)..])
  }

  const CONF_PKT: seq<byte> := [0xad, 0xef, 0xac, 0xed]
  const CONF_RSP_PKT: seq<byte> := [0xde, 0xad, 0xd0, 0xd0]

  /** The packet handed to the HCI layer for a frame, if it is handed up at all. */
  function HandedUp(f: Frame): Option<Packet> {
    if f.body.tag == 6 && f.reliable then Some(Packet(HCI_ACLDATA_PKT, f.body.data))
    else if f.body.tag == 5 && f.reliable then Some(Packet(HCI_EVENT_PKT, f.body.data))
    else if f.body.tag == 7 then Some(Packet(HCI_SCODATA_PKT, f.body.data))
    else None
  }

  function Deliver(l: Link, f: Frame): Link {
    match HandedUp(f)
    case Some(p) => if f.reliable then l.(upRel := l.upRel + [p]) else l.(upUnrel := l.upUnrel + [p])
    case None =>
      if f.body.tag == 1 && !f.reliable && f.body.data == CONF_PKT
      then l.(unrel := [Packet(BCSP_LE_PKT, CONF_RSP_PKT)] + l.unrel)
      else l
  }

  /** The part of bcsp_complete_rx_pkt before the cull. Waking the transmitter here may send frames that
      already carry the new acknowledgement while the old window is still in place. */
  function Accept(l: Link, f: Frame): Link
    requires QueuesOk(l)
  {
    if f.reliable
    then Wakeup(l.(rxseqTxack := (l.rxseqTxack + 1) % 8, txackReq := true, room := []), l.room)
    else l
  }

  function Complete(l: Link, f: Frame): Link
    requires QueuesOk(l)
  {
    Deliver(Cull(Accept(l, f).(rxack := f.ack)), f)
  }

  lemma CompleteOk(l: Link, f: Frame)
    requires QueuesOk(l) && f.ack < 8
    ensures QueuesOk(Accept(l, f)) && QueuesOk(Complete(l, f))
  {
    assert QueuesOk(l.(rxseqTxack := (l.rxseqTxack + 1) % 8, txackReq := true, room := []));
    hide Accept, Wakeup;
    CullOk(Accept(l, f).(rxack := f.ack));
    DeliverOk(Cull(Accept(l, f).(rxack := f.ack)), f);
  }

  lemma CullOk(l: Link)
    requires QueuesOk(l)
    ensures QueuesOk(Cull(l))
  {
  }

  lemma DeliverOk(l: Link, f: Frame)
    requires QueuesOk(l)
    ensures QueuesOk(Deliver(l, f))
  {
  }

  /** What a whole frame does to the link: a reliable one out of sequence is ignored, acknowledgement and all. */
  function Received(l: Link, f: Frame): Link
    requires QueuesOk(l)
  {
    if f.reliable && f.seqno != l.rxseqTxack then l else Complete(l, f)
  }

  // ---- Byte-level receiver ----

  /** Store one unstuffed byte. */
  function Put(rx: Receiver, c: byte): Receiver
    requires rx.count > 0
  {
    var skb := rx.skb + [c];
    rx.(skb := skb, count := rx.count - 1, esc := false,
        crc := if HasCrc(skb) && rx.state != W4Crc then BcspCrc.Update(rx.crc, c) else rx.crc)
  }

  /** bcsp_unslip_one_byte. The escape flag survives a bad escape; the next packet start clears it. */
  function Unslip(rx: Receiver, c: byte): Receiver
    requires rx.count > 0
  {
    if !rx.esc then
      if c == Slip.ESC then rx.(esc := true) else Put(rx, c)
    else if c == Slip.ESC_DELIM then Put(rx, Slip.DELIM)
    else if c == Slip.ESC_ESC then Put(rx, Slip.ESC)
    else rx.(state := W4PktDelimiter, count := 0)
  }

  /** The shape of the receive buffer in each state; a header in the buffer has passed its checks. */
  ghost predicate RxOk(l: Link, rx: Receiver) {
    match rx.state
    case W4PktDelimiter => rx.count == 0
    case W4PktStart => rx.count == 0
    case W4BcspHdr => |rx.skb| + rx.count == 4
    case W4Data => HeaderOk(l, rx.skb) && |rx.skb| + rx.count == 4 + PayloadLen(rx.skb)
    case W4Crc => HeaderOk(l, rx.skb) && |rx.skb| + rx.count == 4 + PayloadLen(rx.skb) + 2
  }

  ghost predicate HeaderOk(l: Link, skb: seq<byte>) {
    && |skb| >= 4
    && ChecksumOk(skb)
    && (skb[0] >= 128 ==> skb[0] % 8 == l.rxseqTxack)
  }

  ghost predicate Valid(s: State) {
    QueuesOk(s.link) && RxOk(s.link, s.rx)
  }

  function Rank(rx: Receiver): nat {
    if rx.count > 0 then 0
    else match rx.state
      case W4PktDelimiter => 1
      case W4PktStart => 1
      case W4BcspHdr => 4
      case W4Data => 3
      case W4Crc => 2
  }

  /** The transitions of bcsp_recv that look at the state alone and consume no byte. */
  function Settle(s: State): (r: State)
    requires Valid(s) && s.rx.count == 0
    requires s.rx.state.W4BcspHdr? || s.rx.state.W4Data? || s.rx.state.W4Crc?
    ensures Valid(r) && Rank(r.rx) < Rank(s.rx)
  {
    var rx := s.rx;
    var rejected := s.(rx := rx.(state := W4PktDelimiter));
    match rx.state
    case W4BcspHdr =>
      if !ChecksumOk(rx.skb) || (rx.skb[0] >= 128 && rx.skb[0] % 8 != s.link.rxseqTxack) then rejected
      else s.(rx := rx.(state := W4Data, count := PayloadLen(rx.skb)))
    case W4Data =>
      if HasCrc(rx.skb) then s.(rx := rx.(state := W4Crc, count := 2))
      else Completed(s, rx.skb)
    case W4Crc =>
      var n := |rx.skb| - 2;
      if BcspCrc.Bitrev16(rx.crc) != BcspCrc.Be16(rx.skb[n], rx.skb[n + 1]) then rejected
      else Completed(s, rx.skb[..n])
  }

  function Completed(s: State, skb: seq<byte>): (r: State)
    requires Valid(s) && s.rx.count == 0 && |skb| >= 4
    ensures Valid(r) && r.rx.state == W4PktDelimiter && r.rx.count == 0
  {
    CompleteOk(s.link, FrameIn(skb));
    State(Complete(s.link, FrameIn(skb)), s.rx.(state := W4PktDelimiter, skb := []))
  }

  /** One received byte, with every receive buffer granted. */
  function Byte(s: State, c: byte): (r: State)
    requires Valid(s)
    ensures Valid(r)
    decreases Rank(s.rx)
  {
    if s.rx.count > 0 then
      if c == Slip.DELIM then s.(rx := s.rx.(state := W4PktStart, count := 0))
      else UnslipOk(s.link, s.rx, c); s.(rx := Unslip(s.rx, c))
    else match s.rx.state
      case W4PktDelimiter => if c == Slip.DELIM then s.(rx := s.rx.(state := W4PktStart)) else s
      case W4PktStart =>
        if c == Slip.DELIM then s
        else s.(rx := Unslip(Receiver(W4BcspHdr, 4, false, [], BcspCrc.CRC_INIT), c))
      case _ => Byte(Settle(s), c)
  }

  lemma UnslipOk(l: Link, rx: Receiver, c: byte)
    requires RxOk(l, rx) && rx.count > 0
    ensures RxOk(l, Unslip(rx, c))
  {
    hide BcspCrc.Update;
    PutOk(l, rx, c);
    PutOk(l, rx, Slip.DELIM);
    PutOk(l, rx, Slip.ESC);
  }

  lemma PutOk(l: Link, rx: Receiver, c: byte)
    requires RxOk(l, rx) && rx.count > 0
    ensures RxOk(l, Put(rx, c))
  {
    hide BcspCrc.Update;
    if |rx.skb| >= 4 {
      var skb := rx.skb + [c];
      assert skb[0] == rx.skb[0] && skb[1] == rx.skb[1] && skb[2] == rx.skb[2] && skb[3] == rx.skb[3];
    }
  }

  predicate NeedsBuffer(s: State, c: byte) {
    s.rx.count == 0 && s.rx.state == W4PktStart && c != Slip.DELIM
  }

  /** bcsp_recv. `grants` receive buffers can be allocated during the call; when one cannot, the rest of the
      bytes passed to this call is dropped. */
  function Recv(s: State, bytes: seq<byte>, grants: nat): (r: State)
    requires Valid(s)
    ensures Valid(r)
    decreases |bytes|
  {
    if bytes == [] then s
    else if NeedsBuffer(s, bytes[0]) then
      if grants == 0 then s.(rx := Receiver(W4PktDelimiter, 0, false, [], BcspCrc.CRC_INIT))
      else Recv(Byte(s, bytes[0]), bytes[1..], grants - 1)
    else Recv(Byte(s, bytes[0]), bytes[1..], grants)
  }
}
