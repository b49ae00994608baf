# Verified models of the driver backport's protocol, scheduler and buffer code

The repository installs a backport of Linux wireless and Bluetooth drivers. This project models the parts of it that
carry real algorithms and proves what they promise. `dafny verify dfyconfig.toml` checks everything.

Code that changes an object step by step is modelled twice. A specification on values (`Bcsp`, `H5`, `H5Stream`,
`FqCodel`, `FqCodelRuns`, `Ring`, the functions of `Hcill` and `Bfusb`) says what each operation does to the whole state.
A class with the source's fields, loops and in-place updates (`BcspDriver.BcspStruct`, `H5Driver.H5Struct`,
`FqCodelQdisc.Qdisc`, `Kfifo.Fifo`, `Hcill.LlStruct`, `Bfusb.BfusbData`, `I2cBit.Master`) is proved to compute it. The
theorems are then about the specification, over every run, every input or every interleaving.
`Octets`, `Bits`, `Arith`, `Sequences`, `Headers` and `Wire` hold what several of them share: packets, bytes as bits,
division, subsequences, the header bytes of both links, and a line read in pieces.

| component | files | main results |
|---|---|---|
| BCSP link | `GoBackN`, `Slip`, `BcspCrc`, `Bcsp`, `BcspFraming`, `BcspChunks`, `BcspLink`, `BcspStall`, `BcspRecovery`, `BcspFormat`, `BcspTraffic`, `BcspDriver` | two byte-level drivers over lossy lines, cut into calls anywhere, deliver a prefix of what was submitted; nothing is freed before it was handed up; frames survive the line from every receiver state; how a lost packet is made up for, and when a lost acknowledgement never is; the bytes on the wire and what a receiver takes, field by field |
| Three-wire (H5) link | `H5`, `H5Stream`, `H5Chunks`, `H5Link`, `H5Wire`, `H5Handshake`, `H5Order`, `H5Stall`, `H5Recovery`, `H5Format`, `H5Traffic`, `H5Driver` | the same from h5_open on, for runs in which no data packet reaches a link that is not up; that such runs exist, and that there are none without a loss; with the literal `u8` walk of the cull, whose misses are characterised exactly |
| sender queues of both | `SenderQueues` | conservation under arbitrary, even wrong, acknowledgements |
| FQ-CoDel | `FqCodel`, `FqCodelRuns`, `FqCodelFairness`, `FqCodelNewcomers`, `FqCodelQdisc` | termination, accounting in every reachable state, fairness of deficit round robin, new flows first without starving old ones |
| kfifo | `Ring`, `Kfifo`, `KfifoSpsc` | byte and record queues refined across buffer and index wrap; one producer and one consumer without a lock: nothing is lost, repeated or left undone |
| calendar | `TimeConv` | every second has exactly the date computed |
| I2C master | `I2cBit` | SDA is stable while SCL is high except at conditions; writes decode to their bytes; the answers are the slave's |
| BlueFRITZ USB | `Bfusb` | every frame read back, padded or not; when the loop leaves the transfer; buffer bound |
| integer parsing | `Kstrtox` | success exactly on numerals that fit, ERANGE exactly on those that do not |
| CRC-8 | `Crc8` | both table fills and the byte loop equal bitwise division, for every polynomial |
| HCILL | `Hcill` | order and losslessness over every run; waking up gets everything out |

How the link models work. `GoBackN` describes one direction by ghost counters that never wrap: packets culled, packets
accepted, the highest packet ever sent, and the true number of every frame and acknowledgement in flight. Its invariant
bounds these numbers against each other tightly enough that 3-bit sequence numbers identify them, and its lemmas show
that each thing that can happen keeps the invariant. `BcspLink` composes two directions and the framing round trip into
runs of two whole drivers exchanging bytes: `BcspChunks` reduces a call that is given any piece of the stream to the
frames that it hears. `H5Link` composes two directions on frames; `H5Chunks` does for
the Three-wire receiver what `BcspChunks` does for BCSP, and `H5Wire` shows that every run on bytes is a run on frames.

Where a promise is false of the code, the exact condition is proved instead:

- the cull of H5 misses an acknowledgement of 7 unless 7 is also the next number to send (`GoBackN.CullCountU8Exact`);
- the receiver of H5 falls through after resetting itself if and only if an acceptable data frame reaches a link that is
  not up (`H5Stream.FrameArrives`, `H5Chunks.ReadingEnds`), which happens when one message is lost
  (`H5Handshake.FaultHappens`) and never when nothing is (`H5Order.LosslessTransfer`);
- a packet whose acknowledgement is lost is never freed as long as neither side submits another, in both protocols
  (`LostAckSticks` and `LostAckHappens` of `BcspStall` and `H5Stall`); in BCSP one packet from the peer is enough
  (`BcspStall.OneWordFrees`);
- the parser of the BlueFRITZ driver hands up every frame of its own sender, but its loop leaves the transfer if and only
  if the frame was padded (`Bfusb.RoundTrip`), and 32 extra bytes are enough for frames of up to 2560 bytes and for no
  longer ones (`Bfusb.TransferFits`);
- a record comes out of a kfifo whole if and only if its length is below 2^8 or 2^16 (`Kfifo.Fifo.OutR`), and skipping a
  record leaves a valid fifo if and only if there was one (`Kfifo.Fifo.SkipR`).

The comment on `leaps_between` asks for y1 <= y2, but the year loop calls it both ways; the result is right for both
(`TimeConv.CorrectionExact`).

## Model

| member | source | states |
|---|---|---|
| `GoBackN.Enqueued` | compat-drivers-source/drivers/bluetooth/hci_bcsp.c:150-177 | a packet joining the reliable queue keeps the safety invariant of one direction of the link |
| `GoBackN.SentReliable` | compat-drivers-source/drivers/bluetooth/hci_bcsp.c:305-322 | sending the oldest unsent packet under the next number modulo 8 keeps the invariant while the window is not full |
| `GoBackN.SentUnreliable` | compat-drivers-source/drivers/bluetooth/hci_bcsp.c:285-303 | unreliable frames share the channel without disturbing the invariant |
| `GoBackN.SentAck` | compat-drivers-source/drivers/bluetooth/hci_bcsp.c:240-241 | every outgoing frame carries an acknowledgement of exactly what has been accepted so far |
| `GoBackN.LostData` | compat-drivers-source/drivers/bluetooth/hci_bcsp.c:668-687 | losing any one data frame in flight keeps the invariant |
| `GoBackN.LostAck` | compat-drivers-source/drivers/bluetooth/hci_bcsp.c:668-687 | losing any one acknowledgement in flight keeps the invariant |
| `GoBackN.AcceptedIsNext` | compat-drivers-source/drivers/bluetooth/hci_bcsp.c:585-594 | a reliable frame whose 3-bit number is the expected one is the very next packet, never an older or later one with the same residue |
| `GoBackN.Accepted` | compat-drivers-source/drivers/bluetooth/hci_bcsp.c:478-491 | accepting it advances the accepted count by one, with that packet's content, and keeps the invariant |
| `GoBackN.Culled` | compat-drivers-source/drivers/bluetooth/hci_bcsp.c:348-391 | whatever an arriving acknowledgement culls had already been accepted by the peer |
| `GoBackN.Rewound` | compat-drivers-source/drivers/bluetooth/hci_bcsp.c:668-687 | the timer's rewind of the sequence number and of the unacknowledged queue keeps the invariant |
| `GoBackN.CullCountSound` | compat-drivers-source/drivers/bluetooth/hci_bcsp.c:357-365 | what the backward walk decides to cull ends exactly at the acknowledged number |
| `GoBackN.CullCountHits` | compat-drivers-source/drivers/bluetooth/hci_bcsp.c:357-365 | an acknowledgement of any position in the window culls exactly the packets before it |
| `GoBackN.ConservedByQueueing` | compat-drivers-source/drivers/bluetooth/hci_bcsp.c:150-177 | queueing keeps culled, unacknowledged and waiting packets together equal to all packets queued |
| `GoBackN.ConservedBySending` | compat-drivers-source/drivers/bluetooth/hci_bcsp.c:305-322 | so does sending, which also advances the next number |
| `GoBackN.ConservedByCulling` | compat-drivers-source/drivers/bluetooth/hci_bcsp.c:348-391 | so does culling any number of unacknowledged packets, whatever the acknowledgement said |
| `GoBackN.ConservedByRewinding` | compat-drivers-source/drivers/bluetooth/hci_bcsp.c:668-687 | so does the timer, which puts the unacknowledged packets back in order and rewinds the next number |
| `GoBackN.U8WalkMissesSeven` | compat-drivers-source/drivers/bluetooth/hci_h5.c:229-241 | H5's u8 walk, which goes from 0 to 255 and then to 6, never stands on 7 once it is below |
| `GoBackN.U8WalkAgrees` | compat-drivers-source/drivers/bluetooth/hci_h5.c:229-241 | for every acknowledgement other than 7 it counts as BCSP's walk does |
| `GoBackN.CullCountU8Exact` | compat-drivers-source/drivers/bluetooth/hci_h5.c:229-241 | hence H5 culls what BCSP would cull, except that an acknowledgement of 7 is missed unless 7 is also the next number to send |
| `Slip.Stuff` | compat-drivers-source/drivers/bluetooth/hci_bcsp.c:126-148 | byte stuffing leaves no delimiter in the output and at most doubles the length |
| `Slip.StuffAppend` | compat-drivers-source/drivers/bluetooth/hci_bcsp.c:126-148 | stuffing a concatenation is stuffing its parts |
| `BcspCrc.TableCrcIsBitSerial` | compat-drivers-source/drivers/bluetooth/hci_bcsp.c:97-122 | for every message and starting register, two nibble lookups per byte are eight LSB-first division steps with 0x8408 |
| `BcspCrc.CrcAppend` | compat-drivers-source/drivers/bluetooth/hci_bcsp.c:114-122 | the CRC of a concatenation continues the CRC of its first part |
| `BcspCrc.Be16Exact` | compat-drivers-source/drivers/bluetooth/hci_bcsp.c:274-278 | the two CRC bytes that the sender appends read back as the same word, and no other two bytes do |
| `BcspCrc.EightBack` | compat-drivers-source/drivers/bluetooth/hci_bcsp.c:274-278 | eight bits divide the high byte of a register to zero, each taken from its most significant one, exactly when they are its low byte reversed, and then leave its high byte |
| `BcspCrc.DivisibleExact` | compat-drivers-source/drivers/bluetooth/hci_bcsp.c:97-122 | a message and two more bytes are a multiple of the polynomial, for a register started at 0xffff, exactly when these are the bytes that the sender appends |
| `Bcsp.Settle` | compat-drivers-source/drivers/bluetooth/hci_bcsp.c:575-621 | transitions of the receiver that consume no byte keep its validity and lower its rank, so the receive loop terminates |
| `Bcsp.Completed` | compat-drivers-source/drivers/bluetooth/hci_bcsp.c:600-621 | a completed packet leaves a valid receiver waiting for the delimiter |
| `Bcsp.CompleteOk` | compat-drivers-source/drivers/bluetooth/hci_bcsp.c:473-544 | completing any frame keeps the queues well formed |
| `BcspFraming.HeaderRoundTrip` | compat-drivers-source/drivers/bluetooth/hci_bcsp.c:240-255 | the receiver reads back every header field that the sender wrote, and the header checksum passes |
| `BcspFraming.FeedStuffed` | compat-drivers-source/drivers/bluetooth/hci_bcsp.c:424-471 | stuffed bytes are stored by the receiver as they were before stuffing |
| `BcspFraming.FeedTrailer` | compat-drivers-source/drivers/bluetooth/hci_bcsp.c:608-621 | the CRC bytes of the sender pass the receiver's check |
| `BcspFraming.FrameRoundTripFromStart` | compat-drivers-source/drivers/bluetooth/hci_bcsp.c:227-282 | from a packet start, the bytes of bcsp_prepare_pkt do to the link exactly what the frame means and leave the receiver at the next packet start |
| `BcspFraming.FrameRoundTrip` | compat-drivers-source/drivers/bluetooth/hci_bcsp.c:552-665 | the same from every valid receiver state, even in the middle of another packet; a reliable frame with the wrong number changes nothing |
| `BcspFraming.ChunkingIndependent` | compat-drivers-source/drivers/bluetooth/hci_bcsp.c:552-665 | receiving a and then b equals receiving a followed by b in one call, as long as receive buffers can be had |
| `BcspFraming.DelimiterResynchronises` | compat-drivers-source/drivers/bluetooth/hci_bcsp.c:552-665 | a delimiter leaves the receiver waiting for a packet start, from every state |
| `BcspFraming.BufferBounded` | compat-drivers-source/drivers/bluetooth/hci_bcsp.c:595-661 | in every reachable state, bytes stored plus bytes still expected are at most the 0x1005 bytes allocated |
| `BcspFraming.FrameNeedsOneBuffer` | compat-drivers-source/drivers/bluetooth/hci_bcsp.c:635-661 | one receive buffer is enough for one frame |
| `BcspFraming.FrameWithoutBuffer` | compat-drivers-source/drivers/bluetooth/hci_bcsp.c:641-661 | without memory for a receive buffer the frame is lost and nothing else changes |
| `BcspFraming.EncodedFits` | compat-drivers-source/drivers/bluetooth/hci_bcsp.c:227-238 | the stuffed frame fits the (len + 6) * 2 + 2 bytes allocated for it |
| `BcspFormat.FrameFields` | compat-drivers-source/drivers/bluetooth/hci_bcsp.c:179-255 | commands go to channel 5 and ACL data to 6 with a number, SCO data to 7, link establishment to 1 and bare acknowledgements to 0 without one |
| `BcspFormat.HeaderExact` | compat-drivers-source/drivers/bluetooth/hci_bcsp.c:240-255 | four bytes are the header of a frame exactly when its fields stand in their bits and the bytes add up to 255 modulo 256 |
| `BcspFormat.ContentDivides` | compat-drivers-source/drivers/bluetooth/hci_bcsp.c:257-278 | the last two bytes of every frame with a CRC make what stands in front of them divisible by the polynomial, and no other two would |
| `BcspFormat.HandsUpExactly` | compat-drivers-source/drivers/bluetooth/hci_bcsp.c:473-544 | a frame that is heard adds ACL data on channel 6, an event on channel 5 and SCO data on channel 7 to what the HCI layer gets, and nothing on any other; one out of sequence adds nothing |
| `BcspFormat.RequestAnswered` | compat-drivers-source/drivers/bluetooth/hci_bcsp.c:393-422 | the configuration message, unnumbered on channel 1, is answered in front of everything that waits, and nothing else is answered |
| `BcspFormat.SendsNext` | compat-drivers-source/drivers/bluetooth/hci_bcsp.c:285-339 | unreliable packets go first, then reliable ones while fewer than four are unacknowledged, then an acknowledgement that is due; the chosen packet leaves the head of its queue |
| `BcspFormat.StoredExactly` | compat-drivers-source/drivers/bluetooth/hci_bcsp.c:424-471 | for all bytes after a delimiter, what is stored of a packet is, once stuffed, exactly what has come: a byte that no stuffing produces ends the packet |
| `BcspFormat.HeaderJudged` | compat-drivers-source/drivers/bluetooth/hci_bcsp.c:575-593 | a header is accepted exactly when its bytes add up to 255 modulo 256 and a reliable one carries the number that is due, and then as many bytes are awaited as it says |
| `BcspFormat.PayloadJudged` | compat-drivers-source/drivers/bluetooth/hci_bcsp.c:595-606 | after the payload the packet is complete, or two bytes more are awaited if bit 6 of the first byte is set |
| `BcspFormat.RecvTracks` | compat-drivers-source/drivers/bluetooth/hci_bcsp.c:424-471 | after any bytes, in calls of any size and with any memory, the running CRC covers exactly what is stored of header and payload |
| `BcspFormat.AcceptsExactly` | compat-drivers-source/drivers/bluetooth/hci_bcsp.c:608-621 | hence a packet with a CRC is accepted exactly when it is divisible by the polynomial with its last two bytes |
| `BcspChunks.CrcCheckExact` | compat-drivers-source/drivers/bluetooth/hci_bcsp.c:608-621 | the receiver's CRC check passes for the two bytes that the sender would append and for no others |
| `BcspChunks.FrameQuiet` | compat-drivers-source/drivers/bluetooth/hci_bcsp.c:552-665 | nothing is handed on, and the queues are not touched, before the closing delimiter of a frame has arrived |
| `BcspChunks.ReadingSwap` | compat-drivers-source/drivers/bluetooth/hci_bcsp.c:552-665 | a half received frame is not affected by what the driver does with its queues in the meantime |
| `BcspChunks.ReadingEnds` | compat-drivers-source/drivers/bluetooth/hci_bcsp.c:552-665 | when its last byte arrives, a frame does to the driver as it is then exactly what the frame means |
| `BcspChunks.DryCall` | compat-drivers-source/drivers/bluetooth/hci_bcsp.c:641-661 | a call that finds no memory for a buffer drops everything from there on and changes nothing else |
| `BcspChunks.CallHears` | compat-drivers-source/drivers/bluetooth/hci_bcsp.c:552-665 | a call that is given any number of bytes of a stream of frames, starting and ending anywhere, hears some of the frames that end in it, in order, and loses the others, and the receiver is again in step with the rest of the stream |
| `BcspLink.WakeupSafe` | compat-drivers-source/drivers/bluetooth/hci_bcsp.c:285-339 | sending any number of frames keeps both directions of the two-endpoint invariant |
| `BcspLink.AcceptOne` | compat-drivers-source/drivers/bluetooth/hci_bcsp.c:478-491 | an accepted reliable frame is handed up and is the sender's next packet |
| `BcspLink.CullOne` | compat-drivers-source/drivers/bluetooth/hci_bcsp.c:348-391 | culling on its acknowledgement frees only packets that the peer has handed up |
| `BcspLink.CompleteSafe` | compat-drivers-source/drivers/bluetooth/hci_bcsp.c:473-544 | receiving a whole frame, with the acknowledgement and further frames it triggers, keeps both directions |
| `BcspLink.FatesSafe` | compat-drivers-source/drivers/bluetooth/hci_bcsp.c:473-544 | so does any succession of frames heard and frames lost |
| `BcspLink.ArriveSafe` | compat-drivers-source/drivers/bluetooth/hci_bcsp.c:552-665 | a call that takes any number of bytes from the line, with or without memory to receive them, keeps the invariant |
| `BcspLink.TimeoutSafe` | compat-drivers-source/drivers/bluetooth/hci_bcsp.c:668-687 | a timer firing at any moment keeps the invariant |
| `BcspLink.RunSafe` | compat-drivers-source/drivers/bluetooth/hci_bcsp.c:150-687 | every sequence of submissions, transmissions, calls with any number of bytes, losses and timeouts at either end keeps the invariant |
| `BcspLink.ReliableDelivery` | compat-drivers-source/drivers/bluetooth/hci_bcsp.c:240-248 | after every run of two drivers over order-keeping lines that lose frames and deliver bytes in chunks of any size, the reliable packets handed up at each end are a prefix of those submitted at the other |
| `BcspLink.CulledWasDelivered` | compat-drivers-source/drivers/bluetooth/hci_bcsp.c:348-391 | after every such run, at both ends, each packet already freed has been handed up by the peer, the rest are exactly the two queues in order, the next number is the count of both modulo 8, and at most four are unacknowledged |
| `BcspTraffic.QueuedExactly` | compat-drivers-source/drivers/bluetooth/hci_bcsp.c:150-177 | of the packets that fit a header, commands and ACL data join the reliable and SCO data the unreliable queue; all else is dropped |
| `BcspTraffic.HeardIsAcknowledged` | compat-drivers-source/drivers/bluetooth/hci_bcsp.c:478-491 | a reliable packet that is accepted is acknowledged at once, by the first frame that goes out, if the line takes one and memory is found |
| `BcspTraffic.InOrder` | compat-drivers-source/drivers/bluetooth/hci_bcsp.c:150-544 | after every run of two drivers, the SCO packets handed up at each end are an in-order subsequence of those submitted at the other, and the packets that each end ever queued for reliable transmission are exactly the commands and ACL packets submitted to it that fit a header |
| `BcspStall.LostAckSticks` | compat-drivers-source/drivers/bluetooth/hci_bcsp.c:585-594 | a packet that is received again is dropped without being acknowledged again: once every packet has been handed up, the line is empty and the peer has nothing to send, no run of timeouts, transmissions, arrivals and losses frees a packet or has the peer send anything |
| `BcspStall.RunNoRequests` | compat-drivers-source/drivers/bluetooth/hci_bcsp.c:492-543 | no run has one of these drivers send the link-establishment message that asks for an answer |
| `BcspStall.LostAckHappens` | compat-drivers-source/drivers/bluetooth/hci_bcsp.c:473-491 | such runs exist for every reliable packet: it is handed up, its acknowledgement is lost, and it stays unacknowledged |
| `BcspStall.CurrentAckFrees` | compat-drivers-source/drivers/bluetooth/hci_bcsp.c:348-391 | the number that the peer would acknowledge now frees exactly the packets handed up, once all of them have been sent again |
| `BcspStall.OneWordFrees` | compat-drivers-source/drivers/bluetooth/hci_bcsp.c:150-391 | and in a run it does: from a stalled state in which everything has been sent again, one packet of any kind that the peer submits and sends empties both queues when it arrives |
| `BcspRecovery.HearOne` | compat-drivers-source/drivers/bluetooth/hci_bcsp.c:552-665 | a data frame that arrives whole, at a receiver that has all packets before it, leaves the receiver with its packet too |
| `BcspRecovery.LossesAreMadeUpFor` | compat-drivers-source/drivers/bluetooth/hci_bcsp.c:285-687 | after every run, whatever was lost in it, once the line is empty and nothing more urgent waits, the timer, one wake-up and the arrival of what is sent have the oldest packets that the sender still holds, as many as its window takes, handed up at the other end |
| `SenderQueues.BcspSenderConserves` | compat-drivers-source/drivers/bluetooth/hci_bcsp.c:150-391 | for any mix of submissions, transmissions, timeouts and arbitrary frames, culled, unacknowledged and waiting packets are the reliable packets submitted, in order, with the next number (culled + unacknowledged) modulo 8 and at most four unacknowledged |
| `SenderQueues.BcspOpenedConserved` | compat-drivers-source/drivers/bluetooth/hci_bcsp.c:689-714 | the freshly opened driver is in such a state |
| `BcspDriver.BcspStruct.constructor` | compat-drivers-source/drivers/bluetooth/hci_bcsp.c:689-714 | a new driver is the opened state of the specification |
| `BcspDriver.BcspStruct.Submit` | compat-drivers-source/drivers/bluetooth/hci_bcsp.c:150-177 | commands and ACL data join the reliable queue and SCO data the unreliable one; a packet of another type or too long is dropped |
| `BcspDriver.BcspStruct.PreparePkt` | compat-drivers-source/drivers/bluetooth/hci_bcsp.c:179-282 | the buffer returned is the encoding of the frame for this packet, and only the number and the pending acknowledgement change |
| `BcspDriver.BcspStruct.Build` | compat-drivers-source/drivers/bluetooth/hci_bcsp.c:227-282 | the bytes written one at a time are the stuffed header, payload and CRC between delimiters |
| `BcspDriver.BcspStruct.StuffOut` | compat-drivers-source/drivers/bluetooth/hci_bcsp.c:126-148 | the byte loop appends the stuffed bytes and updates the running CRC with the unstuffed ones |
| `BcspDriver.BcspStruct.Dequeue` | compat-drivers-source/drivers/bluetooth/hci_bcsp.c:285-339 | the packet chosen, its encoding and the new queues are those of the specification, with failed allocations |
| `BcspDriver.BcspStruct.PktCull` | compat-drivers-source/drivers/bluetooth/hci_bcsp.c:348-391 | the counting loop and the unlinking loop together remove exactly the packets of the cull count from the front |
| `BcspDriver.BcspStruct.TimedEvent` | compat-drivers-source/drivers/bluetooth/hci_bcsp.c:668-687 | the loop from the tail puts all unacknowledged packets in front of the waiting ones, in order, and rewinds the number by their count |
| `BcspDriver.BcspStruct.UnslipOneByte` | compat-drivers-source/drivers/bluetooth/hci_bcsp.c:424-471 | one received byte is unescaped, stored and added to the CRC as the specification says, and a bad escape abandons the packet |
| `BcspDriver.BcspStruct.CompleteRxPkt` | compat-drivers-source/drivers/bluetooth/hci_bcsp.c:473-544 | accept, acknowledge, cull and hand up, in that order |
| `BcspDriver.BcspStruct.HandUp` | compat-drivers-source/drivers/bluetooth/hci_bcsp.c:492-543 | the channel decides who gets the packet, and link-establishment messages answer with a response |
| `BcspDriver.BcspStruct.Transition` | compat-drivers-source/drivers/bluetooth/hci_bcsp.c:575-621 | a turn of the receive loop that consumes no byte is one settling step |
| `BcspDriver.BcspStruct.Receive` | compat-drivers-source/drivers/bluetooth/hci_bcsp.c:552-665 | the receive loop computes the byte-by-byte specification for every input and every supply of buffers, and terminates |
| `BcspDriver.BcspStruct.TxWakeup` | compat-drivers-source/drivers/bluetooth/hci_ldisc.c:119-157 | the sending loop writes frame after frame until the queues are empty or the line is full |
| `H5Driver.H5Struct.TxWakeup` | compat-drivers-source/drivers/bluetooth/hci_ldisc.c:119-157 | the same loop over the Three-wire driver |
| `H5Stream.HeaderRoundTrip` | compat-drivers-source/drivers/bluetooth/hci_h5.c:627-639 | the receiver reads back every header field that the sender wrote, and the header checksum passes |
| `H5Stream.Settle` | compat-drivers-source/drivers/bluetooth/hci_h5.c:356-447 | handlers that consume no byte keep the receiver valid and lower its rank, so the receive loop terminates |
| `H5Stream.FrameRoundTrip` | compat-drivers-source/drivers/bluetooth/hci_h5.c:492-525 | from every receiver state the encoded frame does to the link exactly what it means and leaves the receiver at a packet start, unless the link is not up, the frame is not for link control and is not refused, and exactly then it faults |
| `H5Stream.ChunkingIndependent` | compat-drivers-source/drivers/bluetooth/hci_h5.c:492-525 | receiving a and then b equals receiving a followed by b in one call, as long as receive buffers can be had |
| `H5Stream.DelimiterResynchronises` | compat-drivers-source/drivers/bluetooth/hci_h5.c:449-525 | a delimiter leaves the receiver waiting for a packet start from every state, unless the header of an acceptable data packet has just been completed on a link that is not up, and exactly then |
| `H5Stream.BufferBounded` | compat-drivers-source/drivers/bluetooth/hci_h5.c:417-437 | bytes stored plus bytes still expected never exceed the receive buffer |
| `H5Stream.EncodedFits` | compat-drivers-source/drivers/bluetooth/hci_h5.c:613-620 | the stuffed frame fits the (len + 6) * 2 + 2 bytes allocated for it |
| `H5Format.FrameFields` | compat-drivers-source/drivers/bluetooth/hci_h5.c:600-655 | the type in the header is the type of the packet; commands and ACL data carry a number, all else does not |
| `H5Format.HeaderExact` | compat-drivers-source/drivers/bluetooth/hci_h5.c:627-639 | four bytes are the header of a frame exactly when its fields stand in their bits and the bytes add up to 255 modulo 256 |
| `H5Format.FirstFrame` | compat-drivers-source/drivers/bluetooth/hci_h5.c:171-203 | the first frame of an opened driver is c0 00 2f 00 d0 01 7e c0 |
| `H5Format.HandsUpExactly` | compat-drivers-source/drivers/bluetooth/hci_h5.c:334-346 | a frame that is heard adds itself to what the HCI layer gets if it is an event, ACL data or SCO data, and nothing otherwise; one out of sequence adds nothing |
| `H5Format.StoredExactly` | compat-drivers-source/drivers/bluetooth/hci_h5.c:449-478 | for all bytes after a delimiter, what is stored of a packet is, once stuffed, exactly what has come: a byte that no stuffing produces ends the packet |
| `H5Format.HeaderJudged` | compat-drivers-source/drivers/bluetooth/hci_h5.c:381-415 | a header is accepted exactly when its bytes add up to 255 modulo 256 and a reliable one carries the number that is due; if the link is up or the packet is for link control as many bytes are awaited as it says, and otherwise the receiver falls through |
| `H5Format.PayloadJudged` | compat-drivers-source/drivers/bluetooth/hci_h5.c:356-379 | after the payload the packet is complete, two bytes later if bit 6 of the first byte is set |
| `H5Format.SendsNext` | compat-drivers-source/drivers/bluetooth/hci_h5.c:657-714 | with the peer awake, unreliable packets go first, then reliable ones while fewer than the window are unacknowledged, then an acknowledgement that is due; the chosen packet leaves the head of its queue |
| `H5Format.HeardIsAcknowledged` | compat-drivers-source/drivers/bluetooth/hci_h5.c:319-329 | a reliable packet that is accepted is acknowledged at once, by the first frame that goes out, if the line takes one and memory is found |
| `H5Format.HandshakeMessages` | compat-drivers-source/drivers/bluetooth/hci_h5.c:262-300 | 01 7e is answered with 02 7d; 02 7d initialises the link and asks 03 fc; 03 fc is answered with 04 7b and asked back; 04 7b brings the link up, with the window in its third byte if there is one |
| `H5Format.SleepMessages` | compat-drivers-source/drivers/bluetooth/hci_h5.c:300-312 | 07 78 puts the peer to sleep, 06 f9 and 05 fa wake it, and 05 fa is answered with 06 f9 |
| `H5Format.AsleepAsksOnly` | compat-drivers-source/drivers/bluetooth/hci_h5.c:657-680 | a driver whose peer sleeps sends nothing but one request to wake up until it hears an answer, and the timer makes it ask again |
| `H5Format.TimerAsks` | compat-drivers-source/drivers/bluetooth/hci_h5.c:127-151 | until the link is up the timer asks again for what the handshake lacks |
| `H5Link.CullOne` | compat-drivers-source/drivers/bluetooth/hci_h5.c:220-260 | H5's cull, with its 0-to-255 step, frees only packets that the peer has accepted |
| `H5Link.CompleteSafe` | compat-drivers-source/drivers/bluetooth/hci_h5.c:319-354 | receiving a frame of any kind in any state of the link, with everything it triggers, keeps both directions of the two-endpoint invariant |
| `H5Link.TimeoutSafe` | compat-drivers-source/drivers/bluetooth/hci_h5.c:127-169 | so does the timer |
| `H5Link.StepSafe` | compat-drivers-source/drivers/bluetooth/hci_h5.c:127-714 | so does every submission, transmission, arrival with or without memory, loss and timeout at either end, from the first synchronisation on |
| `H5Link.RunSafe` | compat-drivers-source/drivers/bluetooth/hci_h5.c:127-714 | and so does every run of them |
| `H5Stream.FrameArrives` | compat-drivers-source/drivers/bluetooth/hci_h5.c:417-525 | the bytes of a frame at a receiver between packets are lost without memory for a buffer; otherwise they fault exactly for an acceptable data frame on a link that is not up, and in all other cases do to the link exactly what the frame means |
| `H5Chunks.FrameQuiet` | compat-drivers-source/drivers/bluetooth/hci_h5.c:356-478 | nothing is handed on before the closing delimiter of a frame has arrived |
| `H5Chunks.ReadingSwap` | compat-drivers-source/drivers/bluetooth/hci_h5.c:356-525 | a half received frame is not affected by what the driver does with its queues in the meantime |
| `H5Chunks.ReadingEnds` | compat-drivers-source/drivers/bluetooth/hci_h5.c:356-525 | when its last byte arrives, a frame does to the driver as it is then exactly what the frame means, or faults exactly if it is acceptable data on a link that is not up |
| `H5Chunks.DryCall` | compat-drivers-source/drivers/bluetooth/hci_h5.c:417-437 | a call that finds no memory for a buffer drops everything from there on and changes nothing else |
| `H5Chunks.CallHears` | compat-drivers-source/drivers/bluetooth/hci_h5.c:492-525 | a call that is given any number of bytes of a stream of frames, starting and ending anywhere, hears some of the frames that end in it, in order, and loses the others, none of them when there is a buffer for every byte; none of the frames heard faults, and the receiver is again in step with the stream or has faulted at the next frame, which is one that does |
| `H5Wire.FatesRun` | compat-drivers-source/drivers/bluetooth/hci_h5.c:492-525 | frames that end in one call do to the driver, and to what it writes, what they do when they arrive one after the other |
| `H5Wire.ActFollows` | compat-drivers-source/drivers/bluetooth/hci_h5.c:492-714 | an operation on byte streams, with h5_recv given any number of bytes, does what some operations on frames do; a receiver faults in it only at a frame of data on a link that is not up, and no such frame is heard otherwise |
| `H5Wire.RunFollows` | compat-drivers-source/drivers/bluetooth/hci_h5.c:127-714 | every run on bytes is a run on frames in which no frame that faults is heard, up to the first such frame if a receiver faults at all; without losses it is a run without losses |
| `H5Wire.ReliableTransfer` | compat-drivers-source/drivers/bluetooth/hci_h5.c:220-354 | after every run of two drivers from h5_open over lossy order-keeping lines that deliver bytes in chunks of any size, unless a data packet has reached an end that was not up, the reliable packets accepted at each end are a prefix of those queued at the other, the ACL packets handed to the HCI layer are a prefix of the ACL packets queued, every packet freed has been accepted, and the two queues hold the rest in order under the right numbers |
| `H5Traffic.QueuedExactly` | compat-drivers-source/drivers/bluetooth/hci_h5.c:527-560 | on a link that is up, of the packets that fit a header, commands and ACL data join the reliable and SCO data the unreliable queue; all else is dropped |
| `H5Traffic.InOrder` | compat-drivers-source/drivers/bluetooth/hci_h5.c:319-560 | after every such run, the SCO packets handed up at each end are an in-order subsequence of those submitted at the other, and the packets that each end ever queued for reliable transmission are an in-order subsequence of the commands and ACL packets submitted to it |
| `H5Wire.FaultStays` | compat-drivers-source/drivers/bluetooth/hci_h5.c:405-412 | a fault is never forgotten, so a run without one at its end had none on the way |
| `H5Wire.EstablishedStays` | compat-drivers-source/drivers/bluetooth/hci_h5.c:262-317 | once both links are up and no synchronisation message is queued or on the line, whatever else is, no run makes a receiver fault or takes a link down |
| `H5Handshake.HandshakeCompletes` | compat-drivers-source/drivers/bluetooth/hci_h5.c:262-317 | on lines that lose nothing two drivers reach that state from h5_open, with a configuration request on its way in each direction |
| `H5Handshake.FaultHappens` | compat-drivers-source/drivers/bluetooth/hci_h5.c:405-412 | for every reliable packet some run from h5_open makes a receiver fall through: one request for synchronisation is lost, one end comes up all the same, and the packet arrives at the other |
| `H5Order.WakeupOrdered` | compat-drivers-source/drivers/bluetooth/hci_h5.c:657-714 | what is sent keeps the order of the handshake on the line: data goes out only behind the answer that brings the other end up |
| `H5Order.InternalOrdered` | compat-drivers-source/drivers/bluetooth/hci_h5.c:262-317 | every link-control message that arrives in order leaves its receiver one message ahead of what it has heard |
| `H5Order.LosslessTransfer` | compat-drivers-source/drivers/bluetooth/hci_h5.c:127-714 | with nothing lost and memory always found, no run from h5_open makes a receiver fall through, whenever the timers fire and however the bytes are cut into calls, so reliable transfer holds without exception |
| `H5Stall.LostAckSticks` | compat-drivers-source/drivers/bluetooth/hci_h5.c:399-403 | a packet that is received again is dropped without being acknowledged again: once both links are up, every packet has been accepted, the line is empty, the peer has nothing to send and no link-control message waits, no run of timeouts, transmissions, arrivals and losses frees a packet |
| `H5Stall.LostAckHappens` | compat-drivers-source/drivers/bluetooth/hci_h5.c:319-354 | such runs from h5_open exist for every reliable packet: it is accepted, its acknowledgement is lost, and it stays unacknowledged |
| `H5Recovery.HearOne` | compat-drivers-source/drivers/bluetooth/hci_h5.c:492-525 | a data frame that arrives whole, at a receiver that is up and has all packets before it, leaves the receiver with its packet too |
| `H5Recovery.LossesAreMadeUpFor` | compat-drivers-source/drivers/bluetooth/hci_h5.c:127-714 | after every run from h5_open without a fall-through, whatever was lost in it, once both links are up, the line is empty and nothing more urgent waits, the timer, one wake-up and the arrival of what is sent have the oldest packets that the sender still holds, as many as its window takes, accepted at the other end |
| `H5Recovery.CurrentAckFrees` | compat-drivers-source/drivers/bluetooth/hci_h5.c:220-260 | the number that the peer would acknowledge now frees exactly the packets accepted, once all of them have been sent again, or nothing if it is a 7 that the u8 walk misses |
| `SenderQueues.H5SenderConserves` | compat-drivers-source/drivers/bluetooth/hci_h5.c:127-260 | sender-queue conservation for H5 under arbitrary frames, link establishment, sleep and window changes, with at most seven packets unacknowledged |
| `SenderQueues.H5OpenedConserved` | compat-drivers-source/drivers/bluetooth/hci_h5.c:171-203 | the freshly opened driver is in such a state |
| `H5Driver.H5Struct.constructor` | compat-drivers-source/drivers/bluetooth/hci_h5.c:171-203 | a new driver has a synchronisation request queued, otherwise empty queues, window 4, an uninitialised link and a reset receiver |
| `H5Driver.H5Struct.PktCull` | compat-drivers-source/drivers/bluetooth/hci_h5.c:220-260 | counting with a u8 and unlinking from the front removes exactly the packets of the u8 walk |
| `H5Driver.H5Struct.TimedEvent` | compat-drivers-source/drivers/bluetooth/hci_h5.c:127-169 | an unfinished handshake sends its next request; otherwise the unacknowledged packets go back in order and the number is rewound |
| `H5Driver.H5Struct.Rewind` | compat-drivers-source/drivers/bluetooth/hci_h5.c:160-163 | the loop from the tail empties the unacknowledged queue in front of the waiting one and rewinds the number by its length modulo 8 |
| `H5Driver.H5Struct.HandleInternalRx` | compat-drivers-source/drivers/bluetooth/hci_h5.c:262-317 | link-control messages move the link state, the sleep state and the window, and queue the right answers; the length tested is that of the header |
| `H5Driver.H5Struct.Submit` | compat-drivers-source/drivers/bluetooth/hci_h5.c:527-560 | packets join the reliable or the unreliable queue by type; a packet too long, or on a link that is not up, is dropped |
| `H5Driver.H5Struct.PreparePkt` | compat-drivers-source/drivers/bluetooth/hci_h5.c:600-655 | the buffer returned is the encoding of the frame for this packet, and only the number and the pending acknowledgement change |
| `H5Driver.H5Struct.Build` | compat-drivers-source/drivers/bluetooth/hci_h5.c:600-655 | the bytes written one at a time are the stuffed header and payload between delimiters |
| `H5Driver.H5Struct.Dequeue` | compat-drivers-source/drivers/bluetooth/hci_h5.c:657-714 | the packet chosen, its encoding and the new queues are those of the specification, with the sleep state and failed allocations |
| `H5Driver.H5Struct.CompleteRxPkt` | compat-drivers-source/drivers/bluetooth/hci_h5.c:319-354 | accept, acknowledge, cull and deliver, in that order |
| `H5Driver.H5Struct.UnslipOneByte` | compat-drivers-source/drivers/bluetooth/hci_h5.c:449-478 | one received byte is unescaped and stored, and a bad escape resets the receiver |
| `H5Driver.H5Struct.Transition` | compat-drivers-source/drivers/bluetooth/hci_h5.c:356-447 | a handler that consumes no byte is one settling step |
| `H5Driver.H5Struct.Receive` | compat-drivers-source/drivers/bluetooth/hci_h5.c:492-525 | the receive loop computes the byte-by-byte specification for every input and every supply of buffers, and terminates |
| `FqCodel.Scan` | compat-drivers-source/compat/sch_fq_codel_core.c:155-160 | the scan finds the largest backlog and the first flow that has it |
| `FqCodel.FattestFlow` | compat-drivers-source/compat/sch_fq_codel_core.c:143-171 | the flow that loses a packet has one, and no flow has more bytes queued |
| `FqCodel.Codel` | compat-drivers-source/compat/sch_fq_codel_core.c:225-264 | any number of codel drops on one flow keeps every account right and touches no other flow |
| `FqCodel.CodelEmpties` | compat-drivers-source/compat/sch_fq_codel_core.c:225-238 | codel returns nothing only when it has emptied the flow, and otherwise delivers the packet right after the dropped ones |
| `FqCodel.Enqueue` | compat-drivers-source/compat/sch_fq_codel_core.c:173-219 | every arrival, with the drop it may cause, keeps the accounting invariant |
| `FqCodel.PassValid` | compat-drivers-source/compat/sch_fq_codel_core.c:240-290 | so does every pass of the dequeue loop |
| `FqCodelRuns.PassDecreases` | compat-drivers-source/compat/sch_fq_codel_core.c:240-290 | a pass that delivers nothing lowers the measure: packets queued plus, per listed flow, refills it still needs, one, and one more if it is new |
| `FqCodelRuns.Dequeue` | compat-drivers-source/compat/sch_fq_codel_core.c:240-290 | hence the loop terminates for every drop pattern, with a packet or with both lists empty |
| `FqCodelRuns.NothingMeansEmpty` | compat-drivers-source/compat/sch_fq_codel_core.c:248-254 | NULL is returned only when no packet is left in any flow |
| `FqCodelRuns.DequeueQlen` | compat-drivers-source/compat/sch_fq_codel_core.c:240-290 | dequeueing never adds packets, and a delivery takes at least one |
| `FqCodelRuns.DeliversWhenBacklogged` | compat-drivers-source/compat/sch_fq_codel_core.c:240-290 | when codel drops nothing, a packet is delivered exactly when one is queued |
| `FqCodelRuns.Shrink` | compat-drivers-source/compat/sch_fq_codel_core.c:356-367 | the loop of fq_codel_change terminates with at most `limit` packets |
| `FqCodelRuns.ShrinkStopsAtLimit` | compat-drivers-source/compat/sch_fq_codel_core.c:356-367 | without drops by codel it takes out no packet more than the limit asks for |
| `FqCodelRuns.ChangeTakesEffect` | compat-drivers-source/compat/sch_fq_codel_core.c:341-368 | a new configuration takes effect at once: the limit as asked for, a quantum of at least 256, and no more packets than the limit |
| `FqCodelRuns.Purge` | compat-drivers-source/compat/sch_fq_codel_core.c:292-298 | fq_codel_reset terminates with no packet queued and no flow listed |
| `FqCodelRuns.EnqueueWithinLimit` | compat-drivers-source/compat/sch_fq_codel_core.c:173-219 | an arrival leaves at most `limit` packets queued |
| `FqCodelRuns.ApplyConsistent` | compat-drivers-source/compat/sch_fq_codel_core.c:173-367 | every operation keeps accounting and limit |
| `FqCodelRuns.Accounting` | compat-drivers-source/compat/sch_fq_codel_core.c:122-367 | in every reachable state backlogs are the byte sums of the queues, qlen is the packet count and within the limit, a flow with packets is on exactly one list, and what a flow delivered is an in-order subsequence of what arrived for it |
| `FqCodelRuns.CountersFit` | compat-drivers-source/compat/sch_fq_codel_core.c:192-207 | the 32-bit byte counters hold their sums whenever qlen times the largest packet is below 2^32 |
| `FqCodelFairness.StepDeficit` | compat-drivers-source/compat/sch_fq_codel_core.c:240-290 | a step changes the deficit of an old flow by a quantum if it is refilled and by the packet length if it is served |
| `FqCodelFairness.ServedIsRefilled` | compat-drivers-source/compat/sch_fq_codel_core.c:240-290 | bytes served to a flow that stays on old_flows are its starting deficit plus quantum times refills minus its deficit now |
| `FqCodelFairness.RefillsAlternate` | compat-drivers-source/compat/sch_fq_codel_core.c:257-261 | of two flows that stay on old_flows, the one ahead gets at most one refill more and never one less |
| `FqCodelFairness.Fairness` | compat-drivers-source/compat/sch_fq_codel_core.c:240-290 | hence their refills differ by at most one and their bytes served by less than 3 * quantum + 2 * maxlen, over every interleaving of arrivals, drops and passes |
| `FqCodelFairness.DequeueIsPasses` | compat-drivers-source/compat/sch_fq_codel_core.c:240-290 | a call of fq_codel_dequeue is a run of such passes that ends in the same state and serves the same packet |
| `FqCodelFairness.FairCalls` | compat-drivers-source/compat/sch_fq_codel_core.c:173-290 | so in every run of fq_codel_enqueue and fq_codel_dequeue during which two flows stay on old_flows, the bytes delivered from them differ by less than 3 * quantum + 2 * maxlen |
| `FqCodelFairness.InitialFine` | compat-drivers-source/compat/sch_fq_codel_core.c:405-455 | the state after initialisation meets the assumptions of the fairness results |
| `FqCodelNewcomers.ArrivalLists` | compat-drivers-source/compat/sch_fq_codel_core.c:192-201 | a flow that was on no list becomes the last of the new ones with a full quantum to spend, and no other list, place or deficit changes |
| `FqCodelNewcomers.ArrivalBelowLimit` | compat-drivers-source/compat/sch_fq_codel_core.c:189-209 | below the limit the packet joins the tail of its flow, no other queue changes, and the verdict is success |
| `FqCodelNewcomers.ArrivalAtLimit` | compat-drivers-source/compat/sch_fq_codel_core.c:203-219 | at the limit, besides, the first flow with the most bytes, the new packet counted, loses its oldest packet, and the verdict is congestion exactly if it is the flow of the new packet |
| `FqCodelNewcomers.PassIsAbout` | compat-drivers-source/compat/sch_fq_codel_core.c:248-290 | a pass is about the first new flow, or the first old one if there is no new one, so no old flow is served while a new one is listed; it refills a flow that has nothing left, and serves the packet behind those dropped |
| `FqCodelNewcomers.NewcomerFirst` | compat-drivers-source/compat/sch_fq_codel_core.c:189-290 | a packet of an idle flow that arrives when no flow is new is returned by the next fq_codel_dequeue, in front of all old flows |
| `FqCodelNewcomers.NewcomerSpendsQuantum` | compat-drivers-source/compat/sch_fq_codel_core.c:195-261 | in every run from the arrival that made it new on, a flow is refilled, and so put behind the old ones, only after a quantum of bytes has been served to it |
| `FqCodelNewcomers.EmptiedNewcomerWaits` | compat-drivers-source/compat/sch_fq_codel_core.c:272-279 | no starvation: a new flow that runs empty while an old flow is listed goes behind it and cannot be new again, whatever arrives, until a pass has been about that old flow |
| `FqCodelQdisc.Qdisc.constructor` | compat-drivers-source/compat/sch_fq_codel_core.c:405-455 | initialisation gives empty, unlisted flows and zero backlogs |
| `FqCodelQdisc.Qdisc.FindFattest` | compat-drivers-source/compat/sch_fq_codel_core.c:155-161 | the scan over the backlogs array finds the fattest flow |
| `FqCodelQdisc.Qdisc.Unqueue` | compat-drivers-source/compat/sch_fq_codel_core.c:122-130 | the head leaves its queue, no other flow changes |
| `FqCodelQdisc.Qdisc.TakeHead` | compat-drivers-source/compat/sch_fq_codel_core.c:225-238 | taking the head updates queue, backlog entry, totals and nothing else |
| `FqCodelQdisc.Qdisc.DropFattest` | compat-drivers-source/compat/sch_fq_codel_core.c:143-171 | one packet is taken from the head of the fattest flow, whose index is returned |
| `FqCodelQdisc.Qdisc.EnqueueSkb` | compat-drivers-source/compat/sch_fq_codel_core.c:173-219 | the new scheduler state and the verdict (queued, classifier drop, or congestion of this flow) are those of the specification |
| `FqCodelQdisc.Qdisc.CodelDequeue` | compat-drivers-source/compat/sch_fq_codel_core.c:225-238 | the callback loop drops packets and returns the one let through |
| `FqCodelQdisc.Qdisc.BeginPass` | compat-drivers-source/compat/sch_fq_codel_core.c:248-290 | one pass from the label `begin`: refill and rotate, serve, or move or unlist an emptied flow |
| `FqCodelQdisc.Qdisc.DequeueSkb` | compat-drivers-source/compat/sch_fq_codel_core.c:240-290 | the whole loop returns the packet of the specification and leaves its state |
| `FqCodelQdisc.Qdisc.ShrinkToLimit` | compat-drivers-source/compat/sch_fq_codel_core.c:356-367 | dequeue and free until the limit is met |
| `FqCodelQdisc.Qdisc.ResetQueues` | compat-drivers-source/compat/sch_fq_codel_core.c:292-298 | dequeue and free until nothing comes; nothing is left |
| `Ring.RoundDown` | compat-drivers-source/compat/kfifo.c:38-48 | the size is rounded down to the largest power of two not above it |
| `Ring.IndexAdvances` | compat-drivers-source/compat/kfifo.c:104-140 | a free-running index that advances modulo 2^32 moves through a ring of power-of-two size without a jump |
| `Ring.OtherSizesJump` | compat-drivers-source/compat/kfifo.c:38-48 | for every size up to 2^32 that is not a power of two, the last index before the wrap jumps |
| `Ring.SizesThatWork` | compat-drivers-source/compat/kfifo.c:38-48 | free-running 32-bit indices move through a ring without a jump if and only if its size is a power of two |
| `Ring.ReadAfterWrite` | compat-drivers-source/compat/kfifo.c:104-140 | what is written behind the contents of the ring is appended to them, wherever it wraps |
| `Ring.WriteTwice` | compat-drivers-source/compat/kfifo.c:435-463 | two writes one behind the other are one write |
| `Ring.ReadSkip` | compat-drivers-source/compat/kfifo.c:181-187 | skipping from the front of the ring drops a prefix of the contents |
| `Kfifo.Fifo.constructor` | compat-drivers-source/compat/kfifo.c:38-67 | a new fifo is empty, its size rounded down |
| `Kfifo.Fifo.Alloc` | compat-drivers-source/compat/kfifo.c:38-67 | allocation succeeds exactly for at least two elements and available memory |
| `Kfifo.Fifo.Unused` | compat-drivers-source/compat/kfifo.c:33-36 | free room is the size minus the elements held, across index wrap |
| `Kfifo.Fifo.CopyIn` | compat-drivers-source/compat/kfifo.c:104-126 | two block copies write the bytes at the masked offset round the end of the buffer |
| `Kfifo.Fifo.CopyOut` | compat-drivers-source/compat/kfifo.c:143-165 | two block copies read them back |
| `Kfifo.Fifo.In` | compat-drivers-source/compat/kfifo.c:128-140 | as many elements as fit are appended to the contents and the number is returned |
| `Kfifo.Fifo.OutPeek` | compat-drivers-source/compat/kfifo.c:167-178 | the oldest elements, up to the number asked for, with nothing removed |
| `Kfifo.Fifo.Out` | compat-drivers-source/compat/kfifo.c:181-187 | the same, removed from the front of the contents |
| `Kfifo.Fifo.PokeN` | compat-drivers-source/compat/kfifo.c:435-444 | the length prefix is written at the input position, its second byte round the end if need be |
| `Kfifo.Fifo.PeekN` | compat-drivers-source/compat/kfifo.c:412-424 | the length prefix of the oldest record is read back; without a record, some length within the range of the prefix |
| `Kfifo.Fifo.InR` | compat-drivers-source/compat/kfifo.c:452-463 | all or nothing: the record joins the queue of records exactly when it fits with its prefix |
| `Kfifo.Fifo.OutCopyR` | compat-drivers-source/compat/kfifo.c:466-476 | the beginning of the oldest record, up to its length as far as the prefix could hold it |
| `Kfifo.Fifo.OutR` | compat-drivers-source/compat/kfifo.c:490-501 | a prefix of the oldest record is returned; the whole record is removed if and only if its prefix could hold its length, and otherwise what the prefix did not account for stays in front of the next record |
| `Kfifo.Fifo.SkipR` | compat-drivers-source/compat/kfifo.c:504-510 | the same is removed; the fifo is valid afterwards if and only if it held a record, because on an empty one the output index overtakes the input index |
| `Kfifo.PrefixRoundTrip` | compat-drivers-source/compat/kfifo.c:397-444 | a length survives its prefix exactly when it is within the range of one or two bytes |
| `Kfifo.FirstRecord` | compat-drivers-source/compat/kfifo.c:466-501 | in front of the contents stands the length of the first record modulo the range of the prefix, and the record follows it |
| `KfifoSpsc.CopyInKeeps` | compat-drivers-source/compat/kfifo.c:104-126 | a producer that copies while the consumer runs overwrites nothing the consumer may still read |
| `KfifoSpsc.PublishInKeeps` | compat-drivers-source/compat/kfifo.c:128-140 | publishing the input index adds the copied block to what is stored |
| `KfifoSpsc.CopyOutKeeps` | compat-drivers-source/compat/kfifo.c:143-165 | a consumer that copies while the producer runs reads the elements it is due |
| `KfifoSpsc.PublishOutKeeps` | compat-drivers-source/compat/kfifo.c:181-187 | publishing the output index gives up only cells already copied |
| `KfifoSpsc.OutputIsPrefix` | compat-drivers-source/compat/kfifo.c:104-187 | for every interleaving of one producer and one consumer, and any number of index wraps, the elements taken out are a prefix of the elements put in |
| `KfifoSpsc.PutCompletes` | compat-drivers-source/compat/kfifo.c:128-140 | a producer that has begun, copied and published has added as many elements as there was room for when it began, whatever the consumer did meanwhile |
| `KfifoSpsc.GetCompletes` | compat-drivers-source/compat/kfifo.c:181-187 | a consumer that has begun, copied and published has taken as many of the oldest elements as it asked for or as there were when it began, whatever the producer did meanwhile |
| `TimeConv.MathDivFloors` | compat-drivers-source/compat/compat-2.6.32.c:130-134 | the quotient is rounded down, for negative numerators too |
| `TimeConv.LeapsBetweenIs` | compat-drivers-source/compat/compat-2.6.32.c:136-143 | leap years between two years are the difference of two leap counts |
| `TimeConv.YearStartClosed` | compat-drivers-source/compat/compat-2.6.32.c:136-143 | counting days year by year agrees with the closed form, before and after 1970 |
| `TimeConv.CorrectionExact` | compat-drivers-source/compat/compat-2.6.32.c:193-200 | the correction of the year loop is the exact distance between two New Year's Days |
| `TimeConv.CorrectionApproaches` | compat-drivers-source/compat/compat-2.6.32.c:193-200 | every turn of the year loop brings the day count strictly closer to its year, so the loop terminates |
| `TimeConv.TableIsMonthStart` | compat-drivers-source/compat/compat-2.6.32.c:146-151 | the table of month starts is the running sum of the month lengths |
| `TimeConv.Split` | compat-drivers-source/compat/compat-2.6.32.c:169-179 | the two loops split time plus offset into a day number and the second of that day |
| `TimeConv.FindYear` | compat-drivers-source/compat/compat-2.6.32.c:191-200 | the guess-and-correct loop ends with the year and the day within it |
| `TimeConv.FindMonth` | compat-drivers-source/compat/compat-2.6.32.c:206-212 | the downward search ends with the month and the day within it |
| `TimeConv.TimeToTm` | compat-drivers-source/compat/compat-2.6.32.c:164-213 | for every time and offset the fields are in range and denote exactly that second in the Gregorian calendar, with its day of the year and its weekday |
| `TimeConv.SplitFits` | compat-drivers-source/compat/compat-2.6.32.c:169-179 | for every 64-bit time and 32-bit offset no value computed by the two loops leaves the range of a 64-bit long |
| `TimeConv.TurnFits` | compat-drivers-source/compat/compat-2.6.32.c:193-200 | nor does any value of a turn of the year loop |
| `TimeConv.DateUnique` | compat-drivers-source/compat/compat-2.6.32.c:164-213 | no other date and time in range denotes the same second |
| `I2cBit.Master.constructor` | compat-drivers-source/compat/compat-3.4.c:409-424 | the bus starts idle, both lines released |
| `I2cBit.Master.I2cStart` | compat-drivers-source/compat/compat-3.4.c:112-118 | from an idle bus the wave decodes to one START more |
| `I2cBit.Master.I2cRepStart` | compat-drivers-source/compat/compat-3.4.c:120-128 | from a low clock, one START more |
| `I2cBit.Master.I2cStop` | compat-drivers-source/compat/compat-3.4.c:131-138 | from a low clock, one STOP more, and the bus is idle |
| `I2cBit.Master.SendBits` | compat-drivers-source/compat/compat-3.4.c:148-164 | eight clock pulses decode to the bits of the byte, most significant first |
| `I2cBit.Master.OutB` | compat-drivers-source/compat/compat-3.4.c:140-182 | and a ninth with SDA released for the slave's answer: exactly one sample is used, and it returns true exactly if the slave pulled SDA low |
| `I2cBit.Master.InB` | compat-drivers-source/compat/compat-3.4.c:184-208 | eight pulses with SDA released; the eight samples are the bits of the byte returned, most significant first |
| `I2cBit.Master.AckNak` | compat-drivers-source/compat/compat-3.4.c:332-346 | one pulse with SDA low for ACK and released for NAK |
| `I2cBit.Master.TryAddress` | compat-drivers-source/compat/compat-3.4.c:210-233 | the address is repeated after STOP and START until acknowledged or the retries are used up |
| `I2cBit.Master.DoAddress` | compat-drivers-source/compat/compat-3.4.c:235-289 | the log is that of a seven-bit or ten-bit address with its refusals and answers, for reads and writes; the result says whether every part was acknowledged or the refusal ignored, and otherwise is EIO for the repetition before a read and ENXIO for the rest |
| `I2cBit.AddressFields` | compat-drivers-source/compat/compat-3.4.c:248-283 | the address byte holds the seven bits above the direction bit, reversed if asked for, or 11110 and the two high bits of a ten-bit address, whose low bits are the second byte |
| `I2cBit.Master.TenBitRest` | compat-drivers-source/compat/compat-3.4.c:258-279 | the second byte of a ten-bit address, and for a read its repetition after a repeated START |
| `I2cBit.Master.SendBytes` | compat-drivers-source/compat/compat-3.4.c:291-330 | the log is the bytes in order with their answers: all of them, all acknowledged or refusals ignored, or an error right after the first refused one |
| `I2cBit.Master.ReadBytes` | compat-drivers-source/compat/compat-3.4.c:348-398 | every byte but the last is acknowledged; with RECV_LEN the first byte announces how many more, 1 to 32, and any other announcement is an error after that byte; the log says so in both cases |
| `I2cBit.Master.OneMessage` | compat-drivers-source/compat/compat-3.4.c:425-466 | the log of one message of any kind and outcome: repeated START, address, and bytes sent or read as far as it went |
| `I2cBit.Master.Messages` | compat-drivers-source/compat/compat-3.4.c:425-466 | the loop: the logs of the messages up to the first that fails, the error of that one, and the bytes read in the buffers |
| `I2cBit.Master.BitXfer` | compat-drivers-source/compat/compat-3.4.c:409-475 | every transfer is START, the logs of its messages up to the first that fails, and STOP, and succeeds exactly when none fails; the answers in the log are in order what the slave put on SDA; a series of writes to a slave that answers low succeeds and uses exactly one answer per byte, and a transfer on a bus where nobody answers ends with ENXIO; after a series of writes, acknowledged or not, a receiver on the bus has decoded exactly its address and data bytes |
| `I2cBit.WriteAnswered` | compat-drivers-source/compat/compat-3.4.c:291-330 | a write whose first answers, one per address and data byte, are all low goes through and asks for no more |
| `I2cBit.NobodyAnswers` | compat-drivers-source/compat/compat-3.4.c:281-286 | when nobody pulls SDA low the first address is refused, with ENXIO |
| `I2cBit.MsbFirst` | compat-drivers-source/compat/compat-3.4.c:148-195 | on the wire and in the samples, the bit worth 128 comes first |
| `I2cBit.WritesDecode` | compat-drivers-source/compat/compat-3.4.c:140-182 | a receiver that clocks in nine bits at a time recovers every condition and byte of a write-only log |
| `I2cBit.TransferDecodes` | compat-drivers-source/compat/compat-3.4.c:409-475 | a transfer driven by the master alone adds to what a receiver has decoded exactly START, its bytes in order, repeated STARTs and STOP, whatever went before |
| `I2cBit.SentMeaning` | compat-drivers-source/compat/compat-3.4.c:291-330 | what it decodes of a message are the bytes of its buffer, as many as were sent |
| `I2cBit.WatchCounts` | compat-drivers-source/compat/compat-3.4.c:56-138 | the monitor sees a condition exactly when SDA changes between two levels with SCL high |
| `I2cBit.StableWhileHigh` | compat-drivers-source/compat/compat-3.4.c:409-475 | in every state SDA has changed while SCL was high exactly once per START, repeated START and STOP |
| `Bfusb.FlagsReadBack` | compat-drivers-source/drivers/bluetooth/bfusb.c:517-517 | the block flags that the sender writes are accepted and read back by the receiver |
| `Bfusb.BlocksLength` | compat-drivers-source/drivers/bluetooth/bfusb.c:514-526 | blocks take three bytes more per 256 bytes of the frame |
| `Bfusb.TransferFits` | compat-drivers-source/drivers/bluetooth/bfusb.c:505-533 | headers and pad fit the extra 32 bytes for every frame of up to 2560 bytes with its type byte, and for none longer |
| `Bfusb.SendFrame` | compat-drivers-source/drivers/bluetooth/bfusb.c:501-533 | the splitting loop emits exactly the specified blocks, and the pad when the length is a multiple of the bulk packet size |
| `Bfusb.ParseFrame` | compat-drivers-source/drivers/bluetooth/bfusb.c:254-388 | every well-formed ACL or SCO frame is taken out of the stream whole, whatever was left over and whatever follows |
| `Bfusb.RoundTrip` | compat-drivers-source/drivers/bluetooth/bfusb.c:501-533 | the receiver gets back every sent frame, with its type and nothing else, padded or not; its loop runs past the end of the transfer if and only if the frame was padded |
| `Bfusb.BlocksInside` | compat-drivers-source/drivers/bluetooth/bfusb.c:365-388 | the blocks of a frame are consumed to the last byte, so the loop ends where it should if and only if what follows them lets it |
| `Bfusb.OutsideBreaks` | compat-drivers-source/drivers/bluetooth/bfusb.c:365-388 | the model stops at every transfer that is not made of whole blocks |
| `Bfusb.ParsesBlocks` | compat-drivers-source/drivers/bluetooth/bfusb.c:365-388 | however a device fills its blocks, also with none or with 256 bytes, the parser finds exactly them, and looks at those whose header has the right bits |
| `Bfusb.Assembles` | compat-drivers-source/drivers/bluetooth/bfusb.c:254-341 | a packet of any type in blocks of any sizes is put together and handed up whole with its type, whatever was left over, if its header comes in its first block and it is no longer than the header says |
| `Bfusb.Abandons` | compat-drivers-source/drivers/bluetooth/bfusb.c:254-328 | an error, and a first block without type, header or memory, abandon what was being put together; a block that carries on nothing is ignored; a first block does not depend on what came before |
| `Bfusb.BfusbData.ReceiveBlock` | compat-drivers-source/drivers/bluetooth/bfusb.c:254-341 | one block starts, continues, completes or abandons the reassembly |
| `Bfusb.BfusbData.RxComplete` | compat-drivers-source/drivers/bluetooth/bfusb.c:365-388 | the parsing loop applies the blocks of a transfer one by one |
| `Kstrtox.ParseExact` | compat-drivers-source/compat/kstrtox.c:51-80 | the digit loop succeeds with v exactly for a digit string of the base, with at most one final newline, whose mathematical value is v and fits 64 bits |
| `Kstrtox.ParseOutOfRange` | compat-drivers-source/compat/kstrtox.c:70-72 | it returns ERANGE exactly if some digits at the beginning already stand for more than 64 bits hold, whatever follows |
| `Kstrtox.ParseULLExact` | compat-drivers-source/compat/kstrtox.c:34-81 | base detection and the 0x prefix included: success exactly on numbers that fit 64 bits, written in the given base, with 0x where base 16 is given or found, and otherwise octal after a leading zero and decimal without one when no base is given |
| `Kstrtox.ParseULLOutOfRange` | compat-drivers-source/compat/kstrtox.c:34-81 | and ERANGE exactly if such digits stand at the beginning, behind the prefix and in the base that the string asks for; EINVAL is left for all other strings |
| `Kstrtox.KstrtoullExact` | compat-drivers-source/compat/kstrtox.c:83-88 | and with at most one plus sign in front |
| `Kstrtox.KstrtoullOutOfRange` | compat-drivers-source/compat/kstrtox.c:83-88 | the same with at most one plus sign in front |
| `Kstrtox.OverflowTest` | compat-drivers-source/compat/kstrtox.c:70-72 | the division test before each step is exactly the overflow of the step |
| `Kstrtox.KstrtoullUnsigned` | compat-drivers-source/compat/kstrtox.c:34-81 | base detection, 0x prefix and digit loop together compute that; the number is stored on success, and on every error what the result pointer names is left as it was |
| `Kstrtox.KstrtoullMethod` | compat-drivers-source/compat/kstrtox.c:83-88 | so does the function with its plus sign |
| `Kstrtox.DigitLoop` | compat-drivers-source/compat/kstrtox.c:51-80 | the loop over the characters: value, ERANGE or EINVAL |
| `Kstrtox.KstrtollExact` | compat-drivers-source/compat/kstrtox.c:91-112 | with a minus sign the accepted magnitudes are exactly 1 to 2^63; without, 0 to 2^63 - 1; all other numbers are out of range |
| `Kstrtox.KstrtollMethod` | compat-drivers-source/compat/kstrtox.c:91-112 | kstrtoll with its casts computes that, and stores nothing on an error |
| `Kstrtox.UnsignedMethod` | compat-drivers-source/compat/kstrtox.c:115-235 | the unsigned wrappers store the number exactly if it fits the narrow type, and nothing otherwise |
| `Kstrtox.SignedMethod` | compat-drivers-source/compat/kstrtox.c:115-235 | and so do the signed ones |
| `Kstrtox.NarrowExact` | compat-drivers-source/compat/kstrtox.c:115-235 | the cast-and-compare of the narrowing wrappers accepts exactly the numbers of the narrow type, calls the others out of range, and passes errors on |
| `Crc8.StepsLinear` | compat-drivers-source/compat/crc8.c:30-64 | division by the polynomial is linear, for any number of steps and both bit orders |
| `Crc8.StepMeans` | compat-drivers-source/compat/crc8.c:30-64 | a step doubles the register modulo 256 and adds the polynomial if it was at least 128, or halves it and adds the polynomial if it was odd |
| `Crc8.NextPower` | compat-drivers-source/compat/crc8.c:38-60 | the entry of a power of two is one division step from the entry of its neighbour |
| `Crc8.SumEntry` | compat-drivers-source/compat/crc8.c:38-64 | the entry of a sum of disjoint bits is the exclusive or of the entries |
| `Crc8.PopulateMsb` | compat-drivers-source/compat/crc8.c:30-43 | for every polynomial the doubling fill makes all 256 entries the remainders of their bytes, MSB first |
| `Crc8.PopulateLsb` | compat-drivers-source/compat/crc8.c:52-64 | and LSB first |
| `Crc8.Crc8` | compat-drivers-source/compat/crc8.c:75-82 | with either table the byte loop computes the bitwise CRC of every message |
| `Hcill.StepKeeps` | compat-drivers-source/drivers/bluetooth/hci_ll.c:182-347 | every packet, dequeue, device signal and allocation failure keeps order, losslessness and the state restrictions |
| `Hcill.OrderedAndLossless` | compat-drivers-source/drivers/bluetooth/hci_ll.c:122-347 | in every run packets leave in exactly the order submitted with none lost, the state in which enqueueing loses a packet is unreachable, and an awake link holds nothing back |
| `Hcill.WakingReleases` | compat-drivers-source/drivers/bluetooth/hci_ll.c:182-240 | after every run that ends with a wake-up acknowledgement, or with a wake-up indication that found memory, the link is awake and nothing waits |
| `Hcill.WakingDelivers` | compat-drivers-source/drivers/bluetooth/hci_ll.c:278-299 | and then as many dequeues as there are items in the transmit queue send every packet submitted so far |
| `Hcill.Signals` | compat-drivers-source/drivers/bluetooth/hci_ll.c:195-347 | a sleep indication is acknowledged, a wake-up indication is acknowledged in front of what waited unless the link was awake, a packet on a sleeping link sends a wake-up indication, nothing else tells the chip anything, and without memory neither do these; the state follows |
| `Hcill.LlStruct.constructor` | compat-drivers-source/drivers/bluetooth/hci_ll.c:122-141 | an opened link is awake with empty queues |
| `Hcill.LlStruct.Drain` | compat-drivers-source/drivers/bluetooth/hci_ll.c:182-190 | the drain loop appends the waiting packets to the transmit queue in order |
| `Hcill.LlStruct.SendCommand` | compat-drivers-source/drivers/bluetooth/hci_ll.c:93-119 | a command joins the transmit queue unless its packet cannot be allocated |
| `Hcill.LlStruct.DeviceWantsToWakeUp` | compat-drivers-source/drivers/bluetooth/hci_ll.c:195-240 | the wake-up indication is one step of the machine |
| `Hcill.LlStruct.DeviceWantsToSleep` | compat-drivers-source/drivers/bluetooth/hci_ll.c:245-273 | the sleep indication is one step of the machine |
| `Hcill.LlStruct.DeviceWokeUp` | compat-drivers-source/drivers/bluetooth/hci_ll.c:278-299 | the wake-up acknowledgement is one step of the machine |
| `Hcill.LlStruct.Submit` | compat-drivers-source/drivers/bluetooth/hci_ll.c:303-347 | enqueueing is one step of the machine |
| `Hcill.LlStruct.Take` | compat-drivers-source/drivers/bluetooth/hci_ll.c:504-508 | dequeueing is one step of the machine and returns the head of the transmit queue |

## Left out

Common to several components:

- Locks, interrupts, timers, work queues and reference counts: each operation of a driver is one atomic step, and a timer may fire at any moment.
- Socket buffers: a packet is its type and its bytes; head room, `dev` pointers, statistics and debug output are not modelled. Memory allocation succeeds or fails as a parameter says.
- Waking the line discipline again, as a liveness property: `hci_uart_tx_wakeup` tests and clears its flags in separate steps, so no claim is made that a wake-up is never missed. Its sending loop is modelled as dequeuing until nothing is left or the line takes no more; a frame that the tty takes in pieces counts as written at once.
- Bit fields of packet headers are written with division, remainder and addition instead of shifts and masks; indices are masked by remainder modulo the power-of-two size.

Per component:

- BCSP: the vendor channel rewriting of the `hciextn` parameter is taken to be off. A response to a link-establishment message always finds memory. Runs of two endpoints lose whole frames before their delivery begins; corrupted bytes are covered only by the resynchronisation results.
- H5: link-control packets always find memory. After the fall-through of a data packet on a link that is not up the model does not follow the receiver (`faulted`), and the results for runs are about those without one. Runs of two endpoints lose whole frames before their delivery begins, as for BCSP. Accepted reliable packets are recorded when accepted: a command that reaches the other driver is accepted and acknowledged but not handed up by it.
- FqCodel.Codel: how many packets the controlled-delay law drops is left open, as any number per call; marking packets instead of dropping them is not distinguished from delivering them. The classifier may return any flow, and packet lengths and the quantum are positive. Byte counters are unbounded, with the condition under which 32 bits suffice in `FqCodelRuns.CountersFit`. Netlink configuration other than limit and quantum, dumps, statistics, `qdisc_tree_decrease_qlen` and the hash of the classifier are not modelled.
- Kfifo.Fifo.Alloc: a size of zero, for which rounding down to a power of two is undefined, and buffers of 2^32 bytes or more are not covered.
- Kfifo: copies to and from user space, scatter lists for DMA, `__kfifo_init` and the peek variants of record mode.
- KfifoSpsc.OutputIsPrefix: the memory barriers are taken to make reading an index, copying one element and publishing an index atomic steps in program order; record mode is not interleaved.
- TimeConv.TimeToTm: integers are unbounded; that 64 bits suffice for the loops is `TimeConv.SplitFits` and `TimeConv.TurnFits`, and the year is assumed to fit the field it is stored in. A 32-bit `long` is not covered.
- I2cBit.Master: clock stretching never times out, there is no other master, and the hooks before and after a transfer do nothing. The slave is a sequence of samples of SDA. The bus test is not modelled. Transfers that hold a read are logged in full but not decoded by the receiver on the bus, since the slave drives SDA.
- Bfusb.BfusbData.RxComplete: memory is available for all packets of one transfer or for none; a block that reaches past the end of the transfer or of its packet buffer stops the model (`broken`). Firmware loading and USB plumbing are not modelled.
- Kstrtox: the wrappers that copy the string from user space are not modelled.
- Hcill: flush, close and the byte parser of `ll_recv`, whose only effects here are the signals it raises.

Not modelled at all, being device access, tables, configuration or one-line shims: the remaining Bluetooth drivers,
`drivers/bcma`, `drivers/ssb`, the wireless and Ethernet drivers, the headers, the other `compat-*.c` files (among them
`dev_mc_sync`, whose inner loop stops after one element), the flow dissector, and the build scripts.
