# serialmux: a verified model

serialmux multiplexes MCU serial ports and TCP connections over one serial link. It exists as a C
daemon (`src/`) and as a Rust port (`serialmux-rs/`), with an alternative relay for Klipper frames
(`serialmux-rs/src/windlass/`). This project models the protocol in Dafny and proves what it is for.
`dafny verify dfyconfig.toml` checks everything.

How the files build on each other:

- `Bytes`, `Streaming`: bytes, and everything that holds of any decoder whose decisions are not revised
  when more input arrives (chunk independence, inversion of a printer, growth).
- `Crc`, `CrcPolynomial`, `KnownAnswers`: the checksum, which CRC it is, and known answers for it and for frames.
- `LinkFrame`, `FrameParser`, `TxQueue`, `Link`, `LinkEnds`: frames, the resynchronising parser over its fixed
  array, the transmit ring, and the end-to-end theorem, on values and on the objects.
- `Resync`: a parser that meets old bytes of any kind ahead of a stream of frames.
- `Channels`, `ChannelObjects`: the four channel types as state machines, and as objects updated in place.
- `ChannelLaws`, `TcpLaws`, `DaemonLaws`: what channels and daemon do, over runs and against their history.
- `Session`, `Daemon`, `DaemonObject`: handshake, sessions, backpressure, timers; the daemon object owns the
  real ring, the real parser and the channel objects, and its event loop runs as `Daemon` says.
- `Outbound`: the byte stream of a session is HELLO and the frames of the handlers.
- `TwoNode`, `TcpTunnel`, `TcpReturn`, `UartTunnel`, `Keepalive`: what two ends guarantee together, on frames.
- `TwoDaemons`, `Convergence`, `SessionView`, `TcpOverLink`, `SerialOverLink`: two daemons joined by wires
  that carry bytes refine those, so that agreement, convergence and the fidelity of TCP connections and
  serial ports hold of the daemons.
- `KlipperCodecs`, `Dictionary`: the relay codecs and the dictionary transfer.

Conventions. Time is an integer clock in milliseconds; a handler that reads the clock several times gets
each reading. The answers of the operating system (how much was read or written, whether an open or a
connect succeeded) are arguments, so every theorem holds for all of them. A 32-bit register is the list
of its bits. The visiting order of the channels, fixed by a hash map that never changes after
construction, is an arbitrary fixed order. An empty TCP slot is a missing key. `sent`, `read`, `written`,
`heard`, `handed`, `typed`, `taken`, `accepted`, `emitted`, `period`, `intact` and `kept` fields record history
and influence nothing.

Where code and commentary differ, the code is followed: `serialmux-rs/src/protocol.rs:296-298` describes
dropping a frame on overflow as matching the C queue, but the C daemon pushes a frame in three parts
(`src/serialmux.c:317-319`), and `Link.PartsTruncate` shows that it can send a truncated frame.

## Model

| member | source | states |
|---|---|---|
| `Crc.CrcInit` | src/serialmux.c:25-33 | after start-up every table entry is eight register shifts of its index |
| `Crc.TableStep` | src/serialmux.h:42-43 | one table look-up on the low byte absorbs exactly the eight bits of an input byte |
| `Crc.CrcBuf` | src/serialmux.h:39-45 | the table-driven byte loop computes the bit-serial reflected CRC-32 of every input |
| `Crc.CrcOfPayload` | src/serialmux.c:310 | sending zero for an empty payload agrees with the checksum the receiver computes |
| `CrcPolynomial.CrcIsRemainder` | src/serialmux.c:25-33 | the checksum is the complement of the remainder over GF(2) of the message, its first 32 bits complemented and 32 zeros appended, by the generator with exponents 32, 26, 23, 22, 16, 12, 11, 10, 8, 7, 5, 4, 2, 1 and 0 |
| `CrcPolynomial.RemainderDivides` | src/serialmux.c:25-33 | that remainder is what is left when a multiple of the generator is taken away |
| `CrcPolynomial.RemainderUnique` | src/serialmux.c:25-33 | and there is only one such remainder of 32 coefficients |
| `KnownAnswers.CheckValue` | src/serialmux.h:39-45 | the checksum of the ASCII digits 1 to 9 is 0xCBF43926 |
| `KnownAnswers.HelloOnTheWire` | serialmux-rs/src/protocol.rs:64-83 | the opening frame of a session, byte by byte |
| `KnownAnswers.DigitsOnTheWire` | serialmux-rs/src/protocol.rs:64-83 | a data frame with a payload, byte by byte: magic, type, channel, length and checksum least significant byte first |
| `KnownAnswers.PacksLittleEndian` | serialmux-rs/src/channel.rs:708-718 | lengths and connection ids travel least significant byte first |
| `Crc.BurstDetected` | src/serialmux.h:39-45 | payloads of equal length that differ only inside 32 consecutive bits, at any bit offset, have different checksums |
| `Crc.ByteBurstDetected` | src/serialmux.h:39-45 | the same for corruption confined to four consecutive bytes |
| `Crc.Residue` | src/serialmux.c:248-252 | the register after a payload and its checksum is a constant, and after any other checksum it is not |
| `Crc.WireBurstDetected` | src/serialmux.c:248-252 | a payload with its checksum, hit by a burst of at most 32 bits in either or across both, does not carry the checksum of the payload it now has |
| `LinkFrame.CorruptedRejected` | src/serialmux.c:248-252 | a frame hit by such a burst anywhere behind its header is rejected by the receiver where it starts, whatever follows |
| `LinkFrame.BuildDecodes` | serialmux-rs/src/protocol.rs:64-83 | the receiver reads a built frame back whole, with the same type, channel and payload |
| `LinkFrame.ScanInvertsBuild` | serialmux-rs/src/protocol.rs:64-235 | frames written back to back are received as exactly that list, and nothing is left over |
| `LinkFrame.AcceptedIsBuilt` | serialmux-rs/src/protocol.rs:195-233 | conversely, the bytes the receiver accepts are exactly what the builder writes for the accepted frame |
| `LinkFrame.ScanSplit` | serialmux-rs/src/protocol.rs:138-235 | chunk independence: feeding a then b gives the frames and residual of feeding both at once, and never retracts a frame |
| `LinkFrame.ResidualBound` | serialmux-rs/src/protocol.rs:143-163 | after every drain fewer than MAX_FRAME bytes stay buffered, and draining again finds nothing |
| `LinkFrame.AcceptedIsEmitted` | serialmux-rs/src/protocol.rs:229-233 | a frame accepted at an offset is delivered, and its bytes lie at that offset |
| `LinkFrame.EmittedWasAccepted` | serialmux-rs/src/protocol.rs:229-233 | nothing is invented: every delivered frame was accepted at some offset of the stream |
| `LinkFrame.Delivered` | serialmux-rs/src/protocol.rs:166-235 | recovery: a valid frame at offset p that no earlier accepted frame overlaps is accepted by the time p + MAX_FRAME bytes have arrived, whatever noise surrounds it |
| `Resync.ScanSynced` | serialmux-rs/src/protocol.rs:166-235 | in step with a stream of frames, what has been emitted is a prefix of it and what is buffered begins the rest |
| `Resync.ScanCrosses` | serialmux-rs/src/protocol.rs:166-235 | behind old bytes of any kind, unless a frame straddling their end is accepted, the parser emits some frames made of old bytes and then exactly a prefix of the stream's frames |
| `Resync.OldBytesPassed` | serialmux-rs/src/protocol.rs:166-235 | once MAX_FRAME bytes behind the old ones have arrived, the old ones have been passed |
| `FrameParser.ScanRejects` | serialmux-rs/src/protocol.rs:204-227 | skipping two bytes after a bad length or checksum loses nothing that trying every offset would find |
| `FrameParser.FrameParser.constructor` | serialmux-rs/src/protocol.rs:114-119 | a new parser is empty |
| `FrameParser.FrameParser.Reset` | serialmux-rs/src/protocol.rs:122-124 | a reset parser is empty |
| `FrameParser.FrameParser.FindMagic` | serialmux-rs/src/protocol.rs:175-187 | the search stops at the first magic pair, or at the last byte when there is none |
| `FrameParser.FrameParser.Candidate` | serialmux-rs/src/protocol.rs:195-230 | the in-place decision on a candidate is that of the naive scan |
| `FrameParser.FrameParser.DrainFrames` | serialmux-rs/src/protocol.rs:166-235 | the in-place search, slide and two-byte skip emit exactly the frames, and keep exactly the residual, of a naive scan trying every offset |
| `FrameParser.FrameParser.FillAndDrain` | serialmux-rs/src/protocol.rs:143-163 | every pass of the receive loop consumes at least one byte and leaves the scan of the remaining input unchanged |
| `FrameParser.FrameParser.Feed` | serialmux-rs/src/protocol.rs:138-163 | feeding any amount through the fixed buffer is one naive scan of everything received; the loop terminates and the buffer-full guard never costs a byte |
| `FrameParser.FrameParser.FeedUnguarded` | src/serialmux.c:185-260 | the C loop, which has no guard against a full buffer, consumes input on every pass, so it ends on every input with the same result |
| `TxQueue.RingAppend` | serialmux-rs/src/protocol.rs:308-315 | bytes stored from the tail on, across the wrap or not, extend the queue |
| `TxQueue.RingDrop` | serialmux-rs/src/protocol.rs:331-356 | moving the head inside the contiguous segment removes exactly that prefix |
| `TxQueue.TxQueue.constructor` | serialmux-rs/src/protocol.rs:268-274 | a new ring is an empty queue |
| `TxQueue.TxQueue.Reset` | serialmux-rs/src/protocol.rs:277-280 | reset empties the queue |
| `TxQueue.TxQueue.Used` | serialmux-rs/src/protocol.rs:284-286 | the modular head/tail difference is the number of queued bytes |
| `TxQueue.TxQueue.IsEmpty` | serialmux-rs/src/protocol.rs:290-292 | head equals tail exactly when nothing is queued |
| `TxQueue.TxQueue.Enqueue` | serialmux-rs/src/protocol.rs:299-316 | the ring is a byte queue of at most LINK_TXBUF_SIZE - 1 bytes: data is appended whole, or on overflow nothing changes |
| `TxQueue.TxQueue.DrainToFd` | serialmux-rs/src/protocol.rs:323-358 | a partial write removes exactly the bytes the system took from the front, and the result tells empty, remaining and error apart |
| `Link.OfferIsAtomic` | serialmux-rs/src/protocol.rs:64-316 | oversize and overflowing frames leave no trace; accepted frames leave all their bytes |
| `Link.EndToEnd` | serialmux-rs/src/protocol.rs:64-358 | from reset ends and for every interleaving of enqueue, partial drain and chunked delivery, delivered frames are a prefix of accepted frames, and all of them once queue and wire are empty |
| `Link.PartsWholeIffRoom` | src/serialmux.c:300-319 | the C daemon queues a frame of any 16-bit length whole exactly when there is room for all of it |
| `Link.PartsRefusedIffFull` | src/serialmux.c:300-319 | the C daemon refuses such a frame whole exactly when neither its checksum nor a non-empty payload fits |
| `Link.PartsTruncate` | src/serialmux.c:317-319 | otherwise a truncated frame enters the queue: all-or-nothing fails for the C daemon |
| `LinkEnds.LinkEnds.constructor` | serialmux-rs/src/protocol.rs:114-274 | fresh ends are the reset state of the end-to-end machine |
| `LinkEnds.LinkEnds.Offer` | serialmux-rs/src/protocol.rs:299-316 | building and enqueueing on the real ring is the offer step of the end-to-end machine |
| `LinkEnds.LinkEnds.Drain` | serialmux-rs/src/protocol.rs:323-358 | a write of the real ring is the drain step of the end-to-end machine |
| `LinkEnds.LinkEnds.Deliver` | serialmux-rs/src/protocol.rs:138-163 | feeding the real parser is the delivery step of the end-to-end machine |
| `LinkEnds.LinkEnds.Run` | serialmux-rs/src/protocol.rs:64-358 | after any events on the real ring and the real parser, the frames emitted are a prefix of those accepted, and all of them once ring and wire are empty |
| `KlipperCodecs.TunnelStreams` | serialmux-rs/src/windlass/framing.rs:76-109 | tunnel decoding gives the same frames and residual for every chunking; at most 64 bytes stay buffered |
| `KlipperCodecs.KlipperStreams` | serialmux-rs/src/windlass/framing.rs:275-326 | serial framing gives the same frames, sync flag and residual for every chunking; at most 63 bytes stay buffered |
| `KlipperCodecs.TunnelInverts` | serialmux-rs/src/windlass/framing.rs:76-120 | any list of well-formed frames crosses the tunnel unchanged |
| `KlipperCodecs.FramerEmitsWellFormed` | serialmux-rs/src/windlass/framing.rs:275-326 | every frame the framer emits, for any input and state, has its length byte, a legal length and the sync byte, so the tunnel can carry it |
| `KlipperCodecs.FramerIgnoresNoise` | serialmux-rs/src/windlass/framing.rs:281-294 | noise without a sync byte is dropped and leaves the framer unsynchronised |
| `KlipperCodecs.FramerSynchronises` | serialmux-rs/src/windlass/framing.rs:275-326 | sync-free noise, a sync byte and any mix of frames and idle sync bytes yield exactly those frames |
| `KlipperCodecs.FramerResynchronises` | serialmux-rs/src/windlass/framing.rs:300-321 | a synchronised framer that meets a bad length byte, or a frame without its trailing sync byte, drops everything up to the next sync byte and then yields exactly the frames that follow |
| `KlipperCodecs.FramerWaits` | serialmux-rs/src/windlass/framing.rs:307-310 | until the byte that decides has arrived it waits |
| `KlipperCodecs.TunnelFinds` | serialmux-rs/src/windlass/framing.rs:76-109 | the tunnel decoder tries every offset: garbage in which no frame may begin is dropped and the frame behind it found |
| `KlipperCodecs.TunnelFirst` | serialmux-rs/src/windlass/framing.rs:76-109 | what it emits first lies at the first offset where a frame may begin |
| `KlipperCodecs.TunnelDecode` | serialmux-rs/src/windlass/framing.rs:76-109 | the decoding loop returns the first frame of the stream and what is left, or waits with an undecided residual |
| `KlipperCodecs.KlipperFramer.Decode` | serialmux-rs/src/windlass/framing.rs:275-326 | the framing loop returns the first frame and leaves flag and buffer where the stream definition puts them |
| `KlipperCodecs.KlipperFramer.DecodeAll` | serialmux-rs/src/windlass/framing.rs:275-326 | decoding until more input is needed yields all frames of the stream so far |
| `KlipperCodecs.PayloadDecode` | serialmux-rs/src/windlass/framing.rs:190-205 | the payload decoder returns the first frame and the rest, or waits |
| `KlipperCodecs.RelayDelivers` | serialmux-rs/src/windlass/exporter.rs:76-143 | for any serial inputs, any interleaving of channels and any chunking, each channel receives a prefix of its framer's frames, and all of them once every tunnel byte has arrived |
| `Dictionary.SendDictionary` | serialmux-rs/src/windlass/smart_exporter.rs:233-262 | the fragments carry exactly the dictionary, end with the done marker, and each fits the 255-byte payload |
| `Dictionary.GatherDictionary` | serialmux-rs/src/windlass/smart_host.rs:353-406 | the gathering loop publishes what the message-by-message definition publishes |
| `Dictionary.GatherProjects` | serialmux-rs/src/windlass/smart_host.rs:360-405 | what the gatherer knows of a channel depends on that channel's messages only |
| `Dictionary.TransferPublishes` | serialmux-rs/src/windlass/smart_host.rs:360-405 | a watched channel whose messages form a transfer gets exactly its dictionary, whatever is interleaved |
| `Dictionary.LastTransferPublishes` | serialmux-rs/src/windlass/smart_host.rs:376-396 | of several transfers on one channel the last one's dictionary is published, unmixed |
| `Dictionary.OnlyWatched` | serialmux-rs/src/windlass/smart_host.rs:390-396 | only watched channels are ever published |
| `Dictionary.SentIsTransfer` | serialmux-rs/src/windlass/smart_exporter.rs:233-262 | what one exporter sends for a dictionary is received as a transfer of it |
| `Dictionary.PayloadInverts` | serialmux-rs/src/windlass/framing.rs:190-224 | encoded payload frames are decoded as exactly the list sent |
| `Dictionary.DictionariesArrive` | serialmux-rs/src/windlass/smart_host.rs:304-406 | over the byte tunnel, for any interleaving and chunking, every transferred dictionary is published exactly |
| `Dictionary.PagesReconstruct` | serialmux-rs/src/windlass/smart_host.rs:143-154 | whatever page sizes are asked for, the pages are the dictionary from the offset on, cut exactly at its end |
| `Dictionary.PagingCompletes` | serialmux-rs/src/windlass/smart_host.rs:143-154 | positive pages from the start rebuild the dictionary, and an empty page means exactly that the end was reached |
| `Channels.SyncOffset` | serialmux-rs/src/channel.rs:285-297 | the offset is that of the first Klipper sync byte, none before it |
| `Channels.AllocFindsNext` | serialmux-rs/src/channel.rs:782-791 | an allocated slot is the first free one from the cursor on, round the pool, and the cursor moves just past it |
| `Channels.RefusedOnlyWhenFull` | serialmux-rs/src/channel.rs:782-791 | a connection is refused a slot only when every slot is taken |
| `TcpLaws.AcceptsWhatFits` | serialmux-rs/src/channel.rs:793-835 | while the link is up as many connections of a batch are accepted and announced as are registered and fit the pool; while it is down none is |
| `TcpLaws.FirstAccepted` | serialmux-rs/src/channel.rs:793-835 | the first registered connection takes the slot that the search finds and is announced first |
| `TcpLaws.CursorAdvances` | serialmux-rs/src/channel.rs:782-814 | every connection that comes up moves the cursor past the slot found for it |
| `TcpLaws.ChunksFull` | serialmux-rs/src/channel.rs:872-881 | all data frames of a read but the last are full |
| `TcpLaws.DestFate` | serialmux-rs/src/channel.rs:1188-1303 | at the destination a slot goes exactly when the connection could not be made, its write failed, its input ended or everything was written after the peer's close, and the source is told except in the last case |
| `TcpLaws.SourceFate` | serialmux-rs/src/channel.rs:837-921 | the same at the source, where reading comes first |
| `TcpLaws.AnnouncementConnects` | serialmux-rs/src/channel.rs:1343-1356 | an announcement for a free slot starts a connection there or is refused with a close |
| `ChannelLaws.SilenceResets` | serialmux-rs/src/channel.rs:394-409 | in every run a tick of an open UART resets the MCU exactly when it is active and the last read that delivered anything is more than five seconds old, discarding what waited for it and announcing exactly one FLUSH |
| `ChannelLaws.UartRetries` | serialmux-rs/src/channel.rs:394-409 | in every run a tick of a closed UART tries to open it exactly when two seconds have passed since the last failed attempt or one since it could not be read |
| `ChannelLaws.FailureResets` | serialmux-rs/src/channel.rs:306-311 | a failed read closes the UART, resets the MCU and has it tried again after one second |
| `ChannelLaws.SyncActivates` | serialmux-rs/src/channel.rs:282-299 | an inactive MCU becomes active exactly when its UART delivers a sync byte |
| `ChannelLaws.LinkLeavesUart` | serialmux-rs/src/channel.rs:379-392 | frames, the link and pauses change neither the MCU's state nor its UART nor their times |
| `ChannelLaws.EioCloses` | serialmux-rs/src/channel.rs:661-679 | losing the last reader closes the PTY, empties its buffer and sends nothing, and no other event closes it |
| `ChannelLaws.ReadyOpens` | serialmux-rs/src/channel.rs:623-626 | a PTY that cannot be opened stays closed, an open one is left alone |
| `ChannelLaws.HandshakeRejoins` | serialmux-rs/src/daemon.rs:343-360 | a handshake, also a repeated one, leaves the host's ends nothing of what went before and the exporter's ends everything |
| `ChannelLaws.ControlAnswers` | serialmux-rs/src/daemon.rs:289-324 | a PING is answered by exactly one PONG, a HELLO by an ACK first; a PONG and an unexpected ACK do nothing |
| `ChannelLaws.TickNeedsDeadline` | serialmux-rs/src/channel.rs:394-419 | a channel's tick has something to do only when its deadline has come |
| `ChannelLaws.DeadlineIsTight` | serialmux-rs/src/channel.rs:394-419 | and just after its deadline it has |
| `ChannelObjects.Chunk` | serialmux-rs/src/channel.rs:872-881 | the chunking loop produces the data frames of the read, each with the connection id in front |
| `ChannelObjects.ReadLoop` | serialmux-rs/src/channel.rs:850-882 | the read loop forwards every read up to would-block and reports end of file or error |
| `ChannelObjects.FindSlot` | serialmux-rs/src/channel.rs:782-791 | the round-robin loop finds the next free slot and advances the cursor |
| `ChannelObjects.McuChannel.Read` | serialmux-rs/src/channel.rs:273-314 | UART input is discarded up to the sync byte, forwarded from it on, and an error resets the MCU and schedules a reopen |
| `ChannelObjects.TcpSourceChannel.AcceptAll` | serialmux-rs/src/channel.rs:793-835 | each pending connection gets a free slot and is announced, or is dropped, in order |
| `ChannelObjects.TcpSourceChannel.SlotEvent` | serialmux-rs/src/channel.rs:837-921 | reading precedes writing; a close-pending slot goes when its buffer is empty |
| `ChannelObjects.TcpDestChannel.SlotEvent` | serialmux-rs/src/channel.rs:1188-1303 | connecting is finished first, then writing, then reading |
| `Session.BroadcastConnects` | serialmux-rs/src/daemon.rs:343-360 | the handshake announcement reaches every channel exactly once, and its frames for a channel are that channel's own status |
| `Session.EventKeeps` | serialmux-rs/src/channel.rs:421-435 | no readiness event changes a channel's pause flag or its view of the link, and an idle channel sends nothing |
| `Session.TickKeeps` | serialmux-rs/src/channel.rs:394-409 | no timer tick does either, and a closed UART is never active and always has a reopening time |
| `Session.FrameKeeps` | serialmux-rs/src/channel.rs:369-377 | no frame does either |
| `Session.AcceptKeeps` | serialmux-rs/src/channel.rs:793-835 | accepting announces only on its own channel, and does nothing while the link is down |
| `Daemon.DisconnectIdles` | serialmux-rs/src/channel.rs:388-392 | link loss leaves no channel with a PTY, a TCP slot, buffered bytes or a belief in the link |
| `Daemon.OpenKeeps` | serialmux-rs/src/daemon.rs:114-153 | opening starts from a clean session whose first queued bytes are HELLO |
| `Daemon.CloseKeeps` | serialmux-rs/src/daemon.rs:155-183 | closing empties the queue, unpauses every channel and leaves every channel idle |
| `Daemon.StepKeeps` | serialmux-rs/src/daemon.rs:413-481 | every handler keeps the session invariant |
| `Daemon.SessionIsolation` | serialmux-rs/src/daemon.rs:114-481 | in every reachable state: disconnected iff no link descriptor; then no handshake, no pause, empty queue, no PTY, no TCP slot, no channel believing in the link; every channel's pause flag equals the daemon's; an open session's output starts with HELLO; the reopen delay stays between 0.5 s and 8 s |
| `Daemon.StepHysteresis` | serialmux-rs/src/daemon.rs:238-285 | a channel event that reaches high water pauses and a write that reaches low water resumes; a pause happens only at high water, a resume only at low water or by closing, and paused bytes leave only into the link |
| `Daemon.BackpressureHysteresis` | serialmux-rs/src/daemon.rs:238-285 | in every run, between a pause and the next resume the link closed or took at least LINK_HIGH_WATER - LINK_LOW_WATER bytes |
| `Daemon.NothingDroppedIffRoom` | serialmux-rs/src/protocol.rs:299-316 | frames offered by one handler are all queued exactly when they fit together |
| `Daemon.EventQueuedIffRoom` | serialmux-rs/src/daemon.rs:467-479 | the frames of a channel event are all queued exactly when they fit together |
| `Daemon.LongReadDrops` | serialmux-rs/src/channel.rs:850-882 | backpressure does not prevent loss: one readable event that reads a connection buffer by buffer, at most 65536 bytes each, loses frames even on an unpaused daemon with an empty queue once it reads more than the queue's capacity |
| `Daemon.NineReadsSuffice` | serialmux-rs/src/channel.rs:849-882 | nine full reads of one event are enough for that |
| `Daemon.BackoffDoubles` | serialmux-rs/src/daemon.rs:185-191 | from any delay in force, successive failed opens wait that delay, doubled each time up to 8 s, and change nothing else |
| `Daemon.DoubledIsPower` | serialmux-rs/src/daemon.rs:185-191 | the k-th wait is the delay times a power of two, or 8 s |
| `DaemonLaws.LinkChanges` | serialmux-rs/src/daemon.rs:114-262 | the link opens exactly when a due attempt succeeds, and is lost exactly when a read fails, a write of queued bytes fails or nothing has come for more than ten seconds |
| `DaemonLaws.OpenStarts` | serialmux-rs/src/daemon.rs:131-146 | a session starts with an empty parser, nothing sent, HELLO queued, no pause, no handshake and the shortest reopening delay |
| `DaemonLaws.RunRemembers` | serialmux-rs/src/daemon.rs:114-236 | over every run a loss or failed attempt at time u is followed by a wait until u + min(0.5 s * 2^k, 8 s), k counting the failures since the link was last open; the link was last heard when opened or last delivering; the parser holds what one scan of everything received in the session leaves |
| `DaemonLaws.SilenceCloses` | serialmux-rs/src/daemon.rs:364-381 | over every run the timer closes an open link exactly when more than ten seconds have passed since it was opened or last delivered anything |
| `DaemonLaws.PingsWhenIdle` | serialmux-rs/src/daemon.rs:374-380 | otherwise it sends exactly one PING if the handshake is complete, nothing is queued and three seconds have passed since the last traffic, and does nothing else |
| `DaemonLaws.TrafficIsStamped` | serialmux-rs/src/daemon.rs:265-341 | the time of the last traffic moves with channel events, handled frames and bytes waiting after the timers, and only then |
| `DaemonLaws.BulkPauses` | serialmux-rs/src/daemon.rs:325-331 | bulk data arriving at high water pauses every channel |
| `Daemon.TickDeadline` | serialmux-rs/src/channel.rs:394-419 | after a tick a channel's next deadline is not in the past |
| `Daemon.KeepaliveMeetsDeadlines` | serialmux-rs/src/daemon.rs:364-381 | after the keepalive tick the reopen, ping and timeout deadlines are not in the past, except a ping held back by queued bytes |
| `Daemon.TimersMeetDeadlines` | serialmux-rs/src/daemon.rs:420-444 | after the timer phase at time t no deadline that the sleep computation consults is earlier than t |
| `DaemonLaws.PhaseNeedsDeadline` | serialmux-rs/src/daemon.rs:386-444 | a timer phase changes anything but the time of traffic only when a deadline that the sleep computation consults has come, or a silent link's handshake never completed: nothing is missed by sleeping |
| `Daemon.NextTimeout` | serialmux-rs/src/daemon.rs:386-408 | the sleep is at most MAX_TICK, never runs past a pending deadline, and is shortened only by one that falls within it |
| `Outbound.DispatchIsReceive` | serialmux-rs/src/daemon.rs:289-341 | on an open link dispatching a frame is exactly the frame-level reaction of the session, its replies queued in order |
| `Outbound.EventFits` | serialmux-rs/src/channel.rs:273-314 | no readiness event ever builds an oversize frame |
| `Outbound.StepStream` | serialmux-rs/src/daemon.rs:209-272 | every handler that leaves the link open only appends its own frames to the session's byte stream, each whole or not at all |
| `Outbound.SessionStream` | serialmux-rs/src/daemon.rs:114-481 | from opening on, while the link is open and frames fit, a reset parser fed the session's bytes emits HELLO and then exactly the frames the handlers produced |
| `DaemonObject.DaemonObject.constructor` | serialmux-rs/src/daemon.rs:76-100 | a new daemon is disconnected with empty queue and parser and the initial delay |
| `DaemonObject.DaemonObject.ScheduleReopen` | serialmux-rs/src/daemon.rs:185-191 | the reopen time is set and the delay doubled up to eight seconds |
| `DaemonObject.DaemonObject.OpenLink` | serialmux-rs/src/daemon.rs:114-153 | a failed open is rescheduled; a successful one resets parser and ring and queues HELLO |
| `DaemonObject.DaemonObject.CloseLink` | serialmux-rs/src/daemon.rs:155-183 | the loops unpause and disconnect every channel, and the ring is reset |
| `DaemonObject.DaemonObject.EnqueueFrame` | serialmux-rs/src/daemon.rs:265-272 | a frame is queued only on an open link |
| `DaemonObject.DaemonObject.CheckBpHigh` | serialmux-rs/src/daemon.rs:276-285 | at high water every channel is paused, once |
| `DaemonObject.DaemonObject.BroadcastAll` | serialmux-rs/src/daemon.rs:349-357 | the loop announces the handshake to each channel in turn |
| `DaemonObject.DaemonObject.Announce` | serialmux-rs/src/daemon.rs:343-360 | the handshake flag is set and the channels' announcements are queued in order |
| `DaemonObject.DaemonObject.DispatchFrame` | serialmux-rs/src/daemon.rs:289-341 | control frames are answered, handshake frames announced, others routed after the backpressure check |
| `DaemonObject.DaemonObject.LinkRead` | serialmux-rs/src/daemon.rs:209-236 | received bytes go through the real parser and every frame is dispatched in order; an error closes the link |
| `DaemonObject.DaemonObject.CheckBpLow` | serialmux-rs/src/daemon.rs:250-262 | at low water every channel is resumed, once |
| `DaemonObject.DaemonObject.LinkWrite` | serialmux-rs/src/daemon.rs:238-262 | the real ring is drained and channels resumed at low water; an error closes the link |
| `DaemonObject.DaemonObject.ChannelReady` | serialmux-rs/src/daemon.rs:467-479 | a channel event's frames are queued, then the backpressure check runs |
| `DaemonObject.DaemonObject.TickKeepalive` | serialmux-rs/src/daemon.rs:364-381 | a silent link is closed, an idle one pinged |
| `DaemonObject.DaemonObject.TickChannels` | serialmux-rs/src/daemon.rs:430-438 | every channel is ticked once and its frames queued |
| `DaemonObject.DaemonObject.TimerPhase` | serialmux-rs/src/daemon.rs:421-442 | one pass through reopen, keepalive and channel timers |
| `DaemonObject.DaemonObject.Handle` | serialmux-rs/src/daemon.rs:413-481 | every event moves the daemon object, with its ring, parser and channel objects, as the state machine says |
| `DaemonObject.DaemonObject.Run` | serialmux-rs/src/daemon.rs:413-481 | after any events from a new daemon the object is where the state machine's run is, and satisfies the session invariant |
| `TwoNode.ReceiveSees` | serialmux-rs/src/channel.rs:617-645 | whatever a frame does, it moves the host's handshake flag and PTY exactly as the abstract view says |
| `TwoNode.ReceiveTells` | serialmux-rs/src/channel.rs:379-386 | handling HELLO, or the first ACK, tells the host the MCU's state; any other frame says nothing about it |
| `TwoNode.UartTells` | serialmux-rs/src/channel.rs:273-314 | whatever the UART does, the frames sent tell the host the MCU's new state |
| `TwoNode.McuTells` | serialmux-rs/src/channel.rs:421-435 | whatever a readiness event does to the MCU channel, the frames sent tell the host the MCU's new state |
| `TwoNode.ActKeeps` | serialmux-rs/src/daemon.rs:289-360 | every step of either end, including handling arbitrary stale frames after a reopening, keeps the invariant that folds the frames in flight over the host's state |
| `TwoNode.Agreement` | serialmux-rs/src/daemon.rs:289-360 | in every run with free closing and reopening and arbitrary stale frames after it, once both links are open and both directions empty, both handshakes are complete and each PTY is open exactly when its MCU is active |
| `TwoNode.Convergence` | serialmux-rs/src/daemon.rs:289-360 | from any reachable state with both links open, also just after a reopening, frames handed over in any order, stale ones included, are bounded by the weight of the frames, and when the old bytes have been passed and no frame is left both ends agree |
| `TwoDaemons.EventStep` | serialmux-rs/src/daemon.rs:209-481 | every event of a daemon joined to another by byte wires, its parser, queue, backpressure and timers included, is a sequence of frame-level steps |
| `TwoDaemons.Refines` | serialmux-rs/src/daemon.rs:114-481 | every run of two daemons over byte wires, links closing and reopening in the middle of frames, is a run of the frame-level system with the same channel events |
| `TwoDaemons.BytesAgree` | serialmux-rs/src/daemon.rs:114-481 | over byte wires, with frames cut in half and anything left on the wires by reopening, once both links are open and no byte is queued, on a wire or in a parser, both handshakes are complete and each PTY is open exactly when its MCU is active |
| `Convergence.BytesConverge` | serialmux-rs/src/daemon.rs:209-262 | from any reachable state of two daemons with both links open, moving bytes in pieces of any size takes a number of moves bounded by the bytes under way, closes no link, and with no byte left to move both daemons agree unless a parser is held up by old bytes that begin a frame |
| `Convergence.HoldUpEnds` | serialmux-rs/src/daemon.rs:209-236 | a parser held up that way lets go once MAX_FRAME bytes behind the old ones have arrived |
| `Convergence.DispatchWeighs` | serialmux-rs/src/daemon.rs:289-360 | all that dispatching frames makes a daemon send weighs less than the frames, and is made of frames with at most a connection id |
| `TcpTunnel.ChunksCarry` | serialmux-rs/src/channel.rs:872-881 | chunk frames always fit a frame, and carry exactly the bytes read, to their own connection only |
| `TcpTunnel.StreamFidelity` | serialmux-rs/src/channel.rs:1188-1407 | in every run from the acceptance of a connection, bytes written, buffered and in flight are exactly the bytes read at the source; a slot freed by draining had written every byte |
| `TcpTunnel.AcceptAnnounces` | serialmux-rs/src/channel.rs:793-835 | every slot taken in a batch of acceptances is announced exactly once and nothing else in the batch concerns it |
| `TcpTunnel.AcceptStarts` | serialmux-rs/src/channel.rs:793-835 | every connection of a batch starts in the state from which fidelity is stated |
| `TcpTunnel.FrameAtSlot` | serialmux-rs/src/channel.rs:1339-1407 | a data frame extends the buffer exactly when neither mark is exceeded and otherwise closes the slot with notice; a peer close frees an empty slot quietly and lets any other drain; no other frame, a repeated announcement included, touches the slot |
| `TcpReturn.FrameAtHome` | serialmux-rs/src/channel.rs:953-1018 | the same at the source |
| `TcpReturn.DestEventSends` | serialmux-rs/src/channel.rs:1188-1303 | what a readiness event at the destination sends back carries exactly the bytes read, closes the connection once if its slot went, and concerns no other connection |
| `TcpReturn.DestFrameSends` | serialmux-rs/src/channel.rs:1339-1407 | what a frame makes the destination send back closes at most its own connection, exactly when the slot is lost or refused; a close and a repeated announcement are not answered |
| `TcpReturn.ReturnFidelity` | serialmux-rs/src/channel.rs:953-1018 | in every run from the acceptance of a connection, until an earlier incarnation of its id gets in the way, bytes written, buffered at the source and on their way back are exactly the bytes read at the destination; a source slot freed by draining had written every byte |
| `TcpReturn.OldDataCrosses` | serialmux-rs/src/channel.rs:953-985 | data of an earlier incarnation still on its way back when its id is taken again ends up in the new connection |
| `TcpReturn.FreshReturns` | serialmux-rs/src/channel.rs:953-1018 | under an id of which no trace is left, no earlier incarnation ever gets in the way |
| `TcpReturn.AcceptBegins` | serialmux-rs/src/channel.rs:793-835 | every accepted connection starts in the state from which that is stated, and under an unused id in the undisturbed one |
| `TcpOverLink.RunShows` | serialmux-rs/src/daemon.rs:289-360 | within a session, every frame-level run of two daemons with any channels is, for one TCP channel, a run of its tunnel with that channel's events |
| `TcpOverLink.TcpOverBytes` | serialmux-rs/src/daemon.rs:209-481 | over byte wires, the connection slots of the two daemons are those of the tunnel driven by the channel's own events; the way out is faithful from every acceptance, the way back until an earlier incarnation of the id gets in the way, which never happens under an unused id; with no byte under way only the slot buffers stand between what was read and what was written |
| `TcpOverLink.TcpFromAccept` | serialmux-rs/src/channel.rs:793-835 | the same from the listener event that accepts the connection, whatever an earlier incarnation of its id left at the destination or on the link |
| `TcpOverLink.TcpFromQuiet` | serialmux-rs/src/daemon.rs:114-481 | the same of two new daemons, after any run that has led to open links with nothing under way |
| `TcpOverLink.QuietShows` | serialmux-rs/src/daemon.rs:343-360 | two daemons with open links and no byte under way are in such a session |
| `TcpTunnel.BuffersStayBounded` | serialmux-rs/src/channel.rs:1364-1373 | no operation lets a connection buffer exceed CONN_HIGH_WATER + MAX_PAYLOAD |
| `TcpTunnel.RunsStayBounded` | serialmux-rs/src/channel.rs:1188-1407 | in every run no connection buffer exceeds that bound |
| `TcpTunnel.ParserBoundsOverflow` | src/channels.c:655-678 | for frames within the parser's length bound the room left never wraps, and high water alone decides |
| `UartTunnel.UartTells` | serialmux-rs/src/channel.rs:273-314 | the frames sent for one UART read take the host from the old forwarding period to the new one |
| `UartTunnel.SerialFidelity` | serialmux-rs/src/channel.rs:273-635 | in every run from the announcement that starts a session, whatever state the MCU is in then, or from any later point, the PTY is given exactly the UART bytes since the sync byte or the announcement, in order, until a write to it fails; nothing in flight means open iff active and nothing missing |
| `UartTunnel.HostFidelity` | serialmux-rs/src/channel.rs:369-377 | in the other direction the UART is given exactly the bytes read from the PTY, in order, until some are discarded |
| `UartTunnel.KeptWhileActive` | serialmux-rs/src/channel.rs:316-377 | nothing is discarded while the MCU stays active and its UART open and taking writes |
| `SerialOverLink.RunShows` | serialmux-rs/src/daemon.rs:289-360 | within a session, every frame-level run of two daemons with any channels is, for one MCU and its PTY, a run of their path with that channel's events |
| `SerialOverLink.SerialOverBytes` | serialmux-rs/src/daemon.rs:209-481 | over byte wires, the MCU and PTY channels of the two daemons are those of the path driven by the channel's own events, both directions are faithful, and with no byte under way only the two buffers stand between them |
| `SerialOverLink.SessionStarts` | serialmux-rs/src/daemon.rs:343-360 | any point of a session will do to start from |
| `SerialOverLink.SerialFromQuiet` | serialmux-rs/src/daemon.rs:114-481 | the same of two new daemons, after any run that has led to open links with nothing under way |
| `UartTunnel.PtySends` | serialmux-rs/src/channel.rs:652-682 | a readiness event of an open PTY sends exactly the bytes read, and a closed one sends nothing |
| `Keepalive.NeverTimesOut` | src/serialmux.c:491-528 | if KA_INTERVAL + J + D <= KA_TIMEOUT, no run of two live ends closes the link by keepalive timeout |
| `Keepalive.SlackIsNeeded` | src/serialmux.c:491-528 | for every J and D with less slack some run does close it, so the inequality is exact |

## Left out

- Operating system plumbing: termios, PTY allocation and symlinks, USB discovery, sockets, event registration; interest flags (`in_sel`, READABLE/WRITABLE) are not modelled, any event may occur at any time.
- `serial.rs`, `async_serial.rs`, `logging.rs`, command lines and install scripts: no property beyond plumbing.
- `crc32fast`, `windlass` and `anchor`: not part of this model; the C checksum defines the CRC, and variable-length integers and the identify command's framing are left out.
- Token arithmetic (`primary_token`, `tcp_slot_token`, `channel_id_for_token`): tokens only name event sources; the model names channels and slots directly.
- The C channels beyond the shared buffer bound: their fixed MCU and PTY buffers truncate where the Rust ones grow.
- TwoNode.Agreement: works on unbounded queues of frames, so no READY or FLUSH is lost to a full ring there; `TwoDaemons.BytesAgree` states it of byte queues and takes as hypotheses that each handler's frames fit the ring and that no frame put together from bytes on both sides of a reopening passes the checksum. Opening a PTY is assumed to succeed, and a PTY is assumed not to lose its last reader.
- Convergence.BytesConverge: under the same hypotheses; it does not say that more bytes will come to release a parser held up by old bytes, because a daemon sends nothing of its own before its handshake is complete.
- TcpTunnel.StreamFidelity: follows one incarnation of a connection id within one session; it claims nothing once the slot was occupied when the announcement arrived, or once a later incarnation's frame arrives while the slot still drains, because the code does not tell incarnations apart. Frames are assumed not to overflow the transmit queue; `TcpOverLink.TcpOverBytes` takes that as a hypothesis on the real queue, and `Daemon.EventQueuedIffRoom` says exactly when it holds.
- TcpReturn.ReturnFidelity: claims nothing once a frame of an earlier incarnation of the id is on its way to the new connection, for the same reason (`TcpReturn.OldDataCrosses`).
- UartTunnel.SerialFidelity: stays within one session and assumes that the PTY opens and keeps a reader; it works on an unbounded queue of frames, so no DATA, READY or FLUSH is lost to a full ring there, and `SerialOverLink.SerialOverBytes` takes that as a hypothesis on the real queue.
- UartTunnel.HostFidelity: works on an unbounded queue of frames in the same way, and claims nothing once bytes were discarded by a failed write, a reset or for want of an active MCU.
- Keepalive.NeverTimesOut: models the C daemon only; the Rust daemon also counts events that send nothing as traffic (`serialmux-rs/src/daemon.rs:477`), so the statement is not made for it. A queued frame is assumed to fit the queue. The loop is assumed to sleep no longer than its timeout computation allows, plus J; while a keepalive is overdue that computation allows no sleep.
- Timer exactness for the C daemon: its channel deadline ignores the link flag that its tick requires (`src/channels.c:575`, `src/channels.c:830`), so it is stated for the Rust daemon only.
- Dictionary paging uses unbounded offsets; the wire offset has 32 bits.
- The smart proxy's routing of ordinary payloads and its Klipper sessions: only the dictionary transfer is modelled.
