# Marlin binary transfer: model and proofs

A Dafny model of a host-side implementation of Marlin's Binary File Transfer
Mark II protocol: packet codec, stop-and-wait session, file-transfer state
machine, blocking upload driver, and the device at the other end.

Each layer that changes state appears twice: as a class whose methods update
fields the way the code does (`Session.dfy`, `FileTransfer.dfy`, `Device.dfy`,
`Upload.dfy`), and as transitions on values (`SessionSpec.dfy`,
`TransferSpec.dfy`, `DeviceSpec.dfy`, `UploadSpec.dfy`). Every method is proved
to perform its transition; the promises are then proved about all runs of the
transitions. The states carry a history (what was enqueued, dispatched,
resolved, pushed to outbound, raised), which is ghost state in the classes and
which no decision reads. The classes also keep the list of operations performed
on them; their class invariant is that running that list on the values gives the
state of the object, so every theorem about runs is a theorem about the objects.

| file | content |
|---|---|
| `Prelude`, `Text` | bytes, UTF-8 validity, Unicode trimming, decimal parsing and printing |
| `Fletcher`, `Codec`, `Corruption`, `Scanner` | checksum, framing, error detection, streaming decoder |
| `SessionSpec`, `SessionInvariants`, `SessionTheorems`, `Session` | the session |
| `LineMeaning`, `Pacing` | what received lines do, told from their bytes; when ticks send a packet again |
| `TransferSpec`, `TransferInvariants`, `TransferTheorems`, `FileTransfer` | the file transfer over the session |
| `DeviceSpec`, `Device`, `Replies`, `Conversation` | the device, the text both sides exchange, and each request with its answer |
| `ClosedLoop` | host and device together, from the handshake to the end of an upload |
| `Unreported` | failures that no error reports, with the bytes that lead there |
| `Grounds` | what each answer of the file transfer rests on |
| `Journal`, `Reading` | what a list of operations or calls received, when, and what it answered last; the events read so far |
| `Arq`, `ArqTimeout`, `Progress` | the session against a number-checking receiver over lossy channels, and against a prompt peer |
| `UploadSpec`, `UploadInvariants`, `Upload`, `EndToEnd` | the whole upload, down to what the device stores |
| `Delivery` | a finished upload over those channels: what the receiver accepted and the device stored |

## How the code is read

- Bytes are integers 0..255. Shifts and masks are written as division,
  remainder, multiplication and addition of the same powers of two; every
  16-bit intermediate value has type `u16`, so overflow is a proof obligation.
- An `Instant` is an integer, in milliseconds; durations since an instant
  saturate at zero; ticks may come at any times, also going backwards.
- Strings are their UTF-8 bytes. Validity, `trim` and unsigned `parse` follow
  the Rust definitions, non-ASCII white space included.
- The timeout builders of the session are arguments of its constructor.
- Assertions of the library are `requires` clauses of the methods, the
  predicates `Allowed` and `Callable` of the transitions, and the result
  `Panicked` of `Upload`.
- The transport and the clock are arbitrary scripts of read results, write
  faults and instants. Compression is an arbitrary function.

## Where the code and its documentation differ

- The repository README (lines 134-135) says packets the device asks for with
  `rs<n>` are retransmitted. The session only reports the request
  (`Replies.ResendRoundTrip`); retransmission happens in `tick` alone.
- The repository README (lines 141-143) promises an `UploadError` for every
  unrecoverable failure. A failure the machine answers is returned as such
  (`UploadDriver.Upload`), but one read in the same poll as the answer before it
  is not. `TransferTheorems.PollAnswer` gives the exact condition on the session
  events read by the poll: behind a progress answer the machine has failed if and
  only if a fatal error, out-of-sync or timeout event follows the first Ack.
  `Unreported.OpenedYetFailed` and `Unreported.ClosedYetFailed` give received
  bytes that do it. Behind Negotiated, Opened and WriteAcked the next request
  method asserts, so the upload panics; behind Closed nothing asserts, and once
  the control CLOSE is acknowledged the upload returns success. That last wait
  ends at the first Ack too, with later events unread (blocking.rs:163).
- Exactly-once delivery ends with the first total timeout, because the dropped
  packet's number is given to the next one. `Arq.ExactlyOnce` proves delivery up
  to that point, `ArqTimeout.HarmlessUntilNextSend` up to the next dispatch, and
  `ArqTimeout.TimeoutBreaksDelivery` continues every such run, whatever packet is
  dispatched next, to one where that packet is acknowledged although the receiver
  took it for the dropped one or never accepted it.

## Model

| member | source | states |
|---|---|---|
| Fletcher.Fletcher16 | src/codec.rs:141-148 | the packed loop computes the byte sum and the position-weighted byte sum, each mod 255, with no 16-bit overflow |
| Fletcher.AppendLaw | src/codec.rs:141-148 | checksum of a concatenation: low adds, high(a++b) = high(a) + len(b)*low(a) + high(b), mod 255 |
| Fletcher.OverwriteUndetected | src/codec.rs:141-148 | overwriting one byte keeps the checksum if and only if it exchanges 0x00 and 0xFF |
| Fletcher.SwapUndetected | src/codec.rs:141-148 | exchanging bytes x, y at distance d keeps the checksum if and only if 255 divides d*(x-y) |
| Codec.NewPacket | src/codec.rs:104-125 | a packet with nibble protocol and type and a payload that fits the length field is returned as given; otherwise the first violated bound is the error, with the offending value |
| Codec.Encode | src/codec.rs:153-191 | appends exactly the frame and returns its length; on an unencodable packet appends nothing and reports the error construction would |
| Codec.RoundTrip | src/codec.rs:199-270 | decoding a frame followed by anything returns the packet and its wire length |
| Codec.DecodeCanonical | src/codec.rs:199-270 | whatever decodes is the frame of a valid packet, byte for byte, so decode has no second preimage |
| Codec.DecodeExtend | src/codec.rs:199-206 | more bytes never change an answer other than Incomplete |
| Codec.PrefixIncomplete | src/codec.rs:242-248 | every proper prefix of a frame is Incomplete, with have < need <= wire length |
| Codec.FramesUnique | src/codec.rs:153-270 | a byte stream is the concatenation of at most one packet sequence |
| Corruption.SingleByteCorruption | src/codec.rs:199-270 | replacing one byte anywhere, whatever follows the frame, is rejected, never Incomplete, if and only if it is not a 0x00/0xFF exchange in a summed byte, or is one in the length field whose covered bytes do not check out |
| Corruption.BlindByteAccepted | src/codec.rs:199-270 | that exchange in sync, protocol/type or payload always decodes, to a different packet |
| Corruption.LengthByteCorruption | src/codec.rs:219-259 | the exchange in a length byte, whatever follows: zero length drops the payload, a length past the buffer is Incomplete, any other succeeds if and only if the covered bytes match their checksum field |
| Corruption.PayloadSwap | src/codec.rs:250-259 | exchanging two payload bytes passes the decoder if and only if 255 divides d*(x-y) |
| Scanner.ChunkInvariance | tests/fixtures/fake_device.rs:99-128 | scanning a++b is scanning a, then b after what a left over |
| Scanner.AnyChunking | tests/fixtures/fake_device.rs:99-128 | any partition of the stream yields the same packets and the same remainder |
| Scanner.ScanFrames | tests/fixtures/fake_device.rs:101-112 | back-to-back frames are all handled, in order, with nothing left over |
| Scanner.ResyncAfterGarbage | tests/fixtures/fake_device.rs:114-125 | bytes without the token byte, then frames, in any chunks: the garbage is skipped exactly |
| Text.StripLineEndingsLoop | src/session.rs:458-464 | the backward index loop drops exactly the trailing CR and LF bytes |
| SessionInvariants.RunKeeps | src/session.rs:215-455 | the invariant (FIFO, fitting outcomes, in-flight slot, stuttering outbound, timers, numbers, reported events) holds in every reachable state |
| SessionTheorems.Conservation | src/session.rs:241-308 | enqueued = resolved ++ in flight ++ queued, in order; idle means nothing queued; Ack and Timeout events name the resolved packets in order |
| SessionTheorems.HandshakeFirst | src/session.rs:266-279 | until an ss has been received only handshake frames are dispatched |
| SessionTheorems.RetransmitBound | src/session.rs:437-455 | r >= 1 retransmissions of a packet satisfy r * response timeout < total timeout, for all tick times |
| SessionTheorems.DefaultRetransmitBound | src/session.rs:35-38 | with the default timeouts a packet is transmitted at most 20 times |
| SessionTheorems.TransmissionsReached | src/session.rs:35-38 | every number of transmissions from 1 to 20 is reached by some run |
| SessionTheorems.DueTicksRetransmit | src/session.rs:450-454 | each tick a response timeout after the last transmission and within budget pushes exactly one identical copy and raises nothing |
| SessionTheorems.SyncAccounting | src/session.rs:390-414 | however many ss have come, the counter is the last ss number plus the Ack events after the last Synced event, mod 256; under a single ss each data packet got that number plus the acks before it |
| SessionTheorems.AckNamesByteTwo | src/session.rs:292-308 | an Ack names byte 2 of the frame it closes, and never closes a handshake |
| SessionTheorems.SsDuringFlight | src/session.rs:390-424 | over every run without reset that keeps a dispatched data packet in flight: number and bytes stay; counter and packet disagree if and only if an ss came whose last number was another; its ok is still accepted and steps on from the counter |
| SessionTheorems.OutboundDecodes | src/session.rs:292-308 | all bytes ever pushed to outbound, in any chunks, decode to the dispatched packets in order, copies contiguous; what outbound holds is the end of what was pushed |
| SessionTheorems.PoppedThenPending | src/session.rs:312-314 | over every run without reset, the frames popped and then those still in outbound are what it held before and what was pushed since, in order |
| SessionTheorems.LineChunkInvariance | src/session.rs:323-334 | any partition of the received bytes leaves the same session |
| SessionTheorems.NoNewlineBuffered | src/session.rs:323-334 | the line buffer never holds a newline between calls |
| SessionTheorems.DeadPeerDrains | src/session.rs:437-449 | overdue ticks time out every outstanding packet once, in order, under an unchanged counter, and leave the session idle |
| Pacing.SentAgainWhenDue | src/session.rs:437-455 | over every run without reset that leaves a packet in flight: it was sent again at exactly the ticks that were the first to come a response timeout after the transmission before, each time once and unchanged, and no tick came after the total timeout |
| Pacing.EarlyThenDue | src/session.rs:450-454 | ticks before both timeouts, however many and whatever happens between them, leave the packet in flight as it was; the first due tick after them sends exactly one copy |
| Pacing.TransmittedAtLeast | src/session.rs:437-455 | ticked at most g apart for D from its dispatch and still in flight, a packet has been transmitted at least D / (response timeout + g) times more than at the start |
| Pacing.GivenUpWhenOverdue | src/session.rs:443-449 | with nothing received, a packet is still in flight if and only if no tick has come after the total timeout |
| Pacing.ClocksStart | src/session.rs:292-308 | both clocks of a packet start at the instant given to the operation that dispatched it, be that a send, a line received or a tick that gave up the packet before |
| LineMeaning.TextPassedOn | src/session.rs:357-361 | a non-empty UTF-8 line that is not ok or rs with a number, does not start with ss and is not exactly fe raises that text and changes nothing else |
| LineMeaning.GarbageDropped | src/session.rs:361-363 | such a line that is not UTF-8, or an empty one, changes nothing |
| LineMeaning.FatalOnlyFe | src/session.rs:353-356 | over every run, a fatal error is raised if and only if a complete line received is exactly fe |
| LineMeaning.RunTells | src/session.rs:323-365 | over every run, however the bytes were cut, the events that do not depend on the packet in flight are exactly what the complete lines received say, in order |
| LineMeaning.StrayOk | src/session.rs:368-373 | an ok with no packet in flight only raises the text ok<n> |
| LineMeaning.WrongOk | src/session.rs:374-389 | an ok that answers a handshake or names another number only reports the expected and the received number |
| LineMeaning.NumberRead | src/session.rs:474-484 | the number of an ok or rs line is read if and only if the rest is UTF-8 that, trimmed, is digits below 256 with or without a plus sign |
| LineMeaning.SyncRead | src/session.rs:396-412 | an ss line is accepted if and only if it is UTF-8 with two comma-free fields that write 16-bit numbers before a version, and then with these values |
| LineMeaning.StripExact | src/session.rs:458-464 | exactly the CR and LF bytes at the end of a line are removed |
| SessionClass.Session.constructor | src/session.rs:145-174 | a fresh session, reached by no operations |
| SessionClass.Session.Reset | src/session.rs:226-236 | back to the construction state, timeouts kept |
| SessionClass.Session.Connect | src/session.rs:241-244 | enqueues the handshake and dispatches it if idle |
| SessionClass.Session.Send | src/session.rs:266-279 | enqueues a data packet and dispatches it if idle, keeping the invariant |
| SessionClass.Session.Build | src/session.rs:108-117 | the bytes built at dispatch are the frame of the request under the given number; neither validation can fail |
| SessionClass.Session.DispatchIfIdle | src/session.rs:292-308 | performs the dispatch transition |
| SessionClass.Session.PollOutbound | src/session.rs:312-314 | pops the oldest pending frame |
| SessionClass.Session.PollEvent | src/session.rs:433-435 | pops the oldest event |
| SessionClass.Session.Feed | src/session.rs:323-334 | the draining loop accepts exactly the complete lines of buffer ++ chunk, in order, and keeps the rest |
| SessionClass.Session.ProcessLine | src/session.rs:336-365 | acts on what the line says, dropping or passing on everything else; LineMeaning tells from the bytes what that is |
| SessionClass.Session.HandleOk | src/session.rs:367-394 | performs the ok transition |
| SessionClass.Session.HandleSs | src/session.rs:396-430 | synchronises exactly when the line parses, else changes nothing |
| SessionClass.Session.ParseSyncReply | src/session.rs:396-412 | two trimmed u16 fields and a trimmed rest that keeps its commas |
| SessionClass.Session.Tick | src/session.rs:439-455 | performs the timeout and retransmission transition; Pacing tells when that sends, gives up or does nothing |
| Replies.OkRoundTrip | src/session.rs:337-342 | a printed ok line is read back as an acknowledgement of that number |
| Replies.ResendRoundTrip | src/session.rs:343-348 | a printed rs line only raises an event |
| Replies.SyncRoundTrip | tests/fixtures/fake_device.rs:150-157 | a printed ss line recovers sync mod 256, block size and the trimmed version, for every newline-free version |
| Replies.VersionRoundTrip | tests/fixtures/fake_device.rs:165-173 | a printed version line arrives as one text line and leaves exactly that version and compression pending |
| Replies.CompressionRoundTrip | src/file_transfer.rs:562-578 | every advertised compression is parsed back exactly, for all window and lookahead bytes |
| Replies.OpenRoundTrip | tests/fixtures/fake_device.rs:174-186 | the device reads back dummy flag and compression byte, and the whole file name if and only if it has no zero byte |
| Arq.ExactlyOnce | src/session.rs:367-394 | over lossy FIFO channels, with any text and rs lines between the acknowledgements and replies read in any chunks, through all retransmissions, repeats and counter wraps and up to the first Timeout: accepted is a prefix of sent, numbered in order, as long as the acks or one longer |
| Arq.IdleMeansDelivered | src/session.rs:390-393 | an idle host means everything sent was accepted exactly once |
| Arq.ActKeeps | src/session.rs:292-308 | every single send, tick, loss, delivery, line of text and chunk read keeps the link invariant, unless a packet is given up |
| ArqTimeout.TimeoutBreaksDelivery | src/session.rs:443-448 | every run that gives a packet up, whatever is dispatched next, continues to one where that packet is acknowledged to the host but was accepted in the dropped one's place or never |
| ArqTimeout.HarmlessUntilNextSend | src/session.rs:443-448 | after giving up, until the next send, what is accepted stays a prefix of what was sent, lacking at most the dropped packet |
| ArqTimeout.BothWays | src/session.rs:292-308 | from every start both cases arise: the frame lost, or only its reply |
| Progress.HandshakeIsInStep | src/session.rs:396-430 | connecting and one ss line reach, by a run, a start from which exactly-once delivery applies |
| Progress.PromptPeerDelivers | src/session.rs:241-308 | for every list of data packets some run dispatches each once, in order, and has each acknowledged, so the promised wire trace is attained |
| TransferSpec.ChooseCompression | src/file_transfer.rs:536-554 | refused exactly when heatshrink is demanded and not offered; otherwise the result is what the request permits, never Auto, and never heatshrink the device lacks |
| Replies.CompressionParsed | src/file_transfer.rs:562-578 | heatshrink with parameters a, b if and only if the trimmed text is the prefix and two fields that read as these bytes, further fields ignored; otherwise no compression |
| TransferInvariants.CallsKeep | src/file_transfer.rs:185-366 | machine and session stay coupled over every sequence of calls |
| TransferInvariants.EventKeeps | src/file_transfer.rs:348-366 | reading one session event keeps machine and session coupled |
| TransferTheorems.OneOutstandingRequest | src/file_transfer.rs:212-305 | nothing is ever queued; an awaiting machine has exactly one request in flight or one closing event unread; a settled or finished one has none |
| TransferTheorems.EventLanguage | src/file_transfer.rs:426-523 | the events are a prefix of Negotiated Opened WriteAcked* (Closed or AbortAcked), then only failures; WriteAcked trails the writes by at most one |
| TransferTheorems.NoAckSwallowed | src/file_transfer.rs:340-366 | in every poll of every reachable state, an Ack met in an awaiting state, whatever was read before it, yields exactly one event and leaves the state; stray text never meets AwaitingWriteAck |
| TransferTheorems.FailedAbsorbs | src/file_transfer.rs:556-559 | failure is final |
| TransferTheorems.PollAnswer | src/file_transfer.rs:340-366 | a progress answer is the awaited one and comes from the first Ack with nothing breaking before it; the machine has failed behind it if and only if a fatal, out-of-sync or timeout event follows that Ack |
| Grounds.AnswerIsVerdict | src/file_transfer.rs:340-523 | in every reachable awaiting state: a poll answers if and only if an Ack, fatal, out-of-sync or timeout event has been read since the request, and the first of them decides; behind an Ack the last result line of that request decides, and a bare ok to QUERY, OPEN, CLOSE or ABORT is a protocol violation |
| Grounds.SuccessWasSaid | src/file_transfer.rs:426-516 | Opened, Closed and AbortAcked are answered only if PFT:success was read since that request, Negotiated only if a version line with that version was, and with the compression it and the query agree on |
| Unreported.OpenedYetFailed | src/file_transfer.rs:340-366 | from every session at rest, given calls and received bytes end in a poll that answers Opened on a failed machine; write and close are then refused |
| Unreported.ClosedYetFailed | src/adapters/blocking.rs:127-163 | the same behind CLOSE: poll answers Closed on a failed machine, the control CLOSE is accepted, and its Ack is the next event |
| FileTransferClass.FileTransfer.constructor | src/file_transfer.rs:189-200 | a new machine over the borrowed session |
| FileTransferClass.FileTransfer.Query | src/file_transfer.rs:212-221 | performs the QUERY transition |
| FileTransferClass.FileTransfer.Open | src/file_transfer.rs:232-249 | packs the payload and performs the OPEN transition |
| FileTransferClass.FileTransfer.Write | src/file_transfer.rs:264-272 | performs the WRITE transition |
| FileTransferClass.FileTransfer.Close | src/file_transfer.rs:280-288 | performs the CLOSE transition |
| FileTransferClass.FileTransfer.Abort | src/file_transfer.rs:297-305 | performs the ABORT transition |
| FileTransferClass.FileTransfer.Poll | src/file_transfer.rs:340-346 | the loop handles every session event in order, then pops one file event |
| FileTransferClass.FileTransfer.HandleAsciiLine | src/file_transfer.rs:368-424 | performs the text-line transition, gated by the state |
| FileTransferClass.FileTransfer.HandleAck | src/file_transfer.rs:426-523 | performs the ack transition; Grounds.AnswerIsVerdict tells what it comes to |
| Conversation.QueryExchange | src/file_transfer.rs:426-452 | the device's answer to QUERY makes the host report its version and the agreed compression, or the refusal to agree, and leaves the session settled |
| Conversation.OpenExchange | src/file_transfer.rs:453-472 | the device's answer to OPEN makes the host report Opened, or busy, or fail, exactly as the device decided |
| Conversation.WriteExchange | src/file_transfer.rs:473-476 | the device stores the payload of a WRITE and the host reports WriteAcked, ready for the next |
| Conversation.TerminalExchange | src/file_transfer.rs:487-516 | the answer to CLOSE or ABORT finishes the transfer, and a bare ok without result line is a protocol violation |
| Conversation.CloseRefused | src/file_transfer.rs:487-505 | PFT:ioerror and PFT:invalid with their ok reach the caller as the I/O error and the missing open file |
| Conversation.BareOk | src/file_transfer.rs:447-516 | an ok with no result line before it answers QUERY, OPEN, CLOSE and ABORT with a protocol violation in that state, on a failed machine |
| Conversation.RequestOnWire | src/file_transfer.rs:212-305 | in every reachable state a request goes out at once as the single frame of a file-transfer packet of its type, 0 to 4, under the counter's number |
| Conversation.ResendOnce | tests/fixtures/fake_device.rs:140-147 | asked once to have a packet resent, the device only says so, and handles the next copy as usual |
| ClosedLoop.UploadSucceeds | src/adapters/blocking.rs:59-139 | for every well-behaved device, agreed compression, fitting name and chunks some play reaches the end: the expected events, exactly the payload stored, file closed, binary mode left, the promised wire trace with each packet sent once |
| ClosedLoop.PlaysKeep | src/session.rs:215-455 | every play of host and device keeps the session invariant |
| DeviceSpec.PeerChunkInvariance | tests/fixtures/fake_device.rs:99-128 | any partition of the host's bytes leaves the same device state |
| DeviceClass.FakeDevice.Feed | tests/fixtures/fake_device.rs:99-128 | the loop handles exactly the scanned packets, keeps the remainder, and terminates by buffer length |
| DeviceClass.FakeDevice.Handle | tests/fixtures/fake_device.rs:140-225 | performs the device's transition and reply |
| UploadSpec.ResolveChunkSize | src/adapters/common.rs:25-36 | the greatest size within the device's block size (256 when it reported none) and within what was asked for; never zero, never more than a packet carries |
| UploadSpec.ChunksCover | src/adapters/blocking.rs:113-125 | every chunk but the last has the size asked for and none is empty; they join to the payload and number ceil(len / size) |
| UploadInvariants.TraceComplete | src/adapters/blocking.rs:59-139 | everything enqueued, settled without timeout and flushed is the promised wire trace |
| UploadDriver.DriveSessionUntilSynced | src/adapters/blocking.rs:183-223 | success means the first deciding event read is a Synced, the handshake settled, nothing unwritten, and one tick for each read but the last; HandshakeFailed means 200 rounds of this loop, each a read and a tick, and no deciding event read; a transfer error is the first breaking event read; an I/O error is a failed read or write, and nothing else lets one pass |
| UploadDriver.DriveUntilNegotiated | src/adapters/blocking.rs:225-252 | success means the last poll answered Negotiated with the compression returned, which the request permits, and everything was written, with one tick for each read but the last; Stalled means 200 reads, polls and ticks since the request with no answer, the machine where it was and still awaiting; other errors are the answer or a failed read or write |
| UploadDriver.DriveUntilEvent | src/adapters/blocking.rs:254-283 | success means the last poll gave the awaited answer, one WriteAcked more if that was awaited, the machine is in its state or failed behind it, and there was one tick for each read but the last; Stalled means 200 reads, polls and ticks since the request with no answer, the machine where it was and still awaiting; other errors are the answer or a failed read or write |
| UploadDriver.DriveSessionUntilIdle | src/adapters/blocking.rs:141-181 | success means the first deciding event read since the control CLOSE is an Ack, none was given up, nothing is unwritten, and one tick for each read but the last; Stalled means 200 rounds, each a read and a tick, after which no deciding event was read and the ack is still owed; a transfer error is the first breaking event read |
| UploadDriver.WriteChunks | src/adapters/blocking.rs:113-125 | one WriteAcked produced per chunk counted, also when a failed transfer refuses the next; when it passes, one WRITE per chunk enqueued and the counters are those of all chunks |
| UploadDriver.Upload | src/adapters/blocking.rs:59-139 | for every transport and clock, along the run that received exactly what was read, when the clock said so, with everything pushed written before each read and tick and every event read before each tick: a finished upload wrote the trigger and the frames of SYNC, QUERY, OPEN, WRITE per chunk, CLOSE, control CLOSE, each 1 to 20 times in a row, all but the handshake acknowledged; the WRITEs carry the source untouched, or what the compressor made of it with the agreed window and lookahead, in full chunks but the last, by the block size at the first Synced; the statistics are exact, and reads are ticks plus one for each of the N + 5 loops; the compression asked for is the caller's; a panic if and only if the next request's assertion fails; a failed read or write always ends it with the I/O error, HandshakeFailed means no deciding event in 200 rounds, Stalled 200 polls and ticks since the last request with none answered or 200 rounds with the control CLOSE unacknowledged, CompressionError only that the compressor failed, and every other error has its cause; an answered failure is the error returned; whatever the result, the bytes written begin the trigger and the frames dispatched, and the packets dispatched begin the plan |
| UploadDriver.MakePayload | src/adapters/blocking.rs:97-111 | the source untouched without compression, otherwise what the compressor makes of it with the agreed window and lookahead, or its error |
| EndToEnd.UploadNumbers | src/adapters/blocking.rs:77-136 | with a single ss carrying s0, packet i went out as s0+i-1 and N chunks end at s0+N+4, mod 256 |
| EndToEnd.UploadDecodes | tests/fixtures/fake_device.rs:99-128 | the written bytes, in any chunks, decode to exactly the planned packets, the trigger skipped |
| EndToEnd.StoredPayload | tests/fixtures/fake_device.rs:206-210 | the device closes the file, leaves binary mode, and has stored the payload if and only if no WRITE was retransmitted |
| Delivery.DeviceLinesAreHarmless | tests/fixtures/fake_device.rs:140-225 | the version line and the rs and result lines the device writes between acknowledgements are lines the link may carry |
| Delivery.PlanAccepted | src/adapters/blocking.rs:59-139 | over every lossy run from the handshake on, when the session's books show the plan delivered, a number-checking receiver has accepted exactly its packets, in order, under consecutive numbers, each once, whatever was retransmitted |
| Delivery.UploadDelivered | src/adapters/blocking.rs:59-139 | so a finished upload over such a link leaves the device holding exactly the source, or what the compressor made of it with the agreed window and lookahead, in a file opened under the name, dummy flag and compression flag asked for, the file closed and binary mode left |
| Delivery.DeliveredOverLink | src/session.rs:241-308 | from right after any handshake, every list of requests is delivered by some run over the link, with any harmless line before each ok |

## Left out

- `src/compression.rs`: calls a foreign compressor; any function stands for it, its error included.
- `src/adapters/tokio.rs`: the same drive loops with asynchronous plumbing.
- `src/adapters/serialport.rs`, examples, benches, the fuzz target, progress callbacks and error texts: I/O, user interface or thin wrappers.
- Partial writes: a write fault ends the upload with an error and nothing is claimed about the bytes of the failed call.
- UploadDriver.Upload: the stages of the function and the bodies of the drive loops are separate methods, because a single body is too large to verify; their order, checks and errors are those of the source.
- UploadDriver.DriveUntilEvent: the inner loop over poll is a single step, since the first answer that is not None is a failure or the awaited event; likewise in DriveUntilNegotiated.
- ClosedLoop.UploadSucceeds: the play is one without loss, delay or unusual device behaviour; what loss does is the subject of Arq and EndToEnd.StoredPayload.
- Texts of errors: a protocol violation carries the state, not the wording of the expected preamble.
- DeviceClass.FakeDevice.Handle: the file name is kept as bytes; the lossy conversion to text is not modelled.
- Loss over the link of Arq is of whole frames and whole reply lines; a reply of which a part was read is not lost. Corruption states what the codec detects of damage inside a frame.
- An ss or fatal line after the handshake is not part of Arq.ExactlyOnce, which starts in step; SessionTheorems.SyncAccounting and SsDuringFlight cover later ss lines.
- The receiver of Arq suppresses duplicates, which the fake device does not; EndToEnd.StoredPayload shows what follows without that.
- `u64` statistics are unbounded naturals.
