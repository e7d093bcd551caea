/**
 * The file-transfer state machine on values, over the session of SessionSpec.
 * `produced`, `writes` and `consumed` are history; no decision reads them.
 */
module TransferSpec {
  import opened Prelude
  import opened Codec
  import opened Text
  import opened SessionSpec

  datatype Compression = NoCompression | Heatshrink(window: byte, lookahead: byte) | Auto

  datatype FileError =
    | OpenBusy
    | OpenFail
    | IoError
    | NoOpenFile
    | SessionTimeout
    | SessionFatalError
    | SessionOutOfSync(expected: byte, got: byte)
    | CompressionUnsupported
    | ProtocolViolation(state: State)

  datatype FileEvent =
    | EvNegotiated(version: bytes, compression: Compression)
    | EvOpened
    | EvWriteAcked
    | EvClosed
    | EvAbortAcked
    | EvFailed(error: FileError)

  datatype State =
    | Idle
    | AwaitingQueryReply
    | Negotiated
    | AwaitingOpenReply
    | Opened
    | AwaitingWriteAck
    | AwaitingCloseReply
    | Closed
    | AwaitingAbortReply
    | Aborted
    | Failed

  /** The text half of a two-part reply, waiting for its ok<n>. */
  datatype Pending =
    | QueryVersion(version: bytes, compression: Compression)
    | QueryFailed(error: FileError)
    | OpenSuccess
    | OpenBusyReply
    | OpenFailReply
    | CloseSuccess
    | CloseIoError
    | CloseInvalid
    | AbortSuccess

  datatype Machine = Machine(
    state: State,
    requested: Compression,
    negotiated: Option<Compression>,
    advertisedVersion: Option<bytes>,
    pending: Option<Pending>,
    outEvents: seq<FileEvent>,
    produced: seq<FileEvent>,
    writes: nat)

  datatype Transfer = Transfer(machine: Machine, session: Host)

  const PROTOCOL_FILE_TRANSFER: Nibble := 1
  const PT_QUERY: Nibble := 0
  const PT_OPEN: Nibble := 1
  const PT_CLOSE: Nibble := 2
  const PT_WRITE: Nibble := 3
  const PT_ABORT: Nibble := 4

  const NEW_MACHINE := Machine(Idle, NoCompression, None, None, None, [], [], 0)

  function FileRequest(packetType: Nibble, payload: Payload): Request {
    Request(PROTOCOL_FILE_TRANSFER, packetType, payload, false)
  }

  // ----- Requests -----

  function OpenPayload(negotiated: Option<Compression>, name: bytes, dummy: bool): (payload: bytes)
    ensures |payload| == |name| + 3
  {
    [if dummy then 1 else 0]
    + [if negotiated.Some? && negotiated.value.Heatshrink? then 1 else 0]
    + name + [0]
  }

  function SendOn(t: Transfer, packetType: Nibble, payload: Payload, now: int): Transfer {
    t.(session := t.session.(core := Submit(t.session.core, FileRequest(packetType, payload), now)))
  }

  function Query(t: Transfer, c: Compression, now: int): Transfer {
    SendOn(t.(machine := t.machine.(requested := c, state := AwaitingQueryReply)), PT_QUERY, [], now)
  }

  function Open(t: Transfer, payload: Payload, now: int): Transfer {
    SendOn(t.(machine := t.machine.(state := AwaitingOpenReply)), PT_OPEN, payload, now)
  }

  function Write(t: Transfer, chunk: Payload, now: int): Transfer {
    SendOn(t.(machine := t.machine.(state := AwaitingWriteAck, writes := t.machine.writes + 1)),
           PT_WRITE, chunk, now)
  }

  function Close(t: Transfer, now: int): Transfer {
    SendOn(t.(machine := t.machine.(state := AwaitingCloseReply)), PT_CLOSE, [], now)
  }

  function Abort(t: Transfer, now: int): Transfer {
    SendOn(t.(machine := t.machine.(state := AwaitingAbortReply)), PT_ABORT, [], now)
  }

  // ----- Replies -----

  /** "PFT:" */
  const PFT: bytes := [80, 70, 84, 58]
  /** "PFT:version:" */
  const PFT_VERSION: bytes := PFT + [118, 101, 114, 115, 105, 111, 110, 58]
  const PFT_SUCCESS: bytes := PFT + [115, 117, 99, 99, 101, 115, 115]
  const PFT_BUSY: bytes := PFT + [98, 117, 115, 121]
  const PFT_FAIL: bytes := PFT + [102, 97, 105, 108]
  const PFT_IOERROR: bytes := PFT + [105, 111, 101, 114, 114, 111, 114]
  const PFT_INVALID: bytes := PFT + [105, 110, 118, 97, 108, 105, 100]
  /** "none" */
  const NONE: bytes := [110, 111, 110, 101]
  /** "heatshrink," */
  const HEATSHRINK: bytes := [104, 101, 97, 116, 115, 104, 114, 105, 110, 107, 44]

  /** The first two comma-separated fields; None when there is only one. */
  function TwoFields(s: bytes): Option<(bytes, bytes)> {
    match SplitOnce(s, COMMA)
    case None => None
    case Some((first, more)) =>
      Some((first, if SplitOnce(more, COMMA).Some? then SplitOnce(more, COMMA).value.0 else more))
  }

  function ParseU8(s: bytes): (r: Option<byte>) {
    match ParseUnsigned(Trim(s), 255)
    case None => None
    case Some(n) => Some(n)
  }

  /** Never Auto; anything unknown counts as no compression. */
  function ParseCompression(spec: bytes): (c: Compression)
    ensures !c.Auto?
  {
    var s := Trim(spec);
    if s == NONE then NoCompression
    else if HEATSHRINK <= s then
      match TwoFields(s[|HEATSHRINK|..])
      case None => NoCompression
      case Some((w, l)) =>
        (match (ParseU8(w), ParseU8(l))
         case (Some(window), Some(lookahead)) => Heatshrink(window, lookahead)
         case _ => NoCompression)
    else NoCompression
  }

  /** The compressions a caller's request allows. */
  predicate Permits(requested: Compression, chosen: Compression) {
    match requested
    case NoCompression => chosen.NoCompression?
    case Heatshrink(_, _) => chosen == requested
    case Auto => !chosen.Auto?
  }

  /** Refused exactly when the caller insists on what the device does not speak. */
  function ChooseCompression(requested: Compression, device: Compression): (r: Result<Compression, FileError>)
    ensures r.Failure? <==> requested.Heatshrink? && !device.Heatshrink?
    ensures r.Success? ==> Permits(requested, r.value) && (r.value.Heatshrink? ==> device.Heatshrink?)
    ensures r.Success? && requested.Auto? && device.Heatshrink? ==> r.value == device
  {
    match (requested, device)
    case (NoCompression, _) => Success(NoCompression)
    case (Heatshrink(w, l), Heatshrink(_, _)) => Success(requested)
    case (Heatshrink(_, _), _) => Failure(CompressionUnsupported)
    case (Auto, Heatshrink(_, _)) => Success(device)
    case (Auto, _) => Success(NoCompression)
  }

  function Produce(m: Machine, e: FileEvent): Machine {
    m.(outEvents := m.outEvents + [e], produced := m.produced + [e])
  }

  function Fail(m: Machine, err: FileError): Machine {
    Produce(m.(state := Failed), EvFailed(err))
  }

  /** What a version line leaves pending until the ok<n> of QUERY. */
  function VersionPending(requested: Compression, device: Compression, version: bytes): Pending {
    match ChooseCompression(requested, device)
    case Success(chosen) => QueryVersion(version, chosen)
    case Failure(err) => QueryFailed(err)
  }

  function HandleVersion(m: Machine, rest: bytes): Machine {
    if !m.state.AwaitingQueryReply? then m
    else
      match SplitOnce(rest, COLON)
      case None => m
      case Some((version, spec)) =>
        m.(advertisedVersion := Some(version),
           pending := Some(VersionPending(m.requested, ParseCompression(spec), version)))
  }

  function HandleAsciiLine(m: Machine, line: bytes): Machine {
    if PFT_VERSION <= line then HandleVersion(m, line[|PFT_VERSION|..])
    else if line == PFT_SUCCESS then
      if m.state.AwaitingOpenReply? then m.(pending := Some(OpenSuccess))
      else if m.state.AwaitingCloseReply? then m.(pending := Some(CloseSuccess))
      else if m.state.AwaitingAbortReply? then m.(pending := Some(AbortSuccess))
      else m
    else if line == PFT_BUSY then
      if m.state.AwaitingOpenReply? then m.(pending := Some(OpenBusyReply)) else m
    else if line == PFT_FAIL then
      if m.state.AwaitingOpenReply? then m.(pending := Some(OpenFailReply)) else m
    else if line == PFT_IOERROR then
      if m.state.AwaitingCloseReply? then m.(pending := Some(CloseIoError)) else m
    else if line == PFT_INVALID then
      if m.state.AwaitingCloseReply? then m.(pending := Some(CloseInvalid)) else m
    else m
  }

  function HandleAck(before: Machine): Machine {
    var m := before.(pending := None);
    match (before.state, before.pending)
    case (AwaitingQueryReply, Some(QueryVersion(version, compression))) =>
      Produce(m.(negotiated := Some(compression), state := Negotiated), EvNegotiated(version, compression))
    case (AwaitingQueryReply, Some(QueryFailed(err))) => Fail(m, err)
    case (AwaitingQueryReply, None) => Fail(m, ProtocolViolation(AwaitingQueryReply))
    case (AwaitingOpenReply, Some(OpenSuccess)) => Produce(m.(state := Opened), EvOpened)
    case (AwaitingOpenReply, Some(OpenBusyReply)) => Fail(m, OpenBusy)
    case (AwaitingOpenReply, Some(OpenFailReply)) => Fail(m, OpenFail)
    case (AwaitingOpenReply, None) => Fail(m, ProtocolViolation(AwaitingOpenReply))
    case (AwaitingWriteAck, None) => Produce(m.(state := Opened), EvWriteAcked)
    case (AwaitingWriteAck, Some(_)) => Fail(m, ProtocolViolation(AwaitingWriteAck))
    case (AwaitingCloseReply, Some(CloseSuccess)) => Produce(m.(state := Closed), EvClosed)
    case (AwaitingCloseReply, Some(CloseIoError)) => Fail(m, IoError)
    case (AwaitingCloseReply, Some(CloseInvalid)) => Fail(m, NoOpenFile)
    case (AwaitingCloseReply, None) => Fail(m, ProtocolViolation(AwaitingCloseReply))
    case (AwaitingAbortReply, Some(AbortSuccess)) => Produce(m.(state := Aborted), EvAbortAcked)
    case (AwaitingAbortReply, None) => Fail(m, ProtocolViolation(AwaitingAbortReply))
    case _ => m
  }

  function HandleSessionEvent(m: Machine, e: Event): Machine {
    match e
    case AsciiLine(line) => HandleAsciiLine(m, line)
    case Ack(_) => HandleAck(m)
    case Synced(_, _) => m
    case ResendRequested(_) => m
    case FatalError => Fail(m, SessionFatalError)
    case OutOfSync(expected, got) => Fail(m, SessionOutOfSync(expected, got))
    case Timeout(_) => Fail(m, SessionTimeout)
  }

  function HandleEvents(m: Machine, es: seq<Event>): Machine
    decreases |es|
  {
    if es == [] then m else HandleEvents(HandleSessionEvent(m, es[0]), es[1..])
  }

  /** Drains every session event, then pops one file event. */
  function Drained(t: Transfer): Transfer {
    Transfer(HandleEvents(t.machine, t.session.core.events),
             t.session.(core := t.session.core.(events := [])))
  }

  function Poll(t: Transfer): (Transfer, Option<FileEvent>) {
    var d := Drained(t);
    (d.(machine := d.machine.(outEvents := Tail(d.machine.outEvents))), Head(d.machine.outEvents))
  }

  // ----- Runs -----

  datatype Call =
    | CallQuery(compression: Compression, now: int)
    | CallOpen(name: bytes, dummy: bool, now: int)
    | CallWrite(chunk: bytes, now: int)
    | CallClose(now: int)
    | CallAbort(now: int)
    | CallPollOutbound
    | CallFeed(chunk: bytes, now: int)
    | CallTick(now: int)
    | CallPoll

  /** The assertions of the five request methods and of the session's `send`. */
  predicate Callable(t: Transfer, c: Call) {
    match c
    case CallQuery(_, _) => t.machine.state.Idle? && t.session.core.isSynced
    case CallOpen(name, _, _) =>
      t.machine.state.Negotiated? && t.session.core.isSynced && |name| + 3 <= MAX_PAYLOAD
    case CallWrite(chunk, _) =>
      t.machine.state.Opened? && t.session.core.isSynced && |chunk| <= MAX_PAYLOAD
    case CallClose(_) => t.machine.state.Opened? && t.session.core.isSynced
    case CallAbort(_) => t.machine.state.Opened? && t.session.core.isSynced
    case _ => true
  }

  function Do(t: Transfer, c: Call): Transfer
    requires Callable(t, c)
  {
    match c
    case CallQuery(compression, now) => Query(t, compression, now)
    case CallOpen(name, dummy, now) => Open(t, OpenPayload(t.machine.negotiated, name, dummy), now)
    case CallWrite(chunk, now) => Write(t, chunk, now)
    case CallClose(now) => Close(t, now)
    case CallAbort(now) => Abort(t, now)
    case CallPollOutbound =>
      t.(session := t.session.(core := t.session.core.(outbound := Tail(t.session.core.outbound))))
    case CallFeed(chunk, now) => t.(session := Feed(t.session, chunk, now))
    case CallTick(now) => t.(session := t.session.(core := Tick(t.session.core, now)))
    case CallPoll => Poll(t).0
  }

  /** None when a call panics. */
  function Calls(t: Transfer, cs: seq<Call>): Option<Transfer>
    decreases |cs|
  {
    if cs == [] then Some(t)
    else if !Callable(t, cs[0]) then None
    else Calls(Do(t, cs[0]), cs[1..])
  }
}
