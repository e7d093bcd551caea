/**
 * The session state machine on values: the state, the history of a run, and
 * what every operation does to both. The class in Session.dfy implements these
 * transitions; the history is ghost state there and no decision reads it.
 */
module SessionSpec {
  import opened Prelude
  import opened Codec
  import opened Text

  const DEFAULT_RESPONSE_TIMEOUT: nat := 1000
  const DEFAULT_TOTAL_TIMEOUT: nat := 20000

  type Nibble = x: int | 0 <= x <= 15
  type Payload = s: bytes | |s| <= MAX_PAYLOAD

  /** A packet waiting for its sync number. */
  datatype Request = Request(protocol: Nibble, packetType: Nibble, payload: Payload, isHandshake: bool)

  const HANDSHAKE := Request(0, 1, [], true)

  function PacketOf(r: Request, sync: byte): (p: Packet)
    ensures Encodable(p)
  {
    Packet(sync, r.protocol, r.packetType, r.payload)
  }

  function Wire(r: Request, sync: byte): bytes {
    Frame(PacketOf(r, sync))
  }

  datatype InFlight = InFlight(sync: byte, frame: bytes, firstSent: int, lastSent: int, isHandshake: bool)

  datatype Event =
    | Synced(maxBlockSize: u16, protocolVersion: bytes)
    | Ack(n: byte)
    | ResendRequested(n: byte)
    | AsciiLine(text: bytes)
    | FatalError
    | OutOfSync(expected: byte, got: byte)
    | Timeout(sync: byte)

  /** How a dispatched request left the in-flight slot. */
  datatype Outcome = Acked(n: byte) | Synchronized | TimedOut(n: byte)

  /** A request, the sync number it got, and how often its frame was pushed to outbound. */
  datatype Dispatch = Dispatch(request: Request, sync: byte, copies: nat)

  /** Everything since construction or the last reset; `resolved[i]` is the fate of `dispatched[i]`. */
  datatype History = History(
    enqueued: seq<Request>,
    dispatched: seq<Dispatch>,
    resolved: seq<Outcome>,
    emitted: seq<bytes>,
    raised: seq<Event>,
    base: byte,
    acksSinceBase: nat,
    handshakes: nat)

  const NO_HISTORY := History([], [], [], [], [], 0, 0, 0)

  /** The session without its line buffer. */
  datatype Core = Core(
    sync: byte,
    isSynced: bool,
    maxBlockSize: Option<u16>,
    protocolVersion: Option<bytes>,
    inFlight: Option<InFlight>,
    queued: seq<Request>,
    outbound: seq<bytes>,
    events: seq<Event>,
    responseTimeout: nat,
    totalTimeout: nat,
    hist: History)

  datatype Host = Host(core: Core, inbound: bytes)

  function Fresh(responseTimeout: nat, totalTimeout: nat): Host {
    Host(Core(0, false, None, None, None, [], [], [], responseTimeout, totalTimeout, NO_HISTORY), [])
  }

  function Reset(h: Host): Host {
    Fresh(h.core.responseTimeout, h.core.totalTimeout)
  }

  /** `Instant::saturating_duration_since`. */
  function Elapsed(now: int, since: int): nat {
    if now > since then now - since else 0
  }

  function Raise(c: Core, e: Event): Core {
    c.(events := c.events + [e], hist := c.hist.(raised := c.hist.raised + [e]))
  }

  function Resolve(c: Core, o: Outcome): Core {
    c.(inFlight := None, hist := c.hist.(resolved := c.hist.resolved + [o]))
  }

  function Enqueue(c: Core, r: Request): Core {
    c.(queued := c.queued + [r], hist := c.hist.(enqueued := c.hist.enqueued + [r]))
  }

  function DispatchIfIdle(c: Core, now: int): Core {
    if c.inFlight.Some? || c.queued == [] then c
    else
      var r := c.queued[0];
      var frame := Wire(r, c.sync);
      c.(queued := c.queued[1..],
         outbound := c.outbound + [frame],
         inFlight := Some(InFlight(c.sync, frame, now, now, r.isHandshake)),
         hist := c.hist.(dispatched := c.hist.dispatched + [Dispatch(r, c.sync, 1)],
                         emitted := c.hist.emitted + [frame]))
  }

  function Submit(c: Core, r: Request, now: int): Core {
    DispatchIfIdle(Enqueue(c, r), now)
  }

  // ----- Inbound lines -----

  const OK: bytes := [111, 107]
  const RS: bytes := [114, 115]
  const SS: bytes := [115, 115]
  const FE: bytes := [102, 101]

  /** What one stripped, non-empty line says. */
  datatype Line =
    | OkLine(n: byte)
    | ResendLine(n: byte)
    | SyncLine(sync: u16, maxBlockSize: u16, version: bytes)
    | FatalLine
    | TextLine(text: bytes)
    | Ignored

  function ParseDecimalU8(b: bytes): Option<byte> {
    if b == [] || !ValidUtf8(b) then None
    else
      match ParseUnsigned(Trim(b), 0xFFFF_FFFF)
      case None => None
      case Some(n) => if n > 255 then None else Some(n)
  }

  function ParseSync(rest: bytes): Option<(u16, u16, bytes)> {
    if !ValidUtf8(rest) then None
    else
      match SplitOnce(rest, COMMA)
      case None => None
      case Some((sync, more)) =>
        match SplitOnce(more, COMMA)
        case None => None
        case Some((size, version)) =>
          match (ParseUnsigned(Trim(sync), 65535), ParseUnsigned(Trim(size), 65535))
          case (Some(s), Some(m)) => Some((s, m, Trim(version)))
          case _ => None
  }

  function Classify(line: bytes): Line {
    if OK <= line && ParseDecimalU8(line[2..]).Some? then OkLine(ParseDecimalU8(line[2..]).value)
    else if RS <= line && ParseDecimalU8(line[2..]).Some? then ResendLine(ParseDecimalU8(line[2..]).value)
    else if SS <= line then
      match ParseSync(line[2..])
      case Some((s, m, v)) => SyncLine(s, m, v)
      case None => Ignored
    else if line == FE then FatalLine
    else if ValidUtf8(line) then TextLine(line)
    else Ignored
  }

  function HandleOk(c: Core, n: byte, now: int): Core {
    match c.inFlight
    case None => Raise(c, AsciiLine(OK + Decimal(n)))
    case Some(f) =>
      if f.isHandshake || n != f.sync then Raise(c, OutOfSync(f.sync, n))
      else
        var d := Resolve(c, Acked(n));
        var e := d.(sync := (c.sync + 1) % 256,
                    hist := d.hist.(acksSinceBase := d.hist.acksSinceBase + 1));
        DispatchIfIdle(Raise(e, Ack(n)), now)
  }

  /** A new number, block size and version; a handshake in flight is settled. */
  function Renumbered(c: Core, sync: u16, maxBlockSize: u16, version: bytes): Core {
    var b := c.(sync := sync % 256, isSynced := true,
                maxBlockSize := Some(maxBlockSize), protocolVersion := Some(version),
                hist := c.hist.(base := sync % 256, acksSinceBase := 0,
                                handshakes := c.hist.handshakes + 1));
    if c.inFlight.Some? && c.inFlight.value.isHandshake then Resolve(b, Synchronized) else b
  }

  function Synchronize(c: Core, sync: u16, maxBlockSize: u16, version: bytes, now: int): Core {
    DispatchIfIdle(Raise(Renumbered(c, sync, maxBlockSize, version), Synced(maxBlockSize, version)), now)
  }

  function ProcessLine(c: Core, line: bytes, now: int): Core {
    match Classify(line)
    case OkLine(n) => HandleOk(c, n, now)
    case ResendLine(n) => Raise(c, ResendRequested(n))
    case SyncLine(s, m, v) => Synchronize(c, s, m, v, now)
    case FatalLine => Raise(c, FatalError)
    case TextLine(t) => Raise(c, AsciiLine(t))
    case Ignored => c
  }

  /** One newline-terminated line as it sits in the buffer. */
  function AcceptLine(c: Core, raw: bytes, now: int): Core {
    var line := StripLineEndings(raw);
    if line == [] then c else ProcessLine(c, line, now)
  }

  function AcceptLines(c: Core, lines: seq<bytes>, now: int): Core
    decreases |lines|
  {
    if lines == [] then c else AcceptLines(AcceptLine(c, lines[0], now), lines[1..], now)
  }

  /** The complete lines of a buffer, newlines included. */
  function Lines(buf: bytes): seq<bytes>
    decreases |buf|
  {
    var pos := IndexOf(buf, LF);
    if pos == |buf| then [] else [buf[..pos + 1]] + Lines(buf[pos + 1..])
  }

  /** The incomplete line at the end of a buffer. */
  function Rest(buf: bytes): (r: bytes)
    ensures LF !in r
    decreases |buf|
  {
    var pos := IndexOf(buf, LF);
    if pos == |buf| then buf else Rest(buf[pos + 1..])
  }

  function Feed(h: Host, chunk: bytes, now: int): Host {
    var buf := h.inbound + chunk;
    Host(AcceptLines(h.core, Lines(buf), now), Rest(buf))
  }

  // ----- Timers and polling -----

  /** The last dispatch, pushed to outbound once more. */
  function Recopied(ds: seq<Dispatch>): seq<Dispatch> {
    if ds == [] then []
    else
      var k := |ds| - 1;
      ds[..k] + [ds[k].(copies := ds[k].copies + 1)]
  }

  function Tick(c: Core, now: int): Core {
    match c.inFlight
    case None => c
    case Some(f) =>
      if Elapsed(now, f.firstSent) >= c.totalTimeout then
        DispatchIfIdle(Raise(Resolve(c, TimedOut(f.sync)), Timeout(f.sync)), now)
      else if Elapsed(now, f.lastSent) >= c.responseTimeout then
        c.(outbound := c.outbound + [f.frame],
           inFlight := Some(f.(lastSent := now)),
           hist := c.hist.(dispatched := Recopied(c.hist.dispatched),
                           emitted := c.hist.emitted + [f.frame]))
      else c
  }

  function Tail<T>(s: seq<T>): seq<T> {
    if s == [] then [] else s[1..]
  }

  function Head<T>(s: seq<T>): Option<T> {
    if s == [] then None else Some(s[0])
  }

  // ----- Runs -----

  datatype Op =
    | OpConnect(now: int)
    | OpSend(protocol: byte, packetType: byte, payload: bytes, now: int)
    | OpFeed(chunk: bytes, now: int)
    | OpTick(now: int)
    | OpPollOutbound
    | OpPollEvent
    | OpReset

  /** The assertions of `send`; every other operation is always allowed. */
  predicate Allowed(h: Host, op: Op) {
    op.OpSend? ==>
      h.core.isSynced && op.protocol <= 15 && op.packetType <= 15 && |op.payload| <= MAX_PAYLOAD
  }

  function Step(h: Host, op: Op): Host
    requires Allowed(h, op)
  {
    match op
    case OpConnect(now) => h.(core := Submit(h.core, HANDSHAKE, now))
    case OpSend(p, t, d, now) => h.(core := Submit(h.core, Request(p, t, d, false), now))
    case OpFeed(chunk, now) => Feed(h, chunk, now)
    case OpTick(now) => h.(core := Tick(h.core, now))
    case OpPollOutbound => h.(core := h.core.(outbound := Tail(h.core.outbound)))
    case OpPollEvent => h.(core := h.core.(events := Tail(h.core.events)))
    case OpReset => Reset(h)
  }

  /** None when an operation panics. */
  function Run(h: Host, ops: seq<Op>): Option<Host>
    decreases |ops|
  {
    if ops == [] then Some(h)
    else if !Allowed(h, ops[0]) then None
    else Run(Step(h, ops[0]), ops[1..])
  }
}
