/** One request, the device's answer to it, and what the host's next poll says. */
module Conversation {
  import opened Prelude
  import opened Codec
  import opened Text
  import opened SessionSpec
  import opened TransferSpec
  import SessionTheorems
  import LineMeaning
  import TransferTheorems
  import TransferInvariants
  import Journal
  import D = DeviceSpec
  import Replies

  /** A machine in state s that has read everything, with its request in flight under number n. */
  predicate Waiting(t: Transfer, s: State, n: byte) {
    var m, c := t.machine, t.session.core;
    && m.state == s && m.pending.None? && m.outEvents == []
    && t.session.inbound == [] && c.events == [] && c.queued == []
    && c.inFlight.Some? && c.inFlight.value.sync == n && !c.inFlight.value.isHandshake
  }

  /** Feed the device's reply to the host and poll once. */
  function Heard(t: Transfer, reply: bytes, now: int): (Transfer, Option<FileEvent>) {
    Poll(t.(session := Feed(t.session, reply, now)))
  }

  /** A device without pending replies, not about to ask for this number again. */
  predicate Listening(d: D.Device, n: byte) {
    d.reply == [] && d.behaviour.resendOnceForSync != Some(n)
  }

  /** The packet in flight was acknowledged, and nothing else happened. */
  predicate Settling(c: Core, d: Core) {
    && c.inFlight.Some?
    && d == c.(sync := (c.sync + 1) % 256, inFlight := None, events := d.events,
               hist := c.hist.(resolved := c.hist.resolved + [Acked(c.inFlight.value.sync)],
                               acksSinceBase := c.hist.acksSinceBase + 1, raised := d.hist.raised))
  }

  /** The session after a conversation: the packet settled, every event read. */
  predicate Rested(h: Host, g: Host) {
    Settling(h.core, g.core) && g.core.events == [] && g.inbound == []
  }

  /** A line the session passes on as text. */
  predicate Plainly(line: bytes) {
    LF !in line && LineMeaning.Chat(line) && line[|line| - 1] != CR && ValidUtf8(line)
  }

  // ----- The answer on the host's side -----

  lemma OkSettles(c: Core, n: byte, now: int)
    requires c.queued == [] && c.inFlight.Some? && c.inFlight.value.sync == n && !c.inFlight.value.isHandshake
    ensures var d := HandleOk(c, n, now); Settling(c, d) && d.events == c.events + [Ack(n)]
  {
    hide Wire, Decimal;
  }

  lemma AckHeard(h: Host, n: byte, now: int)
    requires h.inbound == [] && h.core.queued == []
    requires h.core.inFlight.Some? && h.core.inFlight.value.sync == n && !h.core.inFlight.value.isHandshake
    ensures var g := Feed(h, D.OkText(n) + [LF], now);
            && g == Host(HandleOk(h.core, n, now), [])
            && Settling(h.core, g.core) && g.core.events == h.core.events + [Ack(n)]
  {
    hide Feed, D.OkText, HandleOk, Settling;
    Replies.OkRoundTrip(h, n, now);
    OkSettles(h.core, n, now);
  }

  lemma TextHeard(h: Host, line: bytes, now: int)
    requires h.inbound == [] && Plainly(line)
    ensures Feed(h, line + [LF], now) == Host(Raise(h.core, AsciiLine(line)), [])
  {
    hide Feed, StripLineEndings, ValidUtf8, LineMeaning.Chat;
    PlainlySomething(line);
    Replies.StripNewline(line);
    LineMeaning.TextPassedOn(h, line, now);
  }

  lemma PlainlySomething(line: bytes)
    requires LineMeaning.Chat(line)
    ensures line != []
  {
  }

  /** A bare ok<n>: the machine handles one ack. */
  lemma BareAnswer(t: Transfer, s: State, n: byte, now: int)
    requires Waiting(t, s, n)
    ensures var m, (u, r) := HandleAck(t.machine), Heard(t, D.OkText(n) + [LF], now);
            && u.machine == m.(outEvents := Tail(m.outEvents)) && r == Head(m.outEvents)
            && Rested(t.session, u.session)
  {
    hide Feed, D.OkText, HandleAck, HandleOk;
    AckHeard(t.session, n, now);
    assert t.session.core.events + [Ack(n)] == [Ack(n)];
    TransferTheorems.OneMoreEvent(t.machine, Ack(n));
  }

  /** A text line and ok<n>: the machine handles the line, then the ack. */
  lemma TextAnswer(t: Transfer, s: State, line: bytes, n: byte, now: int)
    requires Waiting(t, s, n) && Plainly(line)
    ensures var m := HandleAck(HandleAsciiLine(t.machine, line));
            var (u, r) := Heard(t, line + [LF] + D.OkText(n) + [LF], now);
            && u.machine == m.(outEvents := Tail(m.outEvents)) && r == Head(m.outEvents)
            && Rested(t.session, u.session)
  {
    hide Feed, D.OkText, HandleAck, HandleAsciiLine, Plainly, HandleOk, Settling, Raise;
    var h := Host(Raise(t.session.core, AsciiLine(line)), []);
    TextHeard(t.session, line, now);
    SessionTheorems.FeedTwice(t.session, line + [LF], D.OkText(n) + [LF], now);
    assert line + [LF] + D.OkText(n) + [LF] == (line + [LF]) + (D.OkText(n) + [LF]);
    AfterText(t.session.core, AsciiLine(line));
    AckHeard(h, n, now);
    SettledAfterText(t.session.core, AsciiLine(line), HandleOk(h.core, n, now));
    TwoEvents(t.machine, AsciiLine(line), Ack(n));
  }

  lemma AfterText(c: Core, e: Event)
    ensures var d := Raise(c, e);
            d.events == c.events + [e] && d.queued == c.queued && d.inFlight == c.inFlight
  {
  }

  lemma SettledAfterText(c: Core, e: Event, d: Core)
    requires Settling(Raise(c, e), d)
    ensures Settling(c, d) && Settling(c, d.(events := []))
  {
  }

  lemma TwoEvents(m: Machine, e: Event, f: Event)
    ensures HandleEvents(m, [e] + [f]) == HandleSessionEvent(HandleSessionEvent(m, e), f)
  {
    hide HandleSessionEvent;
    assert ([e] + [f])[1..] == [f];
    TransferTheorems.OneMoreEvent(HandleSessionEvent(m, e), f);
  }

  /**
   * Asked once to have a packet resent, the device does nothing with it but say so,
   * and takes the next copy as usual.
   */
  lemma ResendOnce(d: D.Device, p: Packet)
    requires d.behaviour.resendOnceForSync == Some(p.sync)
    ensures var calm := d.(behaviour := d.behaviour.(resendOnceForSync := None));
            && D.Handle(d, p) == calm.(reply := d.reply + D.ResendText(p.sync) + [LF])
            && D.Handle(D.Handle(d, p), p) == D.Handle(calm.(reply := d.reply + D.ResendText(p.sync) + [LF]), p)
  {
    hide D.ResendText;
  }

  // ----- The requests on the wire -----

  /** The packet type each request method sends. */
  function TypeOf(call: Call): byte
    requires Journal.IsRequest(call)
  {
    match call
    case CallQuery(_, _) => 0
    case CallOpen(_, _, _) => 1
    case CallClose(_) => 2
    case CallWrite(_, _) => 3
    case _ => 4
  }

  function RequestPayload(t: Transfer, call: Call): bytes {
    match call
    case CallOpen(name, dummy, _) => OpenPayload(t.machine.negotiated, name, dummy)
    case CallWrite(chunk, _) => chunk
    case _ => []
  }

  /**
   * In every reachable state a request goes out at once, as the single frame of a
   * file-transfer packet of its type under the counter's number.
   */
  lemma RequestOnWire(h: Host, calls: seq<Call>, t: Transfer, call: Call)
    requires TransferTheorems.Reaches(h, calls, t) && Callable(t, call) && Journal.IsRequest(call)
    ensures var c, u := t.session.core, Do(t, call);
            var p := Packet(c.sync, 1, TypeOf(call), RequestPayload(t, call));
            && Encodable(p) && u.session.core.outbound == c.outbound + [Frame(p)]
    ensures TransferInvariants.Awaiting(Do(t, call).machine.state)
  {
    hide Frame, OpenPayload, TransferInvariants.Coupled, Calls;
    TransferTheorems.ReachesCoupled(h, calls, t);
    TransferInvariants.SettledHasNoneInFlight(t.machine, t.session.core, |h.core.hist.resolved|);
  }

  // ----- The lines of the device -----

  /** What starts with "P" is chat. */
  lemma StartsPlain(line: bytes)
    requires line != [] && line[0] == 80
    ensures LineMeaning.Chat(line)
  {
    hide ParseDecimalU8;
  }

  lemma PlainAscii(line: bytes)
    requires line != [] && line[0] == 80 && Ascii(line) && LF !in line && line[|line| - 1] != CR
    ensures Plainly(line)
  {
    hide LineMeaning.Chat, ValidUtf8;
    AsciiIsUtf8(line);
    StartsPlain(line);
  }

  lemma SuccessIsPlain()
    ensures Plainly(PFT_SUCCESS) && PFT_SUCCESS == D.SUCCESS_TEXT && !(PFT_VERSION <= PFT_SUCCESS)
  {
    hide Plainly;
    assert PFT_SUCCESS == D.SUCCESS_TEXT;
    assert PFT_VERSION[4] != PFT_SUCCESS[4];
    PlainAscii(D.SUCCESS_TEXT);
  }

  lemma BusyIsPlain()
    ensures Plainly(PFT_BUSY) && PFT_BUSY == D.BUSY_TEXT && !(PFT_VERSION <= PFT_BUSY)
  {
    hide Plainly;
    assert PFT_BUSY == D.BUSY_TEXT;
    assert PFT_VERSION[4] != PFT_BUSY[4];
    PlainAscii(D.BUSY_TEXT);
  }

  lemma FailIsPlain()
    ensures Plainly(PFT_FAIL) && PFT_FAIL == D.FAIL_TEXT && !(PFT_VERSION <= PFT_FAIL)
  {
    hide Plainly;
    assert PFT_FAIL == D.FAIL_TEXT;
    assert PFT_VERSION[4] != PFT_FAIL[4];
    PlainAscii(D.FAIL_TEXT);
  }

  // ----- WRITE -----

  /** WRITE: the device stores the payload and the host hears WriteAcked. */
  lemma WriteExchange(t: Transfer, d: D.Device, n: byte, payload: bytes, now: int)
    requires Waiting(t, AwaitingWriteAck, n) && Listening(d, n)
    ensures var e := D.Handle(d, Packet(n, 1, 3, payload));
            var (u, r) := Heard(t, e.reply, now);
            && e == d.(writtenBytes := d.writtenBytes + payload, reply := D.OkText(n) + [LF])
            && r == Some(EvWriteAcked)
            && u.machine == t.machine.(state := Opened, produced := t.machine.produced + [EvWriteAcked])
            && Rested(t.session, u.session)
  {
    hide Feed, D.OkText, Poll, Rested;
    BareAnswer(t, AwaitingWriteAck, n, now);
    assert [] + D.OkText(n) == D.OkText(n);
  }

  // ----- OPEN -----

  /** OPEN: Opened, or the refusal the device gave. */
  lemma OpenExchange(t: Transfer, d: D.Device, n: byte, payload: bytes, now: int)
    requires Waiting(t, AwaitingOpenReply, n) && Listening(d, n)
    ensures var (u, r) := Heard(t, D.Handle(d, Packet(n, 1, 1, payload)).reply, now);
            && (if d.behaviour.busyOnNextOpen then r == Some(EvFailed(OpenBusy)) && u.machine.state.Failed?
                else if d.behaviour.failOnNextOpen then r == Some(EvFailed(OpenFail)) && u.machine.state.Failed?
                else r == Some(EvOpened)
                     && u.machine == t.machine.(state := Opened, produced := t.machine.produced + [EvOpened]))
            && Rested(t.session, u.session)
  {
    hide Feed, D.OkText, Poll, Plainly, Rested, D.OpenFields, HandleAck, HandleAsciiLine, D.Handle;
    OpenReplyText(d, n, payload);
    if d.behaviour.busyOnNextOpen {
      BusyIsPlain();
      TextAnswer(t, AwaitingOpenReply, PFT_BUSY, n, now);
      OpenBusyText(t.machine);
    } else if d.behaviour.failOnNextOpen {
      FailIsPlain();
      TextAnswer(t, AwaitingOpenReply, PFT_FAIL, n, now);
      OpenFailText(t.machine);
    } else {
      SuccessIsPlain();
      TextAnswer(t, AwaitingOpenReply, PFT_SUCCESS, n, now);
      OpenSuccessText(t.machine);
    }
  }

  lemma OpenReplyText(d: D.Device, n: byte, payload: bytes)
    requires Listening(d, n)
    ensures D.Handle(d, Packet(n, 1, 1, payload)).reply
         == (if d.behaviour.busyOnNextOpen then D.BUSY_TEXT
             else if d.behaviour.failOnNextOpen then D.FAIL_TEXT else D.SUCCESS_TEXT) + [LF] + D.OkText(n) + [LF]
  {
    hide D.OkText, D.OpenFields;
    OpenFieldsSilent(d, payload);
    assert [] + D.BUSY_TEXT == D.BUSY_TEXT && [] + D.FAIL_TEXT == D.FAIL_TEXT && [] + D.SUCCESS_TEXT == D.SUCCESS_TEXT;
  }

  lemma OpenFieldsSilent(d: D.Device, payload: bytes)
    ensures D.OpenFields(d, payload).reply == d.reply && D.OpenFields(d, payload).behaviour == d.behaviour
  {
  }

  lemma OpenSuccessText(m: Machine)
    requires m.state.AwaitingOpenReply? && m.pending.None? && m.outEvents == []
    ensures var u := HandleAck(HandleAsciiLine(m, PFT_SUCCESS));
            u == m.(state := Opened, produced := m.produced + [EvOpened], outEvents := [EvOpened])
  {
    hide Plainly, HandleVersion;
    SuccessIsPlain();
  }

  lemma OpenBusyText(m: Machine)
    requires m.state.AwaitingOpenReply? && m.outEvents == []
    ensures var u := HandleAck(HandleAsciiLine(m, PFT_BUSY));
            u.outEvents == [EvFailed(OpenBusy)] && u.state.Failed?
  {
    hide Plainly, HandleVersion;
    BusyIsPlain();
    assert PFT_SUCCESS != PFT_BUSY;
  }

  lemma OpenFailText(m: Machine)
    requires m.state.AwaitingOpenReply? && m.outEvents == []
    ensures var u := HandleAck(HandleAsciiLine(m, PFT_FAIL));
            u.outEvents == [EvFailed(OpenFail)] && u.state.Failed?
  {
    hide Plainly, HandleVersion;
    FailIsPlain();
    assert PFT_FAIL != PFT_SUCCESS;
    assert PFT_FAIL != PFT_BUSY by {
      assert PFT_FAIL[4] != PFT_BUSY[4];
    }
  }

  // ----- CLOSE and ABORT -----

  /** CLOSE and ABORT: done, unless the device leaves out its result line. */
  lemma TerminalExchange(t: Transfer, d: D.Device, n: byte, abort: bool, now: int)
    requires Waiting(t, if abort then AwaitingAbortReply else AwaitingCloseReply, n) && Listening(d, n)
    ensures var (u, r) := Heard(t, D.Handle(d, Packet(n, 1, if abort then 4 else 2, [])).reply, now);
            && (if d.behaviour.skipPftOnTerminal then
                  r == Some(EvFailed(ProtocolViolation(t.machine.state))) && u.machine.state.Failed?
                else if abort then r == Some(EvAbortAcked) && u.machine.state.Aborted?
                else r == Some(EvClosed)
                     && u.machine == t.machine.(state := Closed, produced := t.machine.produced + [EvClosed]))
            && Rested(t.session, u.session)
  {
    hide Feed, D.OkText, Poll, Plainly, HandleAck, HandleAsciiLine, Rested, D.Handle;
    var s := t.machine.state;
    TerminalReplyText(d, n, if abort then 4 else 2);
    if d.behaviour.skipPftOnTerminal {
      assert [] + D.OkText(n) + [LF] == D.OkText(n) + [LF];
      BareAnswer(t, s, n, now);
      UnexplainedAck(t.machine);
    } else {
      SuccessIsPlain();
      TextAnswer(t, s, PFT_SUCCESS, n, now);
      ExplainedAck(t.machine);
    }
  }

  lemma TerminalReplyText(d: D.Device, n: byte, packetType: byte)
    requires Listening(d, n) && (packetType == 2 || packetType == 4)
    ensures D.Handle(d, Packet(n, 1, packetType, [])).reply
         == (if d.behaviour.skipPftOnTerminal then [] else D.SUCCESS_TEXT + [LF]) + D.OkText(n) + [LF]
  {
    hide D.OkText;
    assert [] + D.OkText(n) == D.OkText(n) && [] + D.SUCCESS_TEXT == D.SUCCESS_TEXT;
  }

  /** The requests whose ok must come after a result line. */
  predicate Explains(s: State) {
    s.AwaitingQueryReply? || s.AwaitingOpenReply? || s.AwaitingCloseReply? || s.AwaitingAbortReply?
  }

  /** A bare ok to any of them is a protocol violation, never success. */
  lemma BareOk(t: Transfer, s: State, n: byte, now: int)
    requires Waiting(t, s, n) && Explains(s)
    ensures var (u, r) := Heard(t, D.OkText(n) + [LF], now);
            && r == Some(EvFailed(ProtocolViolation(s))) && u.machine.state.Failed?
            && u.machine.negotiated == t.machine.negotiated
            && Rested(t.session, u.session)
  {
    hide Feed, D.OkText, Poll, HandleAck, Rested;
    BareAnswer(t, s, n, now);
    UnexplainedAck(t.machine);
  }

  lemma UnexplainedAck(m: Machine)
    requires Explains(m.state)
    requires m.pending.None? && m.outEvents == []
    ensures HandleAck(m).outEvents == [EvFailed(ProtocolViolation(m.state))] && HandleAck(m).state.Failed?
    ensures HandleAck(m).negotiated == m.negotiated
  {
  }

  lemma ExplainedAck(m: Machine)
    requires m.state.AwaitingCloseReply? || m.state.AwaitingAbortReply?
    requires m.pending.None? && m.outEvents == []
    ensures var u := HandleAck(HandleAsciiLine(m, PFT_SUCCESS));
            if m.state.AwaitingCloseReply? then
              u == m.(state := Closed, produced := m.produced + [EvClosed], outEvents := [EvClosed])
            else u.outEvents == [EvAbortAcked] && u.state.Aborted?
  {
    hide HandleVersion, Plainly;
    SuccessIsPlain();
  }

  /** CLOSE refused: the two refusals a device can give reach the caller as what they are. */
  lemma CloseRefused(t: Transfer, n: byte, invalid: bool, now: int)
    requires Waiting(t, AwaitingCloseReply, n)
    ensures var line := if invalid then PFT_INVALID else PFT_IOERROR;
            var (u, r) := Heard(t, line + [LF] + D.OkText(n) + [LF], now);
            r == Some(EvFailed(if invalid then NoOpenFile else IoError)) && u.machine.state.Failed?
  {
    hide Feed, D.OkText, Poll, Plainly, HandleAck, HandleAsciiLine, Rested;
    var line := if invalid then PFT_INVALID else PFT_IOERROR;
    RefusalsArePlain();
    TextAnswer(t, AwaitingCloseReply, line, n, now);
    RefusalAck(t.machine, invalid);
  }

  lemma RefusalsArePlain()
    ensures Plainly(PFT_IOERROR) && Plainly(PFT_INVALID)
    ensures !(PFT_VERSION <= PFT_IOERROR) && !(PFT_VERSION <= PFT_INVALID)
    ensures PFT_IOERROR != PFT_INVALID
  {
    hide Plainly;
    assert PFT_VERSION[4] != PFT_IOERROR[4] && PFT_VERSION[4] != PFT_INVALID[4];
    assert PFT_IOERROR[5] != PFT_INVALID[5];
    PlainAscii(PFT_IOERROR);
    PlainAscii(PFT_INVALID);
  }

  lemma RefusalAck(m: Machine, invalid: bool)
    requires m.state.AwaitingCloseReply? && m.pending.None? && m.outEvents == []
    ensures var u := HandleAck(HandleAsciiLine(m, if invalid then PFT_INVALID else PFT_IOERROR));
            u.outEvents == [EvFailed(if invalid then NoOpenFile else IoError)] && u.state.Failed?
  {
    hide HandleVersion, Plainly;
    RefusalsArePlain();
    assert PFT_IOERROR[4] != PFT_SUCCESS[4] && PFT_IOERROR[4] != PFT_BUSY[4] && PFT_IOERROR[4] != PFT_FAIL[4];
    assert PFT_INVALID[4] != PFT_SUCCESS[4] && PFT_INVALID[4] != PFT_BUSY[4] && PFT_INVALID[4] != PFT_FAIL[4];
  }

  // ----- QUERY -----

  /** QUERY: the device's version and the agreed compression, or the refusal to agree. */
  lemma QueryExchange(t: Transfer, d: D.Device, n: byte, now: int)
    requires Waiting(t, AwaitingQueryReply, n) && Listening(d, n)
    requires ValidUtf8(d.protocolVersion) && LF !in d.protocolVersion && COLON !in d.protocolVersion
    ensures var (u, r) := Heard(t, D.Handle(d, Packet(n, 1, 0, [])).reply, now);
            && match ChooseCompression(t.machine.requested, Replies.Advertised(d.compression))
               case Success(c) =>
                 && r == Some(EvNegotiated(d.protocolVersion, c))
                 && u.machine == Agreed(t.machine, d.protocolVersion, c)
               case Failure(err) => r == Some(EvFailed(err)) && u.machine.state.Failed?
    ensures Rested(t.session, Heard(t, D.Handle(d, Packet(n, 1, 0, [])).reply, now).0.session)
  {
    hide Feed, D.OkText, Poll, Plainly, D.VersionText, ValidUtf8, ChooseCompression, HandleAsciiLine, HandleAck,
         D.Handle, Rested, Replies.Advertised;
    var line := D.VersionText(d.protocolVersion, d.compression);
    QueryReplyText(d, n);
    VersionIsPlain(d.protocolVersion, d.compression);
    TextAnswer(t, AwaitingQueryReply, line, n, now);
    Replies.VersionLineParsed(t.machine, d.protocolVersion, d.compression);
    VersionAck(t.machine, d.protocolVersion, Replies.Advertised(d.compression));
  }

  /** The machine after a successful negotiation, its event read. */
  function Agreed(m: Machine, version: bytes, c: Compression): Machine {
    m.(state := Negotiated, negotiated := Some(c), advertisedVersion := Some(version),
       produced := m.produced + [EvNegotiated(version, c)])
  }

  lemma QueryReplyText(d: D.Device, n: byte)
    requires Listening(d, n)
    ensures D.Handle(d, Packet(n, 1, 0, [])).reply
         == D.VersionText(d.protocolVersion, d.compression) + [LF] + D.OkText(n) + [LF]
  {
    hide D.OkText, D.VersionText;
    var line := D.VersionText(d.protocolVersion, d.compression);
    assert [] + line == line;
  }

  lemma VersionAck(m: Machine, version: bytes, device: Compression)
    requires m.state.AwaitingQueryReply? && m.outEvents == [] && m.pending.None?
    ensures var u := HandleAck(m.(advertisedVersion := Some(version),
                                  pending := Some(VersionPending(m.requested, device, version))));
            match ChooseCompression(m.requested, device)
            case Success(c) => u == Agreed(m, version, c).(outEvents := [EvNegotiated(version, c)])
            case Failure(err) => u.outEvents == [EvFailed(err)] && u.state.Failed?
  {
    hide ChooseCompression;
  }

  lemma VersionIsPlain(version: bytes, c: D.CompressionSpec)
    requires ValidUtf8(version) && LF !in version
    ensures Plainly(D.VersionText(version, c))
  {
    hide ValidUtf8, LineMeaning.Chat, D.VersionText;
    Replies.VersionTextIsUtf8(version, c);
    VersionEdges(version, c);
    StartsPlain(D.VersionText(version, c));
  }

  lemma VersionEdges(version: bytes, c: D.CompressionSpec)
    requires LF !in version
    ensures var line := D.VersionText(version, c);
            line != [] && line[0] == 80 && LF !in line && line[|line| - 1] != CR
  {
    hide D.Render, Trim;
    var line, spec := D.VersionText(version, c), D.Render(c);
    Replies.RenderIsAscii(c);
    NotInJoin(LF, [COLON], spec);
    NotInJoin(LF, version, [COLON] + spec);
    assert version + [COLON] + spec == version + ([COLON] + spec);
    NotInJoin(LF, D.VERSION_PREFIX, version + [COLON] + spec);
    assert line[|line| - 1] == spec[|spec| - 1];
  }

  lemma NotInJoin(b: byte, left: bytes, right: bytes)
    requires b !in left && b !in right
    ensures b !in left + right
  {
  }
}
