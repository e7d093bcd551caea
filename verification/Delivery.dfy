/** A completed upload over the lossy link of Arq: the device took the whole plan, each packet once. */
module Delivery {
  import opened Prelude
  import opened Codec
  import opened Text
  import opened SessionSpec
  import opened SessionInvariants
  import opened UploadSpec
  import opened Arq
  import opened ArqTimeout
  import opened Progress
  import Conversation
  import EndToEnd
  import UploadDriver
  import T = TransferSpec
  import D = DeviceSpec
  import Replies

  // ----- The device's own lines -----

  lemma PlainIsHarmless(line: bytes)
    requires Conversation.Plainly(line)
    ensures Harmless(line)
  {
    hide StripLineEndings, ValidUtf8, ParseSync, ParseDecimalU8;
    Replies.StripNewline(line);
  }

  /** Every line the device writes besides its acknowledgements is one the link may carry. */
  lemma DeviceLinesAreHarmless(version: bytes, c: D.CompressionSpec, n: byte)
    requires ValidUtf8(version) && LF !in version
    ensures Harmless(D.VersionText(version, c)) && Harmless(D.ResendText(n))
    ensures Harmless(D.SUCCESS_TEXT) && Harmless(D.BUSY_TEXT) && Harmless(D.FAIL_TEXT)
  {
    hide ValidUtf8, Harmless, Conversation.Plainly, D.VersionText, D.ResendText;
    Conversation.VersionIsPlain(version, c);
    Conversation.SuccessIsPlain();
    Conversation.BusyIsPlain();
    Conversation.FailIsPlain();
    PlainIsHarmless(D.VersionText(version, c));
    PlainIsHarmless(D.SUCCESS_TEXT);
    PlainIsHarmless(D.BUSY_TEXT);
    PlainIsHarmless(D.FAIL_TEXT);
    ResendIsHarmless(n);
  }

  lemma ResendIsHarmless(n: byte)
    ensures Harmless(D.ResendText(n))
  {
    hide ParseDecimalU8, Decimal, ParseSync;
    var line := D.ResendText(n);
    Replies.DigitsAreAscii(Decimal(n));
    assert line[|line| - 1] == Decimal(n)[|Decimal(n)| - 1] && Decimal(n)[|Decimal(n)| - 1] in Decimal(n);
    Replies.StripNewline(line);
    assert line[2..] == Decimal(n) && line[0] == 114;
    Replies.ParseDecimalRoundTrip(n);
  }

  // ----- A completed upload -----

  /** The packets of the plan after the handshake, under consecutive numbers. */
  function Numbered(plan: seq<Request>, first: byte): (ps: seq<Packet>)
    requires plan != []
    ensures |ps| == |plan| - 1
    ensures forall i :: 0 <= i < |ps| ==> ps[i] == PacketOf(plan[i + 1], (first + i) % 256)
  {
    seq(|plan| - 1, i requires 0 <= i < |plan| - 1 => PacketOf(plan[i + 1], (first + i) % 256))
  }

  /**
   * Over a link that loses, delays, repeats and chatters as it likes, in a run that
   * started right after the handshake: when the session has delivered the plan in
   * its own books, the receiver has accepted exactly the packets of the plan, in
   * order, each once.
   */
  lemma PlanAccepted(start: Link, acts: seq<Action>, l: Link, written: seq<bytes>, plan: seq<Request>)
    requires InStep(start) && start.host.core.hist.enqueued == [HANDSHAKE]
    requires Acts(start, acts) == Some(l) && Delivered(written, l.host.core, plan)
    ensures plan != [] && l.receiver.accepted == Numbered(plan, start.host.core.sync)
  {
    hide Inv, Acts, Expand, InStep;
    var o, c := OriginOf(start), l.host.core;
    OneSettled(start);
    assert NoTimeouts(o, c);
    Enqueued(c);
    IdleMeansDelivered(start, acts, l);
    ExactlyOnce(start, acts, l);
  }

  lemma OneSettled(start: Link)
    requires InStep(start) && start.host.core.hist.enqueued == [HANDSHAKE]
    ensures |start.host.core.hist.resolved| == 1
  {
    hide Inv;
    SlotMatchesInv(start.host.core);
  }

  /** When as many packets are resolved as dispatched, nothing is in flight or waiting. */
  lemma Enqueued(c: Core)
    requires Inv(c) && |c.hist.resolved| == |Requests(c.hist.dispatched)|
    ensures c.inFlight.None? && c.hist.enqueued == Requests(c.hist.dispatched)
  {
    hide Wire, Expand, CountAcks, Settled, WithoutHandshakes, OutcomesFit, Current, Stutters, Timers, Numbers, Reported,
         Pending, Counted;
    assert Requests(c.hist.dispatched) + [] == Requests(c.hist.dispatched);
  }

  /** The packet carries the request, under whatever number. */
  predicate Carries(p: Packet, r: Request) {
    p == PacketOf(r, p.sync)
  }

  lemma {:induction false} StoredNumbered(rs: seq<Request>, ps: seq<Packet>)
    requires |ps| == |rs| && forall i :: 0 <= i < |rs| ==> Carries(ps[i], rs[i])
    ensures EndToEnd.Stored(ps) == EndToEnd.Payloads(rs)
  {
    hide EndToEnd.Stored;
    if rs != [] {
      var k := |rs| - 1;
      StoredNumbered(rs[..k], ps[..k]);
      assert ps == ps[..k] + [ps[k]];
      EndToEnd.StoredAppend(ps[..k], [ps[k]]);
      StoredOne(ps[k]);
    } else {
      StoredNone(ps);
    }
  }

  lemma StoredNone(ps: seq<Packet>)
    requires ps == []
    ensures EndToEnd.Stored(ps) == []
  {
  }

  lemma StoredOne(p: Packet)
    ensures EndToEnd.Stored([p]) == if EndToEnd.IsWrite(p) then p.payload else []
  {
    var one := [p];
    assert one[1..] == [] && EndToEnd.Stored([]) == [];
  }

  /**
   * So a device that handles what it accepts, and nothing twice, has stored exactly
   * the payload, closed the file and left binary mode, however many copies of a
   * WRITE were on the wire.
   */
  lemma PayloadDelivered(start: Link, acts: seq<Action>, l: Link, written: seq<bytes>, o: Options,
                         comp: T.Compression, chunks: seq<bytes>, device: D.Device)
    requires InStep(start) && start.host.core.hist.enqueued == [HANDSHAKE]
    requires |o.destFilename| + 3 <= MAX_PAYLOAD && forall x :: x in chunks ==> |x| <= MAX_PAYLOAD
    requires Acts(start, acts) == Some(l) && Delivered(written, l.host.core, Plan(o, comp, chunks))
    requires device.behaviour.resendOnceForSync.None?
    ensures var e := D.HandleAll(device, l.receiver.accepted);
            && e.writtenBytes == device.writtenBytes + Concat(chunks) && e.closed && e.controlClosed
            && OpenedAs(e, o.destFilename, o.dummy, comp.Heatshrink?)
    ensures |l.receiver.accepted| == |chunks| + 4
  {
    hide Acts, Delivered, InStep, Plan, D.HandleAll, Concat, Numbered, OpenedAs;
    PlanAccepted(start, acts, l, written, Plan(o, comp, chunks));
    PlanHandled(o, comp, chunks, start.host.core.sync, device);
    PlanOpened(o, comp, chunks, start.host.core.sync, device);
  }

  /**
   * In the terms of the upload: when the session of a finished upload is the host of
   * such a run, and the run starts where the handshake ended, the device has stored
   * the source after what it held before, untouched or as the compressor left it
   * with the agreed window and lookahead, under the name, dummy flag and compression
   * flag that were asked for.
   */
  lemma UploadDelivered(start: Link, acts: seq<Action>, l: Link, written: seq<bytes>, source: Option<bytes>,
                        options: Options, compress: Compressor, limit: u16, stats: Stats,
                        device: D.Device)
    requires InStep(start) && UploadDriver.HandshakeDone(start.host.core)
    requires Acts(start, acts) == Some(l)
    requires UploadDriver.Uploaded(written, l.host.core, source, options, compress, limit, stats)
    requires device.behaviour.resendOnceForSync.None?
    ensures var e, comp := D.HandleAll(device, l.receiver.accepted), stats.compression;
            && OpenedAs(e, options.destFilename, options.dummy, comp.Heatshrink?)
            && e.closed && e.controlClosed && |l.receiver.accepted| == stats.chunksSent + 4
            && source.Some? && device.writtenBytes <= e.writtenBytes
            && var stored := e.writtenBytes[|device.writtenBytes|..];
               && (comp.NoCompression? ==> stored == source.value)
               && (comp.Heatshrink? ==> compress(source.value, comp.window, comp.lookahead) == Some(stored))
               && !comp.Auto? && stats.bytesSent == |stored|
  {
    hide Acts, Delivered, InStep, Plan, D.HandleAll, Concat, ResolveChunkSize, Cut, OpenedAs;
    var size := ResolveChunkSize(options.chunkSize, limit);
    var chunks :| && Carry(chunks, source.value, stats.compression, compress)
                  && UploadDriver.SentAs(chunks, written, l.host.core, options, size, stats);
    UploadDriver.FitsPacket(chunks, size);
    PayloadDelivered(start, acts, l, written, options, stats.compression, chunks, device);
    Appended(device.writtenBytes, Concat(chunks));
  }

  lemma Appended(before: bytes, more: bytes)
    ensures before <= before + more && (before + more)[|before|..] == more
  {
  }

  // ----- The file that was opened -----

  /** The last OPEN the device saw; a name with a zero byte in it arrives cut short. */
  predicate OpenedAs(d: D.Device, name: bytes, dummy: bool, compressed: bool) {
    && d.lastOpenDummy == Some(dummy) && d.lastOpenCompressionByte == Some(if compressed then 1 else 0)
    && (d.lastOpenFilename == Some(name) <==> 0 !in name)
  }

  predicate SameOpen(d: D.Device, e: D.Device) {
    && e.lastOpenDummy == d.lastOpenDummy && e.lastOpenCompressionByte == d.lastOpenCompressionByte
    && e.lastOpenFilename == d.lastOpenFilename
  }

  predicate IsOpen(p: Packet) {
    p.protocol == 1 && p.packetType == 1
  }

  lemma HandleOpens(d: D.Device, p: Packet)
    requires d.behaviour.resendOnceForSync.None?
    ensures var e := D.Handle(d, p);
            e.behaviour.resendOnceForSync.None? && SameOpen(if IsOpen(p) then D.OpenFields(d, p.payload) else d, e)
  {
    hide D.OkText, D.SyncText, D.VersionText, D.ResendText, D.OpenFields, D.OpenReply, SameOpen, D.WriteLine;
    EndToEnd.HandleStores(d, p);
    var f := D.OpenFields(d, p.payload);
    if !IsOpen(p) {
      OthersKeepOpen(d, p);
    } else {
      OpenReplyKeeps(f);
      LineKeepsOpen(D.OpenReply(f), D.OkText(p.sync));
      SameOpenThen(f, D.OpenReply(f), D.WriteLine(D.OpenReply(f), D.OkText(p.sync)));
    }
  }

  lemma OpenReplyKeeps(d: D.Device)
    ensures SameOpen(d, D.OpenReply(d))
  {
  }

  lemma LineKeepsOpen(d: D.Device, line: bytes)
    ensures SameOpen(d, D.WriteLine(d, line))
  {
  }

  lemma OthersKeepOpen(d: D.Device, p: Packet)
    requires d.behaviour.resendOnceForSync.None? && !IsOpen(p)
    ensures SameOpen(d, D.Handle(d, p))
  {
    hide D.OkText, D.SyncText, D.VersionText, D.ResendText, D.OpenFields, D.OpenReply, D.WriteLine, SameOpen;
    var done, text := OtherHandled(d, p);
    LineKeepsOpen(done, text);
    SameOpenThen(d, done, D.Handle(d, p));
  }

  /** The device without OPEN: what it has done before it writes its last line, and that line. */
  lemma OtherHandled(d: D.Device, p: Packet) returns (e: D.Device, line: bytes)
    requires d.behaviour.resendOnceForSync.None? && !IsOpen(p)
    ensures D.Handle(d, p) == D.WriteLine(e, line) && SameOpen(d, e)
  {
    hide D.OkText, D.SyncText, D.VersionText, D.ResendText, D.OpenFields, D.OpenReply, D.WriteLine;
    line := if p.protocol == 0 && p.packetType == 1
            then D.SyncText(d.initialSync, d.maxBlockSize, d.protocolVersion) else D.OkText(p.sync);
    match (p.protocol, p.packetType)
    case (0, 2) => e := d.(controlClosed := true);
    case (1, 0) =>
      e := D.WriteLine(d, D.VersionText(d.protocolVersion, d.compression));
      LineKeepsOpen(d, D.VersionText(d.protocolVersion, d.compression));
    case (1, 2) =>
      e := D.TerminalReply(d.(closed := true));
      LineKeepsOpen(d.(closed := true), D.SUCCESS_TEXT);
    case (1, 3) => e := d.(writtenBytes := d.writtenBytes + p.payload);
    case (1, 4) =>
      e := D.TerminalReply(d.(aborted := true));
      LineKeepsOpen(d.(aborted := true), D.SUCCESS_TEXT);
    case _ => e := d;
  }

  lemma {:induction false} NothingOpened(d: D.Device, ps: seq<Packet>)
    requires d.behaviour.resendOnceForSync.None? && forall p :: p in ps ==> !IsOpen(p)
    ensures SameOpen(d, D.HandleAll(d, ps)) && D.HandleAll(d, ps).behaviour.resendOnceForSync.None?
    decreases |ps|
  {
    hide D.Handle;
    if ps != [] {
      HandleOpens(d, ps[0]);
      assert ps[0] in ps && forall p :: p in ps[1..] ==> p in ps;
      NothingOpened(D.Handle(d, ps[0]), ps[1..]);
    }
  }

  lemma OneOpened(d: D.Device, before: seq<Packet>, p: Packet, after: seq<Packet>)
    requires d.behaviour.resendOnceForSync.None? && IsOpen(p)
    requires (forall q :: q in before ==> !IsOpen(q)) && forall q :: q in after ==> !IsOpen(q)
    ensures exists e :: SameOpen(D.OpenFields(e, p.payload), D.HandleAll(d, before + ([p] + after)))
  {
    hide D.HandleAll, D.Handle, D.OpenFields, SameOpen;
    NothingOpened(d, before);
    var e := D.HandleAll(d, before);
    HandleOpens(e, p);
    NothingOpened(D.Handle(e, p), after);
    D.HandleAllAppend(d, before, [p] + after);
    HandleFirst(e, p, after);
    SameOpenThen(D.OpenFields(e, p.payload), D.Handle(e, p), D.HandleAll(D.Handle(e, p), after));
  }

  lemma HandleFirst(d: D.Device, p: Packet, after: seq<Packet>)
    ensures D.HandleAll(d, [p] + after) == D.HandleAll(D.Handle(d, p), after)
  {
    hide D.Handle;
    assert ([p] + after)[1..] == after;
  }

  lemma SameOpenThen(d: D.Device, e: D.Device, f: D.Device)
    requires SameOpen(d, e) && SameOpen(e, f)
    ensures SameOpen(d, f)
  {
  }

  lemma PlanOpened(o: Options, comp: T.Compression, chunks: seq<bytes>, first: byte, device: D.Device)
    requires |o.destFilename| + 3 <= MAX_PAYLOAD && forall x :: x in chunks ==> |x| <= MAX_PAYLOAD
    requires Plan(o, comp, chunks) != [] && device.behaviour.resendOnceForSync.None?
    ensures var e := D.HandleAll(device, Numbered(Plan(o, comp, chunks), first));
            OpenedAs(e, o.destFilename, o.dummy, comp.Heatshrink?)
  {
    hide D.HandleAll, D.OpenFields, T.OpenPayload, WriteRequests, Plan, Numbered, IsOpen;
    var ps := Numbered(Plan(o, comp, chunks), first);
    var before, p, after := OpenAmong(o, comp, chunks, first);
    OneOpened(device, before, p, after);
    var e :| SameOpen(D.OpenFields(e, p.payload), D.HandleAll(device, ps));
    Replies.OpenRoundTrip(e, Some(comp), o.destFilename, o.dummy);
  }

  lemma OpenAmong(o: Options, comp: T.Compression, chunks: seq<bytes>, first: byte)
    returns (before: seq<Packet>, p: Packet, after: seq<Packet>)
    requires |o.destFilename| + 3 <= MAX_PAYLOAD && forall x :: x in chunks ==> |x| <= MAX_PAYLOAD
    requires Plan(o, comp, chunks) != []
    ensures before + ([p] + after) == Numbered(Plan(o, comp, chunks), first)
    ensures IsOpen(p) && p.payload == T.OpenPayload(Some(comp), o.destFilename, o.dummy)
    ensures (forall q :: q in before ==> !IsOpen(q)) && forall q :: q in after ==> !IsOpen(q)
  {
    hide T.OpenPayload, Plan, Numbered;
    var plan := Plan(o, comp, chunks);
    var ps := Numbered(plan, first);
    OneOpenInPlan(o, comp, chunks);
    NumberedCarries(plan, first);
    before, p, after := ps[..1], ps[1], ps[2..];
    assert Carries(ps[0], plan[1..][0]) && Carries(ps[1], plan[1..][1]);
    forall i | 2 <= i < |ps|
      ensures !IsOpen(ps[i])
    {
      assert Carries(ps[i], plan[1..][i]) && plan[1..][i] == plan[i + 1];
    }
  }

  lemma OneOpenInPlan(o: Options, comp: T.Compression, chunks: seq<bytes>)
    requires |o.destFilename| + 3 <= MAX_PAYLOAD && forall x :: x in chunks ==> |x| <= MAX_PAYLOAD
    ensures var plan := Plan(o, comp, chunks);
            && |plan| >= 3 && plan[1] == T.FileRequest(T.PT_QUERY, []) && plan[2] == OpenRequest(o, comp)
            && forall i :: 3 <= i < |plan| ==> plan[i].protocol != 1 || plan[i].packetType != 1
  {
    hide T.OpenPayload, WriteRequests;
    var plan := Plan(o, comp, chunks);
    forall i | 3 <= i < |plan|
      ensures plan[i].protocol != 1 || plan[i].packetType != 1
    {
      if i < 3 + |chunks| {
        assert plan[i] == WriteRequests(chunks)[i - 3];
      }
    }
  }

  lemma PlanHandled(o: Options, comp: T.Compression, chunks: seq<bytes>, first: byte, device: D.Device)
    requires |o.destFilename| + 3 <= MAX_PAYLOAD && forall x :: x in chunks ==> |x| <= MAX_PAYLOAD
    requires Plan(o, comp, chunks) != [] && device.behaviour.resendOnceForSync.None?
    ensures var ps := Numbered(Plan(o, comp, chunks), first);
            var e := D.HandleAll(device, ps);
            e.writtenBytes == device.writtenBytes + Concat(chunks) && e.closed && e.controlClosed
            && |ps| == |chunks| + 4
  {
    hide Plan, D.HandleAll, WriteRequests, EndToEnd.Stored, EndToEnd.Payloads, Concat, Numbered;
    var plan := Plan(o, comp, chunks);
    var ps := Numbered(plan, first);
    EndToEnd.DeviceStores(device, ps);
    NumberedCarries(plan, first);
    StoredNumbered(plan[1..], ps);
    EndToEnd.PayloadsOfPlan(o, comp, chunks);
    LastOfPlan(o, comp, chunks, first);
    HandshakeStoresNothing(plan);
    EndToEnd.DeviceCloses(device, ps);
  }

  lemma NumberedCarries(plan: seq<Request>, first: byte)
    requires plan != []
    ensures var ps := Numbered(plan, first);
            |ps| == |plan[1..]| && forall i :: 0 <= i < |ps| ==> Carries(ps[i], plan[1..][i])
  {
  }

  lemma HandshakeStoresNothing(plan: seq<Request>)
    requires plan != [] && plan[0] == HANDSHAKE
    ensures EndToEnd.Payloads(plan[1..]) == EndToEnd.Payloads(plan)
  {
    hide EndToEnd.Payloads;
    assert plan == [HANDSHAKE] + plan[1..];
    EndToEnd.PayloadsAppend([HANDSHAKE], plan[1..]);
    EndToEnd.NoPayloads([HANDSHAKE]);
  }

  lemma LastOfPlan(o: Options, comp: T.Compression, chunks: seq<bytes>, first: byte)
    requires |o.destFilename| + 3 <= MAX_PAYLOAD && forall x :: x in chunks ==> |x| <= MAX_PAYLOAD
    ensures var plan := Plan(o, comp, chunks);
            && plan != [] && plan[0] == HANDSHAKE && |plan| == |chunks| + 5
            && (exists p :: p in Numbered(plan, first) && p.protocol == 1 && p.packetType == 2)
            && (exists p :: p in Numbered(plan, first) && p.protocol == 0 && p.packetType == 2)
  {
    hide T.OpenPayload, WriteRequests;
    var plan, n := Plan(o, comp, chunks), |chunks|;
    assert plan[n + 3] == T.FileRequest(T.PT_CLOSE, []) && plan[n + 4] == CONTROL_CLOSE;
    var ps := Numbered(plan, first);
    assert ps[n + 2] in ps && ps[n + 3] in ps;
  }

  // ----- Such runs exist -----

  /** The host at rest, nothing on its way, and the receiver expecting the next number. */
  ghost predicate Quiet(l: Link) {
    && AtRest(l.host) && l.toDevice == [] && l.toHost == [] && l.heard == 0
    && l.receiver.expected == l.host.core.sync
  }

  /** One packet more: sent once and acknowledged. */
  ghost predicate OneMore(c: Core, d: Core, r: Request) {
    && d.hist.enqueued == c.hist.enqueued + [r]
    && d.hist.dispatched == c.hist.dispatched + [Dispatch(r, c.sync, 1)]
    && d.hist.resolved == c.hist.resolved + [Acked(c.sync)]
  }

  /** A text line and the ok heard in answer to r, and both events read. */
  function Answered(c: Core, r: Request, note: bytes, now: int): Core {
    var sent := Submit(c, r, now).(outbound := []);
    var d := HandleOk(AcceptLine(sent, note + [LF], now), c.sync, now);
    d.(events := Tail(Tail(d.events)))
  }

  lemma AnsweredRests(c: Core, r: Request, note: bytes, now: int)
    requires AtRest(Host(c, [])) && !r.isHandshake && Harmless(note)
    ensures var d := Answered(c, r, note, now);
            AtRest(Host(d, [])) && d.sync == (c.sync + 1) % 256 && OneMore(c, d, r)
  {
    hide Wire, AcceptLine, Harmless;
    NoteHeard(Submit(c, r, now).(outbound := []), note, now);
  }

  /** One packet over the link: the frame, a line of text and the ok, each arriving at once. */
  lemma PacketOverLink(l: Link, r: Request, note: bytes, now: int) returns (m: Link, acts: seq<Action>)
    requires Quiet(l) && !r.isHandshake && Harmless(note)
    ensures Acts(l, acts) == Some(m) && Quiet(m) && OneMore(l.host.core, m.host.core, r)
    ensures m.receiver.accepted == l.receiver.accepted + [PacketOf(r, l.host.core.sync)]
  {
    hide Wire, Judge, AcceptLine, Harmless, HandleOk, Bytes, Hearing, OneMore, Acts;
    var c, n := l.host.core, l.host.core.sync;
    var send := DoSend(r.protocol, r.packetType, r.payload, now);
    var l1 := Act(l, send);
    assert l1.host.core.outbound == [Wire(r, n)];
    var l2 := Act(l1, Transmit);
    assert l2.toDevice == [Wire(r, n)];
    var l3 := Act(l2, Chatter(note));
    ThreeActs(l, send, Transmit, Chatter(note), l1, l2, l3);
    assert l3.host == Host(Submit(c, r, now).(outbound := []), []);
    var heard, tail := AnswerHeard(l3, r, n, note, now);
    AnsweredRests(c, r, note, now);
    var l4 := Act(heard, DoPollEvent);
    m := Act(l4, DoPollEvent);
    assert m.host == Host(Answered(c, r, note, now), []);
    TwoActs(heard, DoPollEvent, DoPollEvent, l4, m);
    acts := [send, Transmit, Chatter(note)] + (tail + [DoPollEvent, DoPollEvent]);
    ActsCompose(l3, tail, heard, [DoPollEvent, DoPollEvent]);
    ActsCompose(l, [send, Transmit, Chatter(note)], l3, tail + [DoPollEvent, DoPollEvent]);
  }

  lemma TwoActs(l: Link, a: Action, b: Action, l1: Link, l2: Link)
    requires Possible(l, a) && l1 == Act(l, a) && Possible(l1, b) && l2 == Act(l1, b)
    ensures Acts(l, [a, b]) == Some(l2)
  {
    hide Act, Possible;
    var two, one := [a, b], [b];
    assert two[1..] == one && one[1..] == [];
    assert Acts(l, two) == Acts(l1, one);
  }

  /** The frame accepted, then the text line and the ok, each read in one piece. */
  lemma AnswerHeard(l: Link, r: Request, n: byte, note: bytes, now: int) returns (m: Link, acts: seq<Action>)
    requires l.toHost == [Note(note)] && l.heard == 0 && l.host.inbound == [] && Harmless(note)
    requires l.toDevice == [Wire(r, n)] && l.receiver.expected == n
    ensures Acts(l, acts) == Some(m)
    ensures m.host == Host(HandleOk(AcceptLine(l.host.core, note + [LF], now), n, now), [])
    ensures m.toDevice == [] && m.toHost == [] && m.heard == 0
    ensures m.receiver == Receiver((n + 1) % 256, l.receiver.accepted + [PacketOf(r, n)])
  {
    hide AcceptLine, Harmless, HandleOk, Bytes, Hearing, Acts, Judge, Wire;
    NoteIsHeard(l, note);
    var l1 := Act(l, Deliver);
    JudgeWire(l.receiver, r, n);
    assert l1.toHost == [Note(note), Ok(n)];
    HearingMore(l, Ok(n));
    HearingOnly(l.(toHost := l.toHost + [Ok(n)]), l1);
    var a := FinishFirst(l1, now);
    var l2 := HeardOne(l1, now);
    NoteBytes(note);
    HeardOneHearing(l1, now);
    assert l2.toHost == [Ok(n)];
    var b := FinishFirst(l2, now);
    OkBytes(n);
    OkHeard(l2.host.core, n, now);
    m := HeardOne(l2, now);
    acts := [Deliver, a, b];
    ThreeActs(l, Deliver, a, b, l1, l2, m);
  }

  lemma NoteIsHeard(l: Link, note: bytes)
    requires l.toHost == [Note(note)] && l.heard == 0 && l.host.inbound == [] && Harmless(note)
    ensures Hearing(l)
  {
    hide Harmless;
    HarmlessIsLine(note);
    ReplyEnds(Note(note));
  }

  /** Every list of requests, and whatever harmless line comes before each ok. */
  lemma {:induction false} QuietRun(start: Link, rs: seq<Request>, notes: seq<bytes>, now: int)
    returns (l: Link, acts: seq<Action>)
    requires Quiet(start) && Achieved(start.host, [])
    requires |notes| == |rs| && (forall r :: r in rs ==> !r.isHandshake) && forall n :: n in notes ==> Harmless(n)
    ensures Acts(start, acts) == Some(l) && Quiet(l) && Achieved(l.host, rs)
    decreases |rs|
  {
    hide Acts, Harmless, Quiet, Achieved;
    if rs == [] {
      l, acts := start, [];
      NoActs(start);
    } else {
      var k := |rs| - 1;
      var m, before := QuietRun(start, rs[..k], notes[..k], now);
      var more;
      l, more := PacketOverLink(m, rs[k], notes[k], now);
      ActsCompose(start, before, m, more);
      acts := before + more;
      AchievedMore(m, l, rs[..k], rs[k]);
      assert rs[..k] + [rs[k]] == rs;
    }
  }

  lemma NoActs(l: Link)
    ensures Acts(l, []) == Some(l)
  {
  }

  lemma AchievedMore(l: Link, m: Link, rs: seq<Request>, r: Request)
    requires Achieved(l.host, rs) && Quiet(m) && OneMore(l.host.core, m.host.core, r)
    ensures Achieved(m.host, rs + [r])
  {
    assert [HANDSHAKE] + (rs + [r]) == ([HANDSHAKE] + rs) + [r];
  }

  /**
   * From right after any handshake, every list of requests is delivered over the
   * link by some run, with any harmless line before each ok.
   */
  lemma DeliveredOverLink(start: Link, rs: seq<Request>, notes: seq<bytes>, now: int)
    returns (l: Link, acts: seq<Action>)
    requires InStep(start) && Achieved(start.host, [])
    requires |notes| == |rs| && (forall r :: r in rs ==> !r.isHandshake) && forall n :: n in notes ==> Harmless(n)
    ensures Acts(start, acts) == Some(l)
    ensures Delivered([TRIGGER] + l.host.core.hist.emitted, l.host.core, [HANDSHAKE] + rs)
  {
    hide Inv, Acts, Harmless, Delivered, LinkInv;
    l, acts := QuietRun(start, rs, notes, now);
    InStepHolds(start);
    ActsKeep(OriginOf(start), start, acts);
    NoneGivenUp(start, l, rs);
    AchievedIsDelivered(l.host, rs);
  }

  lemma NoneGivenUp(start: Link, l: Link, rs: seq<Request>)
    requires Achieved(start.host, []) && Achieved(l.host, rs)
    requires LinkInv(OriginOf(start), l) || !NoTimeouts(OriginOf(start), l.host.core)
    ensures Inv(l.host.core)
  {
    hide Inv, Hearing, FramesPart, RepliesPart, ReceiverPart;
  }
}
