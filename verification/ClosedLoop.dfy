/** Host and device together: every frame reaches the device, every reply the host. */
module ClosedLoop {
  import opened Prelude
  import opened Codec
  import opened Scanner
  import opened Text
  import opened SessionSpec
  import opened SessionInvariants
  import opened TransferSpec
  import opened UploadSpec
  import opened Conversation
  import opened Progress
  import D = DeviceSpec
  import Replies

  datatype World = World(transfer: Transfer, peer: D.Peer)

  datatype Move =
    | Connect(now: int)
    | Ask(call: Call)
    | Carry
    | Hear(now: int)
    | ReadEvent
    | Leave(now: int)

  /** Bytes only pass through the wire: a frame the session pushed, a reply the device wrote. */
  predicate Playable(w: World, m: Move) {
    match m
    case Ask(call) => !call.CallFeed? && !call.CallPollOutbound? && Callable(w.transfer, call)
    case Carry => w.transfer.session.core.outbound != []
    case Leave(now) => Allowed(w.transfer.session, OpSend(0, 2, [], now))
    case _ => true
  }

  function Play(w: World, m: Move): World
    requires Playable(w, m)
  {
    var t := w.transfer;
    match m
    case Connect(now) => w.(transfer := t.(session := Step(t.session, OpConnect(now))))
    case Ask(call) => w.(transfer := Do(t, call))
    case Carry => World(Do(t, CallPollOutbound), D.Feed(w.peer, t.session.core.outbound[0]))
    case Hear(now) =>
      World(Do(t, CallFeed(w.peer.device.reply, now)), w.peer.(device := w.peer.device.(reply := [])))
    case ReadEvent => w.(transfer := t.(session := Step(t.session, OpPollEvent)))
    case Leave(now) => w.(transfer := t.(session := Step(t.session, OpSend(0, 2, [], now))))
  }

  /** None when a move is not possible. */
  function Plays(w: World, moves: seq<Move>): Option<World>
    decreases |moves|
  {
    if moves == [] then Some(w)
    else if !Playable(w, moves[0]) then None
    else Plays(Play(w, moves[0]), moves[1..])
  }

  lemma {:induction false} PlaysAll(w: World, moves: seq<Move>, v: World, more: seq<Move>)
    requires Plays(w, moves) == Some(v)
    ensures Plays(w, moves + more) == Plays(v, more)
    decreases |moves|
  {
    hide Play, Playable;
    if moves == [] {
      assert moves + more == more;
    } else {
      assert (moves + more)[1..] == moves[1..] + more;
      PlaysAll(Play(w, moves[0]), moves[1..], v, more);
    }
  }

  lemma PlayFour(w: World, a: Move, b: Move, c: Move, d: Move, w1: World, w2: World, w3: World, w4: World)
    requires Playable(w, a) && w1 == Play(w, a)
    requires Playable(w1, b) && w2 == Play(w1, b)
    requires Playable(w2, c) && w3 == Play(w2, c)
    requires Playable(w3, d) && w4 == Play(w3, d)
    ensures Plays(w, [a, b, c, d]) == Some(w4)
  {
    hide Play, Playable;
    var moves := [a, b, c, d];
    assert moves[1..] == [b, c, d] && [b, c, d][1..] == [c, d];
    var two, one := [c, d], [d];
    assert two[1..] == one && one[1..] == [];
    assert Plays(w, moves) == Plays(w1, [b, c, d]);
    assert Plays(w1, [b, c, d]) == Plays(w2, two);
    assert Plays(w2, two) == Plays(w3, one);
  }

  // ----- The invariant of the session along every play -----

  lemma PollInv(c: Core)
    requires Inv(c)
    ensures Inv(c.(events := []))
  {
    hide Wire, Expand, CountAcks, Settled, WithoutHandshakes, Numbered, Requests;
  }

  lemma AskKeeps(t: Transfer, call: Call)
    requires Inv(t.session.core) && Callable(t, call)
    ensures Inv(Do(t, call).session.core)
  {
    hide Inv, Submit, Tick, Lines, AcceptLines, HandleEvents, Rest;
    match call
    case CallPollOutbound => PollsKeep(t.session.core);
    case CallFeed(chunk, now) => AcceptLinesKeeps(t.session.core, Lines(t.session.inbound + chunk), now);
    case CallTick(now) => TickKeeps(t.session.core, now);
    case CallPoll => PollInv(t.session.core);
    case CallQuery(_, now) => SubmitKeeps(t.session.core, FileRequest(PT_QUERY, []), now);
    case CallOpen(name, dummy, now) =>
      SubmitKeeps(t.session.core, FileRequest(PT_OPEN, OpenPayload(t.machine.negotiated, name, dummy)), now);
    case CallWrite(chunk, now) => SubmitKeeps(t.session.core, FileRequest(PT_WRITE, chunk), now);
    case CallClose(now) => SubmitKeeps(t.session.core, FileRequest(PT_CLOSE, []), now);
    case CallAbort(now) => SubmitKeeps(t.session.core, FileRequest(PT_ABORT, []), now);
  }

  lemma {:induction false} PlaysKeep(w: World, moves: seq<Move>)
    requires Inv(w.transfer.session.core)
    ensures Plays(w, moves).Some? ==> Inv(Plays(w, moves).value.transfer.session.core)
    decreases |moves|
  {
    hide Inv, Do, Step, D.Feed;
    if moves != [] && Playable(w, moves[0]) {
      match moves[0] {
        case Connect(now) => StepKeeps(w.transfer.session, OpConnect(now));
        case Ask(call) => AskKeeps(w.transfer, call);
        case Carry => AskKeeps(w.transfer, CallPollOutbound);
        case Hear(now) => AskKeeps(w.transfer, CallFeed(w.peer.device.reply, now));
        case ReadEvent => StepKeeps(w.transfer.session, OpPollEvent);
        case Leave(now) => StepKeeps(w.transfer.session, OpSend(0, 2, [], now));
      }
      PlaysKeep(Play(w, moves[0]), moves[1..]);
    }
  }

  // ----- One packet there and its answer back -----

  /** A frame that arrives whole is handled at once. */
  lemma DeviceTakes(d: D.Device, r: Request, sync: byte)
    ensures D.Feed(D.Peer(d, []), Wire(r, sync)) == D.Peer(D.Handle(d, PacketOf(r, sync)), [])
  {
    hide Frame, Scan, D.Handle;
    var p := PacketOf(r, sync);
    var ps, fs := [p], [Frame(p)];
    assert ps[1..] == [] && Frames([]) == [] && fs[1..] == [];
    assert Frames(ps) == [Frame(p)] + Frames(ps[1..]);
    ScanFrames(ps);
    assert Concat(fs) == Frame(p) && [] + Frame(p) == Frame(p);
    assert D.HandleAll(d, ps) == D.HandleAll(D.Handle(d, p), []);
  }

  /** A session at rest after one more packet was dispatched and its frame taken away. */
  function Dispatched(h: Host, r: Request, now: int): Host {
    var c := h.core;
    h.(core := c.(inFlight := Some(InFlight(c.sync, Wire(r, c.sync), now, now, r.isHandshake)),
                  hist := c.hist.(enqueued := c.hist.enqueued + [r],
                                  dispatched := c.hist.dispatched + [Dispatch(r, c.sync, 1)],
                                  emitted := c.hist.emitted + [Wire(r, c.sync)])))
  }

  lemma SubmitAtRest(h: Host, r: Request, now: int)
    requires h.core.inFlight.None? && h.core.queued == [] && h.core.outbound == []
    ensures var c := Submit(h.core, r, now);
            && c.outbound == [Wire(r, h.core.sync)]
            && h.(core := c.(outbound := Tail(c.outbound))) == Dispatched(h, r, now)
  {
    hide Wire;
  }

  predicate Quiescent(w: World) {
    w.peer.inbound == [] && w.peer.device.reply == [] && w.peer.device.behaviour == D.NO_BEHAVIOUR
  }

  /** Request, frame to the device, reply to the host, poll. */
  lemma Exchange(w: World, call: Call, r: Request, now: int) returns (v: World, mid: Transfer, moves: seq<Move>)
    requires AtRest(w.transfer.session) && Quiescent(w) && !r.isHandshake
    requires w.transfer.machine.pending.None? && w.transfer.machine.outEvents == []
    requires Callable(w.transfer, call) && !call.CallFeed? && !call.CallPollOutbound?
    requires Do(w.transfer, call)
          == Do(w.transfer, call).(session :=
               w.transfer.session.(core := Submit(w.transfer.session.core, r, now)))
    requires Do(w.transfer, call).machine.pending.None? && Do(w.transfer, call).machine.outEvents == []
    ensures Plays(w, moves) == Some(v)
    ensures var n, d := w.transfer.session.core.sync, w.peer.device;
            var e := D.Handle(d, PacketOf(r, n));
            && mid == Transfer(Do(w.transfer, call).machine, Dispatched(w.transfer.session, r, now))
            && Waiting(mid, mid.machine.state, n) && Listening(d, n)
            && v.transfer == Heard(mid, e.reply, now).0
            && v.peer.device == e.(reply := []) && v.peer.inbound == []
  {
    hide Wire, Do, Submit, D.Feed, D.Handle, Feed, Poll;
    var h, n := w.transfer.session, w.transfer.session.core.sync;
    SubmitAtRest(h, r, now);
    DeviceTakes(w.peer.device, r, n);
    mid := Transfer(Do(w.transfer, call).machine, Dispatched(h, r, now));
    assert w.peer == D.Peer(w.peer.device, []);
    var w1 := Play(w, Ask(call));
    assert w1.transfer == Do(w.transfer, call);
    var w2 := World(mid, D.Peer(D.Handle(w.peer.device, PacketOf(r, n)), []));
    CarryPlayed(w1, Wire(r, n), w2);
    var w3 := Play(w2, Hear(now));
    v := Play(w3, Ask(CallPoll));
    HeardPlayed(w2, now, w3, v);
    moves := [Ask(call), Carry, Hear(now), Ask(CallPoll)];
    PlayFour(w, Ask(call), Carry, Hear(now), Ask(CallPoll), w1, w2, w3, v);
  }

  lemma CarryPlayed(w: World, frame: bytes, v: World)
    requires w.transfer.session.core.outbound == [frame]
    requires v.transfer == w.transfer.(session :=
               w.transfer.session.(core := w.transfer.session.core.(outbound := Tail(w.transfer.session.core.outbound))))
    requires v.peer == D.Feed(w.peer, frame)
    ensures Playable(w, Carry) && Play(w, Carry) == v
  {
    hide D.Feed;
  }

  lemma HeardPlayed(w: World, now: int, v: World, u: World)
    requires v == Play(w, Hear(now)) && Playable(v, Ask(CallPoll)) && u == Play(v, Ask(CallPoll))
    ensures u.transfer == Heard(w.transfer, w.peer.device.reply, now).0
    ensures u.peer == w.peer.(device := w.peer.device.(reply := []))
  {
    hide Feed, Poll;
  }

  // ----- The stages of an upload -----

  /** A device that does nothing unusual and whose version the host can read. */
  predicate Prompt(d: D.Device) {
    && d.reply == [] && d.behaviour == D.NO_BEHAVIOUR
    && ValidUtf8(d.protocolVersion) && LF !in d.protocolVersion && COLON !in d.protocolVersion
  }

  /** The packets rs went through; machine and session wait for the next request. */
  ghost predicate Through(w: World, rs: seq<Request>) {
    && Achieved(w.transfer.session, rs) && Quiescent(w)
    && w.transfer.machine.pending.None? && w.transfer.machine.outEvents == []
  }

  lemma AchievedMore(h: Host, rs: seq<Request>, r: Request, now: int, g: Host)
    requires Achieved(h, rs) && !r.isHandshake
    requires Rested(Dispatched(h, r, now), g)
    ensures Achieved(g, rs + [r])
  {
    hide Wire;
    assert [HANDSHAKE] + (rs + [r]) == ([HANDSHAKE] + rs) + [r];
  }

  lemma ThroughMore(w: World, rs: seq<Request>, r: Request, now: int, v: World)
    requires Through(w, rs) && !r.isHandshake && Rested(Dispatched(w.transfer.session, r, now), v.transfer.session)
    requires v.peer.inbound == [] && v.peer.device.reply == []
    requires v.peer.device.behaviour == w.peer.device.behaviour
    requires v.transfer.machine.pending.None? && v.transfer.machine.outEvents == []
    ensures Through(v, rs + [r])
  {
    hide Achieved, Rested, Dispatched;
    AchievedMore(w.transfer.session, rs, r, now, v.transfer.session);
  }

  lemma ThroughAtRest(w: World, rs: seq<Request>)
    requires Through(w, rs)
    ensures AtRest(w.transfer.session) && Quiescent(w)
  {
  }

  const PROMPT_START := Transfer(NEW_MACHINE, Fresh(DEFAULT_RESPONSE_TIMEOUT, DEFAULT_TOTAL_TIMEOUT))

  lemma SyncReply(d: D.Device, p: Packet)
    requires d.reply == [] && d.behaviour.resendOnceForSync.None? && p.protocol == 0 && p.packetType == 1
    ensures D.Handle(d, p) == d.(reply := D.SyncText(d.initialSync, d.maxBlockSize, d.protocolVersion) + [LF])
  {
    hide D.SyncText;
    var line := D.SyncText(d.initialSync, d.maxBlockSize, d.protocolVersion);
    assert [] + line == line;
  }

  /** Connecting to a prompt device. */
  lemma Meet(d: D.Device, now: int) returns (v: World, moves: seq<Move>)
    requires Prompt(d)
    ensures Plays(World(PROMPT_START, D.Peer(d, [])), moves) == Some(v)
    ensures Through(v, []) && v.peer.device == d && v.transfer.machine == NEW_MACHINE
    ensures v.transfer.session.core.maxBlockSize == Some(d.maxBlockSize)
    ensures v.transfer.session.core.sync == d.initialSync % 256
  {
    hide Wire, D.SyncText, D.Handle, Feed, D.Feed, ValidUtf8, Trim;
    var w := World(PROMPT_START, D.Peer(d, []));
    var h := PROMPT_START.session;
    SubmitAtRest(h, HANDSHAKE, now);
    DeviceTakes(d, HANDSHAKE, 0);
    SyncReply(d, PacketOf(HANDSHAKE, 0));
    var line := D.SyncText(d.initialSync, d.maxBlockSize, d.protocolVersion);
    var g := Dispatched(h, HANDSHAKE, now);
    var w1 := Play(w, Connect(now));
    var w2 := World(Transfer(NEW_MACHINE, g), D.Peer(d.(reply := line + [LF]), []));
    CarryPlayed(w1, Wire(HANDSHAKE, 0), w2);
    Replies.SyncLineFed(g, d.initialSync, d.maxBlockSize, d.protocolVersion, now);
    var w3 := Play(w2, Hear(now));
    v := Play(w3, ReadEvent);
    moves := [Connect(now), Carry, Hear(now), ReadEvent];
    PlayFour(w, Connect(now), Carry, Hear(now), ReadEvent, w1, w2, w3, v);
    MetAtRest(g, d, now);
  }

  lemma MetAtRest(g: Host, d: D.Device, now: int)
    requires g == Dispatched(PROMPT_START.session, HANDSHAKE, now)
    ensures var c := Synchronize(g.core, d.initialSync, d.maxBlockSize, Trim(d.protocolVersion), now);
            && Achieved(Host(c.(events := Tail(c.events)), []), [])
            && c.maxBlockSize == Some(d.maxBlockSize) && c.sync == d.initialSync % 256
  {
    hide Wire, Trim;
    assert [HANDSHAKE] + [] == [HANDSHAKE];
  }

  const QUERY_PACKET := FileRequest(PT_QUERY, [])
  const CLOSE_PACKET := FileRequest(PT_CLOSE, [])

  /** QUERY against a prompt device. */
  lemma Agree(w: World, rs: seq<Request>, requested: Compression, c: Compression, now: int)
    returns (v: World, moves: seq<Move>)
    requires Through(w, rs) && Prompt(w.peer.device) && w.transfer.machine == NEW_MACHINE
    requires ChooseCompression(requested, Replies.Advertised(w.peer.device.compression)) == Success(c)
    ensures Plays(w, moves) == Some(v) && Through(v, rs + [QUERY_PACKET])
    ensures v.peer.device == w.peer.device
    ensures v.transfer.machine
         == Agreed(NEW_MACHINE.(requested := requested), w.peer.device.protocolVersion, c)
  {
    hide Wire, Achieved, Rested, Dispatched, ChooseCompression, Replies.Advertised, Heard, D.Handle, Submit, Plays,
         ValidUtf8;
    ThroughAtRest(w, rs);
    var mid;
    v, mid, moves := Exchange(w, CallQuery(requested, now), QUERY_PACKET, now);
    var n, d := w.transfer.session.core.sync, w.peer.device;
    assert PacketOf(QUERY_PACKET, n) == Packet(n, 1, 0, []);
    QueryExchange(mid, d, n, now);
    QueryLeaves(d, n);
    ThroughMore(w, rs, QUERY_PACKET, now, v);
  }

  lemma QueryLeaves(d: D.Device, n: byte)
    requires Prompt(d)
    ensures D.Handle(d, Packet(n, 1, 0, [])).(reply := []) == d
  {
    hide D.OkText, D.VersionText, ValidUtf8;
  }

  /** OPEN against a prompt device. */
  lemma OpenPlayed(w: World, rs: seq<Request>, name: bytes, dummy: bool, now: int) returns (v: World, moves: seq<Move>)
    requires Through(w, rs) && Prompt(w.peer.device) && w.transfer.machine.state.Negotiated?
    requires |name| + 3 <= MAX_PAYLOAD
    ensures var payload := OpenPayload(w.transfer.machine.negotiated, name, dummy);
            && Plays(w, moves) == Some(v) && Through(v, rs + [FileRequest(PT_OPEN, payload)])
            && v.peer.device == D.OpenFields(w.peer.device, payload)
            && v.transfer.machine == Answered(w.transfer.machine, Opened, EvOpened)
  {
    hide Wire, Achieved, Rested, Dispatched, Heard, D.Handle, Submit, Plays, ValidUtf8, OpenPayload, D.OpenFields;
    ThroughAtRest(w, rs);
    var payload := OpenPayload(w.transfer.machine.negotiated, name, dummy);
    var r := FileRequest(PT_OPEN, payload);
    var mid;
    v, mid, moves := Exchange(w, CallOpen(name, dummy, now), r, now);
    var n, d := w.transfer.session.core.sync, w.peer.device;
    assert PacketOf(r, n) == Packet(n, 1, 1, payload);
    OpenExchange(mid, d, n, payload, now);
    OpenLeaves(d, n, payload);
    ThroughMore(w, rs, r, now, v);
  }

  lemma OpenLeaves(d: D.Device, n: byte, payload: bytes)
    requires Prompt(d)
    ensures D.Handle(d, Packet(n, 1, 1, payload)).(reply := []) == D.OpenFields(d, payload)
    ensures D.OpenFields(d, payload).behaviour == d.behaviour
  {
    hide D.OkText, ValidUtf8;
  }

  /** The machine after one more answer, its event read. */
  function Answered(m: Machine, s: State, e: FileEvent): Machine {
    m.(state := s, produced := m.produced + [e])
  }

  /** One WRITE against a prompt device. */
  lemma WritePlayed(w: World, rs: seq<Request>, chunk: bytes, now: int) returns (v: World, moves: seq<Move>)
    requires Through(w, rs) && w.transfer.machine.state.Opened? && |chunk| <= MAX_PAYLOAD
    ensures Plays(w, moves) == Some(v) && Through(v, rs + [FileRequest(PT_WRITE, chunk)])
    ensures v.peer.device == w.peer.device.(writtenBytes := w.peer.device.writtenBytes + chunk)
    ensures v.transfer.machine
         == Answered(w.transfer.machine, Opened, EvWriteAcked).(writes := w.transfer.machine.writes + 1)
  {
    hide Wire, Achieved, Rested, Dispatched, Heard, D.Handle, Submit, Plays;
    ThroughAtRest(w, rs);
    var r := FileRequest(PT_WRITE, chunk);
    var mid;
    v, mid, moves := Exchange(w, CallWrite(chunk, now), r, now);
    var n, d := w.transfer.session.core.sync, w.peer.device;
    assert PacketOf(r, n) == Packet(n, 1, 3, chunk);
    WriteExchange(mid, d, n, chunk, now);
    assert v.peer.device == d.(writtenBytes := d.writtenBytes + chunk);
    ThroughMore(w, rs, r, now, v);
  }

  /** All WRITEs. */
  lemma {:induction false} WritesPlayed(w: World, rs: seq<Request>, chunks: seq<bytes>, now: int)
    returns (v: World, moves: seq<Move>)
    requires Through(w, rs) && w.transfer.machine.state.Opened? && forall c :: c in chunks ==> |c| <= MAX_PAYLOAD
    ensures Plays(w, moves) == Some(v) && Through(v, rs + WriteRequests(chunks))
    ensures v.peer.device == w.peer.device.(writtenBytes := w.peer.device.writtenBytes + Concat(chunks))
    ensures v.transfer.machine
         == w.transfer.machine.(produced := w.transfer.machine.produced + Repeat(EvWriteAcked, |chunks|),
                                writes := w.transfer.machine.writes + |chunks|)
    decreases |chunks|
  {
    hide Through, WriteRequests, Concat, Repeat, Plays;
    if chunks == [] {
      v, moves := w, [];
      NoWrites(w, rs, chunks);
    } else {
      var front, x := chunks[..|chunks| - 1], chunks[|chunks| - 1];
      assert forall c :: c in front ==> c in chunks;
      assert x in chunks && chunks == front + [x];
      var u, before := WritesPlayed(w, rs, front, now);
      var more;
      v, more := WritePlayed(u, rs + WriteRequests(front), x, now);
      moves := before + more;
      PlaysAll(w, before, u, more);
      OneMoreWrite(w, rs, front, x);
    }
  }

  lemma NoWrites(w: World, rs: seq<Request>, chunks: seq<bytes>)
    requires chunks == []
    ensures rs + WriteRequests(chunks) == rs && Plays(w, []) == Some(w)
    ensures w.peer.device.writtenBytes + Concat(chunks) == w.peer.device.writtenBytes
    ensures w.transfer.machine.produced + Repeat(EvWriteAcked, 0) == w.transfer.machine.produced
  {
  }

  lemma OneMoreWrite(w: World, rs: seq<Request>, front: seq<bytes>, x: bytes)
    requires |x| <= MAX_PAYLOAD && forall c :: c in front ==> |c| <= MAX_PAYLOAD
    ensures forall c :: c in front + [x] ==> |c| <= MAX_PAYLOAD
    ensures (rs + WriteRequests(front)) + [FileRequest(PT_WRITE, x)] == rs + WriteRequests(front + [x])
    ensures (w.peer.device.writtenBytes + Concat(front)) + x == w.peer.device.writtenBytes + Concat(front + [x])
    ensures (w.transfer.machine.produced + Repeat(EvWriteAcked, |front|)) + [EvWriteAcked]
         == w.transfer.machine.produced + Repeat(EvWriteAcked, |front| + 1)
  {
    hide Concat, WriteRequests, Repeat;
    WriteRequestsSnoc(front, x);
    JoinAssociates(rs, WriteRequests(front), [FileRequest(PT_WRITE, x)]);
    ConcatAppend(front, [x]);
    ConcatOne(x);
    JoinAssociates(w.peer.device.writtenBytes, Concat(front), x);
    RepeatSnoc(EvWriteAcked, |front|);
    JoinAssociates(w.transfer.machine.produced, Repeat(EvWriteAcked, |front|), [EvWriteAcked]);
  }

  /** CLOSE against a prompt device. */
  lemma ClosePlayed(w: World, rs: seq<Request>, now: int) returns (v: World, moves: seq<Move>)
    requires Through(w, rs) && w.transfer.machine.state.Opened?
    ensures Plays(w, moves) == Some(v) && Through(v, rs + [CLOSE_PACKET])
    ensures v.peer.device == w.peer.device.(closed := true)
    ensures v.transfer.machine == Answered(w.transfer.machine, Closed, EvClosed)
  {
    hide Wire, Achieved, Rested, Dispatched, Heard, D.Handle, Submit, Plays;
    ThroughAtRest(w, rs);
    var mid;
    v, mid, moves := Exchange(w, CallClose(now), CLOSE_PACKET, now);
    var n, d := w.transfer.session.core.sync, w.peer.device;
    assert PacketOf(CLOSE_PACKET, n) == Packet(n, 1, 2, []);
    TerminalExchange(mid, d, n, false, now);
    CloseLeaves(d, n);
    ThroughMore(w, rs, CLOSE_PACKET, now, v);
  }

  lemma CloseLeaves(d: D.Device, n: byte)
    requires d.behaviour == D.NO_BEHAVIOUR && d.reply == []
    ensures D.Handle(d, Packet(n, 1, 2, [])).(reply := []) == d.(closed := true)
  {
    hide D.OkText;
  }

  /** The control CLOSE, sent by the session once the file transfer is over. */
  lemma LeavePlayed(w: World, rs: seq<Request>, now: int) returns (v: World, moves: seq<Move>)
    requires Through(w, rs)
    ensures Plays(w, moves) == Some(v) && Through(v, rs + [CONTROL_CLOSE])
    ensures v.peer.device == w.peer.device.(controlClosed := true) && v.transfer.machine == w.transfer.machine
  {
    hide Wire, Feed, D.OkText, D.Handle, D.Feed, Plays, HandleOk, Achieved, Settling;
    ThroughAtRest(w, rs);
    var h, d, n := w.transfer.session, w.peer.device, w.transfer.session.core.sync;
    SubmitAtRest(h, CONTROL_CLOSE, now);
    DeviceTakes(d, CONTROL_CLOSE, n);
    assert w.peer == D.Peer(d, []);
    assert PacketOf(CONTROL_CLOSE, n) == Packet(n, 0, 2, []);
    ControlCloseReply(d, n);
    var g := Dispatched(h, CONTROL_CLOSE, now);
    var w1 := Play(w, Leave(now));
    var w2 := World(w.transfer.(session := g), D.Peer(D.Handle(d, Packet(n, 0, 2, [])), []));
    CarryPlayed(w1, Wire(CONTROL_CLOSE, n), w2);
    AckHeard(g, n, now);
    var w3 := Play(w2, Hear(now));
    v := Play(w3, ReadEvent);
    moves := [Leave(now), Carry, Hear(now), ReadEvent];
    PlayFour(w, Leave(now), Carry, Hear(now), ReadEvent, w1, w2, w3, v);
    LeftRested(g, w3.transfer.session, n);
    ThroughMore(w, rs, CONTROL_CLOSE, now, v);
  }

  lemma LeftRested(g: Host, h: Host, n: byte)
    requires Settling(g.core, h.core) && h.core.events == [Ack(n)] && h.inbound == []
    ensures Rested(g, Step(h, OpPollEvent))
  {
  }

  lemma ControlCloseReply(d: D.Device, n: byte)
    requires d.behaviour == D.NO_BEHAVIOUR && d.reply == []
    ensures D.Handle(d, Packet(n, 0, 2, [])) == d.(controlClosed := true, reply := D.OkText(n) + [LF])
  {
    hide D.OkText;
    assert [] + D.OkText(n) == D.OkText(n);
  }

  // ----- The whole upload -----

  /** The handshake, QUERY and OPEN. */
  lemma OpeningPlayed(d: D.Device, o: Options, c: Compression, now: int) returns (w: World, moves: seq<Move>)
    requires Prompt(d) && |o.destFilename| + 3 <= MAX_PAYLOAD
    requires ChooseCompression(o.compression, Replies.Advertised(d.compression)) == Success(c)
    ensures Plays(World(PROMPT_START, D.Peer(d, [])), moves) == Some(w)
    ensures Through(w, [QUERY_PACKET, OpenRequest(o, c)])
    ensures w.peer.device == D.OpenFields(d, OpenPayload(Some(c), o.destFilename, o.dummy))
    ensures w.transfer.machine.state.Opened?
    ensures w.transfer.machine.produced == [EvNegotiated(d.protocolVersion, c), EvOpened]
  {
    hide Plays, Through, ChooseCompression, Replies.Advertised, OpenPayload, D.OpenFields, ValidUtf8;
    var start := World(PROMPT_START, D.Peer(d, []));
    var w1, m1 := Meet(d, now);
    var w2, m2 := Agree(w1, [], o.compression, c, now);
    PlaysAll(start, m1, w1, m2);
    assert [] + [QUERY_PACKET] == [QUERY_PACKET];
    assert Prompt(w2.peer.device);
    var w3, m3 := OpenPlayed(w2, [QUERY_PACKET], o.destFilename, o.dummy, now);
    PlaysAll(start, m1 + m2, w2, m3);
    assert [QUERY_PACKET] + [OpenRequest(o, c)] == [QUERY_PACKET, OpenRequest(o, c)];
    assert [EvNegotiated(d.protocolVersion, c)] + [EvOpened] == [EvNegotiated(d.protocolVersion, c), EvOpened];
    w, moves := w3, m1 + m2 + m3;
  }

  /** The WRITEs, CLOSE and the control CLOSE. */
  lemma RestPlayed(w: World, rs: seq<Request>, chunks: seq<bytes>, now: int) returns (v: World, moves: seq<Move>)
    requires Through(w, rs) && w.transfer.machine.state.Opened? && forall c :: c in chunks ==> |c| <= MAX_PAYLOAD
    ensures Plays(w, moves) == Some(v)
    ensures Through(v, rs + WriteRequests(chunks) + [CLOSE_PACKET] + [CONTROL_CLOSE])
    ensures v.peer.device
         == w.peer.device.(writtenBytes := w.peer.device.writtenBytes + Concat(chunks), closed := true,
                           controlClosed := true)
    ensures v.transfer.machine.state.Closed?
    ensures v.transfer.machine.produced
         == w.transfer.machine.produced + Repeat(EvWriteAcked, |chunks|) + [EvClosed]
  {
    hide Plays, Through, WriteRequests, Concat, Repeat;
    var w1, m1 := WritesPlayed(w, rs, chunks, now);
    var w2, m2 := ClosePlayed(w1, rs + WriteRequests(chunks), now);
    PlaysAll(w, m1, w1, m2);
    var m3;
    v, m3 := LeavePlayed(w2, rs + WriteRequests(chunks) + [CLOSE_PACKET], now);
    PlaysAll(w, m1 + m2, w2, m3);
    moves := m1 + m2 + m3;
  }

  /**
   * Uploads succeed: for every prompt device, every compression it agrees to,
   * every name that fits and every list of chunks there is a play, with nothing
   * but whole frames and whole replies passing between the two, that takes a
   * fresh session and a new machine to the end. The machine reports Negotiated,
   * Opened, one WriteAcked per chunk and Closed; the device has opened the named
   * file, stored exactly the payload, closed it and left binary mode; and the
   * session has dispatched exactly the plan, each packet once, and is at rest.
   */
  lemma UploadSucceeds(d: D.Device, o: Options, c: Compression, chunks: seq<bytes>, now: int)
    returns (w: World, moves: seq<Move>)
    requires Prompt(d) && |o.destFilename| + 3 <= MAX_PAYLOAD && forall x :: x in chunks ==> |x| <= MAX_PAYLOAD
    requires ChooseCompression(o.compression, Replies.Advertised(d.compression)) == Success(c)
    ensures Plays(World(PROMPT_START, D.Peer(d, [])), moves) == Some(w)
    ensures w.transfer.machine.state.Closed?
    ensures w.transfer.machine.produced
         == [EvNegotiated(d.protocolVersion, c), EvOpened] + Repeat(EvWriteAcked, |chunks|) + [EvClosed]
    ensures var e := D.OpenFields(d, OpenPayload(Some(c), o.destFilename, o.dummy));
            w.peer == D.Peer(e.(writtenBytes := d.writtenBytes + Concat(chunks), closed := true, controlClosed := true),
                             [])
    ensures AtRest(w.transfer.session)
    ensures Delivered([TRIGGER] + w.transfer.session.core.hist.emitted, w.transfer.session.core, Plan(o, c, chunks))
    ensures forall p :: p in w.transfer.session.core.hist.dispatched ==> p.copies == 1
  {
    hide Plays, Through, Delivered, ChooseCompression, Replies.Advertised, OpenPayload, WriteRequests, Concat, Repeat,
         D.OpenFields, ValidUtf8, Prompt, Plan, OpenRequest, Achieved, AtRest, Inv;
    var start := World(PROMPT_START, D.Peer(d, []));
    var u, before := OpeningPlayed(d, o, c, now);
    var rs := [QUERY_PACKET, OpenRequest(o, c)];
    var more;
    w, more := RestPlayed(u, rs, chunks, now);
    PlaysAll(start, before, u, more);
    moves := before + more;
    FreshIsInv(DEFAULT_RESPONSE_TIMEOUT, DEFAULT_TOTAL_TIMEOUT);
    PlaysKeep(start, moves);
    PlanPlayed(o, c, chunks);
    AllThrough(w, rs + WriteRequests(chunks) + [CLOSE_PACKET] + [CONTROL_CLOSE]);
    OpenFieldsWritten(d, OpenPayload(Some(c), o.destFilename, o.dummy));
  }

  lemma OpenFieldsWritten(d: D.Device, payload: bytes)
    ensures D.OpenFields(d, payload).writtenBytes == d.writtenBytes
  {
  }

  lemma PlanPlayed(o: Options, c: Compression, chunks: seq<bytes>)
    requires |o.destFilename| + 3 <= MAX_PAYLOAD && forall x :: x in chunks ==> |x| <= MAX_PAYLOAD
    ensures [HANDSHAKE] + ([QUERY_PACKET, OpenRequest(o, c)] + WriteRequests(chunks) + [CLOSE_PACKET] + [CONTROL_CLOSE])
         == Plan(o, c, chunks)
  {
    hide WriteRequests, OpenRequest;
    assert [HANDSHAKE] + [QUERY_PACKET, OpenRequest(o, c)] == Opening(o, c);
  }

  lemma AllThrough(w: World, rs: seq<Request>)
    requires Through(w, rs) && Inv(w.transfer.session.core)
    ensures var h := w.transfer.session;
            && AtRest(h) && w.peer.inbound == []
            && Delivered([TRIGGER] + h.core.hist.emitted, h.core, [HANDSHAKE] + rs)
            && forall p :: p in h.core.hist.dispatched ==> p.copies == 1
  {
    hide Inv, Delivered, Quiescent;
    AchievedIsDelivered(w.transfer.session, rs);
    ThroughQuiescent(w, rs);
  }

  lemma ThroughQuiescent(w: World, rs: seq<Request>)
    requires Through(w, rs)
    ensures w.peer.inbound == []
  {
    hide Achieved;
  }
}
