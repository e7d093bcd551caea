/**
 * The blocking upload driver. The transport and the clock are oracles: a
 * transport object carries arbitrary scripts of read results, write faults and
 * instants with the places reached in them, so what is proved about `Upload`
 * holds for every behaviour and speaks of what was really read and written.
 */
module UploadDriver {
  import opened Prelude
  import opened Codec
  import opened Journal
  import opened SessionInvariants
  import opened SessionTheorems
  import opened TransferInvariants
  import opened TransferTheorems
  import opened UploadSpec
  import opened UploadInvariants
  import opened Reading
  import opened SessionClass
  import opened FileTransferClass
  import S = SessionSpec
  import T = TransferSpec

  datatype ReadOutcome = Received(chunk: bytes) | ReadTimedOut | ReadFailed

  datatype UploadError =
    | Io
    | TransferError(error: T.FileError)
    | Stalled
    | HandshakeFailed
    | CompressionError

  /** A panic is an assertion of the library that the driver runs into. */
  datatype UploadResult = Done(stats: Stats) | Err(error: UploadError) | Panicked

  function InputAt(inputs: seq<ReadOutcome>, i: nat): ReadOutcome {
    if i < |inputs| then inputs[i] else ReadTimedOut
  }

  predicate FaultAt(faults: seq<bool>, i: nat) {
    i < |faults| && faults[i]
  }

  function InstantAt(clock: seq<int>, i: nat): int {
    if i < |clock| then clock[i] else 0
  }

  /** The non-empty chunks among the first n read results. */
  function ChunksRead(inputs: seq<ReadOutcome>, n: nat): seq<bytes> {
    if n == 0 then []
    else
      ChunksRead(inputs, n - 1)
      + match InputAt(inputs, n - 1)
        case Received(chunk) => if chunk == [] then [] else [chunk]
        case _ => []
  }

  function InstantsShown(clock: seq<int>, n: nat): seq<int> {
    if n == 0 then [] else InstantsShown(clock, n - 1) + [InstantAt(clock, n - 1)]
  }

  class Transport {
    const inputs: seq<ReadOutcome>
    const writeFaults: seq<bool>
    const clock: seq<int>
    var readCount: nat
    var writeCount: nat
    var lookCount: nat
    var written: seq<bytes>

    ghost function Taken(): seq<bytes>
      reads this`readCount
    {
      ChunksRead(inputs, readCount)
    }

    ghost function Shown(): seq<int>
      reads this`lookCount
    {
      InstantsShown(clock, lookCount)
    }

    /** The last read or the last write failed. */
    ghost predicate Faulted()
      reads this`readCount, this`writeCount
    {
      || (readCount > 0 && InputAt(inputs, readCount - 1).ReadFailed?)
      || (writeCount > 0 && FaultAt(writeFaults, writeCount - 1))
    }

    /** No read and no write has failed. */
    ghost predicate Unfailed()
      reads this`readCount, this`writeCount
    {
      && (forall i :: 0 <= i < readCount ==> !InputAt(inputs, i).ReadFailed?)
      && (forall i :: 0 <= i < writeCount ==> !FaultAt(writeFaults, i))
    }

    constructor (inputs: seq<ReadOutcome>, writeFaults: seq<bool>, clock: seq<int>)
      ensures written == [] && Taken() == [] && Shown() == [] && Unfailed()
    {
      this.inputs, this.writeFaults, this.clock := inputs, writeFaults, clock;
      readCount, writeCount, lookCount, written := 0, 0, 0, [];
    }

    method Read() returns (r: ReadOutcome)
      modifies this`readCount
      ensures readCount == old(readCount) + 1 && r == InputAt(inputs, old(readCount))
      ensures !r.ReadFailed? && old(Unfailed()) ==> Unfailed()
    {
      r := InputAt(inputs, readCount);
      readCount := readCount + 1;
    }

    method WriteAll(frame: bytes) returns (ok: bool)
      modifies this`writeCount, this`written
      ensures written == if ok then old(written) + [frame] else old(written)
      ensures !ok ==> Faulted()
      ensures ok && old(Unfailed()) ==> Unfailed()
    {
      ok := !FaultAt(writeFaults, writeCount);
      writeCount := writeCount + 1;
      if ok {
        written := written + [frame];
      }
    }

    method Now() returns (now: int)
      modifies this`lookCount
      ensures lookCount == old(lookCount) + 1 && Shown() == old(Shown()) + [now]
    {
      now := InstantAt(clock, lookCount);
      lookCount := lookCount + 1;
    }
  }

  /** One read: a chunk, nothing on a timeout, or a transport error. */
  method ReadSome(transport: Transport) returns (r: Option<bytes>)
    modifies transport`readCount
    ensures transport.Taken()
         == if r.None? || r.value == [] then old(transport.Taken()) else old(transport.Taken()) + [r.value]
    ensures transport.readCount == old(transport.readCount) + 1
    ensures r.None? ==> transport.Faulted()
    ensures r.Some? && old(transport.Unfailed()) ==> transport.Unfailed()
  {
    var outcome := transport.Read();
    match outcome {
      case Received(chunk) => r := Some(chunk);
      case ReadTimedOut => r := Some([]);
      case ReadFailed => r := None;
    }
  }

  // ----- What was read, and when -----

  /** The session has been given exactly what the transport and the clock have shown so far. */
  ghost predicate Logged(transport: Transport, session: Session, origin: Option<S.Host>)
    reads transport`readCount, transport`lookCount, session
  {
    && session.responseTimeout == S.DEFAULT_RESPONSE_TIMEOUT && session.totalTimeout == S.DEFAULT_TOTAL_TIMEOUT
    && session.Valid() && Accounts(session.ops, transport.Taken(), transport.Shown(), origin)
  }

  lemma LoggedRun(transport: Transport, session: Session, origin: Option<S.Host>)
    requires Logged(transport, session, origin)
    ensures S.Run(Start(), session.ops) == Some(session.State())
    ensures session.Valid() && Accounts(session.ops, transport.Taken(), transport.Shown(), origin)
  {
    hide S.Run, Accounts;
  }

  method NextFrame(transport: Transport, session: Session, ghost origin: Option<S.Host>) returns (frame: Option<bytes>)
    requires Logged(transport, session, origin)
    modifies session
    ensures Logged(transport, session, origin) && session.ops == old(session.ops) + [S.OpPollOutbound]
    ensures frame == S.Head(old(session.outbound))
    ensures session.State() == old(session.State()).(core := old(session.Now()).(outbound := session.outbound))
    ensures session.outbound == S.Tail(old(session.outbound)) && Ticks(session.ops) == Ticks(old(session.ops))
  {
    hide Accounts, S.Run, Ticks;
    LoggedRun(transport, session, origin);
    TicksSnoc(session.ops, S.OpPollOutbound);
    AccountsPoll(session.ops, session.State(), S.OpPollOutbound, transport.Taken(), transport.Shown(), origin);
    frame := session.PollOutbound();
  }

  /** A frame taken out, and those still pending. */
  function Held(next: Option<bytes>, pending: seq<bytes>): seq<bytes> {
    if next.Some? then [next.value] + pending else pending
  }

  lemma Popped(pending: seq<bytes>)
    ensures Held(S.Head(pending), S.Tail(pending)) == pending
    ensures S.Head(pending).None? ==> S.Tail(pending) == []
    ensures S.Head(pending).Some? ==> |S.Tail(pending)| + 1 == |pending|
  {
  }

  lemma WroteOne(written: seq<bytes>, frame: bytes, pending: seq<bytes>)
    ensures written + Held(Some(frame), pending) == (written + [frame]) + pending
  {
  }

  lemma WroteAll(written: seq<bytes>)
    ensures written + Held(None, []) == written
  {
  }

  lemma WroteSome(written: seq<bytes>, next: Option<bytes>, pending: seq<bytes>)
    ensures written <= written + Held(next, pending)
  {
  }

  /** Writes everything the session has pending. */
  method Flush(transport: Transport, session: Session, ghost origin: Option<S.Host>) returns (ok: bool)
    requires Logged(transport, session, origin)
    modifies transport`writeCount, transport`written, session
    ensures Logged(transport, session, origin) && old(session.ops) <= session.ops
    ensures Ticks(session.ops) == Ticks(old(session.ops))
    ensures session.State() == old(session.State()).(core := old(session.Now()).(outbound := session.outbound))
    ensures ReadSoFar(session.Now()) == old(ReadSoFar(session.Now()))
    ensures transport.written <= old(transport.written) + old(session.outbound)
    ensures !ok ==> transport.Faulted()
    ensures ok && old(transport.Unfailed()) ==> transport.Unfailed()
    ensures ok ==>
              && transport.written == old(transport.written) + old(session.outbound)
              && session.State() == old(session.State()).(core := old(session.Now()).(outbound := []))
  {
    hide Logged, Transport.Faulted, Transport.Unfailed, Held, S.Head, S.Tail, Ticks;
    Popped(session.outbound);
    var next := NextFrame(transport, session, origin);
    while next.Some?
      invariant Logged(transport, session, origin) && old(session.ops) <= session.ops
      invariant Ticks(session.ops) == Ticks(old(session.ops))
      invariant old(transport.Unfailed()) ==> transport.Unfailed()
      invariant transport.written + Held(next, session.outbound) == old(transport.written) + old(session.outbound)
      invariant next.None? ==> session.outbound == []
      invariant session.State()
             == old(session.State()).(core := old(session.Now()).(outbound := session.outbound))
      decreases |session.outbound| + if next.Some? then 1 else 0
    {
      WroteOne(transport.written, next.value, session.outbound);
      WroteSome(transport.written, next, session.outbound);
      ok := transport.WriteAll(next.value);
      if !ok {
        return false;
      }
      Popped(session.outbound);
      next := NextFrame(transport, session, origin);
    }
    WroteAll(transport.written);
    ok := true;
  }

  /** The state after what was received, if anything was. */
  function Fresher(h: S.Host, fed: Option<(bytes, int)>): S.Host {
    match fed
    case None => h
    case Some((chunk, now)) => S.Feed(h, chunk, now)
  }

  /** One read, fed to the session unless it is empty. */
  method Receive(transport: Transport, session: Session, ghost origin: Option<S.Host>)
    returns (ok: bool, ghost fed: Option<(bytes, int)>)
    requires Logged(transport, session, origin) && session.outbound == []
    modifies transport`readCount, transport`lookCount, session
    ensures Logged(transport, session, origin) && old(session.ops) <= session.ops
    ensures session.State() == Fresher(old(session.State()), fed) && Ticks(session.ops) == Ticks(old(session.ops))
    ensures transport.readCount == old(transport.readCount) + 1
    ensures ReadSoFar(session.Now()) == old(ReadSoFar(session.Now()))
    ensures !ok ==> transport.Faulted() && fed.None?
    ensures ok && old(transport.Unfailed()) ==> transport.Unfailed()
  {
    hide Accounts, S.Run, S.Feed, Ticks, ReadSoFar, Reported;
    ReportedNow(session);
    LoggedRun(transport, session, origin);
    ghost var taken, shown := transport.Taken(), transport.Shown();
    ok, fed := true, None;
    var chunk := ReadSome(transport);
    if chunk.None? {
      return false, None;
    }
    if chunk.value != [] {
      var now := transport.Now();
      AccountsFeed(session.ops, session.State(), chunk.value, now, taken, shown, origin);
      TicksSnoc(session.ops, S.OpFeed(chunk.value, now));
      FeedUnread(session.State(), chunk.value, now);
      session.Feed(chunk.value, now);
      fed := Some((chunk.value, now));
    }
  }

  /** `poll_event`, with the state before the read recoverable from the answer. */
  method NextEvent(transport: Transport, session: Session, ghost origin: Option<S.Host>)
    returns (event: Option<S.Event>)
    requires Logged(transport, session, origin)
    modifies session
    ensures Logged(transport, session,
                   if origin.None? && event.Some? && event.value.Synced? then Some(session.State()) else origin)
    ensures session.ops == old(session.ops) + [S.OpPollEvent] && Ticks(session.ops) == Ticks(old(session.ops))
    ensures session.inbound == old(session.inbound)
    ensures session.Now() == old(session.Now()).(events := session.events)
    ensures event.Some? ==> old(session.events) == [event.value] + session.events
    ensures ReadSoFar(session.Now()) == old(ReadSoFar(session.Now())) + if event.Some? then [event.value] else []
    ensures event.None? ==> old(session.events) == [] && session.events == []
  {
    hide Accounts, S.Run, Ticks, ReadSoFar, Reported;
    TicksSnoc(session.ops, S.OpPollEvent);
    ReportedNow(session);
    EventRead(session.Now());
    LoggedRun(transport, session, origin);
    if origin.None? && ReadsSynced(session.State()) {
      AccountsSynced(session.ops, session.State(), transport.Taken(), transport.Shown());
    } else {
      AccountsPoll(session.ops, session.State(), S.OpPollEvent, transport.Taken(), transport.Shown(), origin);
    }
    event := session.PollEvent();
  }

  lemma ReportedNow(session: Session)
    requires session.Valid()
    ensures Reported(session.Now())
  {
    hide ReachedBy, Reported;
    ReachedReported(session.State(), session.responseTimeout, session.totalTimeout, session.ops);
  }

  /** Why the handshake broke off; HandshakeFailed says that 200 rounds brought no ss. */
  ghost predicate HandshakeCause(transport: Transport, c: S.Core, ops: seq<S.Op>, e: UploadError)
    reads transport`readCount, transport`writeCount
  {
    match e
    case Io => transport.Faulted()
    case TransferError(err) => transport.Unfailed() && BrokenBy(ReadSoFar(c), true, err)
    case HandshakeFailed =>
      transport.Unfailed() && !c.isSynced && Undecided(ReadSoFar(c), true) && Ticks(ops) == 200
    case _ => false
  }

  /**
   * Why a request to the machine broke off: a failure it answered is the error
   * returned, and Stalled says that it still waits after 200 polls since the request.
   */
  ghost predicate RequestCause(transport: Transport, m: T.Machine, calls: seq<T.Call>, answer: Option<T.FileEvent>,
                               e: UploadError)
    reads transport`readCount, transport`writeCount
  {
    match e
    case Io => transport.Faulted() && answer.None?
    case TransferError(err) => transport.Unfailed() && answer == Some(T.EvFailed(err))
    case Stalled =>
      && transport.Unfailed() && answer.None? && Awaiting(m.state)
      && PollsSinceRequest(calls) == 200 && TicksSinceRequest(calls) == 200
    case _ => false
  }

  /** Why the last packet broke off; Stalled says that the control CLOSE is still owed its ack after 200 more rounds. */
  ghost predicate ClosingCause(transport: Transport, c: S.Core, ops: seq<S.Op>, before: nat, read: nat, e: UploadError)
    requires before <= |ops|
    reads transport`readCount, transport`writeCount
  {
    match e
    case Io => transport.Faulted()
    case TransferError(err) => transport.Unfailed() && BrokenBy(ReadAfter(c, read), false, err)
    case Stalled =>
      && transport.Unfailed() && Undecided(ReadAfter(c, read), false)
      && Owed(c) == 1 && c.hist.enqueued != [] && c.hist.enqueued[|c.hist.enqueued| - 1] == CONTROL_CLOSE
      && Ticks(ops) == Ticks(ops[..before]) + 200
    case _ => false
  }

  /** What is on the wire is the beginning of the trigger and what the session pushed. */
  ghost predicate Wired(transport: Transport, session: Session)
    reads transport`written, session
  {
    transport.written <= [TRIGGER] + session.hist.emitted
  }

  lemma FlowWired(written: seq<bytes>, c: S.Core)
    requires Flow(written, c)
    ensures written <= [TRIGGER] + c.hist.emitted
    ensures written + c.outbound <= [TRIGGER] + c.hist.emitted
  {
  }

  method TickNow(transport: Transport, session: Session, ghost origin: Option<S.Host>) returns (ghost now: int)
    requires Logged(transport, session, origin) && session.outbound == [] && session.events == []
    modifies transport`lookCount, session
    ensures Logged(transport, session, origin) && old(session.ops) <= session.ops
    ensures session.Now() == S.Tick(old(session.Now()), now) && session.inbound == old(session.inbound)
    ensures Ticks(session.ops) == Ticks(old(session.ops)) + 1
    ensures ReadSoFar(session.Now()) == old(ReadSoFar(session.Now()))
  {
    hide Accounts, S.Run, S.Tick, Ticks, ReadSoFar, Reported;
    ReportedNow(session);
    LoggedRun(transport, session, origin);
    ghost var taken, shown := transport.Taken(), transport.Shown();
    var at := transport.Now();
    AccountsAt(session.ops, session.State(), S.OpTick(at), at, taken, shown, origin);
    TicksSnoc(session.ops, S.OpTick(at));
    TickUnread(session.Now(), at);
    session.Tick(at);
    now := at;
  }

  // ----- The handshake -----

  ghost predicate Unanswered(transport: Transport, session: Session)
    reads transport, session
  {
    && Logged(transport, session, None) && Handshaking(session.Now()) && Flow(transport.written, session.Now())
    && transport.Unfailed() && Undecided(ReadSoFar(session.Now()), true)
  }

  /** The last event read is a Synced, and nothing before it broke the handshake off. */
  ghost predicate SyncedFirst(c: S.Core) {
    exists e: S.Event :: e.Synced? && DecidedBy(ReadSoFar(c), true, e)
  }

  ghost predicate Answering(transport: Transport, session: Session)
    reads transport, session
  {
    && Logged(transport, session, Some(session.State()))
    && JustSynced(session.Now()) && Flow(transport.written, session.Now())
    && session.outbound == [] && session.queued == [] && session.hist.enqueued == [S.HANDSHAKE]
    && transport.Unfailed() && SyncedFirst(session.Now())
  }

  method DriveSessionUntilSynced(transport: Transport, session: Session)
    returns (r: Result<(), UploadError>)
    requires Unanswered(transport, session)
    modifies transport, session
    ensures if r.Success? then Answering(transport, session) else Logged(transport, session, None)
    ensures r.Success? ==> TickedBetween(transport, session, 1)
    ensures r.Failure? ==>
              && Wired(transport, session) && session.hist.enqueued == [S.HANDSHAKE]
              && (r.error.Io? ==> transport.Faulted())
              && (!r.error.Io? ==> transport.Unfailed())
              && (r.error.TransferError? ==> BrokenBy(ReadSoFar(session.Now()), true, r.error.error))
              && !r.error.Stalled? && !r.error.CompressionError?
              && (r.error.HandshakeFailed? ==>
                    && Unanswered(transport, session) && !session.isSynced
                    && transport.readCount == old(transport.readCount) + 200
                    && Ticks(session.ops) == Ticks(old(session.ops)) + 200)
  {
    hide ReadSoFar, Undecided, Logged, Handshaking, Flow, S.Feed, S.Tick, Answering, Fresher, Ticks,
         Transport.Faulted, Transport.Unfailed;
    NotYetSynced(session.Now());
    for k := 0 to 200
      invariant Unanswered(transport, session) && (k > 0 ==> !session.isSynced)
      invariant transport.readCount == old(transport.readCount) + k
      invariant Ticks(session.ops) == Ticks(old(session.ops)) + k
    {
      FlowFlushed(transport.written, session.Now());
      FlowWired(transport.written, session.Now());
      OutboundOfHandshake(session.Now());
      HandshakeRequests(session.Now());
      var ok := Flush(transport, session, None);
      if !ok {
        return Failure(Io);
      }
      ghost var before := session.State();
      ghost var fed;
      FlowWired(transport.written, before.core);
      ok, fed := Receive(transport, session, None);
      if !ok {
        NothingFed(before);
        return Failure(Io);
      }
      FresherHandshaking(transport.written, before, fed);
      var answer := HandshakeEvents(transport, session);
      if answer.Some? {
        return answer.value;
      }
      before := session.State();
      ghost var now := TickNow(transport, session, None);
      NotYetSynced(before.core);
      TickKeepsSynced(before.core, now);
      TickHandshaking(before.core, now);
      HandshakeRequests(before.core);
      FlowTick(transport.written, before.core, now);
    }
    FlowWired(transport.written, session.Now());
    HandshakeRequests(session.Now());
    r := Failure(HandshakeFailed);
  }

  lemma NothingFed(h: S.Host)
    ensures Fresher(h, None) == h
  {
  }

  /** With every event read and the handshake undecided, no ss has come. */
  lemma NotYetSynced(c: S.Core)
    requires Handshaking(c)
    ensures c.events == [] ==> !c.isSynced
  {
  }

  lemma TickKeepsSynced(c: S.Core, now: int)
    ensures S.Tick(c, now).isSynced == c.isSynced
  {
    hide S.Wire;
  }

  /** Reads events until one decides the handshake; None when all are read. */
  method HandshakeEvents(transport: Transport, session: Session) returns (r: Option<Result<(), UploadError>>)
    requires Unanswered(transport, session) && session.outbound == []
    modifies session
    ensures r.None? ==> Unanswered(transport, session) && session.outbound == [] && session.events == []
    ensures r.Some? && r.value.Success? ==> Answering(transport, session)
    ensures Ticks(session.ops) == Ticks(old(session.ops))
    ensures r.Some? && r.value.Failure? ==>
              && Logged(transport, session, None) && Wired(transport, session)
              && session.hist.enqueued == [S.HANDSHAKE]
              && r.value.error.TransferError? && BrokenBy(ReadSoFar(session.Now()), true, r.value.error.error)
  {
    hide Logged, Handshaking, Flow, JustSynced, Ticks, ReadSoFar, Undecided, DecidedBy, Transport.Unfailed;
    ghost var read := ReadSoFar(session.Now());
    var event := NextEvent(transport, session, None);
    while event.Some?
      invariant session.outbound == [] && Ticks(session.ops) == Ticks(old(session.ops))
      invariant event.None? ==> Unanswered(transport, session) && session.events == []
      invariant Logged(transport, session,
                       if event.Some? && event.value.Synced? then Some(session.State()) else None)
      invariant transport.Unfailed() && Undecided(read, true)
      invariant ReadSoFar(session.Now()) == read + if event.Some? then [event.value] else []
      invariant event.Some? ==>
                  var before := session.Now().(events := [event.value] + session.events);
                  Handshaking(before) && Flow(transport.written, before)
      decreases |session.events| + if event.Some? then 1 else 0
    {
      ghost var before := session.Now().(events := [event.value] + session.events);
      EventReadHandshaking(before);
      FlowRead(transport.written, before);
      FlowWired(transport.written, before);
      HandshakeRequests(before);
      assert before.events[1..] == session.events;
      assert before.(events := before.events[1..]) == session.Now();
      StillUndecided(read, true, event.value);
      match event.value {
        case Synced(_, _) =>
          return Some(Success(()));
        case FatalError => return Some(Failure(TransferError(T.SessionFatalError)));
        case Timeout(_) => return Some(Failure(TransferError(T.SessionTimeout)));
        case OutOfSync(expected, got) => return Some(Failure(TransferError(T.SessionOutOfSync(expected, got))));
        case _ =>
      }
      read := ReadSoFar(session.Now());
      event := NextEvent(transport, session, None);
    }
    r := None;
  }

  lemma FlowRead(written: seq<bytes>, c: S.Core)
    requires Flow(written, c) && c.events != []
    ensures Flow(written, c.(events := c.events[1..]))
  {
  }

  lemma OutboundOfHandshake(c: S.Core)
    requires Handshaking(c)
    ensures Handshaking(c.(outbound := []))
  {
  }

  lemma HandshakeRequests(c: S.Core)
    requires Handshaking(c)
    ensures c.queued == [] && c.hist.enqueued == [S.HANDSHAKE]
  {
  }

  lemma FresherHandshaking(written: seq<bytes>, h: S.Host, fed: Option<(bytes, int)>)
    requires Handshaking(h.core) && Flow(written, h.core)
    ensures var d := Fresher(h, fed).core;
            Handshaking(d) && Flow(written, d) && d.outbound == h.core.outbound
  {
    hide S.AcceptLines, S.Lines, S.Rest, Handshaking;
    if fed.Some? {
      LinesKeepHandshaking(h.core, S.Lines(h.inbound + fed.value.0), fed.value.1);
    }
  }

  // ----- Driving the file transfer -----

  /** Everything so far is accounted for, by the session's operations and by the machine's calls. */
  ghost predicate Audited(transport: Transport, ft: FileTransfer)
    reads transport`readCount, transport`lookCount, ft, ft.session
  {
    ft.Valid() && Logged(transport, ft.session, Some(ft.origin))
  }

  /** Polls and ticks since the last request, and all ticks of the session. */
  ghost function Rounds(ft: FileTransfer): (nat, nat, nat)
    reads ft, ft.session
  {
    (PollsSinceRequest(ft.calls), TicksSinceRequest(ft.calls), Ticks(ft.session.ops))
  }

  ghost predicate Driving(transport: Transport, ft: FileTransfer)
    reads transport, ft, ft.session
  {
    && Audited(transport, ft) && Carried(transport.written, ft.Machine(), ft.session.Now(), 1)
    && transport.Unfailed()
  }

  /** The caller's wish and the agreed compression stay. */
  twostate predicate Chosen(ft: FileTransfer)
    reads ft
  {
    ft.requestedCompression == old(ft.requestedCompression) && ft.negotiated == old(ft.negotiated)
  }

  /** The block size is still the one reported, unless a further ss has come in. */
  twostate predicate Tracked(session: Session)
    reads session
  {
    Tracks(old(session.Now()), session.Now())
  }

  /** What a drive loop leaves when it succeeds: the answer came, everything pushed was written. */
  twostate predicate Answered(transport: Transport, ft: FileTransfer)
    reads transport, ft, ft.session
  {
    && Driving(transport, ft) && Tracked(ft.session)
    && ft.session.outbound == [] && ft.session.events == []
    && ft.session.hist.enqueued == old(ft.session.hist.enqueued)
    && Progressed(ft.answer) && Polled(old(ft.Machine()), ft.Machine(), ft.answer)
    && TickedBetween(transport, ft.session, 1)
  }

  /** One tick for every read, but for `n` reads. */
  twostate predicate TickedBetween(transport: Transport, session: Session, n: nat)
    reads transport, session
  {
    transport.readCount - old(transport.readCount) == Ticks(session.ops) - Ticks(old(session.ops)) + n
  }

  method NextFrameOf(transport: Transport, ft: FileTransfer) returns (frame: Option<bytes>)
    requires Audited(transport, ft)
    modifies ft, ft.session
    ensures Audited(transport, ft) && ft.answer.None?
    ensures frame == S.Head(old(ft.session.outbound)) && ft.Machine() == old(ft.Machine())
    ensures ft.session.State()
         == old(ft.session.State()).(core := old(ft.session.Now()).(outbound := ft.session.outbound))
    ensures ft.session.outbound == S.Tail(old(ft.session.outbound))
    ensures Rounds(ft) == old(Rounds(ft))
  {
    hide Accounts, S.Run, CameBy, PollsSinceRequest, TicksSinceRequest, Ticks;
    RoundsSnoc(ft.calls, T.CallPollOutbound);
    TicksSnoc(ft.session.ops, S.OpPollOutbound);
    LoggedRun(transport, ft.session, Some(ft.origin));
    AccountsPoll(ft.session.ops, ft.session.State(), S.OpPollOutbound, transport.Taken(), transport.Shown(),
                 Some(ft.origin));
    frame := ft.PollOutbound();
  }

  method FlushTransfer(transport: Transport, ft: FileTransfer) returns (ok: bool)
    requires Audited(transport, ft)
    modifies transport`writeCount, transport`written, ft, ft.session
    ensures Audited(transport, ft) && ft.answer.None? && ft.Machine() == old(ft.Machine())
    ensures Rounds(ft) == old(Rounds(ft))
    ensures ft.session.State()
         == old(ft.session.State()).(core := old(ft.session.Now()).(outbound := ft.session.outbound))
    ensures transport.written <= old(transport.written) + old(ft.session.outbound)
    ensures !ok ==> transport.Faulted()
    ensures ok && old(transport.Unfailed()) ==> transport.Unfailed()
    ensures ok ==>
              && transport.written == old(transport.written) + old(ft.session.outbound)
              && ft.session.State() == old(ft.session.State()).(core := old(ft.session.Now()).(outbound := []))
  {
    hide Audited, Transport.Faulted, Transport.Unfailed, Held, S.Head, S.Tail, PollsSinceRequest, TicksSinceRequest,
         Ticks;
    Popped(ft.session.outbound);
    var next := NextFrameOf(transport, ft);
    while next.Some?
      invariant Audited(transport, ft) && ft.answer.None? && ft.Machine() == old(ft.Machine())
      invariant Rounds(ft) == old(Rounds(ft))
      invariant old(transport.Unfailed()) ==> transport.Unfailed()
      invariant transport.written + Held(next, ft.session.outbound)
             == old(transport.written) + old(ft.session.outbound)
      invariant next.None? ==> ft.session.outbound == []
      invariant ft.session.State()
             == old(ft.session.State()).(core := old(ft.session.Now()).(outbound := ft.session.outbound))
      decreases |ft.session.outbound| + if next.Some? then 1 else 0
    {
      WroteOne(transport.written, next.value, ft.session.outbound);
      WroteSome(transport.written, next, ft.session.outbound);
      ok := transport.WriteAll(next.value);
      if !ok {
        return false;
      }
      Popped(ft.session.outbound);
      next := NextFrameOf(transport, ft);
    }
    WroteAll(transport.written);
    ok := true;
  }

  method ReceiveFor(transport: Transport, ft: FileTransfer) returns (ok: bool, ghost fed: Option<(bytes, int)>)
    requires Audited(transport, ft) && ft.answer.None? && ft.session.outbound == []
    modifies transport`readCount, transport`lookCount, ft, ft.session
    ensures Audited(transport, ft) && ft.answer.None? && ft.Machine() == old(ft.Machine())
    ensures ft.session.State() == Fresher(old(ft.session.State()), fed)
    ensures Rounds(ft) == old(Rounds(ft))
    ensures transport.readCount == old(transport.readCount) + 1
    ensures !ok ==> transport.Faulted() && fed.None?
    ensures ok && old(transport.Unfailed()) ==> transport.Unfailed()
  {
    hide Accounts, S.Run, S.Feed, CameBy, PollsSinceRequest, TicksSinceRequest, Ticks;
    LoggedRun(transport, ft.session, Some(ft.origin));
    ghost var taken, shown := transport.Taken(), transport.Shown();
    ok, fed := true, None;
    var chunk := ReadSome(transport);
    if chunk.None? {
      return false, None;
    }
    if chunk.value != [] {
      var now := transport.Now();
      AccountsFeed(ft.session.ops, ft.session.State(), chunk.value, now, taken, shown, Some(ft.origin));
      RoundsSnoc(ft.calls, T.CallFeed(chunk.value, now));
      TicksSnoc(ft.session.ops, S.OpFeed(chunk.value, now));
      ft.Feed(chunk.value, now);
      fed := Some((chunk.value, now));
    }
  }

  /** One round before the events are read: flush, read, feed. */
  method Pump(transport: Transport, ft: FileTransfer) returns (ok: bool)
    requires Driving(transport, ft)
    modifies transport, ft, ft.session
    ensures Audited(transport, ft) && ft.answer.None? && ft.Machine() == old(ft.Machine())
    ensures Rounds(ft) == old(Rounds(ft))
    ensures ft.session.hist.enqueued == old(ft.session.hist.enqueued)
    ensures !ok ==> transport.Faulted() && Wired(transport, ft.session)
    ensures ok ==>
              && transport.readCount == old(transport.readCount) + 1
              && Driving(transport, ft) && ft.session.outbound == [] && Tracked(ft.session)
  {
    hide Audited, Carried, S.Feed, Fresher, Transport.Faulted, Transport.Unfailed, PollsSinceRequest,
         TicksSinceRequest, Ticks;
    FlushCarried(transport.written, ft.Machine(), ft.session.Now(), 1);
    CarriedWired(transport.written, ft.Machine(), ft.session.Now());
    ok := FlushTransfer(transport, ft);
    if !ok {
      return;
    }
    ghost var before := ft.session.State();
    ghost var fed;
    ok, fed := ReceiveFor(transport, ft);
    NothingFed(before);
    FresherCarried(transport.written, ft.Machine(), before, fed);
  }

  lemma CarriedWired(written: seq<bytes>, m: T.Machine, c: S.Core)
    requires Carried(written, m, c, 1)
    ensures written <= [TRIGGER] + c.hist.emitted
    ensures written + c.outbound <= [TRIGGER] + c.hist.emitted
  {
    hide Flow, Coupled;
    FlowWired(written, c);
  }

  lemma FresherCarried(written: seq<bytes>, m: T.Machine, h: S.Host, fed: Option<(bytes, int)>)
    requires Carried(written, m, h.core, 1)
    ensures var d := Fresher(h, fed).core;
            && Carried(written, m, d, 1)
            && d.hist.enqueued == h.core.hist.enqueued && d.outbound == h.core.outbound && Tracks(h.core, d)
  {
    hide Carried, S.Feed;
    if fed.Some? {
      FeedCarried(written, m, h, 1, fed.value.0, fed.value.1);
    }
  }

  method PollFor(transport: Transport, ft: FileTransfer) returns (event: Option<T.FileEvent>)
    requires Driving(transport, ft) && ft.outEvents == [] && Awaiting(ft.state)
    modifies ft, ft.session
    ensures Driving(transport, ft) && ft.answer == event && Polled(old(ft.Machine()), ft.Machine(), event)
    ensures ft.session.events == [] && ft.session.outbound == old(ft.session.outbound)
    ensures ft.session.hist == old(ft.session.hist) && Tracked(ft.session)
    ensures Rounds(ft) == (old(Rounds(ft)).0 + 1, old(Rounds(ft)).1, old(Rounds(ft)).2)
  {
    hide Accounts, S.Run, CameBy, Carried, T.Poll, Polled, PollsSinceRequest, TicksSinceRequest, Ticks;
    RoundsSnoc(ft.calls, T.CallPoll);
    TicksOfPolls(ft.session.ops, |ft.session.events| + 1);
    LoggedRun(transport, ft.session, Some(ft.origin));
    AccountsPolls(ft.session.ops, |ft.session.events| + 1, transport.Taken(), transport.Shown(), Some(ft.origin));
    PollCarried(transport.written, ft.Whole(), 1);
    event := ft.Poll();
  }

  method TickFor(transport: Transport, ft: FileTransfer)
    requires Driving(transport, ft) && ft.session.outbound == [] && ft.session.events == []
    modifies transport`lookCount, ft, ft.session
    ensures Driving(transport, ft) && ft.answer.None? && ft.Machine() == old(ft.Machine())
    ensures ft.session.hist.enqueued == old(ft.session.hist.enqueued) && Tracked(ft.session)
    ensures Rounds(ft) == (old(Rounds(ft)).0, old(Rounds(ft)).1 + 1, old(Rounds(ft)).2 + 1)
  {
    hide Accounts, S.Run, CameBy, Carried, S.Tick, PollsSinceRequest, TicksSinceRequest, Ticks;
    LoggedRun(transport, ft.session, Some(ft.origin));
    ghost var taken, shown := transport.Taken(), transport.Shown();
    var now := transport.Now();
    AccountsAt(ft.session.ops, ft.session.State(), S.OpTick(now), now, taken, shown, Some(ft.origin));
    RoundsSnoc(ft.calls, T.CallTick(now));
    TicksSnoc(ft.session.ops, S.OpTick(now));
    TickCarried(transport.written, ft.Machine(), ft.session.Now(), 1, now);
    ft.Tick(now);
  }

  /*
   * In both loops below a poll answers at most one progress event before it
   * answers None, and that event is the awaited one, so the source's inner loop
   * over poll never comes round a second time.
   */

  /** A request has just been made and waits for its answer. */
  ghost predicate Asked(transport: Transport, ft: FileTransfer)
    reads transport, ft, ft.session
  {
    && Driving(transport, ft) && ft.outEvents == [] && Awaiting(ft.state)
    && ft.answer.None? && PollsSinceRequest(ft.calls) == 0 && TicksSinceRequest(ft.calls) == 0
  }

  /** What a drive loop keeps whatever its outcome. */
  twostate predicate Driven(transport: Transport, ft: FileTransfer)
    reads transport, ft, ft.session
  {
    && Audited(transport, ft) && Wired(transport, ft.session)
    && ft.session.hist.enqueued == old(ft.session.hist.enqueued)
    && (!old(ft.state).AwaitingQueryReply? ==> ft.negotiated == old(ft.negotiated))
    && ft.requestedCompression == old(ft.requestedCompression)
  }

  /** What a drive loop leaves when it fails; when it stalls, 200 reads, polls and ticks have brought no answer. */
  twostate predicate Undriven(transport: Transport, ft: FileTransfer, e: UploadError)
    reads transport, ft, ft.session
  {
    && RequestCause(transport, ft.Machine(), ft.calls, ft.answer, e)
    && (e.Stalled? ==>
          && Driving(transport, ft) && Polled(old(ft.Machine()), ft.Machine(), None)
          && transport.readCount == old(transport.readCount) + 200
          && TickedBetween(transport, ft.session, 0))
    && (e.TransferError? ==> TickedBetween(transport, ft.session, 1))
  }

  method DriveUntilNegotiated(transport: Transport, ft: FileTransfer)
    returns (r: Result<T.Compression, UploadError>)
    requires Asked(transport, ft) && ft.state.AwaitingQueryReply?
    modifies transport, ft, ft.session
    ensures Driven(transport, ft)
    ensures r.Success? ==> Answered(transport, ft) && ft.negotiated == Some(r.value)
    ensures r.Failure? ==> Undriven(transport, ft, r.error)
  {
    hide Audited, Carried, PollsSinceRequest, TicksSinceRequest, Ticks, Transport.Faulted, Transport.Unfailed;
    for k := 0 to 200
      invariant Driving(transport, ft) && Polled(old(ft.Machine()), ft.Machine(), None) && ft.answer.None?
      invariant ft.session.hist.enqueued == old(ft.session.hist.enqueued) && Tracked(ft.session)
      invariant transport.readCount == old(transport.readCount) + k && Rounds(ft) == (k, k, old(Rounds(ft)).2 + k)
    {
      var ok := Pump(transport, ft);
      if !ok {
        return Failure(Io);
      }
      var event := PollFor(transport, ft);
      if event.Some? {
        CarriedWired(transport.written, ft.Machine(), ft.session.Now());
        match event.value {
          case EvFailed(err) => return Failure(TransferError(err));
          case EvNegotiated(_, compression) => return Success(compression);
          case _ => assert false;
        }
      }
      TickFor(transport, ft);
    }
    CarriedWired(transport.written, ft.Machine(), ft.session.Now());
    r := Failure(Stalled);
  }

  method DriveUntilEvent(transport: Transport, ft: FileTransfer, wanted: T.FileEvent -> bool)
    returns (r: Result<(), UploadError>)
    requires Asked(transport, ft)
    requires forall e :: Expected(ft.state, e) ==> wanted(e)
    modifies transport, ft, ft.session
    ensures Driven(transport, ft)
    ensures r.Success? ==> Answered(transport, ft)
    ensures r.Failure? ==> Undriven(transport, ft, r.error)
  {
    hide Audited, Carried, PollsSinceRequest, TicksSinceRequest, Ticks, Transport.Faulted, Transport.Unfailed;
    for k := 0 to 200
      invariant Driving(transport, ft) && Polled(old(ft.Machine()), ft.Machine(), None) && ft.answer.None?
      invariant ft.session.hist.enqueued == old(ft.session.hist.enqueued) && Tracked(ft.session)
      invariant transport.readCount == old(transport.readCount) + k && Rounds(ft) == (k, k, old(Rounds(ft)).2 + k)
    {
      var ok := Pump(transport, ft);
      if !ok {
        return Failure(Io);
      }
      var event := PollFor(transport, ft);
      if event.Some? {
        CarriedWired(transport.written, ft.Machine(), ft.session.Now());
        if event.value.EvFailed? {
          return Failure(TransferError(event.value.error));
        }
        assert wanted(event.value);
        return Success(());
      }
      TickFor(transport, ft);
    }
    CarriedWired(transport.written, ft.Machine(), ft.session.Now());
    r := Failure(Stalled);
  }

  // ----- The last packet -----

  ghost predicate Leaving(transport: Transport, session: Session, origin: Option<S.Host>, start: nat)
    reads transport, session
  {
    && Logged(transport, session, origin) && Closing(transport.written, session.Now())
    && transport.Unfailed() && Waited(ReadSoFar(session.Now()), start)
  }

  /** Nothing read after the first `start` events has decided the last packet. */
  ghost predicate Waited(read: seq<S.Event>, start: nat) {
    start <= |read| && Undecided(Later(read, start), false)
  }

  /** The last event read is an Ack, and nothing after the first `start` broke the wait off before it. */
  ghost predicate AckedFirst(c: S.Core, start: nat) {
    exists e: S.Event :: e.Ack? && DecidedBy(ReadAfter(c, start), false, e)
  }

  /** Everything is acknowledged and written. */
  ghost predicate Left(transport: Transport, session: Session, origin: Option<S.Host>, start: nat)
    reads transport, session
  {
    && Logged(transport, session, origin) && transport.Unfailed() && AckedFirst(session.Now(), start)
    && Flow(transport.written, session.Now()) && session.outbound == []
    && session.inFlight.None? && session.queued == []
    && session.hist.resolved != [] && session.hist.resolved[0] == S.Synchronized
    && NoneTimedOut(session.hist.resolved, 1)
  }

  /** The same requests, and operations only added. */
  twostate predicate Onward(session: Session)
    reads session
  {
    && Tracked(session) && session.hist.enqueued == old(session.hist.enqueued)
    && old(session.ops) <= session.ops
  }

  method DriveSessionUntilIdle(transport: Transport, session: Session, ghost origin: Option<S.Host>, ghost start: nat)
    returns (r: Result<(), UploadError>)
    requires Leaving(transport, session, origin, start) && origin.Some?
    modifies transport, session
    ensures Logged(transport, session, origin) && old(session.ops) <= session.ops
    ensures session.hist.enqueued == old(session.hist.enqueued)
    ensures r.Success? ==>
              Left(transport, session, origin, start) && Onward(session) && TickedBetween(transport, session, 1)
    ensures r.Failure? ==>
              && Wired(transport, session)
              && (r.error.Io? ==> transport.Faulted())
              && (!r.error.Io? ==> transport.Unfailed())
              && (r.error.TransferError? ==> BrokenBy(ReadAfter(session.Now(), start), false, r.error.error))
              && !r.error.HandshakeFailed? && !r.error.CompressionError?
              && (r.error.Stalled? ==>
                    && Leaving(transport, session, origin, start)
                    && transport.readCount == old(transport.readCount) + 200
                    && Ticks(session.ops) == Ticks(old(session.ops)) + 200)
  {
    hide ReadSoFar, Undecided, Waited, Logged, Closing, Flow, NoneTimedOut, S.Tick, Fresher, Left, Ticks,
         Transport.Faulted, Transport.Unfailed;
    for k := 0 to 200
      invariant Leaving(transport, session, origin, start) && Onward(session)
      invariant transport.readCount == old(transport.readCount) + k
      invariant Ticks(session.ops) == Ticks(old(session.ops)) + k
    {
      FlushClosing(transport.written, session.Now());
      ClosingWired(transport.written, session.Now());
      var ok := Flush(transport, session, origin);
      if !ok {
        return Failure(Io);
      }
      ghost var before := session.State();
      ghost var fed;
      ClosingWired(transport.written, before.core);
      ok, fed := Receive(transport, session, origin);
      if !ok {
        NothingFed(before);
        return Failure(Io);
      }
      FresherClosing(transport.written, before, fed);
      var answer := ClosingEvents(transport, session, origin, start);
      if answer.Some? {
        return answer.value;
      }
      before := session.State();
      ghost var now := TickNow(transport, session, origin);
      TickClosing(transport.written, before.core, now);
    }
    ClosingWired(transport.written, session.Now());
    r := Failure(Stalled);
  }

  lemma ClosingWired(written: seq<bytes>, c: S.Core)
    requires Closing(written, c)
    ensures written <= [TRIGGER] + c.hist.emitted
    ensures written + c.outbound <= [TRIGGER] + c.hist.emitted
  {
    hide Flow, NoneTimedOut, Closers;
    FlowWired(written, c);
  }

  /** Reads events until the Ack or a failure; None when all are read. */
  method ClosingEvents(transport: Transport, session: Session, ghost origin: Option<S.Host>, ghost start: nat)
    returns (r: Option<Result<(), UploadError>>)
    requires Leaving(transport, session, origin, start) && session.outbound == [] && origin.Some?
    modifies session
    ensures Logged(transport, session, origin) && Onward(session)
    ensures r.None? ==> Leaving(transport, session, origin, start) && session.outbound == [] && session.events == []
    ensures r.Some? && r.value.Success? ==> Left(transport, session, origin, start)
    ensures Ticks(session.ops) == Ticks(old(session.ops))
    ensures r.Some? && r.value.Failure? ==>
              && Wired(transport, session)
              && r.value.error.TransferError? && BrokenBy(ReadAfter(session.Now(), start), false, r.value.error.error)
  {
    hide Logged, Closing, Flow, NoneTimedOut, Ticks, ReadSoFar, Undecided, DecidedBy, Transport.Unfailed;
    ghost var read, sofar := ReadAfter(session.Now(), start), ReadSoFar(session.Now());
    var event := NextEvent(transport, session, origin);
    ReadOneMore(session.Now(), sofar, event, start);
    while event.Some?
      invariant Logged(transport, session, origin) && Onward(session) && session.outbound == []
      invariant Ticks(session.ops) == Ticks(old(session.ops))
      invariant transport.Unfailed() && Undecided(read, false) && start <= |ReadSoFar(session.Now())|
      invariant ReadAfter(session.Now(), start) == if event.Some? then read + [event.value] else read
      invariant event.None? ==> Closing(transport.written, session.Now()) && session.events == []
      invariant event.Some? ==>
                  Closing(transport.written, session.Now().(events := [event.value] + session.events))
      decreases |session.events| + if event.Some? then 1 else 0
    {
      ghost var before := session.Now().(events := [event.value] + session.events);
      EventReadClosing(transport.written, before);
      ClosingWired(transport.written, before);
      assert before.events[1..] == session.events;
      assert before.(events := before.events[1..]) == session.Now();
      StillUndecided(read, false, event.value);
      match event.value {
        case Ack(_) => return Some(Success(()));
        case FatalError => return Some(Failure(TransferError(T.SessionFatalError)));
        case Timeout(_) => return Some(Failure(TransferError(T.SessionTimeout)));
        case OutOfSync(expected, got) => return Some(Failure(TransferError(T.SessionOutOfSync(expected, got))));
        case _ =>
      }
      read, sofar := ReadAfter(session.Now(), start), ReadSoFar(session.Now());
      event := NextEvent(transport, session, origin);
      ReadOneMore(session.Now(), sofar, event, start);
    }
    r := None;
  }

  lemma ReadOneMore(c: S.Core, before: seq<S.Event>, event: Option<S.Event>, start: nat)
    requires start <= |before| && ReadSoFar(c) == before + if event.Some? then [event.value] else []
    ensures start <= |ReadSoFar(c)|
    ensures ReadAfter(c, start) == if event.Some? then before[start..] + [event.value] else before[start..]
  {
    hide ReadSoFar;
  }

  lemma FlushClosing(written: seq<bytes>, c: S.Core)
    requires Closing(written, c)
    ensures Closing(written + c.outbound, c.(outbound := []))
  {
    hide Closers, NoneTimedOut;
    FlowFlushed(written, c);
  }

  lemma FresherClosing(written: seq<bytes>, h: S.Host, fed: Option<(bytes, int)>)
    requires Closing(written, h.core)
    ensures var d := Fresher(h, fed).core;
            && Closing(written, d) && d.hist.enqueued == h.core.hist.enqueued && d.outbound == h.core.outbound
            && Tracks(h.core, d)
  {
    hide S.Feed, Closing;
    if fed.Some? {
      FeedClosing(written, h, fed.value.0, fed.value.1);
    }
  }

  // ----- The stages of `upload`, in order; Refused stands for a request method's assertion -----

  datatype Stage<T> = Passed(value: T) | Broken(error: UploadError) | Refused

  method Handshake(transport: Transport) returns (r: Stage<()>, session: Session)
    requires transport.written == [] && transport.Taken() == [] && transport.Shown() == [] && transport.Unfailed()
    modifies transport
    ensures fresh(session) && !r.Refused?
    ensures if r.Passed? then Answering(transport, session) else Logged(transport, session, None)
    ensures r.Passed? ==> transport.readCount == old(transport.readCount) + Ticks(session.ops) + 1
    ensures r.Broken? ==>
              && HandshakeCause(transport, session.Now(), session.ops, r.error)
              && Wired(transport, session) && session.hist.enqueued <= [S.HANDSHAKE]
  {
    hide Accounts, Handshaking, Flow, S.Submit, S.Run, Answering, Ticks, Transport.Faulted, Transport.Unfailed;
    session := new Session(S.DEFAULT_RESPONSE_TIMEOUT, S.DEFAULT_TOTAL_TIMEOUT);
    NothingToAccount();
    var ok := transport.WriteAll(TRIGGER);
    if !ok {
      return Broken(Io), session;
    }
    assert transport.written == [TRIGGER];
    var now := transport.Now();
    HandshakeStarts(session.State(), now);
    SubmitUnread(session.Now(), S.HANDSHAKE, now);
    AccountsAt([], session.State(), S.OpConnect(now), now, [], [], None);
    TicksSnoc([], S.OpConnect(now));
    session.Connect(now);
    assert [] + [S.OpConnect(now)] == [S.OpConnect(now)] && [] + [now] == [now];
    var synced := DriveSessionUntilSynced(transport, session);
    r := if synced.Failure? then Broken(synced.error) else Passed(());
  }

  lemma NothingToAccount()
    ensures S.Run(Start(), []) == Some(Start()) && Accounts([], [], [], None) && Ticks([]) == 0
  {
  }

  /** Between two requests: all written, all read, and no leftover events unless the transfer failed. */
  ghost predicate Ready(transport: Transport, ft: FileTransfer)
    reads transport, ft, ft.session
  {
    && Driving(transport, ft) && ft.session.events == [] && ft.session.outbound == []
    && (!ft.state.Failed? ==> ft.outEvents == [])
  }

  /** A request has just been made, and nothing else has happened. */
  twostate predicate Requested(transport: Transport, ft: FileTransfer, r: S.Request)
    reads transport, ft, ft.session
  {
    && Driving(transport, ft) && ft.outEvents == old(ft.outEvents) && ft.answer.None?
    && Rounds(ft) == (0, 0, old(Rounds(ft)).2)
    && ft.negotiated == old(ft.negotiated) && ft.produced == old(ft.produced)
    && (!old(ft.state).Idle? ==> ft.requestedCompression == old(ft.requestedCompression))
    && ft.session.hist.enqueued == old(ft.session.hist.enqueued) + [r] && Tracked(ft.session)
  }

  method MakeQuery(transport: Transport, ft: FileTransfer, requested: T.Compression)
    requires Driving(transport, ft) && ft.state.Idle?
    modifies transport`lookCount, ft, ft.session
    ensures Requested(transport, ft, T.FileRequest(T.PT_QUERY, [])) && ft.state == T.AwaitingQueryReply
    ensures ft.requestedCompression == requested
  {
    hide Accounts, S.Run, CameBy, Carried, S.Submit, PollsSinceRequest, TicksSinceRequest, Ticks;
    LoggedRun(transport, ft.session, Some(ft.origin));
    ghost var taken, shown := transport.Taken(), transport.Shown();
    var now := transport.Now();
    CarriedSynced(transport.written, ft.Machine(), ft.session.Now());
    RequestCarried(transport.written, ft.Whole(), T.CallQuery(requested, now),
                   T.FileRequest(T.PT_QUERY, []), 1);
    AccountsAt(ft.session.ops, ft.session.State(), SendOf(T.FileRequest(T.PT_QUERY, []), now), now, taken, shown,
               Some(ft.origin));
    RoundsSnoc(ft.calls, T.CallQuery(requested, now));
    TicksSnoc(ft.session.ops, SendOf(T.FileRequest(T.PT_QUERY, []), now));
    ft.Query(requested, now);
  }

  method MakeOpen(transport: Transport, ft: FileTransfer, options: Options, compression: T.Compression)
    requires Driving(transport, ft) && ft.state.Negotiated?
    requires ft.negotiated == Some(compression) && |options.destFilename| + 3 <= MAX_PAYLOAD
    modifies transport`lookCount, ft, ft.session
    ensures Requested(transport, ft, OpenRequest(options, compression)) && ft.state == T.AwaitingOpenReply
  {
    hide Accounts, S.Run, CameBy, Carried, S.Submit, PollsSinceRequest, TicksSinceRequest, Ticks;
    LoggedRun(transport, ft.session, Some(ft.origin));
    ghost var taken, shown := transport.Taken(), transport.Shown();
    var now := transport.Now();
    CarriedSynced(transport.written, ft.Machine(), ft.session.Now());
    RequestCarried(transport.written, ft.Whole(), T.CallOpen(options.destFilename, options.dummy, now),
                   OpenRequest(options, compression), 1);
    AccountsAt(ft.session.ops, ft.session.State(), SendOf(OpenRequest(options, compression), now), now, taken, shown,
               Some(ft.origin));
    RoundsSnoc(ft.calls, T.CallOpen(options.destFilename, options.dummy, now));
    TicksSnoc(ft.session.ops, SendOf(OpenRequest(options, compression), now));
    ft.Open(options.destFilename, options.dummy, now);
  }

  method MakeWrite(transport: Transport, ft: FileTransfer, chunk: bytes)
    requires Driving(transport, ft) && ft.state.Opened? && |chunk| <= MAX_PAYLOAD
    modifies transport`lookCount, ft, ft.session
    ensures Requested(transport, ft, T.FileRequest(T.PT_WRITE, chunk)) && ft.state == T.AwaitingWriteAck
  {
    hide Accounts, S.Run, CameBy, Carried, S.Submit, PollsSinceRequest, TicksSinceRequest, Ticks;
    LoggedRun(transport, ft.session, Some(ft.origin));
    ghost var taken, shown := transport.Taken(), transport.Shown();
    var now := transport.Now();
    CarriedSynced(transport.written, ft.Machine(), ft.session.Now());
    RequestCarried(transport.written, ft.Whole(), T.CallWrite(chunk, now),
                   T.FileRequest(T.PT_WRITE, chunk), 1);
    AccountsAt(ft.session.ops, ft.session.State(), SendOf(T.FileRequest(T.PT_WRITE, chunk), now), now, taken, shown,
               Some(ft.origin));
    RoundsSnoc(ft.calls, T.CallWrite(chunk, now));
    TicksSnoc(ft.session.ops, SendOf(T.FileRequest(T.PT_WRITE, chunk), now));
    ft.Write(chunk, now);
  }

  method MakeClose(transport: Transport, ft: FileTransfer)
    requires Driving(transport, ft) && ft.state.Opened?
    modifies transport`lookCount, ft, ft.session
    ensures Requested(transport, ft, T.FileRequest(T.PT_CLOSE, [])) && ft.state == T.AwaitingCloseReply
  {
    hide Accounts, S.Run, CameBy, Carried, S.Submit, PollsSinceRequest, TicksSinceRequest, Ticks;
    LoggedRun(transport, ft.session, Some(ft.origin));
    ghost var taken, shown := transport.Taken(), transport.Shown();
    var now := transport.Now();
    CarriedSynced(transport.written, ft.Machine(), ft.session.Now());
    RequestCarried(transport.written, ft.Whole(), T.CallClose(now),
                   T.FileRequest(T.PT_CLOSE, []), 1);
    AccountsAt(ft.session.ops, ft.session.State(), SendOf(T.FileRequest(T.PT_CLOSE, []), now), now, taken, shown,
               Some(ft.origin));
    RoundsSnoc(ft.calls, T.CallClose(now));
    TicksSnoc(ft.session.ops, SendOf(T.FileRequest(T.PT_CLOSE, []), now));
    ft.Close(now);
  }

  function SendOf(r: S.Request, now: int): S.Op {
    S.OpSend(r.protocol, r.packetType, r.payload, now)
  }

  lemma CarriedSynced(written: seq<bytes>, m: T.Machine, c: S.Core)
    requires Carried(written, m, c, 1)
    ensures c.isSynced
  {
  }

  method NegotiateCompression(transport: Transport, ft: FileTransfer, requested: T.Compression)
    returns (r: Stage<T.Compression>)
    requires Driving(transport, ft) && ft.outEvents == [] && ft.state.Idle?
    modifies transport, ft, ft.session
    ensures Audited(transport, ft) && Wired(transport, ft.session) && !r.Refused?
    ensures ft.requestedCompression == requested
    ensures ft.session.hist.enqueued == old(ft.session.hist.enqueued) + [T.FileRequest(T.PT_QUERY, [])]
    ensures r.Broken? ==> RequestCause(transport, ft.Machine(), ft.calls, ft.answer, r.error)
    ensures r.Passed? ==>
              && Ready(transport, ft) && (ft.state.Negotiated? || ft.state.Failed?)
              && ft.answer.Some? && ft.answer.value.EvNegotiated?
              && ft.negotiated == Some(r.value) && T.Permits(requested, r.value) && Tracked(ft.session)
              && TickedBetween(transport, ft.session, 1)
              && CountWriteAcked(ft.produced) == old(CountWriteAcked(ft.produced))
  {
    hide Audited, Carried, CountWriteAcked, RequestCause, PollsSinceRequest, TicksSinceRequest, Ticks;
    MakeQuery(transport, ft, requested);
    var negotiated := DriveUntilNegotiated(transport, ft);
    r := if negotiated.Failure? then Broken(negotiated.error) else Passed(negotiated.value);
  }

  method OpenFile(transport: Transport, ft: FileTransfer, options: Options, compression: T.Compression)
    returns (r: Stage<()>)
    requires Ready(transport, ft) && (ft.state.Negotiated? || ft.state.Failed?)
    requires ft.negotiated == Some(compression)
    modifies transport, ft, ft.session
    ensures Audited(transport, ft) && Wired(transport, ft.session) && ft.negotiated == Some(compression)
    ensures ft.requestedCompression == old(ft.requestedCompression)
    ensures r.Refused? <==> old(ft.state.Failed?) || |options.destFilename| + 3 > MAX_PAYLOAD
    ensures r.Refused? ==> unchanged(transport) && unchanged(ft) && unchanged(ft.session)
    ensures !r.Refused? ==>
              && |options.destFilename| + 3 <= MAX_PAYLOAD
              && ft.session.hist.enqueued == old(ft.session.hist.enqueued) + [OpenRequest(options, compression)]
    ensures r.Broken? ==> RequestCause(transport, ft.Machine(), ft.calls, ft.answer, r.error)
    ensures r.Passed? ==>
              && Ready(transport, ft) && (ft.state.Opened? || ft.state.Failed?)
              && ft.answer.Some? && ft.answer.value.EvOpened? && Tracked(ft.session)
              && TickedBetween(transport, ft.session, 1)
              && CountWriteAcked(ft.produced) == old(CountWriteAcked(ft.produced))
  {
    hide Audited, Carried, CountWriteAcked, RequestCause, PollsSinceRequest, TicksSinceRequest, Ticks;
    ReadyIsAudited(transport, ft);
    if !ft.state.Negotiated? || |options.destFilename| + 3 > MAX_PAYLOAD {
      return Refused;
    }
    MakeOpen(transport, ft, options, compression);
    var step := DriveUntilEvent(transport, ft, (e: T.FileEvent) => e.EvOpened?);
    r := if step.Failure? then Broken(step.error) else Passed(());
  }

  lemma ReadyIsAudited(transport: Transport, ft: FileTransfer)
    requires Ready(transport, ft)
    ensures Audited(transport, ft) && Wired(transport, ft.session) && transport.Unfailed()
  {
    hide Audited, Carried;
    CarriedWired(transport.written, ft.Machine(), ft.session.Now());
  }

  /** An answer after which the next WRITE or CLOSE is due. */
  predicate Open(answer: Option<T.FileEvent>) {
    answer.Some? && (answer.value.EvOpened? || answer.value.EvWriteAcked?)
  }

  /** The file is open: the last answer was Opened or WriteAcked, though the transfer may have failed since. */
  ghost predicate Writable(transport: Transport, ft: FileTransfer)
    reads transport, ft, ft.session
  {
    Ready(transport, ft) && (ft.state.Opened? || ft.state.Failed?) && Open(ft.answer)
  }

  method WriteChunk(transport: Transport, ft: FileTransfer, chunk: bytes) returns (r: Stage<()>)
    requires Writable(transport, ft) && |chunk| <= MAX_PAYLOAD
    modifies transport, ft, ft.session
    ensures Audited(transport, ft) && Wired(transport, ft.session) && Chosen(ft)
    ensures r.Refused? ==> ft.state.Failed? && unchanged(transport) && unchanged(ft) && unchanged(ft.session)
    ensures !r.Refused? ==>
              ft.session.hist.enqueued == old(ft.session.hist.enqueued) + [T.FileRequest(T.PT_WRITE, chunk)]
    ensures r.Broken? ==> RequestCause(transport, ft.Machine(), ft.calls, ft.answer, r.error)
    ensures r.Passed? ==>
              && Writable(transport, ft) && ft.answer.value.EvWriteAcked? && Tracked(ft.session)
              && TickedBetween(transport, ft.session, 1)
              && CountWriteAcked(ft.produced) == old(CountWriteAcked(ft.produced)) + 1
  {
    hide Audited, Carried, CountWriteAcked, RequestCause, PollsSinceRequest, TicksSinceRequest, Ticks;
    ReadyIsAudited(transport, ft);
    if !ft.state.Opened? {
      return Refused;
    }
    MakeWrite(transport, ft, chunk);
    var step := DriveUntilEvent(transport, ft, (e: T.FileEvent) => e.EvWriteAcked?);
    r := if step.Failure? then Broken(step.error) else Passed(());
  }

  method CloseFile(transport: Transport, ft: FileTransfer) returns (r: Stage<()>)
    requires Writable(transport, ft)
    modifies transport, ft, ft.session
    ensures Audited(transport, ft) && Wired(transport, ft.session) && Chosen(ft)
    ensures r.Refused? ==> ft.state.Failed? && unchanged(transport) && unchanged(ft) && unchanged(ft.session)
    ensures !r.Refused? ==>
              ft.session.hist.enqueued == old(ft.session.hist.enqueued) + [T.FileRequest(T.PT_CLOSE, [])]
    ensures r.Broken? ==> RequestCause(transport, ft.Machine(), ft.calls, ft.answer, r.error)
    ensures r.Passed? ==>
              && Ready(transport, ft) && Ended(ft.produced) && Tracked(ft.session)
              && TickedBetween(transport, ft.session, 1)
              && ft.answer.Some? && ft.answer.value.EvClosed?
              && CountWriteAcked(ft.produced) == old(CountWriteAcked(ft.produced))
  {
    hide Audited, Carried, Ended, CountWriteAcked, RequestCause, PollsSinceRequest, TicksSinceRequest, Ticks;
    ReadyIsAudited(transport, ft);
    if !ft.state.Opened? {
      return Refused;
    }
    MakeClose(transport, ft);
    var step := DriveUntilEvent(transport, ft, (e: T.FileEvent) => e.EvClosed?);
    r := if step.Failure? then Broken(step.error) else Passed(());
  }

  /** The file transfer is over; the session sends the control CLOSE itself. */
  method LeaveBinaryMode(transport: Transport, session: Session, ghost ft: FileTransfer) returns (r: Stage<()>)
    requires ft.session == session && Ready(transport, ft) && Ended(ft.produced)
    modifies transport, session
    ensures Logged(transport, session, Some(ft.origin)) && old(session.ops) <= session.ops && !r.Refused?
    ensures session.hist.enqueued == old(session.hist.enqueued) + [CONTROL_CLOSE]
    ensures r.Broken? ==>
              && Wired(transport, session)
              && ClosingCause(transport, session.Now(), session.ops, |old(session.ops)|, |old(session.hist.raised)|,
                              r.error)
    ensures r.Passed? ==>
              && Left(transport, session, Some(ft.origin), |old(session.hist.raised)|)
              && Tracked(session) && TickedBetween(transport, session, 1)
  {
    hide Accounts, S.Run, CameBy, Coupled, Flow, S.Submit, Ended, Closing, NoneTimedOut, Left, Ticks,
         Transport.Faulted, Transport.Unfailed;
    LoggedRun(transport, session, Some(ft.origin));
    ghost var start := |session.hist.raised|;
    ghost var taken, shown, sofar := transport.Taken(), transport.Shown(), session.ops;
    var now := transport.Now();
    ClosingStarts(transport.written, ft.Machine(), session.Now(), now);
    CarriedSynced(transport.written, ft.Machine(), session.Now());
    AccountsAt(session.ops, session.State(), SendOf(CONTROL_CLOSE, now), now, taken, shown, Some(ft.origin));
    TicksSnoc(session.ops, SendOf(CONTROL_CLOSE, now));
    SubmitUnread(session.Now(), CONTROL_CLOSE, now);
    session.Send(0, 2, [], now);
    var step := DriveSessionUntilIdle(transport, session, Some(ft.origin), start);
    assert session.ops[..|sofar|] == sofar;
    if step.Failure? && step.error.Stalled? {
      LeavingOwes(transport, session, Some(ft.origin), start);
    }
    r := if step.Failure? then Broken(step.error) else Passed(());
  }

  /** Sending reads nothing, and with every event read the wait starts undecided. */
  lemma SubmitUnread(c: S.Core, r: S.Request, now: int)
    requires c.events == []
    ensures ReadSoFar(S.Submit(c, r, now)) == c.hist.raised && Waited(c.hist.raised, |c.hist.raised|)
  {
    hide S.Wire;
  }

  lemma LeavingOwes(transport: Transport, session: Session, origin: Option<S.Host>, start: nat)
    requires Leaving(transport, session, origin, start)
    ensures Owed(session.Now()) == 1
  {
  }

  /** WRITE for every chunk; the counters count exactly what was acknowledged. */
  method WriteChunks(transport: Transport, ft: FileTransfer, chunks: seq<bytes>)
    returns (r: Stage<()>, bytesSent: nat, chunksSent: nat)
    requires Writable(transport, ft)
    requires forall c :: c in chunks ==> |c| <= MAX_PAYLOAD
    modifies transport, ft, ft.session
    ensures Audited(transport, ft) && Wired(transport, ft.session) && Chosen(ft)
    ensures var tried := chunksSent + (if r.Broken? then 1 else 0);
            && tried <= |chunks| && (forall c :: c in chunks[..tried] ==> |c| <= MAX_PAYLOAD)
            && ft.session.hist.enqueued == old(ft.session.hist.enqueued) + WriteRequests(chunks[..tried])
    ensures bytesSent == |Concat(chunks[..chunksSent])|
    ensures r.Broken? ==> RequestCause(transport, ft.Machine(), ft.calls, ft.answer, r.error)
    ensures r.Refused? ==> Writable(transport, ft) && ft.state.Failed?
    ensures !r.Broken? ==> CountWriteAcked(ft.produced) == old(CountWriteAcked(ft.produced)) + chunksSent
    ensures r.Passed? ==>
              && Writable(transport, ft) && Tracked(ft.session) && chunksSent == |chunks|
              && TickedBetween(transport, ft.session, chunksSent)
  {
    hide Writable, Audited, CountWriteAcked, WriteRequests, Concat, RequestCause, Wired;
    bytesSent, chunksSent := 0, 0;
    NoChunkYet(ft.session.hist.enqueued, chunks);
    for i := 0 to |chunks|
      invariant Writable(transport, ft) && Tracked(ft.session) && Chosen(ft)
      invariant TickedBetween(transport, ft.session, i)
      invariant forall c :: c in chunks[..i] ==> |c| <= MAX_PAYLOAD
      invariant ft.session.hist.enqueued == old(ft.session.hist.enqueued) + WriteRequests(chunks[..i])
      invariant CountWriteAcked(ft.produced) == old(CountWriteAcked(ft.produced)) + i
      invariant chunksSent == i && bytesSent == |Concat(chunks[..i])|
    {
      OneMoreChunk(old(ft.session.hist.enqueued), chunks, i);
      assert chunks[i] in chunks;
      r := WriteChunk(transport, ft, chunks[i]);
      if !r.Passed? {
        return;
      }
      bytesSent := bytesSent + |chunks[i]|;
      chunksSent := chunksSent + 1;
    }
    WritableIsAudited(transport, ft);
    r := Passed(());
  }

  lemma WritableIsAudited(transport: Transport, ft: FileTransfer)
    requires Writable(transport, ft)
    ensures Audited(transport, ft) && Wired(transport, ft.session) && transport.Unfailed()
    ensures Open(ft.answer)
  {
    hide Audited, Ready;
    ReadyIsAudited(transport, ft);
  }

  lemma NoChunkYet(opening: seq<S.Request>, chunks: seq<bytes>)
    ensures opening + WriteRequests(chunks[..0]) == opening && Concat(chunks[..0]) == []
  {
  }

  lemma OneMoreChunk(opening: seq<S.Request>, chunks: seq<bytes>, i: nat)
    requires i < |chunks| && forall c :: c in chunks ==> |c| <= MAX_PAYLOAD
    ensures forall c :: c in chunks[..i] ==> |c| <= MAX_PAYLOAD
    ensures forall c :: c in chunks[..i + 1] ==> |c| <= MAX_PAYLOAD
    ensures opening + WriteRequests(chunks[..i]) + [T.FileRequest(T.PT_WRITE, chunks[i])]
         == opening + WriteRequests(chunks[..i + 1])
    ensures |Concat(chunks[..i + 1])| == |Concat(chunks[..i])| + |chunks[i]|
  {
    assert chunks[..i + 1] == chunks[..i] + [chunks[i]];
    ConcatAppend(chunks[..i], [chunks[i]]);
    var one := [chunks[i]];
    assert one[1..] == [];
  }

  /**
   * What an upload did: the operations on the session and the state `last` they
   * led to; the state in which the file transfer was built, the calls made on it,
   * the state it was left in after the first `usedUntil` operations, and the
   * answer to the last call if that was a poll.
   */
  datatype Trail = Trail(
    ops: seq<S.Op>,
    last: S.Host,
    origin: Option<S.Host>,
    calls: seq<T.Call>,
    transfer: T.Transfer,
    usedUntil: nat,
    answer: Option<T.FileEvent>)

  ghost function TrailOf(ft: FileTransfer, over: T.Transfer, usedUntil: nat): Trail
    reads ft, ft.session
  {
    Trail(ft.session.ops, ft.session.State(), Some(ft.origin), ft.calls, over, usedUntil, ft.answer)
  }

  /** Why a file transfer broke off: the last packet did, or else a request to the machine. */
  ghost predicate TransferCause(transport: Transport, trail: Trail, e: UploadError)
    reads transport`readCount, transport`writeCount
  {
    if trail.answer == Some(T.EvClosed) then
      && trail.usedUntil <= |trail.ops|
      && ClosingCause(transport, trail.last.core, trail.ops, trail.usedUntil,
                      |trail.transfer.session.core.hist.raised|, e)
    else
      && trail.transfer.session == trail.last
      && RequestCause(transport, trail.transfer.machine, trail.calls, trail.answer, e)
  }

  /**
   * What is left of a file transfer: its calls led to `over`, and the session was
   * in that state after its first `usedUntil` operations.
   */
  ghost predicate Used(transport: Transport, ft: FileTransfer, over: T.Transfer, usedUntil: nat)
    reads transport`readCount, transport`lookCount, ft, ft.session
  {
    && Logged(transport, ft.session, Some(ft.origin))
    && CameBy(ft.origin, ft.calls, over, ft.answer)
    && usedUntil <= |ft.session.ops| && S.Run(Start(), ft.session.ops[..usedUntil]) == Some(over.session)
  }

  lemma UsedSoFar(transport: Transport, ft: FileTransfer)
    requires Audited(transport, ft)
    ensures Used(transport, ft, ft.Whole(), |ft.session.ops|)
  {
    hide S.Run, Accounts, CameBy, Start;
    AuditedRun(transport, ft);
    assert ft.session.ops[..|ft.session.ops|] == ft.session.ops;
  }

  /** All WRITEs and CLOSE. */
  method WriteAndClose(transport: Transport, ft: FileTransfer, chunks: seq<bytes>)
    returns (r: Stage<()>, bytesSent: nat, chunksSent: nat)
    requires Writable(transport, ft)
    requires forall c :: c in chunks ==> |c| <= MAX_PAYLOAD
    modifies transport, ft, ft.session
    ensures Audited(transport, ft) && Wired(transport, ft.session) && Chosen(ft)
    ensures ft.session.hist.enqueued
         <= old(ft.session.hist.enqueued) + WriteRequests(chunks) + [T.FileRequest(T.PT_CLOSE, [])]
    ensures r.Broken? ==> RequestCause(transport, ft.Machine(), ft.calls, ft.answer, r.error)
    ensures r.Refused? ==> ft.state.Failed? && Open(ft.answer) && transport.Unfailed()
    ensures r.Passed? ==>
              && Ready(transport, ft) && Ended(ft.produced) && Tracked(ft.session)
              && TickedBetween(transport, ft.session, |chunks| + 1)
              && ft.answer.Some? && ft.answer.value.EvClosed?
              && ft.session.hist.enqueued
                 == old(ft.session.hist.enqueued) + WriteRequests(chunks) + [T.FileRequest(T.PT_CLOSE, [])]
              && CountWriteAcked(ft.produced) == old(CountWriteAcked(ft.produced)) + |chunks|
              && chunksSent == |chunks| && bytesSent == |Concat(chunks)|
  {
    hide Writable, Ready, Audited, Ended, WriteRequests, Concat, CountWriteAcked, RequestCause, Wired;
    r, bytesSent, chunksSent := WriteChunks(transport, ft, chunks);
    SomeWrites(old(ft.session.hist.enqueued), chunks, chunksSent + if r.Broken? then 1 else 0);
    if !r.Broken? {
      WritableIsAudited(transport, ft);
    }
    if r.Passed? {
      r := CloseFile(transport, ft);
      assert chunks[..|chunks|] == chunks;
    }
  }

  lemma SomeWrites(opening: seq<S.Request>, chunks: seq<bytes>, n: nat)
    requires n <= |chunks| && forall c :: c in chunks ==> |c| <= MAX_PAYLOAD
    ensures forall c :: c in chunks[..n] ==> |c| <= MAX_PAYLOAD
    ensures opening + WriteRequests(chunks[..n])
         <= opening + WriteRequests(chunks) + [T.FileRequest(T.PT_CLOSE, [])]
  {
    assert WriteRequests(chunks[..n]) <= WriteRequests(chunks);
  }

  /** All WRITEs, CLOSE, and the control CLOSE. */
  method SendChunks(transport: Transport, ft: FileTransfer, chunks: seq<bytes>)
    returns (r: Stage<()>, bytesSent: nat, chunksSent: nat, ghost over: T.Transfer, ghost usedUntil: nat)
    requires Writable(transport, ft)
    requires forall c :: c in chunks ==> |c| <= MAX_PAYLOAD
    modifies transport, ft, ft.session
    ensures Used(transport, ft, over, usedUntil) && over.machine.negotiated == old(ft.negotiated)
    ensures over.machine.requested == old(ft.requestedCompression)
    ensures ft.session.hist.enqueued
         <= old(ft.session.hist.enqueued) + WriteRequests(chunks)
            + [T.FileRequest(T.PT_CLOSE, [])] + [CONTROL_CLOSE]
    ensures !r.Passed? ==> Wired(transport, ft.session)
    ensures r.Broken? ==> TransferCause(transport, TrailOf(ft, over, usedUntil), r.error)
    ensures r.Refused? ==>
              && over.machine.state.Failed? && over.session == ft.session.State() && Open(ft.answer)
              && transport.Unfailed()
    ensures r.Passed? ==>
              && Left(transport, ft.session, Some(ft.origin), |over.session.core.hist.raised|) && Tracked(ft.session)
              && TickedBetween(transport, ft.session, |chunks| + 2)
              && ft.answer.Some? && ft.answer.value.EvClosed?
              && ft.session.hist.enqueued
                 == old(ft.session.hist.enqueued) + WriteRequests(chunks)
                    + [T.FileRequest(T.PT_CLOSE, [])] + [CONTROL_CLOSE]
              && CountWriteAcked(over.machine.produced) == old(CountWriteAcked(ft.produced)) + |chunks|
              && chunksSent == |chunks| && bytesSent == |Concat(chunks)|
  {
    hide Writable, Ready, Logged, Audited, CameBy, Ended, WriteRequests, Concat, CountWriteAcked, S.Run, Start, Left,
         RequestCause, ClosingCause, TransferCause, Session.Valid, FileTransfer.Valid, Wired;
    r, bytesSent, chunksSent := WriteAndClose(transport, ft, chunks);
    ghost var sofar := ft.session.ops;
    over, usedUntil := ft.Whole(), |sofar|;
    AuditedRun(transport, ft);
    if r.Passed? {
      r := LeaveBinaryMode(transport, ft.session, ft);
      assert ft.session.ops[..usedUntil] == sofar;
      if r.Broken? {
        BrokeLeaving(transport, TrailOf(ft, over, usedUntil), r.error);
      }
    } else {
      assert ft.session.ops[..usedUntil] == sofar;
      if r.Broken? {
        BrokeAsking(transport, TrailOf(ft, over, usedUntil), r.error);
      }
    }
  }

  lemma BrokeLeaving(transport: Transport, trail: Trail, e: UploadError)
    requires trail.answer.Some? && trail.answer.value.EvClosed? && trail.usedUntil <= |trail.ops|
    requires ClosingCause(transport, trail.last.core, trail.ops, trail.usedUntil,
                          |trail.transfer.session.core.hist.raised|, e)
    ensures TransferCause(transport, trail, e)
  {
    hide ClosingCause;
  }

  lemma BrokeAsking(transport: Transport, trail: Trail, e: UploadError)
    requires RequestCause(transport, trail.transfer.machine, trail.calls, trail.answer, e)
    requires trail.transfer.session == trail.last
    ensures TransferCause(transport, trail, e)
  {
    hide PollsSinceRequest, TicksSinceRequest, Ticks;
  }

  lemma AuditedRun(transport: Transport, ft: FileTransfer)
    requires Audited(transport, ft)
    ensures S.Run(Start(), ft.session.ops) == Some(ft.session.State())
    ensures CameBy(ft.origin, ft.calls, ft.Whole(), ft.answer)
    ensures Logged(transport, ft.session, Some(ft.origin))
  {
    hide S.Run, Accounts, CameBy;
  }

  // ----- The whole upload -----

  /**
   * The driver is about to make a request whose assertion fails: the file name
   * does not fit in an OPEN packet, or the transfer failed behind the answer that
   * came last.
   */
  predicate Stuck(m: T.Machine, answer: Option<T.FileEvent>, source: Option<bytes>, options: Options,
                  compress: Compressor)
  {
    match answer
    case Some(EvNegotiated(_, _)) => m.state.Failed? || |options.destFilename| + 3 > MAX_PAYLOAD
    case Some(EvOpened) =>
      m.state.Failed? && source.Some? && m.negotiated.Some?
      && !CompressorFails(source.value, m.negotiated.value, compress)
    case Some(EvWriteAcked) => m.state.Failed?
    case _ => false
  }

  /** Every error has its cause, which after OPEN may also be the source or the compressor. */
  ghost predicate Explained(transport: Transport, trail: Trail, source: Option<bytes>, compress: Compressor,
                            e: UploadError)
    reads transport`readCount, transport`writeCount
  {
    if trail.origin.None? then HandshakeCause(transport, trail.last.core, trail.ops, e)
    else
      var m := trail.transfer.machine;
      || TransferCause(transport, trail, e)
      || (e.Io? && transport.Unfailed() && trail.answer == Some(T.EvOpened) && source.None?)
      || (e.CompressionError? && transport.Unfailed() && trail.answer == Some(T.EvOpened)
          && source.Some? && m.negotiated.Some?
          && m.negotiated.value.Heatshrink?
          && compress(source.value, m.negotiated.value.window, m.negotiated.value.lookahead).None?)
  }

  /**
   * The requests begin what an upload would dispatch, as far as that is determined:
   * SYNC and QUERY; with the compression agreed and the name fitting, OPEN; with the
   * payload there, everything.
   */
  ghost predicate Planned(requests: seq<S.Request>, negotiated: Option<T.Compression>, limit: u16,
                          source: Option<bytes>, options: Options, compress: Compressor)
  {
    if negotiated.None? || |options.destFilename| + 3 > MAX_PAYLOAD then
      requests <= [S.HANDSHAKE, T.FileRequest(T.PT_QUERY, [])]
    else if source.None? || CompressorFails(source.value, negotiated.value, compress) then
      requests <= Opening(options, negotiated.value)
    else
      exists chunks ::
        && Cut(chunks, ResolveChunkSize(options.chunkSize, limit))
        && Carry(chunks, source.value, negotiated.value, compress)
        && requests <= Plan(options, negotiated.value, chunks)
  }

  lemma PlanStarts(requests: seq<S.Request>, negotiated: Option<T.Compression>, limit: u16, source: Option<bytes>,
                   options: Options, compress: Compressor)
    requires requests <= [S.HANDSHAKE] + [T.FileRequest(T.PT_QUERY, [])]
             || (negotiated.Some? && |options.destFilename| + 3 <= MAX_PAYLOAD
                 && requests <= [S.HANDSHAKE] + [T.FileRequest(T.PT_QUERY, [])]
                                + [OpenRequest(options, negotiated.value)])
    ensures Planned(requests, negotiated, limit, source, options, compress)
  {
    hide WriteRequests, Concat, OpenRequest, ResolveChunkSize, Chunks;
    if negotiated.Some? && |options.destFilename| + 3 <= MAX_PAYLOAD && source.Some?
       && !CompressorFails(source.value, negotiated.value, compress)
    {
      var c := negotiated.value;
      var payload := if c.Heatshrink? then compress(source.value, c.window, c.lookahead).value else source.value;
      var chunks := Chunks(payload, ResolveChunkSize(options.chunkSize, limit));
      ChunksCover(payload, ResolveChunkSize(options.chunkSize, limit));
      assert Carry(chunks, source.value, c, compress);
      assert requests <= Plan(options, c, chunks);
    }
  }

  lemma PlannedLess(less: seq<S.Request>, requests: seq<S.Request>, negotiated: Option<T.Compression>, limit: u16,
                    source: Option<bytes>, options: Options, compress: Compressor)
    requires less <= requests && Planned(requests, negotiated, limit, source, options, compress)
    ensures Planned(less, negotiated, limit, source, options, compress)
  {
    hide Cut, Carry, Plan, Opening, CompressorFails, ResolveChunkSize;
  }

  lemma WholePlan(requests: seq<S.Request>, compression: T.Compression, limit: u16, source: Option<bytes>,
                  options: Options, compress: Compressor, chunks: seq<bytes>)
    requires source.Some? && |options.destFilename| + 3 <= MAX_PAYLOAD
    requires !CompressorFails(source.value, compression, compress)
    requires Cut(chunks, ResolveChunkSize(options.chunkSize, limit))
    requires Carry(chunks, source.value, compression, compress)
    requires requests <= [S.HANDSHAKE] + [T.FileRequest(T.PT_QUERY, [])] + [OpenRequest(options, compression)]
                         + WriteRequests(chunks) + [T.FileRequest(T.PT_CLOSE, [])] + [CONTROL_CLOSE]
    ensures Planned(requests, Some(compression), limit, source, options, compress)
  {
    hide WriteRequests, Concat, OpenRequest, ResolveChunkSize, Plan, Cut, Carry;
    FitsPacket(chunks, ResolveChunkSize(options.chunkSize, limit));
    PlanAssembled([S.HANDSHAKE] + [T.FileRequest(T.PT_QUERY, [])] + [OpenRequest(options, compression)]
                  + WriteRequests(chunks) + [T.FileRequest(T.PT_CLOSE, [])] + [CONTROL_CLOSE],
                  options, compression, chunks);
  }

  lemma FitsPacket(chunks: seq<bytes>, size: nat)
    requires Cut(chunks, size) && size <= MAX_PAYLOAD
    ensures forall c :: c in chunks ==> |c| <= MAX_PAYLOAD
  {
  }

  /**
   * The promise of a completed upload: the WRITEs carry the source, untouched or as
   * the compressor left it, in ceil(len / size) chunks of the resolved size; the
   * statistics count exactly those, and the wire carries exactly their plan.
   */
  ghost predicate Uploaded(written: seq<bytes>, last: S.Core, source: Option<bytes>, options: Options,
                           compress: Compressor, limit: u16, stats: Stats)
  {
    && source.Some? && |options.destFilename| + 3 <= MAX_PAYLOAD
    && stats.sourceBytes == |source.value| && T.Permits(options.compression, stats.compression)
    && var size := ResolveChunkSize(options.chunkSize, limit);
       && stats.chunksSent == (stats.bytesSent + size - 1) / size
       && (stats.compression.NoCompression? ==> stats.bytesSent == |source.value|)
       && exists chunks ::
            && Carry(chunks, source.value, stats.compression, compress)
            && SentAs(chunks, written, last, options, size, stats)
  }

  /** These chunks were sent, and counted. */
  ghost predicate SentAs(chunks: seq<bytes>, written: seq<bytes>, last: S.Core, options: Options, size: nat,
                         stats: Stats)
    requires |options.destFilename| + 3 <= MAX_PAYLOAD && size <= MAX_PAYLOAD
  {
    && Cut(chunks, size) && stats.bytesSent == |Concat(chunks)| && stats.chunksSent == |chunks|
    && Delivered(written, last, Plan(options, stats.compression, chunks))
  }

  /** Everything after the handshake. */
  method Transact(transport: Transport, ft: FileTransfer, source: Option<bytes>, options: Options,
                  compress: Compressor, deviceMax: u16)
    returns (r: UploadResult, ghost over: T.Transfer, ghost usedUntil: nat)
    requires Driving(transport, ft) && ft.outEvents == [] && ft.state.Idle?
    requires ft.session.hist.enqueued == [S.HANDSHAKE]
    modifies transport, ft, ft.session
    ensures Used(transport, ft, over, usedUntil) && over.machine.requested == options.compression
    ensures Planned(ft.session.hist.enqueued, over.machine.negotiated, deviceMax, source, options, compress)
    ensures !r.Done? ==> Wired(transport, ft.session)
    ensures r.Panicked? <==> Stuck(over.machine, ft.answer, source, options, compress)
    ensures r.Panicked? ==> over.session == ft.session.State() && transport.Unfailed()
    ensures r.Err? ==> Explained(transport, TrailOf(ft, over, usedUntil), source, compress, r.error)
    ensures r.Done? ==>
              && Uploaded(transport.written, ft.session.Now(), source, options, compress, deviceMax, r.stats)
              && transport.Unfailed() && AckedFirst(ft.session.Now(), |over.session.core.hist.raised|)
              && Tracked(ft.session) && ft.answer.Some? && ft.answer.value.EvClosed?
              && TickedBetween(transport, ft.session, r.stats.chunksSent + 4)
              && CountWriteAcked(over.machine.produced) == old(CountWriteAcked(ft.produced)) + r.stats.chunksSent
  {
    hide Ready, Logged, Used, Uploaded, CountWriteAcked, Driving, Audited, Stuck, Session.Valid, FileTransfer.Valid,
         Planned, Wired, Explained, RequestCause;
    var negotiated := NegotiateCompression(transport, ft, options.compression);
    if negotiated.Passed? {
      r, over, usedUntil := SendFile(transport, ft, source, options, negotiated.value, compress, deviceMax);
    } else {
      r, over, usedUntil := Err(negotiated.error), ft.Whole(), |ft.session.ops|;
      UsedSoFar(transport, ft);
      AskingExplained(transport, TrailOf(ft, over, usedUntil), source, options, compress, negotiated.error);
      PlanStarts(ft.session.hist.enqueued, ft.negotiated, deviceMax, source, options, compress);
    }
  }

  /** Everything after the negotiation. */
  method SendFile(transport: Transport, ft: FileTransfer, source: Option<bytes>, options: Options,
                  compression: T.Compression, compress: Compressor, deviceMax: u16)
    returns (r: UploadResult, ghost over: T.Transfer, ghost usedUntil: nat)
    requires Ready(transport, ft) && (ft.state.Negotiated? || ft.state.Failed?)
    requires ft.answer.Some? && ft.answer.value.EvNegotiated? && ft.negotiated == Some(compression)
    requires ft.session.hist.enqueued == [S.HANDSHAKE] + [T.FileRequest(T.PT_QUERY, [])]
    requires T.Permits(options.compression, compression)
    modifies transport, ft, ft.session
    ensures Used(transport, ft, over, usedUntil) && over.machine.requested == old(ft.requestedCompression)
    ensures Planned(ft.session.hist.enqueued, over.machine.negotiated, deviceMax, source, options, compress)
    ensures !r.Done? ==> Wired(transport, ft.session)
    ensures r.Panicked? <==> Stuck(over.machine, ft.answer, source, options, compress)
    ensures r.Panicked? ==> over.session == ft.session.State() && transport.Unfailed()
    ensures r.Err? ==> Explained(transport, TrailOf(ft, over, usedUntil), source, compress, r.error)
    ensures r.Done? ==>
              && Uploaded(transport.written, ft.session.Now(), source, options, compress, deviceMax, r.stats)
              && transport.Unfailed() && AckedFirst(ft.session.Now(), |over.session.core.hist.raised|)
              && Tracked(ft.session) && ft.answer.Some? && ft.answer.value.EvClosed?
              && TickedBetween(transport, ft.session, r.stats.chunksSent + 3)
              && CountWriteAcked(over.machine.produced) == old(CountWriteAcked(ft.produced)) + r.stats.chunksSent
  {
    hide Ready, Logged, Used, Uploaded, CountWriteAcked, OpenRequest, Writable, Session.Valid, FileTransfer.Valid,
         Planned, Wired, RequestCause, Stuck, Explained, TransferCause, Transport.Unfailed, AckedFirst;
    ReadyIsAudited(transport, ft);
    var fileOpen := OpenFile(transport, ft, options, compression);
    if fileOpen.Passed? {
      NowWritable(transport, ft);
      r, over, usedUntil := SendSource(transport, ft, source, options, compression, compress, deviceMax);
    } else {
      over, usedUntil := ft.Whole(), |ft.session.ops|;
      UsedSoFar(transport, ft);
      PlanStarts(ft.session.hist.enqueued, Some(compression), deviceMax, source, options, compress);
      if fileOpen.Broken? {
        AskingExplained(transport, TrailOf(ft, over, usedUntil), source, options, compress, fileOpen.error);
        r := Err(fileOpen.error);
      } else {
        RefusedIsStuck(over.machine, ft.answer, source, options, compress);
        r := Panicked;
      }
    }
  }

  lemma AskingExplained(transport: Transport, trail: Trail, source: Option<bytes>, options: Options,
                        compress: Compressor, e: UploadError)
    requires RequestCause(transport, trail.transfer.machine, trail.calls, trail.answer, e)
    requires trail.transfer.session == trail.last && trail.origin.Some?
    ensures Explained(transport, trail, source, compress, e)
    ensures !Stuck(trail.transfer.machine, trail.answer, source, options, compress)
  {
    hide PollsSinceRequest, TicksSinceRequest, Ticks;
    BrokeAsking(transport, trail, e);
  }

  lemma RefusedIsStuck(m: T.Machine, answer: Option<T.FileEvent>, source: Option<bytes>, options: Options,
                       compress: Compressor)
    requires answer.Some? && answer.value.EvNegotiated?
    requires m.state.Failed? || |options.destFilename| + 3 > MAX_PAYLOAD
    ensures Stuck(m, answer, source, options, compress)
  {
  }

  /** With the file open: read and compress the source, WRITEs, CLOSE, control CLOSE. */
  method SendSource(transport: Transport, ft: FileTransfer, source: Option<bytes>, options: Options,
                    compression: T.Compression, compress: Compressor, deviceMax: u16)
    returns (r: UploadResult, ghost over: T.Transfer, ghost usedUntil: nat)
    requires Writable(transport, ft) && ft.answer == Some(T.EvOpened) && ft.negotiated == Some(compression)
    requires T.Permits(options.compression, compression) && |options.destFilename| + 3 <= MAX_PAYLOAD
    requires ft.session.hist.enqueued
          == [S.HANDSHAKE] + [T.FileRequest(T.PT_QUERY, [])] + [OpenRequest(options, compression)]
    modifies transport, ft, ft.session
    ensures Used(transport, ft, over, usedUntil) && over.machine.requested == old(ft.requestedCompression)
    ensures Planned(ft.session.hist.enqueued, over.machine.negotiated, deviceMax, source, options, compress)
    ensures !r.Done? ==> Wired(transport, ft.session)
    ensures r.Panicked? <==> Stuck(over.machine, ft.answer, source, options, compress)
    ensures r.Panicked? ==> over.session == ft.session.State() && transport.Unfailed()
    ensures r.Err? ==> Explained(transport, TrailOf(ft, over, usedUntil), source, compress, r.error)
    ensures r.Done? ==>
              && Uploaded(transport.written, ft.session.Now(), source, options, compress, deviceMax, r.stats)
              && transport.Unfailed() && AckedFirst(ft.session.Now(), |over.session.core.hist.raised|)
              && Tracked(ft.session) && ft.answer.Some? && ft.answer.value.EvClosed?
              && TickedBetween(transport, ft.session, r.stats.chunksSent + 2)
              && CountWriteAcked(over.machine.produced) == old(CountWriteAcked(ft.produced)) + r.stats.chunksSent
  {
    hide Ready, Logged, Used, Left, Uploaded, CountWriteAcked, Chunks, Concat, WriteRequests, OpenRequest, Writable,
         Session.Valid, FileTransfer.Valid, Audited, Stuck, Explained, Open, ResolveChunkSize, Planned,
         Wired, TransferCause, Carry, Cut, CompressorFails, Transport.Unfailed, AckedFirst, Ticks,
         T.OpenPayload;
    WritableIsAudited(transport, ft);
    PlanStarts(ft.session.hist.enqueued, Some(compression), deviceMax, source, options, compress);
    over, usedUntil := ft.Whole(), |ft.session.ops|;
    UsedSoFar(transport, ft);
    if source.None? {
      SourceMissing(transport, TrailOf(ft, over, usedUntil), source, options, compress);
      return Err(Io), over, usedUntil;
    }
    var chunkSize := ResolveChunkSize(options.chunkSize, deviceMax);
    var payload := MakePayload(source.value, compression, compress);
    if payload.None? {
      CompressorFailed(transport, TrailOf(ft, over, usedUntil), source, options, compress);
      return Err(CompressionError), over, usedUntil;
    }
    var chunks := Chunks(payload.value, chunkSize);
    ChunksCover(payload.value, chunkSize);
    FitsPacket(chunks, chunkSize);
    var sent, bytesSent, chunksSent;
    sent, bytesSent, chunksSent, over, usedUntil := SendChunks(transport, ft, chunks);
    WholePlan(ft.session.hist.enqueued, compression, deviceMax, source, options, compress, chunks);
    if sent.Broken? {
      BrokenExplained(transport, TrailOf(ft, over, usedUntil), source, options, compress, sent.error);
      return Err(sent.error), over, usedUntil;
    }
    if sent.Refused? {
      OpenIsStuck(over.machine, ft.answer, source, options, compress);
      return Panicked, over, usedUntil;
    }
    LeftWell(transport, ft.session, Some(ft.origin), |over.session.core.hist.raised|);
    ClosedNotStuck(over.machine, ft.answer, source, options, compress);
    r := Done(Stats(|source.value|, bytesSent, chunksSent, compression));
    UploadComplete(transport, ft.session, Some(ft.origin), |over.session.core.hist.raised|, source, options, compress,
                   deviceMax, r.stats, chunks);
  }

  /** The source untouched, or what the compressor makes of it; None is the compressor's error. */
  method MakePayload(source: bytes, compression: T.Compression, compress: Compressor) returns (payload: Option<bytes>)
    requires !compression.Auto?
    ensures payload.None? <==> CompressorFails(source, compression, compress)
    ensures payload.Some? ==> forall chunks :: Concat(chunks) == payload.value ==>
                                                 Carry(chunks, source, compression, compress)
  {
    match compression {
      case NoCompression => payload := Some(source);
      case Heatshrink(window, lookahead) => payload := compress(source, window, lookahead);
    }
  }

  lemma SourceMissing(transport: Transport, trail: Trail, source: Option<bytes>, options: Options,
                      compress: Compressor)
    requires source.None? && trail.answer == Some(T.EvOpened) && trail.origin.Some? && transport.Unfailed()
    ensures !Stuck(trail.transfer.machine, trail.answer, source, options, compress)
    ensures Explained(transport, trail, source, compress, Io)
  {
  }

  lemma CompressorFailed(transport: Transport, trail: Trail, source: Option<bytes>, options: Options,
                         compress: Compressor)
    requires source.Some? && trail.transfer.machine.negotiated.Some?
    requires CompressorFails(source.value, trail.transfer.machine.negotiated.value, compress)
    requires trail.answer == Some(T.EvOpened) && trail.origin.Some? && transport.Unfailed()
    ensures !Stuck(trail.transfer.machine, trail.answer, source, options, compress)
    ensures Explained(transport, trail, source, compress, CompressionError)
  {
  }

  lemma BrokenExplained(transport: Transport, trail: Trail, source: Option<bytes>, options: Options,
                        compress: Compressor, e: UploadError)
    requires TransferCause(transport, trail, e) && trail.origin.Some?
    ensures Explained(transport, trail, source, compress, e)
    ensures !Stuck(trail.transfer.machine, trail.answer, source, options, compress)
  {
    hide PollsSinceRequest, TicksSinceRequest, Ticks;
  }

  lemma OpenIsStuck(m: T.Machine, answer: Option<T.FileEvent>, source: Option<bytes>, options: Options,
                    compress: Compressor)
    requires Open(answer) && m.state.Failed? && source.Some? && m.negotiated.Some?
    requires !CompressorFails(source.value, m.negotiated.value, compress)
    ensures Stuck(m, answer, source, options, compress)
  {
  }

  lemma ClosedNotStuck(m: T.Machine, answer: Option<T.FileEvent>, source: Option<bytes>, options: Options,
                       compress: Compressor)
    requires answer.Some? && answer.value.EvClosed?
    ensures !Stuck(m, answer, source, options, compress)
  {
  }

  lemma LeftWell(transport: Transport, session: Session, origin: Option<S.Host>, start: nat)
    requires Left(transport, session, origin, start)
    ensures transport.Unfailed() && AckedFirst(session.Now(), start)
  {
    hide Transport.Unfailed, AckedFirst;
  }

  lemma NowWritable(transport: Transport, ft: FileTransfer)
    requires Ready(transport, ft) && (ft.state.Opened? || ft.state.Failed?)
    requires ft.answer.Some? && ft.answer.value.EvOpened?
    ensures Writable(transport, ft)
  {
  }

  lemma UploadComplete(transport: Transport, session: Session, origin: Option<S.Host>, start: nat,
                       source: Option<bytes>, options: Options, compress: Compressor, deviceMax: u16, stats: Stats,
                       chunks: seq<bytes>)
    requires Left(transport, session, origin, start)
    requires source.Some? && |options.destFilename| + 3 <= MAX_PAYLOAD
    requires T.Permits(options.compression, stats.compression)
    requires var size := ResolveChunkSize(options.chunkSize, deviceMax);
             Cut(chunks, size) && |chunks| == (|Concat(chunks)| + size - 1) / size
    requires Carry(chunks, source.value, stats.compression, compress)
    requires forall c :: c in chunks ==> |c| <= MAX_PAYLOAD
    requires stats.sourceBytes == |source.value| && stats.chunksSent == |chunks|
             && stats.bytesSent == |Concat(chunks)|
    requires session.hist.enqueued
          == [S.HANDSHAKE] + [T.FileRequest(T.PT_QUERY, [])] + [OpenRequest(options, stats.compression)]
             + WriteRequests(chunks) + [T.FileRequest(T.PT_CLOSE, [])] + [CONTROL_CLOSE]
    ensures Uploaded(transport.written, session.Now(), source, options, compress, deviceMax, stats)
  {
    hide Flow, NoneTimedOut, Inv, Delivered, Plan, WriteRequests, Concat, OpenRequest, ReachedBy, Accounts, Cut, Carry,
         ResolveChunkSize, T.Permits, Uploaded;
    ReachableInv(session.State(), session.responseTimeout, session.totalTimeout, session.ops);
    PlanAssembled(session.hist.enqueued, options, stats.compression, chunks);
    TraceComplete(transport.written, session.Now(), Plan(options, stats.compression, chunks));
    AllCounted(transport.written, session.Now(), source, options, compress, deviceMax, stats, chunks);
  }

  lemma AllCounted(written: seq<bytes>, last: S.Core, source: Option<bytes>, options: Options, compress: Compressor,
                   limit: u16, stats: Stats, chunks: seq<bytes>)
    requires source.Some? && |options.destFilename| + 3 <= MAX_PAYLOAD
    requires T.Permits(options.compression, stats.compression)
    requires var size := ResolveChunkSize(options.chunkSize, limit);
             Cut(chunks, size) && |chunks| == (|Concat(chunks)| + size - 1) / size
    requires Carry(chunks, source.value, stats.compression, compress)
    requires forall c :: c in chunks ==> |c| <= MAX_PAYLOAD
    requires stats.sourceBytes == |source.value| && stats.chunksSent == |chunks|
             && stats.bytesSent == |Concat(chunks)|
    requires Delivered(written, last, Plan(options, stats.compression, chunks))
    ensures Uploaded(written, last, source, options, compress, limit, stats)
  {
    hide Delivered, Plan, Concat, Cut, ResolveChunkSize, T.Permits;
    assert SentAs(chunks, written, last, options, ResolveChunkSize(options.chunkSize, limit), stats);
  }

  lemma PlanAssembled(enqueued: seq<S.Request>, options: Options, compression: T.Compression, chunks: seq<bytes>)
    requires |options.destFilename| + 3 <= MAX_PAYLOAD && forall c :: c in chunks ==> |c| <= MAX_PAYLOAD
    requires enqueued
          == [S.HANDSHAKE] + [T.FileRequest(T.PT_QUERY, [])] + [OpenRequest(options, compression)]
             + WriteRequests(chunks) + [T.FileRequest(T.PT_CLOSE, [])] + [CONTROL_CLOSE]
    ensures enqueued == Plan(options, compression, chunks)
    ensures forall i :: 1 <= i < |enqueued| ==> !enqueued[i].isHandshake
  {
    hide WriteRequests;
    assert Opening(options, compression)
        == [S.HANDSHAKE] + [T.FileRequest(T.PT_QUERY, [])] + [OpenRequest(options, compression)];
  }

  /**
   * The trail is that of a session with the default timeouts which was given
   * exactly the chunks the transport delivered, at exactly the instants the clock
   * showed, and of a machine built when the first Synced event was read.
   */
  ghost predicate Recorded(transport: Transport, trail: Trail)
    reads transport
  {
    && ReachedBy(trail.last, S.DEFAULT_RESPONSE_TIMEOUT, S.DEFAULT_TOTAL_TIMEOUT, trail.ops)
    && Fed(trail.ops) == transport.Taken() && Times(trail.ops) == transport.Shown() && Prompt(Start(), trail.ops)
    && FirstSynced(Start(), trail.ops) == trail.origin
    && match trail.origin
       case None => trail.answer.None?
       case Some(h) =>
         && CameBy(h, trail.calls, trail.transfer, trail.answer)
         && trail.usedUntil <= |trail.ops|
         && ReachedBy(trail.transfer.session, S.DEFAULT_RESPONSE_TIMEOUT, S.DEFAULT_TOTAL_TIMEOUT,
                      trail.ops[..trail.usedUntil])
  }

  /** The block size the device had reported when the handshake ended. */
  function DeviceLimit(trail: Trail): u16 {
    if trail.origin.Some? && trail.origin.value.core.maxBlockSize.Some?
    then trail.origin.value.core.maxBlockSize.value else 0
  }

  lemma HandshakeRecorded(transport: Transport, session: Session, trail: Trail)
    requires Logged(transport, session, None)
    requires trail.ops == session.ops && trail.last == session.State() && trail.origin.None? && trail.answer.None?
    ensures Recorded(transport, trail)
  {
    hide S.Run, Fed, Times, FirstSynced, Start;
  }

  lemma TrailRecorded(transport: Transport, ft: FileTransfer, trail: Trail)
    requires Used(transport, ft, trail.transfer, trail.usedUntil)
    requires trail.ops == ft.session.ops && trail.last == ft.session.State()
    requires trail.origin == Some(ft.origin) && trail.calls == ft.calls && trail.answer == ft.answer
    ensures Recorded(transport, trail)
  {
    hide S.Run, Fed, Times, FirstSynced, CameBy;
  }

  /** The handshake is all there was, and it is settled. */
  predicate HandshakeDone(c: S.Core) {
    c.hist.enqueued == [S.HANDSHAKE] && c.isSynced && c.inFlight.None? && c.outbound == []
  }

  lemma AnsweredHandshake(transport: Transport, session: Session)
    requires Answering(transport, session)
    ensures Logged(transport, session, Some(session.State())) && session.Valid()
    ensures Carried(transport.written, T.NEW_MACHINE, session.Now(), 1)
    ensures HandshakeDone(session.Now()) && SyncedFirst(session.Now()) && transport.Unfailed()
    ensures session.maxBlockSize.Some? && session.hist.handshakes >= 1
  {
    hide Accounts, ReachedBy, Flow;
    SyncedIsCarried(transport.written, session.Now());
  }

  lemma NowDriving(transport: Transport, ft: FileTransfer)
    requires ft.Valid() && Logged(transport, ft.session, Some(ft.origin))
    requires Carried(transport.written, ft.Machine(), ft.session.Now(), 1) && transport.Unfailed()
    ensures Driving(transport, ft)
  {
  }

  lemma SyncedIsCarried(written: seq<bytes>, c: S.Core)
    requires JustSynced(c) && c.queued == [] && Flow(written, c)
    ensures Carried(written, T.NEW_MACHINE, c, 1)
  {
    hide Flow;
    NoClosersLeft(c.events);
    NewMachineCoupled(c);
  }

  lemma {:induction false} NoClosersLeft(es: seq<S.Event>)
    requires forall e :: e in es ==> !e.Ack? && !e.Timeout?
    ensures Closers(es) == 0
  {
    if es != [] {
      NoClosersLeft(es[1..]);
    }
  }

  lemma NothingAcked()
    ensures CountWriteAcked([]) == 0
  {
  }

  lemma CopiesBounded(h: S.Host, ops: seq<S.Op>)
    requires ReachedBy(h, S.DEFAULT_RESPONSE_TIMEOUT, S.DEFAULT_TOTAL_TIMEOUT, ops)
    ensures forall d :: d in h.core.hist.dispatched ==> 1 <= d.copies <= 20
  {
    hide ReachedBy;
    forall d | d in h.core.hist.dispatched
      ensures 1 <= d.copies <= 20
    {
      DefaultRetransmitBound(h, ops, d);
    }
  }

  lemma FailureReturned(transport: Transport, trail: Trail, source: Option<bytes>, options: Options,
                        compress: Compressor, r: UploadResult)
    requires trail.answer.Some? && trail.answer.value.EvFailed? && trail.origin.Some?
    requires r.Panicked? ==> Stuck(trail.transfer.machine, trail.answer, source, options, compress)
    requires r.Err? ==> Explained(transport, trail, source, compress, r.error)
    requires !r.Done?
    ensures r == Err(TransferError(trail.answer.value.error))
  {
  }

  /** What is on the wire, in terms of the packets dispatched. */
  lemma OnTheWire(transport: Transport, session: Session)
    requires session.Valid() && Wired(transport, session)
    ensures transport.written <= [TRIGGER] + Expand(session.hist.dispatched)
    ensures Requests(session.hist.dispatched) <= session.hist.enqueued
  {
    hide ReachedBy, Expand, OutcomesFit, Current, Timers, Numbers, Reported, Pending, Counted;
    ReachableInv(session.State(), session.responseTimeout, session.totalTimeout, session.ops);
  }

  lemma UploadedIsWired(transport: Transport, session: Session, source: Option<bytes>, options: Options,
                        compress: Compressor, limit: u16, stats: Stats)
    requires session.Valid() && Uploaded(transport.written, session.Now(), source, options, compress, limit, stats)
    ensures Wired(transport, session)
  {
    hide ReachedBy, Expand, OutcomesFit, Current, Timers, Numbers, Reported, Pending, Counted, Fifo, Plan, Chunks,
         Concat, Cut, Carry, ResolveChunkSize;
  }

  lemma RecordedReaches(transport: Transport, trail: Trail)
    requires Recorded(transport, trail)
    ensures ReachedBy(trail.last, S.DEFAULT_RESPONSE_TIMEOUT, S.DEFAULT_TOTAL_TIMEOUT, trail.ops)
  {
    hide ReachedBy;
  }

  /**
   * The complete upload, for every transport and clock. Whatever comes of it, the
   * wire carries a beginning of the trigger and the frames dispatched, and what was
   * dispatched is a beginning of the plan. A finished upload is what `Uploaded`
   * says, with one WriteAcked per chunk and every frame written at most 20 times; a
   * panic happens exactly when the driver is stuck; an error has its cause, and a
   * failure the machine answered is the error returned.
   */
  method Upload(transport: Transport, source: Option<bytes>, options: Options, compress: Compressor)
    returns (r: UploadResult, ghost trail: Trail)
    requires transport.written == [] && transport.Taken() == [] && transport.Shown() == [] && transport.Unfailed()
    modifies transport
    ensures Recorded(transport, trail)
    ensures trail.origin.Some? ==>
              && HandshakeDone(trail.origin.value.core) && SyncedFirst(trail.origin.value.core)
              && trail.transfer.machine.requested == options.compression
    ensures transport.written <= [TRIGGER] + Expand(trail.last.core.hist.dispatched)
    ensures Planned(Requests(trail.last.core.hist.dispatched), trail.transfer.machine.negotiated, DeviceLimit(trail),
                    source, options, compress)
    ensures r.Panicked? <==> Stuck(trail.transfer.machine, trail.answer, source, options, compress)
    ensures r.Panicked? ==> trail.transfer.session == trail.last && transport.Unfailed()
    ensures r.Err? ==> Explained(transport, trail, source, compress, r.error)
    ensures trail.answer.Some? && trail.answer.value.EvFailed? ==>
              r == Err(TransferError(trail.answer.value.error))
    ensures r.Done? ==>
              && Uploaded(transport.written, trail.last.core, source, options, compress, DeviceLimit(trail), r.stats)
              && transport.Unfailed() && AckedFirst(trail.last.core, |trail.transfer.session.core.hist.raised|)
              && trail.answer.Some? && trail.answer.value.EvClosed?
              && CountWriteAcked(trail.transfer.machine.produced) == r.stats.chunksSent
              && transport.readCount == old(transport.readCount) + Ticks(trail.ops) + r.stats.chunksSent + 5
              && (trail.last.core.hist.handshakes == 1 ==> trail.last.core.maxBlockSize == Some(DeviceLimit(trail)))
              && forall d :: d in trail.last.core.hist.dispatched ==> 1 <= d.copies <= 20
  {
    hide Ready, Logged, Used, CameBy, Uploaded, CountWriteAcked, Driving, Audited, Recorded, Answering, Stuck,
         Session.Valid, FileTransfer.Valid, Carried, ReachedBy, Wired, Planned, Explained, HandshakeCause, RequestCause,
         Expand, Requests, Fed, Times, FirstSynced, JustSynced, TransferCause, ClosingCause, Accounts, AckedFirst,
         SyncedFirst, Transport.Unfailed,
         PollsSinceRequest, TicksSinceRequest, Ticks;
    var handshake, session := Handshake(transport);
    if !handshake.Passed? {
      trail := Trail(session.ops, session.State(), None, [], T.Transfer(T.NEW_MACHINE, session.State()), 0, None);
      HandshakeBroke(transport, session, trail, source, options, compress, handshake.error);
      return Err(handshake.error), trail;
    }
    AnsweredHandshake(transport, session);
    NothingAcked();
    var deviceMax := if session.maxBlockSize.Some? then session.maxBlockSize.value else 0;
    var ft := new FileTransfer(session);
    NowDriving(transport, ft);
    ghost var over, usedUntil;
    r, over, usedUntil := Transact(transport, ft, source, options, compress, deviceMax);
    trail := TrailOf(ft, over, usedUntil);
    Finish(transport, ft, trail, source, options, compress, r);
    PlannedLess(Requests(trail.last.core.hist.dispatched), ft.session.hist.enqueued, over.machine.negotiated, deviceMax,
                source, options, compress);
  }

  lemma HandshakeBroke(transport: Transport, session: Session, trail: Trail, source: Option<bytes>, options: Options,
                       compress: Compressor, e: UploadError)
    requires Logged(transport, session, None) && Wired(transport, session)
    requires HandshakeCause(transport, session.Now(), session.ops, e) && session.hist.enqueued <= [S.HANDSHAKE]
    requires trail == Trail(session.ops, session.State(), None, [], T.Transfer(T.NEW_MACHINE, session.State()), 0, None)
    ensures Recorded(transport, trail)
    ensures Explained(transport, trail, source, compress, e)
    ensures !Stuck(trail.transfer.machine, trail.answer, source, options, compress)
    ensures transport.written <= [TRIGGER] + Expand(trail.last.core.hist.dispatched)
    ensures Planned(Requests(trail.last.core.hist.dispatched), trail.transfer.machine.negotiated, DeviceLimit(trail),
                    source, options, compress)
  {
    hide HandshakeCause, Expand, Requests, Planned, Wired, Recorded, Accounts, Session.Valid;
    HandshakeRecorded(transport, session, trail);
    OnTheWire(transport, session);
    PlanStarts(Requests(trail.last.core.hist.dispatched), trail.transfer.machine.negotiated, DeviceLimit(trail), source,
               options, compress);
    assert [S.HANDSHAKE] <= [S.HANDSHAKE] + [T.FileRequest(T.PT_QUERY, [])];
  }

  /** The end of an upload that got past the handshake. */
  lemma Finish(transport: Transport, ft: FileTransfer, trail: Trail, source: Option<bytes>, options: Options,
               compress: Compressor, r: UploadResult)
    requires trail == TrailOf(ft, trail.transfer, trail.usedUntil)
    requires Used(transport, ft, trail.transfer, trail.usedUntil)
    requires !r.Done? ==> Wired(transport, ft.session)
    requires r.Panicked? ==> Stuck(trail.transfer.machine, trail.answer, source, options, compress)
    requires r.Err? ==> Explained(transport, trail, source, compress, r.error)
    requires r.Done? ==>
               && Uploaded(transport.written, ft.session.Now(), source, options, compress, DeviceLimit(trail), r.stats)
               && trail.answer.Some? && trail.answer.value.EvClosed?
    ensures Recorded(transport, trail)
    ensures transport.written <= [TRIGGER] + Expand(trail.last.core.hist.dispatched)
    ensures Requests(trail.last.core.hist.dispatched) <= ft.session.hist.enqueued
    ensures trail.answer.Some? && trail.answer.value.EvFailed? ==>
              r == Err(TransferError(trail.answer.value.error))
    ensures forall d :: d in trail.last.core.hist.dispatched ==> 1 <= d.copies <= 20
  {
    hide Used, Uploaded, Wired, Stuck, Explained, Expand, Requests, Recorded, Session.Valid, ReachedBy;
    TrailRecorded(transport, ft, trail);
    UsedIsValid(transport, ft, trail.transfer, trail.usedUntil);
    if r.Done? {
      UploadedIsWired(transport, ft.session, source, options, compress, DeviceLimit(trail), r.stats);
    } else if trail.answer.Some? && trail.answer.value.EvFailed? {
      FailureReturned(transport, trail, source, options, compress, r);
    }
    OnTheWire(transport, ft.session);
    RecordedReaches(transport, trail);
    CopiesBounded(trail.last, trail.ops);
  }

  lemma UsedIsValid(transport: Transport, ft: FileTransfer, over: T.Transfer, usedUntil: nat)
    requires Used(transport, ft, over, usedUntil)
    ensures ft.session.Valid()
  {
    hide Accounts, CameBy, S.Run;
  }
}
