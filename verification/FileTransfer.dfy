/**
 * The file-transfer driver over a borrowed session. `calls` is the history of
 * calls made on the object and `answer` what the last of them answered, if it was
 * a poll; the class invariant says that making those calls from a new machine
 * over `origin` gives the state of object and session.
 */
module FileTransferClass {
  import opened Prelude
  import opened Text
  import opened Journal
  import opened SessionClass
  import S = SessionSpec
  import T = TransferSpec

  class FileTransfer {
    const session: Session
    var state: T.State
    var requestedCompression: T.Compression
    var negotiated: Option<T.Compression>
    var advertisedVersion: Option<bytes>
    var pendingAscii: Option<T.Pending>
    var outEvents: seq<T.FileEvent>
    ghost var produced: seq<T.FileEvent>
    ghost var writes: nat
    ghost const origin: S.Host
    ghost var calls: seq<T.Call>
    ghost var answer: Option<T.FileEvent>

    ghost function Machine(): T.Machine
      reads this
    {
      T.Machine(state, requestedCompression, negotiated, advertisedVersion, pendingAscii, outEvents,
                produced, writes)
    }

    ghost function Whole(): T.Transfer
      reads this, session
    {
      T.Transfer(Machine(), session.State())
    }

    ghost predicate Valid()
      reads this, session
    {
      session.Valid() && CameBy(origin, calls, Whole(), answer)
    }

    constructor (session: Session)
      requires session.Valid()
      ensures Valid() && this.session == session
      ensures Whole() == T.Transfer(T.NEW_MACHINE, session.State())
      ensures origin == session.State() && calls == [] && answer.None?
    {
      this.session := session;
      state, requestedCompression, negotiated := T.Idle, T.NoCompression, None;
      advertisedVersion, pendingAscii, outEvents := None, None, [];
      produced, writes := [], 0;
      origin, calls, answer := session.State(), [], None;
    }

    /** Notes down a call just made and what it answered. */
    ghost method Record(before: T.Transfer, call: T.Call)
      requires CameBy(origin, calls, before, answer) && T.Callable(before, call)
      requires Whole() == T.Do(before, call)
      modifies this`calls, this`answer
      ensures calls == old(calls) + [call] && answer == if call.CallPoll? then T.Poll(before).1 else None
      ensures CameBy(origin, calls, Whole(), answer)
    {
      hide CameBy, T.Do, T.Callable, T.Poll;
      CameThen(origin, calls, before, answer, call);
      calls, answer := calls + [call], if call.CallPoll? then T.Poll(before).1 else None;
    }

    /** In each request method the requires clauses are the assertions of the source. */
    method Query(compression: T.Compression, now: int)
      requires Valid() && T.Callable(Whole(), T.CallQuery(compression, now))
      modifies this, session
      ensures Valid() && Whole() == T.Query(old(Whole()), compression, now)
      ensures calls == old(calls) + [T.CallQuery(compression, now)] && answer.None?
      ensures session.ops == old(session.ops) + [S.OpSend(T.PROTOCOL_FILE_TRANSFER, T.PT_QUERY, [], now)]
    {
      hide S.Submit, CameBy;
      ghost var before := Whole();
      requestedCompression := compression;
      state := T.AwaitingQueryReply;
      session.Send(T.PROTOCOL_FILE_TRANSFER, T.PT_QUERY, [], now);
      Record(before, T.CallQuery(compression, now));
    }

    method Open(name: bytes, dummy: bool, now: int)
      requires Valid() && T.Callable(Whole(), T.CallOpen(name, dummy, now))
      modifies this, session
      ensures Valid()
      ensures Whole() == T.Open(old(Whole()), T.OpenPayload(old(negotiated), name, dummy), now)
      ensures calls == old(calls) + [T.CallOpen(name, dummy, now)] && answer.None?
      ensures session.ops == old(session.ops) + [S.OpSend(T.PROTOCOL_FILE_TRANSFER, T.PT_OPEN, T.OpenPayload(old(negotiated), name, dummy), now)]
    {
      hide S.Submit, CameBy;
      ghost var before := Whole();
      var compressionByte: byte := match negotiated
                                   case Some(Heatshrink(_, _)) => 1
                                   case _ => 0;
      var payload: bytes := [];
      payload := payload + [if dummy then 1 else 0];
      payload := payload + [compressionByte];
      payload := payload + name;
      payload := payload + [0];
      assert payload == T.OpenPayload(negotiated, name, dummy);
      state := T.AwaitingOpenReply;
      session.Send(T.PROTOCOL_FILE_TRANSFER, T.PT_OPEN, payload, now);
      Record(before, T.CallOpen(name, dummy, now));
    }

    method Write(chunk: bytes, now: int)
      requires Valid() && T.Callable(Whole(), T.CallWrite(chunk, now))
      modifies this, session
      ensures Valid() && Whole() == T.Write(old(Whole()), chunk, now)
      ensures calls == old(calls) + [T.CallWrite(chunk, now)] && answer.None?
      ensures session.ops == old(session.ops) + [S.OpSend(T.PROTOCOL_FILE_TRANSFER, T.PT_WRITE, chunk, now)]
    {
      hide S.Submit, CameBy;
      ghost var before := Whole();
      state := T.AwaitingWriteAck;
      writes := writes + 1;
      session.Send(T.PROTOCOL_FILE_TRANSFER, T.PT_WRITE, chunk, now);
      Record(before, T.CallWrite(chunk, now));
    }

    method Close(now: int)
      requires Valid() && T.Callable(Whole(), T.CallClose(now))
      modifies this, session
      ensures Valid() && Whole() == T.Close(old(Whole()), now)
      ensures calls == old(calls) + [T.CallClose(now)] && answer.None?
      ensures session.ops == old(session.ops) + [S.OpSend(T.PROTOCOL_FILE_TRANSFER, T.PT_CLOSE, [], now)]
    {
      hide S.Submit, CameBy;
      ghost var before := Whole();
      state := T.AwaitingCloseReply;
      session.Send(T.PROTOCOL_FILE_TRANSFER, T.PT_CLOSE, [], now);
      Record(before, T.CallClose(now));
    }

    method Abort(now: int)
      requires Valid() && T.Callable(Whole(), T.CallAbort(now))
      modifies this, session
      ensures Valid() && Whole() == T.Abort(old(Whole()), now)
      ensures calls == old(calls) + [T.CallAbort(now)] && answer.None?
      ensures session.ops == old(session.ops) + [S.OpSend(T.PROTOCOL_FILE_TRANSFER, T.PT_ABORT, [], now)]
    {
      hide S.Submit, CameBy;
      ghost var before := Whole();
      state := T.AwaitingAbortReply;
      session.Send(T.PROTOCOL_FILE_TRANSFER, T.PT_ABORT, [], now);
      Record(before, T.CallAbort(now));
    }

    method PollOutbound() returns (frame: Option<bytes>)
      requires Valid()
      modifies this, session
      ensures Valid() && frame == S.Head(old(session.outbound))
      ensures Whole() == T.Do(old(Whole()), T.CallPollOutbound)
      ensures calls == old(calls) + [T.CallPollOutbound] && answer.None?
      ensures session.ops == old(session.ops) + [S.OpPollOutbound]
    {
      hide CameBy;
      ghost var before := Whole();
      frame := session.PollOutbound();
      Record(before, T.CallPollOutbound);
    }

    method Feed(chunk: bytes, now: int)
      requires Valid()
      modifies this, session
      ensures Valid() && Whole() == T.Do(old(Whole()), T.CallFeed(chunk, now))
      ensures calls == old(calls) + [T.CallFeed(chunk, now)] && answer.None?
      ensures session.ops == old(session.ops) + [S.OpFeed(chunk, now)]
    {
      hide S.Feed, CameBy;
      ghost var before := Whole();
      session.Feed(chunk, now);
      Record(before, T.CallFeed(chunk, now));
    }

    method Tick(now: int)
      requires Valid()
      modifies this, session
      ensures Valid() && Whole() == T.Do(old(Whole()), T.CallTick(now))
      ensures calls == old(calls) + [T.CallTick(now)] && answer.None?
      ensures session.ops == old(session.ops) + [S.OpTick(now)]
    {
      hide S.Tick, CameBy;
      ghost var before := Whole();
      session.Tick(now);
      Record(before, T.CallTick(now));
    }

    /** Drains every session event before popping one file event. */
    method Poll() returns (event: Option<T.FileEvent>)
      requires Valid()
      modifies this, session
      ensures Valid() && (Whole(), event) == T.Poll(old(Whole()))
      ensures calls == old(calls) + [T.CallPoll] && answer == event
      ensures session.ops == old(session.ops) + Repeat(S.OpPollEvent, |old(session.events)| + 1)
    {
      hide T.HandleSessionEvent, CameBy, Session.Valid, Repeat;
      ghost var before := Whole();
      DrainEvents();
      event := S.Head(outEvents);
      outEvents := S.Tail(outEvents);
      Record(before, T.CallPoll);
    }

    method DrainEvents()
      requires session.Valid()
      modifies this, session
      ensures session.Valid() && Whole() == T.Drained(old(Whole()))
      ensures calls == old(calls) && answer == old(answer)
      ensures session.ops == old(session.ops) + Repeat(S.OpPollEvent, |old(session.events)| + 1)
    {
      hide T.HandleSessionEvent, Session.Valid, Repeat;
      ghost var polls := 1;
      var next := session.PollEvent();
      RepeatSnoc(S.OpPollEvent, 0);
      while next.Some?
        invariant session.Valid() && calls == old(calls) && answer == old(answer)
        invariant T.HandleEvents(Machine(), (if next.Some? then [next.value] else []) + session.events)
               == T.HandleEvents(old(Machine()), old(session.events))
        invariant next.None? ==> session.events == []
        invariant session.State() == old(session.State()).(core := old(session.Now()).(events := session.events))
        invariant session.ops == old(session.ops) + Repeat(S.OpPollEvent, polls)
        invariant polls + |session.events| == |old(session.events)| + if next.Some? then 0 else 1
        decreases |session.events| + if next.Some? then 1 else 0
      {
        HandleSessionEvent(next.value);
        assert ([next.value] + session.events)[1..] == session.events;
        next := session.PollEvent();
        RepeatSnoc(S.OpPollEvent, polls);
        polls := polls + 1;
      }
    }

    method HandleSessionEvent(event: S.Event)
      modifies this
      ensures Machine() == T.HandleSessionEvent(old(Machine()), event)
      ensures calls == old(calls) && answer == old(answer)
    {
      match event {
        case AsciiLine(line) => HandleAsciiLine(line);
        case Ack(_) => HandleAck();
        case Synced(_, _) =>
        case ResendRequested(_) =>
        case FatalError => Fail(T.SessionFatalError);
        case OutOfSync(expected, got) => Fail(T.SessionOutOfSync(expected, got));
        case Timeout(_) => Fail(T.SessionTimeout);
      }
    }

    method HandleAsciiLine(line: bytes)
      modifies this
      ensures Machine() == T.HandleAsciiLine(old(Machine()), line)
      ensures calls == old(calls) && answer == old(answer)
    {
      hide T.HandleVersion;
      var rest := StripPrefix(line, T.PFT_VERSION);
      if rest.Some? {
        HandleVersion(rest.value);
        return;
      }
      if line == T.PFT_SUCCESS {
        match state {
          case AwaitingOpenReply => pendingAscii := Some(T.OpenSuccess);
          case AwaitingCloseReply => pendingAscii := Some(T.CloseSuccess);
          case AwaitingAbortReply => pendingAscii := Some(T.AbortSuccess);
          case _ =>
        }
      } else if line == T.PFT_BUSY {
        if state.AwaitingOpenReply? {
          pendingAscii := Some(T.OpenBusyReply);
        }
      } else if line == T.PFT_FAIL {
        if state.AwaitingOpenReply? {
          pendingAscii := Some(T.OpenFailReply);
        }
      } else if line == T.PFT_IOERROR {
        if state.AwaitingCloseReply? {
          pendingAscii := Some(T.CloseIoError);
        }
      } else if line == T.PFT_INVALID {
        if state.AwaitingCloseReply? {
          pendingAscii := Some(T.CloseInvalid);
        }
      }
    }

    method HandleVersion(rest: bytes)
      modifies this
      ensures Machine() == T.HandleVersion(old(Machine()), rest)
      ensures calls == old(calls) && answer == old(answer)
    {
      hide SplitOnce, T.ParseCompression, T.ChooseCompression;
      if !state.AwaitingQueryReply? {
        return;
      }
      var parts := SplitOnce(rest, COLON);
      if parts.None? {
        return;
      }
      var (version, spec) := parts.value;
      advertisedVersion := Some(version);
      var chosen := T.ChooseCompression(requestedCompression, T.ParseCompression(spec));
      match chosen {
        case Success(compression) => pendingAscii := Some(T.QueryVersion(version, compression));
        case Failure(err) => pendingAscii := Some(T.QueryFailed(err));
      }
    }

    method HandleAck()
      modifies this
      ensures Machine() == T.HandleAck(old(Machine()))
      ensures calls == old(calls) && answer == old(answer)
    {
      var pending := pendingAscii;
      pendingAscii := None;
      match (state, pending) {
        case (AwaitingQueryReply, Some(QueryVersion(version, compression))) =>
          negotiated := Some(compression);
          state := T.Negotiated;
          Push(T.EvNegotiated(version, compression));
        case (AwaitingQueryReply, Some(QueryFailed(err))) => Fail(err);
        case (AwaitingQueryReply, None) => Fail(T.ProtocolViolation(T.AwaitingQueryReply));
        case (AwaitingOpenReply, Some(OpenSuccess)) =>
          state := T.Opened;
          Push(T.EvOpened);
        case (AwaitingOpenReply, Some(OpenBusyReply)) =>
          state := T.Failed;
          Push(T.EvFailed(T.OpenBusy));
        case (AwaitingOpenReply, Some(OpenFailReply)) =>
          state := T.Failed;
          Push(T.EvFailed(T.OpenFail));
        case (AwaitingOpenReply, None) => Fail(T.ProtocolViolation(T.AwaitingOpenReply));
        case (AwaitingWriteAck, None) =>
          state := T.Opened;
          Push(T.EvWriteAcked);
        case (AwaitingWriteAck, Some(_)) => Fail(T.ProtocolViolation(T.AwaitingWriteAck));
        case (AwaitingCloseReply, Some(CloseSuccess)) =>
          state := T.Closed;
          Push(T.EvClosed);
        case (AwaitingCloseReply, Some(CloseIoError)) =>
          state := T.Failed;
          Push(T.EvFailed(T.IoError));
        case (AwaitingCloseReply, Some(CloseInvalid)) =>
          state := T.Failed;
          Push(T.EvFailed(T.NoOpenFile));
        case (AwaitingCloseReply, None) => Fail(T.ProtocolViolation(T.AwaitingCloseReply));
        case (AwaitingAbortReply, Some(AbortSuccess)) =>
          state := T.Aborted;
          Push(T.EvAbortAcked);
        case (AwaitingAbortReply, None) => Fail(T.ProtocolViolation(T.AwaitingAbortReply));
        case _ =>
      }
    }

    method Push(e: T.FileEvent)
      modifies this
      ensures Machine() == T.Produce(old(Machine()), e)
      ensures calls == old(calls) && answer == old(answer)
    {
      outEvents := outEvents + [e];
      produced := produced + [e];
    }

    method Fail(err: T.FileError)
      modifies this
      ensures Machine() == T.Fail(old(Machine()), err)
      ensures calls == old(calls) && answer == old(answer)
    {
      state := T.Failed;
      Push(T.EvFailed(err));
    }
  }
}
