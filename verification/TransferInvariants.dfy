/** What every sequence of file-transfer calls keeps, machine and session together. */
module TransferInvariants {
  import opened Prelude
  import opened Text
  import opened SessionSpec
  import opened TransferSpec

  // ----- The session underneath -----

  /** The number of Ack and Timeout events still to be read. */
  function Closers(es: seq<Event>): nat {
    if es == [] then 0
    else (if es[0].Ack? || es[0].Timeout? then 1 else 0) + Closers(es[1..])
  }

  lemma {:induction false} ClosersAppend(a: seq<Event>, b: seq<Event>)
    ensures Closers(a + b) == Closers(a) + Closers(b)
  {
    if a == [] {
      assert a + b == b;
    } else {
      assert (a + b)[1..] == a[1..] + b;
      ClosersAppend(a[1..], b);
    }
  }

  /** Requests whose end the machine has not seen: in flight, or with the closing event unread. */
  function Owed(c: Core): nat {
    (if c.inFlight.Some? then 1 else 0) + Closers(c.events)
  }

  ghost predicate Quiet(c: Core) {
    c.isSynced && c.queued == [] && (c.inFlight.Some? ==> !c.inFlight.value.isHandshake)
  }

  ghost predicate NoTimeoutIn(es: seq<Event>) {
    forall e :: e in es ==> !e.Timeout?
  }

  ghost predicate NoneTimedOut(os: seq<Outcome>, start: nat) {
    forall i :: start <= i < |os| ==> !os[i].TimedOut?
  }

  /** What receiving and ticking may do to a quiet session. */
  ghost predicate Advances(c: Core, d: Core) {
    && Quiet(d) && Owed(d) == Owed(c)
    && c.events <= d.events && c.hist.resolved <= d.hist.resolved
    && d.hist.enqueued == c.hist.enqueued
    && (Owed(c) == 0 ==> d.hist.resolved == c.hist.resolved)
    && (NoTimeoutIn(d.events) ==> NoneTimedOut(d.hist.resolved, |c.hist.resolved|))
    && Tracks(c, d)
  }

  /** The advertised block size only changes with a further ss. */
  predicate Tracks(c: Core, d: Core) {
    && c.hist.handshakes <= d.hist.handshakes
    && (c.hist.handshakes == d.hist.handshakes ==> d.maxBlockSize == c.maxBlockSize)
  }

  lemma AdvancesTransitive(c: Core, d: Core, e: Core)
    requires Advances(c, d) && Advances(d, e)
    ensures Advances(c, e)
  {
    assert NoTimeoutIn(e.events) ==> NoTimeoutIn(d.events) by {
      assert forall x :: x in d.events ==> x in e.events;
    }
  }

  lemma RaiseAdvances(c: Core, e: Event)
    requires Quiet(c) && !e.Ack? && !e.Timeout?
    ensures Advances(c, Raise(c, e))
  {
    ClosersAppend(c.events, [e]);
  }

  lemma HandleOkAdvances(c: Core, n: byte, now: int)
    requires Quiet(c)
    ensures Advances(c, HandleOk(c, n, now))
  {
    hide Decimal, Wire;
    match c.inFlight
    case None => RaiseAdvances(c, AsciiLine(OK + Decimal(n)));
    case Some(f) =>
      if n != f.sync {
        RaiseAdvances(c, OutOfSync(f.sync, n));
      } else {
        ClosersAppend(c.events, [Ack(n)]);
      }
  }

  lemma AcceptLineAdvances(c: Core, raw: bytes, now: int)
    requires Quiet(c)
    ensures Advances(c, AcceptLine(c, raw, now))
    ensures AcceptLine(c, raw, now).outbound == c.outbound
    ensures AcceptLine(c, raw, now).hist.emitted == c.hist.emitted
    ensures AcceptLine(c, raw, now).hist.dispatched == c.hist.dispatched
  {
    hide StripLineEndings, Classify, Wire, Advances, Closers;
    var line := StripLineEndings(raw);
    if line == [] {
      StaysPut(c);
    } else {
      match Classify(line)
      case OkLine(n) => HandleOkAdvances(c, n, now);
      case ResendLine(n) => RaiseAdvances(c, ResendRequested(n));
      case SyncLine(s, m, v) => SynchronizeAdvances(c, s, m, v, now);
      case FatalLine => RaiseAdvances(c, FatalError);
      case TextLine(t) => RaiseAdvances(c, AsciiLine(t));
      case Ignored => StaysPut(c);
    }
  }

  lemma StaysPut(c: Core)
    requires Quiet(c)
    ensures Advances(c, c)
  {
  }

  lemma SynchronizeAdvances(c: Core, s: u16, m: u16, v: bytes, now: int)
    requires Quiet(c)
    ensures Advances(c, Synchronize(c, s, m, v, now))
  {
    hide Wire;
    ClosersAppend(c.events, [Synced(m, v)]);
  }

  lemma {:induction false} AcceptLinesAdvance(c: Core, lines: seq<bytes>, now: int)
    requires Quiet(c)
    ensures var d := AcceptLines(c, lines, now);
            Advances(c, d) && d.outbound == c.outbound && d.hist.emitted == c.hist.emitted
            && d.hist.dispatched == c.hist.dispatched
    decreases |lines|
  {
    hide AcceptLine, Advances;
    if lines == [] {
      StaysPut(c);
    } else {
      var d := AcceptLine(c, lines[0], now);
      AcceptLineAdvances(c, lines[0], now);
      AdvancesQuiet(c, d);
      AcceptLinesAdvance(d, lines[1..], now);
      AdvancesTransitive(c, d, AcceptLines(d, lines[1..], now));
    }
  }

  lemma AdvancesQuiet(c: Core, d: Core)
    requires Advances(c, d)
    ensures Quiet(d)
  {
  }

  lemma TickAdvances(c: Core, now: int)
    requires Quiet(c)
    ensures Advances(c, Tick(c, now))
  {
    hide Wire, Recopied;
    if c.inFlight.Some? {
      var e := Timeout(c.inFlight.value.sync);
      ClosersAppend(c.events, [e]);
      assert (c.events + [e])[|c.events|] == e;
    }
  }

  // ----- The machine -----

  predicate Awaiting(s: State) {
    s.AwaitingQueryReply? || s.AwaitingOpenReply? || s.AwaitingWriteAck?
    || s.AwaitingCloseReply? || s.AwaitingAbortReply?
  }

  predicate PendingFits(s: State, requested: Compression, p: Option<Pending>) {
    p.None? || s.Failed?
    || match p.value
       case QueryVersion(_, c) => s.AwaitingQueryReply? && Permits(requested, c)
       case QueryFailed(_) => s.AwaitingQueryReply?
       case OpenSuccess => s.AwaitingOpenReply?
       case OpenBusyReply => s.AwaitingOpenReply?
       case OpenFailReply => s.AwaitingOpenReply?
       case CloseSuccess => s.AwaitingCloseReply?
       case CloseIoError => s.AwaitingCloseReply?
       case CloseInvalid => s.AwaitingCloseReply?
       case AbortSuccess => s.AwaitingAbortReply?
  }

  /** Negotiated, Opened, WriteAcked*, then possibly Closed or AbortAcked; cut anywhere. */
  predicate Progress(w: seq<FileEvent>) {
    && (|w| > 0 ==> w[0].EvNegotiated?)
    && (|w| > 1 ==> w[1].EvOpened?)
    && forall i :: 2 <= i < |w| ==>
         w[i].EvWriteAcked? || (i == |w| - 1 && (w[i].EvClosed? || w[i].EvAbortAcked?))
  }

  function FirstFailure(w: seq<FileEvent>): (k: nat)
    ensures k <= |w|
    ensures k < |w| ==> w[k].EvFailed?
    ensures forall i :: 0 <= i < k ==> !w[i].EvFailed?
  {
    if w == [] || w[0].EvFailed? then 0 else 1 + FirstFailure(w[1..])
  }

  /** A progress word, possibly cut short and followed only by failures. */
  predicate Language(w: seq<FileEvent>) {
    var k := FirstFailure(w);
    Progress(w[..k]) && forall i :: k <= i < |w| ==> w[i].EvFailed?
  }

  predicate Ended(w: seq<FileEvent>) {
    exists i :: 0 <= i < |w| && (w[i].EvClosed? || w[i].EvAbortAcked?)
  }

  function CountWriteAcked(w: seq<FileEvent>): nat {
    if w == [] then 0
    else CountWriteAcked(w[..|w| - 1]) + if w[|w| - 1].EvWriteAcked? then 1 else 0
  }

  /** How far the events produced so far have got, in each state. */
  predicate Stage(s: State, w: seq<FileEvent>) {
    match s
    case Idle => w == []
    case AwaitingQueryReply => w == []
    case Negotiated => |w| == 1
    case AwaitingOpenReply => |w| == 1
    case Opened => |w| >= 2 && !Ended(w)
    case AwaitingWriteAck => |w| >= 2 && !Ended(w)
    case AwaitingCloseReply => |w| >= 2 && !Ended(w)
    case AwaitingAbortReply => |w| >= 2 && !Ended(w)
    case Closed => |w| >= 3 && w[|w| - 1].EvClosed?
    case Aborted => |w| >= 3 && w[|w| - 1].EvAbortAcked?
    case Failed => w != [] && w[|w| - 1].EvFailed?
  }

  ghost predicate MachineInv(m: Machine) {
    && PendingFits(m.state, m.requested, m.pending)
    && Language(m.produced) && Stage(m.state, m.produced)
    && (!m.state.Failed? ==> FirstFailure(m.produced) == |m.produced|)
    && CountWriteAcked(m.produced) <= m.writes <= CountWriteAcked(m.produced) + 1
    && (!m.state.Failed? ==>
          m.writes == CountWriteAcked(m.produced) + if m.state.AwaitingWriteAck? then 1 else 0)
    && |m.outEvents| <= |m.produced|
    && m.outEvents == m.produced[|m.produced| - |m.outEvents|..]
    && (m.negotiated.Some? ==> !m.state.Idle? && Permits(m.requested, m.negotiated.value))
    && (forall e :: e in m.produced && e.EvNegotiated? ==> m.negotiated == Some(e.compression))
  }

  /**
   * The coupling: an awaiting machine is owed exactly one ending, a settled one
   * none, and a finished transfer stays finished; `start` is the number of
   * outcomes the session had when the machine was built.
   */
  ghost predicate Coupled(m: Machine, c: Core, start: nat) {
    && MachineInv(m) && Quiet(c) && start <= |c.hist.resolved|
    && (if Awaiting(m.state) then Owed(c) == 1
        else if m.state.Failed? then Owed(c) <= 1
        else Owed(c) == 0)
    && (Ended(m.produced) ==> Owed(c) == 0 && NoneTimedOut(c.hist.resolved, start))
    && (!m.state.Failed? && NoTimeoutIn(c.events) ==> NoneTimedOut(c.hist.resolved, start))
  }

  // ----- One session event -----

  lemma {:induction false} FirstFailureSnoc(w: seq<FileEvent>, e: FileEvent)
    ensures FirstFailure(w + [e]) == if FirstFailure(w) < |w| then FirstFailure(w)
                                     else if e.EvFailed? then |w| else |w| + 1
  {
    if w != [] && !w[0].EvFailed? {
      assert (w + [e])[1..] == w[1..] + [e];
      FirstFailureSnoc(w[1..], e);
    }
  }

  lemma CountWriteAckedSnoc(w: seq<FileEvent>, e: FileEvent)
    ensures CountWriteAcked(w + [e]) == CountWriteAcked(w) + if e.EvWriteAcked? then 1 else 0
  {
    assert (w + [e])[..|w|] == w;
  }

  lemma EndedSnoc(w: seq<FileEvent>, e: FileEvent)
    ensures Ended(w + [e]) <==> Ended(w) || e.EvClosed? || e.EvAbortAcked?
  {
    assert (w + [e])[|w|] == e;
    if Ended(w) {
      var i :| 0 <= i < |w| && (w[i].EvClosed? || w[i].EvAbortAcked?);
      assert (w + [e])[i] == w[i];
    }
  }

  lemma LanguageFailure(w: seq<FileEvent>, e: FileEvent)
    requires Language(w) && e.EvFailed?
    ensures Language(w + [e])
  {
    FirstFailureSnoc(w, e);
    assert (w + [e])[..FirstFailure(w)] == w[..FirstFailure(w)];
  }

  lemma LanguageProgress(w: seq<FileEvent>, e: FileEvent)
    requires Language(w) && FirstFailure(w) == |w| && !e.EvFailed? && !Ended(w)
    requires match |w| case 0 => e.EvNegotiated? case 1 => e.EvOpened?
                       case _ => e.EvWriteAcked? || e.EvClosed? || e.EvAbortAcked?
    ensures Language(w + [e])
  {
    FirstFailureSnoc(w, e);
    assert w[..|w|] == w;
    assert (w + [e])[..|w| + 1] == w + [e];
  }

  lemma FailKeeps(m: Machine, err: FileError)
    requires MachineInv(m)
    ensures MachineInv(Fail(m, err)) && Ended(Fail(m, err).produced) == Ended(m.produced)
  {
    hide Language, FirstFailure, CountWriteAcked, Ended;
    var e := EvFailed(err);
    LanguageFailure(m.produced, e);
    CountWriteAckedSnoc(m.produced, e);
    EndedSnoc(m.produced, e);
  }

  lemma AsciiLineKeeps(m: Machine, line: bytes)
    requires MachineInv(m)
    ensures var n := HandleAsciiLine(m, line);
            MachineInv(n) && n.state == m.state && n.produced == m.produced && n.outEvents == m.outEvents
  {
    hide Language, FirstFailure, CountWriteAcked, Ended, Stage, PendingFits, HandleAsciiLine;
    AsciiLineOnlyPending(m, line);
  }

  lemma AsciiLineOnlyPending(m: Machine, line: bytes)
    requires PendingFits(m.state, m.requested, m.pending)
    ensures var n := HandleAsciiLine(m, line);
            && n == m.(pending := n.pending, advertisedVersion := n.advertisedVersion)
            && PendingFits(m.state, m.requested, n.pending)
  {
    hide HandleVersion;
    if PFT_VERSION <= line {
      VersionOnlyPending(m, line[|PFT_VERSION|..]);
    }
  }

  lemma VersionOnlyPending(m: Machine, rest: bytes)
    requires PendingFits(m.state, m.requested, m.pending)
    ensures var n := HandleVersion(m, rest);
            && n == m.(pending := n.pending, advertisedVersion := n.advertisedVersion)
            && PendingFits(m.state, m.requested, n.pending)
  {
    hide SplitOnce, ParseCompression;
  }

  /**
   * An ack is never swallowed: in an awaiting state it produces exactly one
   * file event and leaves that state for a settled one; elsewhere it changes
   * nothing but the pending text.
   */
  lemma AckConsumed(m: Machine)
    requires PendingFits(m.state, m.requested, m.pending)
    ensures var n := HandleAck(m);
            if Awaiting(m.state) then
              !Awaiting(n.state) && n.pending.None? && |n.produced| == |m.produced| + 1
              && n.produced[..|m.produced|] == m.produced
              && n.outEvents == m.outEvents + [n.produced[|m.produced|]]
            else n == m.(pending := None)
    ensures m.state.AwaitingWriteAck? ==> m.pending.None? && HandleAck(m).state.Opened?
  {
  }

  lemma NotEnded(m: Machine)
    requires MachineInv(m) && Awaiting(m.state)
    ensures !Ended(m.produced)
  {
    hide CountWriteAcked, FirstFailure, PendingFits, Ended, Progress;
    var w := m.produced;
    assert w[..|w|] == w;
    if |w| <= 1 {
      ShortWord(w);
    }
  }

  lemma ShortWord(w: seq<FileEvent>)
    requires |w| <= 1 && Progress(w)
    ensures !Ended(w)
  {
  }

  lemma ProgressKeeps(m: Machine, n: Machine, e: FileEvent)
    requires MachineInv(m) && Awaiting(m.state) && !e.EvFailed?
    requires n == Produce(m.(pending := None, state := n.state, negotiated := n.negotiated), e)
    requires match m.state
             case AwaitingQueryReply =>
               e.EvNegotiated? && n.state.Negotiated? && n.negotiated == Some(e.compression)
               && Permits(m.requested, e.compression)
             case AwaitingOpenReply => e.EvOpened? && n.state.Opened? && n.negotiated == m.negotiated
             case AwaitingWriteAck => e.EvWriteAcked? && n.state.Opened? && n.negotiated == m.negotiated
             case AwaitingCloseReply => e.EvClosed? && n.state.Closed? && n.negotiated == m.negotiated
             case _ => e.EvAbortAcked? && n.state.Aborted? && n.negotiated == m.negotiated
    ensures MachineInv(n)
  {
    hide Language, CountWriteAcked, FirstFailure, Stage;
    ProgressWord(m, e);
    ProgressStage(m, n.state, e);
    SuffixSnoc(m.produced, m.outEvents, e);
    FirstFailureSnoc(m.produced, e);
    CountWriteAckedSnoc(m.produced, e);
    if m.state.AwaitingQueryReply? {
      StartOfWord(m);
    }
    NegotiatedSnoc(m, n, e);
  }

  lemma StartOfWord(m: Machine)
    requires MachineInv(m) && m.state.AwaitingQueryReply?
    ensures m.produced == []
  {
  }

  lemma ProgressStage(m: Machine, s: State, e: FileEvent)
    requires Stage(m.state, m.produced)
    requires match m.state
             case AwaitingQueryReply => s.Negotiated? && e.EvNegotiated?
             case AwaitingOpenReply => s.Opened? && e.EvOpened? && !Ended(m.produced)
             case AwaitingWriteAck => s.Opened? && e.EvWriteAcked?
             case AwaitingCloseReply => s.Closed? && e.EvClosed?
             case AwaitingAbortReply => s.Aborted? && e.EvAbortAcked?
             case _ => false
    ensures Stage(s, m.produced + [e])
  {
    hide Ended;
    EndedSnoc(m.produced, e);
  }

  lemma ProgressWord(m: Machine, e: FileEvent)
    requires MachineInv(m) && Awaiting(m.state)
    requires match m.state
             case AwaitingQueryReply => e.EvNegotiated?
             case AwaitingOpenReply => e.EvOpened?
             case AwaitingWriteAck => e.EvWriteAcked?
             case AwaitingCloseReply => e.EvClosed?
             case _ => e.EvAbortAcked?
    ensures Language(m.produced + [e]) && !Ended(m.produced) && FirstFailure(m.produced) == |m.produced|
  {
    hide Language, CountWriteAcked, FirstFailure, Ended, PendingFits;
    NotEnded(m);
    LanguageProgress(m.produced, e);
  }

  lemma SuffixSnoc(w: seq<FileEvent>, out: seq<FileEvent>, e: FileEvent)
    requires |out| <= |w| && out == w[|w| - |out|..]
    ensures out + [e] == (w + [e])[|w| - |out|..]
  {
  }

  lemma NegotiatedSnoc(m: Machine, n: Machine, e: FileEvent)
    requires forall x :: x in m.produced && x.EvNegotiated? ==> m.negotiated == Some(x.compression)
    requires e.EvNegotiated? ==> n.negotiated == Some(e.compression) && m.produced == []
    requires !e.EvNegotiated? ==> n.negotiated == m.negotiated
    ensures forall x :: x in m.produced + [e] && x.EvNegotiated? ==> n.negotiated == Some(x.compression)
  {
    assert forall x :: x in m.produced + [e] ==> x in m.produced || x == e;
  }

  lemma AckKeepsMachine(m: Machine)
    requires MachineInv(m)
    ensures MachineInv(HandleAck(m))
  {
    hide Language, FirstFailure, CountWriteAcked, Ended, Stage;
    var n := HandleAck(m);
    if Awaiting(m.state) {
      if n.state.Failed? {
        AckFailure(m);
      } else {
        ProgressKeeps(m, n, n.produced[|m.produced|]);
      }
    }
  }

  lemma AckFailure(m: Machine)
    requires MachineInv(m) && Awaiting(m.state) && HandleAck(m).state.Failed?
    ensures MachineInv(HandleAck(m))
  {
    hide Language, FirstFailure, CountWriteAcked, Ended, Stage;
    var n := HandleAck(m);
    var err := n.produced[|m.produced|].error;
    FailKeeps(m.(pending := None), err);
    assert n == Fail(m.(pending := None), err);
  }

  lemma MachineKeeps(m: Machine, e: Event)
    requires MachineInv(m)
    ensures var n := HandleSessionEvent(m, e);
            && MachineInv(n)
            && (m.state.Failed? ==> n.state.Failed?)
            && (!e.Ack? ==> Ended(n.produced) == Ended(m.produced) && (n.state == m.state || n.state.Failed?))
            && (e.Ack? && !Awaiting(m.state) ==> n == m.(pending := None))
            && (e.Ack? && Awaiting(m.state) ==> !Awaiting(n.state))
            && (e.Timeout? ==> n.state.Failed?)
  {
    hide MachineInv, HandleAck, HandleAsciiLine, PendingFits, Ended;
    FailKeeps(m, SessionFatalError);
    FailKeeps(m, SessionTimeout);
    match e
    case AsciiLine(line) => AsciiLineKeeps(m, line);
    case Ack(_) =>
      AckKeepsMachine(m);
      PendingOf(m);
      AckConsumed(m);
    case OutOfSync(expected, got) => FailKeeps(m, SessionOutOfSync(expected, got));
    case _ =>
  }

  lemma PendingOf(m: Machine)
    requires MachineInv(m)
    ensures PendingFits(m.state, m.requested, m.pending)
  {
  }

  lemma {:induction false} NoClosers(es: seq<Event>)
    requires Closers(es) == 0
    ensures NoTimeoutIn(es)
  {
    if es != [] {
      NoClosers(es[1..]);
    }
  }

  /** Reading one session event keeps machine and session coupled. */
  lemma EventKeeps(m: Machine, c: Core, start: nat)
    requires Coupled(m, c, start) && c.events != []
    ensures Coupled(HandleSessionEvent(m, c.events[0]), c.(events := c.events[1..]), start)
  {
    hide MachineInv, HandleSessionEvent, Ended, PendingFits;
    var e, d := c.events[0], c.(events := c.events[1..]);
    MachineKeeps(m, e);
    assert NoTimeoutIn(d.events) && !e.Timeout? ==> NoTimeoutIn(c.events);
    if e.Ack? && Awaiting(m.state) {
      NoClosers(d.events);
    }
  }

  lemma {:induction false} EventsKeep(m: Machine, c: Core, start: nat)
    requires Coupled(m, c, start)
    ensures Coupled(HandleEvents(m, c.events), c.(events := []), start)
    decreases |c.events|
  {
    hide Coupled, HandleSessionEvent;
    if c.events == [] {
      assert c.(events := []) == c;
    } else {
      EventKeeps(m, c, start);
      EventsKeep(HandleSessionEvent(m, c.events[0]), c.(events := c.events[1..]), start);
    }
  }

  /** Popping a file event keeps the rest a suffix of what was produced. */
  lemma PollKeeps(t: Transfer, start: nat)
    requires Coupled(t.machine, t.session.core, start)
    ensures var u := Poll(t).0;
            Coupled(u.machine, u.session.core, start) && Coupled(Drained(t).machine, u.session.core, start)
  {
    hide HandleEvents, Language, Stage, CountWriteAcked, PendingFits, FirstFailure, Ended;
    EventsKeep(t.machine, t.session.core, start);
  }

  // ----- Calls -----

  lemma AdvanceKeeps(m: Machine, c: Core, d: Core, start: nat)
    requires Coupled(m, c, start) && Advances(c, d)
    ensures Coupled(m, d, start)
  {
    hide MachineInv, Ended;
    assert NoTimeoutIn(d.events) ==> NoTimeoutIn(c.events) by {
      assert forall e :: e in c.events ==> e in d.events;
    }
  }

  /** The session effect of a request: one packet, dispatched at once. */
  lemma SubmitQuiet(c: Core, r: Request, now: int)
    requires Quiet(c) && Owed(c) == 0 && !r.isHandshake
    ensures var d := Submit(c, r, now);
            && Quiet(d) && Owed(d) == 1 && d.events == c.events
            && d.inFlight == Some(InFlight(c.sync, Wire(r, c.sync), now, now, false))
            && d.hist.resolved == c.hist.resolved
            && d.hist.enqueued == c.hist.enqueued + [r]
            && Tracks(c, d) && Tracks(d, c)
            && d.outbound == c.outbound + [Wire(r, c.sync)]
            && d.hist.emitted == c.hist.emitted + [Wire(r, c.sync)]
  {
    hide Wire;
  }

  /** A settled machine moves to the awaiting state of its next request. */
  lemma RequestMachine(m: Machine, n: Machine)
    requires MachineInv(m)
    requires n == m.(state := n.state, requested := n.requested, writes := n.writes)
    requires m.state.Idle? || n.requested == m.requested
    requires match m.state
             case Idle => n.state.AwaitingQueryReply? && n.writes == m.writes
             case Negotiated => n.state.AwaitingOpenReply? && n.writes == m.writes
             case Opened =>
               (n.state.AwaitingWriteAck? && n.writes == m.writes + 1)
               || ((n.state.AwaitingCloseReply? || n.state.AwaitingAbortReply?) && n.writes == m.writes)
             case _ => false
    ensures MachineInv(n)
  {
    hide Language, FirstFailure, CountWriteAcked, Ended;
  }

  lemma SendKeeps(m: Machine, n: Machine, c: Core, r: Request, now: int, start: nat)
    requires Coupled(m, c, start) && !r.isHandshake
    requires !Awaiting(m.state) && !m.state.Failed?
    requires MachineInv(n) && Awaiting(n.state)
    ensures Coupled(n, Submit(c, r, now), start)
  {
    hide Submit, MachineInv, Ended, Closers;
    SubmitQuiet(c, r, now);
    NotEnded(n);
  }

  lemma RequestKeeps(t: Transfer, call: Call, start: nat)
    requires Coupled(t.machine, t.session.core, start) && Callable(t, call)
    requires call.CallQuery? || call.CallOpen? || call.CallWrite? || call.CallClose? || call.CallAbort?
    ensures Coupled(Do(t, call).machine, Do(t, call).session.core, start)
  {
    hide Submit, MachineInv, Coupled;
    var m, c, n := t.machine, t.session.core, Do(t, call).machine;
    CoupledMachine(m, c, start);
    RequestMachine(m, n);
    match call
    case CallQuery(_, now) => SendKeeps(m, n, c, FileRequest(PT_QUERY, []), now, start);
    case CallOpen(name, dummy, now) =>
      SendKeeps(m, n, c, FileRequest(PT_OPEN, OpenPayload(m.negotiated, name, dummy)), now, start);
    case CallWrite(chunk, now) => SendKeeps(m, n, c, FileRequest(PT_WRITE, chunk), now, start);
    case CallClose(now) => SendKeeps(m, n, c, FileRequest(PT_CLOSE, []), now, start);
    case CallAbort(now) => SendKeeps(m, n, c, FileRequest(PT_ABORT, []), now, start);
  }

  lemma CoupledMachine(m: Machine, c: Core, start: nat)
    requires Coupled(m, c, start)
    ensures MachineInv(m)
  {
  }

  /** Every call keeps the coupling. */
  lemma CallKeeps(t: Transfer, call: Call, start: nat)
    requires Coupled(t.machine, t.session.core, start) && Callable(t, call)
    ensures Coupled(Do(t, call).machine, Do(t, call).session.core, start)
  {
    hide Coupled, Poll, Submit, Tick, AcceptLines, Lines, Rest, Advances;
    var c := t.session.core;
    match call
    case CallPollOutbound => OutboundIrrelevant(t.machine, c, Tail(c.outbound), start);
    case CallFeed(chunk, now) =>
      CoupledQuiet(t.machine, c, start);
      AcceptLinesAdvance(c, Lines(t.session.inbound + chunk), now);
      AdvanceKeeps(t.machine, c, Do(t, call).session.core, start);
    case CallTick(now) =>
      CoupledQuiet(t.machine, c, start);
      TickAdvances(c, now);
      AdvanceKeeps(t.machine, c, Tick(c, now), start);
    case CallPoll => PollKeeps(t, start);
    case _ => RequestKeeps(t, call, start);
  }

  lemma CoupledQuiet(m: Machine, c: Core, start: nat)
    requires Coupled(m, c, start)
    ensures Quiet(c)
  {
  }

  lemma OutboundIrrelevant(m: Machine, c: Core, outbound: seq<bytes>, start: nat)
    requires Coupled(m, c, start)
    ensures Coupled(m, c.(outbound := outbound), start)
  {
    hide MachineInv, Ended;
  }

  lemma SettledHasNoneInFlight(m: Machine, c: Core, start: nat)
    requires Coupled(m, c, start) && !Awaiting(m.state) && !m.state.Failed?
    ensures c.inFlight.None? && c.queued == []
  {
    hide MachineInv, Ended;
  }

  lemma NewMachineCoupled(c: Core)
    requires Quiet(c) && Owed(c) == 0
    ensures Coupled(NEW_MACHINE, c, |c.hist.resolved|)
  {
  }

  lemma {:induction false} CallsKeep(t: Transfer, calls: seq<Call>, start: nat)
    requires Coupled(t.machine, t.session.core, start)
    ensures Calls(t, calls).Some? ==>
              Coupled(Calls(t, calls).value.machine, Calls(t, calls).value.session.core, start)
    decreases |calls|
  {
    hide Coupled, Do;
    if calls != [] && Callable(t, calls[0]) {
      CallKeeps(t, calls[0], start);
      CallsKeep(Do(t, calls[0]), calls[1..], start);
    }
  }
}
