/** What the drive loops keep between the wire, the session and the machine. */
module UploadInvariants {
  import opened Prelude
  import opened Text
  import opened SessionSpec
  import opened SessionInvariants
  import opened TransferInvariants
  import opened TransferTheorems
  import opened UploadSpec
  import T = TransferSpec

  /** Everything pushed to outbound is on the wire after the trigger, or still waiting. */
  ghost predicate Flow(written: seq<bytes>, c: Core) {
    written + c.outbound == [TRIGGER] + c.hist.emitted
  }

  lemma FlowFlushed(written: seq<bytes>, c: Core)
    requires Flow(written, c)
    ensures Flow(written + c.outbound, c.(outbound := []))
  {
    assert (written + c.outbound) + [] == written + c.outbound;
  }

  lemma FlowTick(written: seq<bytes>, c: Core, now: int)
    requires Flow(written, c) && c.queued == []
    ensures Flow(written, Tick(c, now))
  {
    hide Wire, Recopied;
    if c.inFlight.Some? {
      FlowMore(written, c, c.inFlight.value.frame);
    }
  }

  lemma FlowMore(written: seq<bytes>, c: Core, f: bytes)
    requires Flow(written, c)
    ensures written + (c.outbound + [f]) == [TRIGGER] + (c.hist.emitted + [f])
  {
    assert written + (c.outbound + [f]) == (written + c.outbound) + [f];
    assert [TRIGGER] + (c.hist.emitted + [f]) == ([TRIGGER] + c.hist.emitted) + [f];
  }

  // ----- The handshake -----

  ghost predicate Unsynced(c: Core) {
    && !c.isSynced && c.inFlight.Some? && c.inFlight.value.isHandshake && c.hist.resolved == []
    && forall e :: e in c.events ==> !e.Ack? && !e.Timeout? && !e.Synced?
  }

  ghost predicate JustSynced(c: Core) {
    c.isSynced && c.inFlight.None? && c.hist.resolved == [Synchronized]
    && c.maxBlockSize.Some? && c.hist.handshakes >= 1
    && forall e :: e in c.events ==> !e.Ack? && !e.Timeout?
  }

  ghost predicate HasSynced(es: seq<Event>) {
    exists i :: 0 <= i < |es| && es[i].Synced?
  }

  ghost predicate GaveUp(c: Core) {
    c.events != [] && c.events[0].Timeout?
  }

  /** While only the handshake has been sent: waiting, answered, or given up with the news unread. */
  ghost predicate Handshaking(c: Core) {
    && c.hist.enqueued == [HANDSHAKE] && c.queued == []
    && (Unsynced(c) || (JustSynced(c) && HasSynced(c.events)) || GaveUp(c))
  }

  lemma HandshakeStarts(h: Host, now: int)
    requires h.core.hist == NO_HISTORY && h.core.queued == [] && h.core.events == [] && h.core.outbound == []
    requires !h.core.isSynced && h.core.inFlight.None?
    ensures var d := Submit(h.core, HANDSHAKE, now);
            Handshaking(d) && Flow([TRIGGER], d)
  {
    hide Wire;
  }

  lemma NoteKeepsHandshaking(c: Core, e: Event)
    requires Handshaking(c) && !e.Ack? && !e.Timeout? && !e.Synced?
    ensures Handshaking(Raise(c, e))
  {
    if HasSynced(c.events) {
      var i :| 0 <= i < |c.events| && c.events[i].Synced?;
      assert (c.events + [e])[i].Synced?;
    }
  }

  lemma SynchronizeKeepsHandshaking(c: Core, s: u16, m: u16, v: bytes, now: int)
    requires Handshaking(c)
    ensures Handshaking(Synchronize(c, s, m, v, now))
  {
    hide Wire;
    var e := Synced(m, v);
    assert (c.events + [e])[|c.events|] == e;
  }

  lemma OkKeepsHandshaking(c: Core, n: byte, now: int)
    requires Handshaking(c)
    ensures Handshaking(HandleOk(c, n, now))
  {
    hide Wire, Decimal;
    match c.inFlight
    case None => NoteKeepsHandshaking(c, AsciiLine(OK + Decimal(n)));
    case Some(f) => NoteKeepsHandshaking(c, OutOfSync(f.sync, n));
  }

  lemma LineKeepsHandshaking(c: Core, raw: bytes, now: int)
    requires Handshaking(c)
    ensures var d := AcceptLine(c, raw, now);
            Handshaking(d) && d.outbound == c.outbound && d.hist.emitted == c.hist.emitted
  {
    hide StripLineEndings, Classify, Wire, Unsynced, JustSynced, GaveUp, HasSynced;
    match Classify(StripLineEndings(raw))
    case OkLine(n) => OkKeepsHandshaking(c, n, now);
    case ResendLine(n) => NoteKeepsHandshaking(c, ResendRequested(n));
    case SyncLine(s, m, v) => SynchronizeKeepsHandshaking(c, s, m, v, now);
    case FatalLine => NoteKeepsHandshaking(c, FatalError);
    case TextLine(t) => NoteKeepsHandshaking(c, AsciiLine(t));
    case Ignored =>
  }

  lemma {:induction false} LinesKeepHandshaking(c: Core, lines: seq<bytes>, now: int)
    requires Handshaking(c)
    ensures var d := AcceptLines(c, lines, now);
            Handshaking(d) && d.outbound == c.outbound && d.hist.emitted == c.hist.emitted
    decreases |lines|
  {
    hide Handshaking, AcceptLine;
    if lines != [] {
      LineKeepsHandshaking(c, lines[0], now);
      LinesKeepHandshaking(AcceptLine(c, lines[0], now), lines[1..], now);
    }
  }

  /** Reading one event during the handshake. */
  lemma EventReadHandshaking(c: Core)
    requires Handshaking(c) && c.events != []
    ensures var e, d := c.events[0], c.(events := c.events[1..]);
            && (e.Synced? ==> JustSynced(d))
            && !e.Ack?
            && (!e.Synced? && !e.Timeout? ==> Handshaking(d))
  {
    var es := c.events;
    assert forall x :: x in es[1..] ==> x in es;
    if HasSynced(es) && !es[0].Synced? {
      var i :| 0 <= i < |es| && es[i].Synced?;
      assert es[1..][i - 1].Synced?;
    }
  }

  /** With every event read and no ss yet, a tick retransmits or gives up. */
  lemma TickHandshaking(c: Core, now: int)
    requires Handshaking(c) && c.events == []
    ensures Handshaking(Tick(c, now))
  {
    hide Wire, Recopied;
  }

  // ----- The transfer -----

  /** The part of the coupled state that survives a drive loop. */
  ghost predicate Carried(written: seq<bytes>, m: T.Machine, c: Core, start: nat) {
    Coupled(m, c, start) && Flow(written, c) && c.hist.resolved != [] && c.hist.resolved[0] == Synchronized
  }

  lemma FeedCarried(written: seq<bytes>, m: T.Machine, h: Host, start: nat, chunk: bytes, now: int)
    requires Carried(written, m, h.core, start)
    ensures var d := Feed(h, chunk, now).core;
            && Carried(written, m, d, start)
            && d.hist.enqueued == h.core.hist.enqueued && d.outbound == h.core.outbound && Tracks(h.core, d)
  {
    hide AcceptLines, Lines, Rest, MachineInv, Ended, Closers;
    AcceptLinesAdvance(h.core, Lines(h.inbound + chunk), now);
    AdvanceKeeps(m, h.core, Feed(h, chunk, now).core, start);
  }

  lemma TickCarried(written: seq<bytes>, m: T.Machine, c: Core, start: nat, now: int)
    requires Carried(written, m, c, start)
    ensures Carried(written, m, Tick(c, now), start) && Tick(c, now).hist.enqueued == c.hist.enqueued
    ensures Tracks(c, Tick(c, now))
  {
    hide Tick, MachineInv, Ended, Closers, Flow;
    TickAdvances(c, now);
    AdvanceKeeps(m, c, Tick(c, now), start);
    FlowTick(written, c, now);
  }

  lemma FlushCarried(written: seq<bytes>, m: T.Machine, c: Core, start: nat)
    requires Carried(written, m, c, start)
    ensures Carried(written + c.outbound, m, c.(outbound := []), start)
  {
    hide MachineInv, Ended, Closers;
    FlowFlushed(written, c);
    OutboundIrrelevant(m, c, [], start);
  }

  /** The settled state that follows an awaiting one. */
  function Settles(s: T.State): T.State {
    match s
    case AwaitingQueryReply => T.Negotiated
    case AwaitingOpenReply => T.Opened
    case AwaitingWriteAck => T.Opened
    case AwaitingCloseReply => T.Closed
    case AwaitingAbortReply => T.Aborted
    case _ => s
  }

  /** What one poll makes of a machine that had no events left over, and what it answers. */
  ghost predicate Polled(m: T.Machine, n: T.Machine, r: Option<T.FileEvent>) {
    && n.requested == m.requested
    && (!m.state.AwaitingQueryReply? ==> n.negotiated == m.negotiated)
    && (r.None? ==>
          n.state == m.state && n.outEvents == [] && n.produced == m.produced && n.negotiated == m.negotiated)
    && (Progressed(r) ==>
          && Expected(m.state, r.value)
          && (n.state == Settles(m.state) || n.state.Failed?)
          && (n.state.Failed? <==> n.outEvents != [])
          && CountWriteAcked(n.produced)
             == CountWriteAcked(m.produced) + (if m.state.AwaitingWriteAck? then 1 else 0)
          && (r.value.EvClosed? ==> Ended(n.produced))
          && (r.value.EvNegotiated? ==>
                n.negotiated == Some(r.value.compression) && T.Permits(n.requested, r.value.compression)))
  }

  /** An answer that is not a failure. */
  predicate Progressed(r: Option<T.FileEvent>) {
    r.Some? && !r.value.EvFailed?
  }

  /** What one poll answers while driving, with nothing left over from earlier polls. */
  lemma PollCarried(written: seq<bytes>, t: T.Transfer, start: nat)
    requires Carried(written, t.machine, t.session.core, start)
    requires t.machine.outEvents == [] && Awaiting(t.machine.state)
    ensures var (u, r) := T.Poll(t);
            && Carried(written, u.machine, u.session.core, start)
            && u.session.core.events == []
            && u.session.core.hist == t.session.core.hist && u.session.core.outbound == t.session.core.outbound
            && Tracks(t.session.core, u.session.core)
            && Polled(t.machine, u.machine, r)
  {
    hide MachineInv, Coupled, T.HandleEvents, Polled;
    CoupledMachine(t.machine, t.session.core, start);
    PollKeeps(t, start);
    CoupledMachine(T.Poll(t).0.machine, T.Poll(t).0.session.core, start);
    MachinePolled(t);
  }

  lemma MachinePolled(t: T.Transfer)
    requires MachineInv(t.machine) && t.machine.outEvents == [] && Awaiting(t.machine.state)
    requires MachineInv(T.Poll(t).0.machine)
    ensures var (u, r) := T.Poll(t); Polled(t.machine, u.machine, r)
  {
    hide MachineInv, T.HandleEvents, CountWriteAcked, Ended, T.Permits;
    var (u, r) := T.Poll(t);
    PollAnswer(t);
    ChoicesStay(t.machine, t.session.core.events);
    if Progressed(r) {
      CountAnswer(t.machine.produced, r.value, u.machine.outEvents);
      assert r.value in u.machine.produced;
      AnswerMeaning(u.machine, r.value);
    }
  }

  lemma CountAnswer(w: seq<T.FileEvent>, e: T.FileEvent, rest: seq<T.FileEvent>)
    requires AllFailures(rest)
    ensures CountWriteAcked(w + [e] + rest) == CountWriteAcked(w) + if e.EvWriteAcked? then 1 else 0
  {
    hide CountWriteAcked;
    CountWriteAckedSnoc(w, e);
    CountFailures(w + [e], rest);
  }

  lemma {:induction false} CountFailures(w: seq<T.FileEvent>, rest: seq<T.FileEvent>)
    requires AllFailures(rest)
    ensures CountWriteAcked(w + rest) == CountWriteAcked(w)
  {
    if rest == [] {
      assert w + rest == w;
    } else {
      var k := |rest| - 1;
      assert rest[k] in rest;
      assert (w + rest)[..|w + rest| - 1] == w + rest[..k];
      CountFailures(w, rest[..k]);
    }
  }

  lemma {:induction false} ChoicesStay(m: T.Machine, es: seq<Event>)
    ensures T.HandleEvents(m, es).requested == m.requested
    ensures !m.state.AwaitingQueryReply? ==> T.HandleEvents(m, es).negotiated == m.negotiated
    ensures T.HandleEvents(m, es).produced == m.produced ==> T.HandleEvents(m, es).negotiated == m.negotiated
    decreases |es|
  {
    hide T.HandleSessionEvent;
    if es != [] {
      var n := T.HandleSessionEvent(m, es[0]);
      EventKeepsChoices(m, es[0]);
      ChoicesStay(n, es[1..]);
      ProducedGrows(n, es[1..]);
    }
  }

  lemma {:induction false} ProducedGrows(m: T.Machine, es: seq<Event>)
    ensures |m.produced| <= |T.HandleEvents(m, es).produced|
    ensures |m.produced| == |T.HandleEvents(m, es).produced| ==> T.HandleEvents(m, es).produced == m.produced
    decreases |es|
  {
    hide T.HandleSessionEvent;
    if es != [] {
      EventKeepsChoices(m, es[0]);
      ProducedGrows(T.HandleSessionEvent(m, es[0]), es[1..]);
    }
  }

  lemma EventKeepsChoices(m: T.Machine, e: Event)
    ensures var n := T.HandleSessionEvent(m, e);
            && n.requested == m.requested
            && (!m.state.AwaitingQueryReply? ==> n.negotiated == m.negotiated && !n.state.AwaitingQueryReply?)
            && (n.produced == m.produced ==> n.negotiated == m.negotiated)
            && (n.produced == m.produced || |n.produced| == |m.produced| + 1)
  {
    hide T.HandleAsciiLine;
    if e.AsciiLine? {
      LineKeepsRequest(m, e.text);
    }
  }

  lemma LineKeepsRequest(m: T.Machine, line: bytes)
    ensures var n := T.HandleAsciiLine(m, line);
            n == m.(pending := n.pending, advertisedVersion := n.advertisedVersion)
  {
    hide SplitOnce, T.ParseCompression;
  }

  /** The Ended and Negotiated facts a matched answer carries. */
  lemma AnswerMeaning(m: T.Machine, e: T.FileEvent)
    requires MachineInv(m) && e in m.produced
    ensures e.EvClosed? ==> Ended(m.produced)
    ensures e.EvNegotiated? ==> m.negotiated == Some(e.compression) && T.Permits(m.requested, e.compression)
  {
    hide Language, CountWriteAcked, FirstFailure, Stage;
  }

  lemma SubmitFlow(written: seq<bytes>, c: Core, r: Request, now: int)
    requires Flow(written, c) && Quiet(c) && Owed(c) == 0 && !r.isHandshake
    ensures Flow(written, Submit(c, r, now))
  {
    hide Wire;
    SubmitQuiet(c, r, now);
    FlowMore(written, c, Wire(r, c.sync));
  }

  /** A request of the machine, seen from the wire. */
  lemma RequestCarried(written: seq<bytes>, t: T.Transfer, call: T.Call, r: Request, start: nat)
    requires Carried(written, t.machine, t.session.core, start) && T.Callable(t, call)
    requires match call
             case CallQuery(_, _) => r == T.FileRequest(T.PT_QUERY, [])
             case CallOpen(name, dummy, _) =>
               r == T.FileRequest(T.PT_OPEN, T.OpenPayload(t.machine.negotiated, name, dummy))
             case CallWrite(chunk, _) => r == T.FileRequest(T.PT_WRITE, chunk)
             case CallClose(_) => r == T.FileRequest(T.PT_CLOSE, [])
             case _ => false
    ensures var u := T.Do(t, call);
            && Carried(written, u.machine, u.session.core, start)
            && u.session.core.hist.enqueued == t.session.core.hist.enqueued + [r]
            && u.machine.outEvents == t.machine.outEvents && u.machine.negotiated == t.machine.negotiated
            && Awaiting(u.machine.state) && Tracks(t.session.core, u.session.core)
  {
    hide Submit, Coupled, Flow;
    RequestKeeps(t, call, start);
    SettledOwesNothing(t.machine, t.session.core, start);
    SubmitFlow(written, t.session.core, r, call.now);
    SubmitQuiet(t.session.core, r, call.now);
  }

  lemma SettledOwesNothing(m: T.Machine, c: Core, start: nat)
    requires Coupled(m, c, start) && !Awaiting(m.state) && !m.state.Failed?
    ensures Quiet(c) && Owed(c) == 0
  {
  }

  // ----- The control CLOSE -----

  /** The session alone, with its last request outstanding. */
  ghost predicate Closing(written: seq<bytes>, c: Core) {
    && Quiet(c) && Owed(c) == 1 && Flow(written, c)
    && c.hist.resolved != [] && c.hist.resolved[0] == Synchronized
    && (NoTimeoutIn(c.events) ==> NoneTimedOut(c.hist.resolved, 1))
  }

  lemma ClosingStarts(written: seq<bytes>, m: T.Machine, c: Core, now: int)
    requires Carried(written, m, c, 1) && Ended(m.produced) && c.events == []
    ensures var d := Submit(c, CONTROL_CLOSE, now);
            Closing(written, d) && d.hist.enqueued == c.hist.enqueued + [CONTROL_CLOSE] && Tracks(c, d)
  {
    hide Submit, MachineInv, Ended, Flow, Closers;
    SubmitFlow(written, c, CONTROL_CLOSE, now);
    SubmitQuiet(c, CONTROL_CLOSE, now);
  }

  lemma ClosingAdvances(written: seq<bytes>, c: Core, d: Core)
    requires Closing(written, c) && Advances(c, d) && Flow(written, d)
    ensures Closing(written, d) && d.hist.enqueued == c.hist.enqueued
  {
    hide Closers, Flow;
    assert NoTimeoutIn(d.events) ==> NoTimeoutIn(c.events) by {
      assert forall e :: e in c.events ==> e in d.events;
    }
  }

  lemma AdvancesTracks(c: Core, d: Core)
    requires Advances(c, d)
    ensures Tracks(c, d)
  {
  }

  lemma FeedClosing(written: seq<bytes>, h: Host, chunk: bytes, now: int)
    requires Closing(written, h.core)
    ensures var d := Feed(h, chunk, now).core;
            Closing(written, d) && d.hist.enqueued == h.core.hist.enqueued && d.outbound == h.core.outbound
            && Tracks(h.core, d)
  {
    hide AcceptLines, Lines, Rest, Closers, Advances;
    AcceptLinesAdvance(h.core, Lines(h.inbound + chunk), now);
    ClosingAdvances(written, h.core, Feed(h, chunk, now).core);
    AdvancesTracks(h.core, Feed(h, chunk, now).core);
  }

  lemma TickClosing(written: seq<bytes>, c: Core, now: int)
    requires Closing(written, c)
    ensures Closing(written, Tick(c, now)) && Tick(c, now).hist.enqueued == c.hist.enqueued
    ensures Tracks(c, Tick(c, now))
  {
    hide Tick, Closers, Advances, Flow;
    TickAdvances(c, now);
    FlowTick(written, c, now);
    ClosingAdvances(written, c, Tick(c, now));
    AdvancesTracks(c, Tick(c, now));
  }

  lemma EventReadClosing(written: seq<bytes>, c: Core)
    requires Closing(written, c) && c.events != []
    ensures var e, d := c.events[0], c.(events := c.events[1..]);
            && (!e.Ack? && !e.Timeout? ==> Closing(written, d))
            && (e.Ack? ==> d.inFlight.None? && d.queued == [] && Flow(written, d)
                           && d.hist.resolved != [] && d.hist.resolved[0] == Synchronized && NoneTimedOut(d.hist.resolved, 1))
  {
    var es := c.events;
    assert forall x :: x in es ==> x == es[0] || x in es[1..];
    if es[0].Ack? {
      NoClosers(es[1..]);
    }
  }

  /** Everything written, every packet settled: the promised trace. */
  lemma TraceComplete(written: seq<bytes>, c: Core, plan: seq<Request>)
    requires Inv(c) && Flow(written, c) && c.outbound == [] && c.inFlight.None? && c.queued == []
    requires c.hist.enqueued == plan && c.hist.resolved != [] && c.hist.resolved[0] == Synchronized
    requires NoneTimedOut(c.hist.resolved, 1)
    requires forall i :: 1 <= i < |plan| ==> !plan[i].isHandshake
    ensures Delivered(written, c, plan)
  {
    hide Wire, Expand, Numbered, CountAcks, Timers, Settled, WithoutHandshakes;
    var h := c.hist;
    assert Requests(h.dispatched) + [] == Requests(h.dispatched);
    assert written + [] == written;
    forall i | 1 <= i < |plan|
      ensures h.resolved[i].Acked?
    {
      assert Fits(h.resolved[i], h.dispatched[i]) && h.dispatched[i].request == plan[i];
    }
  }
}
