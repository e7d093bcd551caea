/** The file-transfer promises over every sequence of calls. */
module TransferTheorems {
  import opened Prelude
  import opened Text
  import opened SessionSpec
  import opened TransferSpec
  import opened TransferInvariants

  /** A state reached from a new machine over a synced, idle session that owes no Ack or Timeout. */
  ghost predicate Reaches(h: Host, calls: seq<Call>, t: Transfer) {
    Quiet(h.core) && Owed(h.core) == 0 && Calls(Transfer(NEW_MACHINE, h), calls) == Some(t)
  }

  lemma ReachesCoupled(h: Host, calls: seq<Call>, t: Transfer)
    requires Reaches(h, calls, t)
    ensures Coupled(t.machine, t.session.core, |h.core.hist.resolved|)
  {
    hide Coupled, Calls;
    NewMachineCoupled(h.core);
    CallsKeep(Transfer(NEW_MACHINE, h), calls, |h.core.hist.resolved|);
  }

  /**
   * Coupling: whatever the calls, bytes and times, nothing ever waits behind
   * the packet in flight; an awaiting machine has exactly one request outstanding,
   * in flight or with its single Ack or Timeout unread; a settled one has none.
   */
  lemma OneOutstandingRequest(h: Host, calls: seq<Call>, t: Transfer)
    requires Reaches(h, calls, t)
    ensures var s, c := t.machine.state, t.session.core;
            && c.queued == []
            && (Awaiting(s) ==>
                  ((c.inFlight.Some? && Closers(c.events) == 0) || (c.inFlight.None? && Closers(c.events) == 1)))
            && (!Awaiting(s) && !s.Failed? ==> c.inFlight.None? && Closers(c.events) == 0)
            && (Ended(t.machine.produced) ==> c.inFlight.None? && Closers(c.events) == 0)
  {
    hide MachineInv, Calls;
    ReachesCoupled(h, calls, t);
  }

  /**
   * The events produced are a prefix of Negotiated, Opened, WriteAcked*, then
   * Closed or AbortAcked, possibly cut short and then only failures; there is at
   * most one WriteAcked per write and at most one write without it.
   */
  lemma EventLanguage(h: Host, calls: seq<Call>, t: Transfer)
    requires Reaches(h, calls, t)
    ensures Language(t.machine.produced)
    ensures t.machine.state.Failed? <==> FirstFailure(t.machine.produced) < |t.machine.produced|
    ensures CountWriteAcked(t.machine.produced) <= t.machine.writes <= CountWriteAcked(t.machine.produced) + 1
  {
    hide Calls, CountWriteAcked;
    ReachesCoupled(h, calls, t);
    var w := t.machine.produced;
    assert t.machine.state.Failed? ==> w[|w| - 1].EvFailed?;
  }

  lemma {:induction false} FailedEvents(m: Machine, es: seq<Event>)
    requires m.state.Failed?
    ensures HandleEvents(m, es).state.Failed?
    decreases |es|
  {
    hide HandleAsciiLine;
    if es != [] {
      if es[0].AsciiLine? {
        AsciiLineOnlyPending(m.(pending := None), es[0].text);
        AsciiState(m, es[0].text);
      }
      FailedEvents(HandleSessionEvent(m, es[0]), es[1..]);
    }
  }

  lemma AsciiState(m: Machine, line: bytes)
    ensures HandleAsciiLine(m, line).state == m.state
  {
    hide SplitOnce, ParseCompression;
  }

  /** Failure is final. */
  lemma {:induction false} FailedAbsorbs(t: Transfer, calls: seq<Call>)
    requires t.machine.state.Failed? && Calls(t, calls).Some?
    ensures Calls(t, calls).value.machine.state.Failed?
    decreases |calls|
  {
    hide HandleEvents, Feed, Tick;
    if calls != [] {
      if calls[0].CallPoll? {
        FailedEvents(t.machine, t.session.core.events);
      }
      FailedAbsorbs(Do(t, calls[0]), calls[1..]);
    }
  }

  // ----- What one poll can answer -----

  /** The settled state a progress event announces. */
  function Announced(e: FileEvent): State
    requires !e.EvFailed?
  {
    match e
    case EvNegotiated(_, _) => Negotiated
    case EvOpened => Opened
    case EvWriteAcked => Opened
    case EvClosed => Closed
    case EvAbortAcked => Aborted
  }

  /** The progress event that ends an awaiting state. */
  predicate Expected(s: State, e: FileEvent) {
    match s
    case AwaitingQueryReply => e.EvNegotiated?
    case AwaitingOpenReply => e.EvOpened?
    case AwaitingWriteAck => e.EvWriteAcked?
    case AwaitingCloseReply => e.EvClosed?
    case AwaitingAbortReply => e.EvAbortAcked?
    case _ => false
  }

  ghost predicate AllFailures(w: seq<FileEvent>) {
    forall e :: e in w ==> e.EvFailed?
  }

  /** The events x that a machine in state s produced, and the state n it ended in. */
  ghost predicate PollShape(s: State, x: seq<FileEvent>, n: State) {
    if x == [] then n == s
    else if x[0].EvFailed? then n.Failed? && AllFailures(x)
    else Awaiting(s) && Expected(s, x[0]) && AllFailures(x[1..]) && n == if |x| == 1 then Announced(x[0]) else Failed
  }

  lemma OneEventShape(m: Machine, e: Event)
    requires MachineInv(m)
    ensures var n := HandleSessionEvent(m, e);
            || (n.state == m.state && n.produced == m.produced && n.outEvents == m.outEvents)
            || (exists x :: n.produced == m.produced + [x] && n.outEvents == m.outEvents + [x]
                            && PollShape(m.state, [x], n.state))
  {
    hide Language, Stage, CountWriteAcked, FirstFailure, HandleAsciiLine;
    match e
    case AsciiLine(line) => AsciiLineKeeps(m, line);
    case Ack(_) =>
      AckConsumed(m);
      if Awaiting(m.state) {
        AckShape(m);
      }
    case FatalError => FailShape(m, SessionFatalError);
    case OutOfSync(expected, got) => FailShape(m, SessionOutOfSync(expected, got));
    case Timeout(_) => FailShape(m, SessionTimeout);
    case _ =>
  }

  lemma FailShape(m: Machine, err: FileError)
    ensures var n, x := Fail(m, err), EvFailed(err);
            n.produced == m.produced + [x] && n.outEvents == m.outEvents + [x] && PollShape(m.state, [x], n.state)
  {
  }

  lemma AckShape(m: Machine)
    requires PendingFits(m.state, m.requested, m.pending) && Awaiting(m.state)
    ensures var n := HandleAck(m);
            exists x :: n.produced == m.produced + [x] && n.outEvents == m.outEvents + [x]
                        && PollShape(m.state, [x], n.state)
  {
    var n := HandleAck(m);
    var x := n.produced[|m.produced|];
    assert n.produced == m.produced + [x] && n.outEvents == m.outEvents + [x];
    assert [x][1..] == [];
    assert PollShape(m.state, [x], n.state);
  }

  lemma ShapeThen(s: State, x: FileEvent, mid: State, y: seq<FileEvent>, n: State)
    requires PollShape(s, [x], mid) && PollShape(mid, y, n)
    ensures PollShape(s, [x] + y, n)
  {
    assert ([x] + y)[1..] == y;
  }

  lemma {:induction false} HandleEventsShape(m: Machine, es: seq<Event>) returns (x: seq<FileEvent>)
    requires MachineInv(m)
    ensures var n := HandleEvents(m, es);
            MachineInv(n) && n.produced == m.produced + x && n.outEvents == m.outEvents + x
            && PollShape(m.state, x, n.state)
    decreases |es|
  {
    hide MachineInv, HandleSessionEvent, PollShape;
    if es == [] {
      x := [];
      NothingHappened(m.state);
    } else {
      var mid := HandleSessionEvent(m, es[0]);
      MachineKeeps(m, es[0]);
      OneEventShape(m, es[0]);
      var y := HandleEventsShape(mid, es[1..]);
      if mid.produced == m.produced {
        x := y;
      } else {
        var e :| mid.produced == m.produced + [e] && mid.outEvents == m.outEvents + [e]
                 && PollShape(m.state, [e], mid.state);
        x := [e] + y;
        ShapeThen(m.state, e, mid.state, y, HandleEvents(m, es).state);
      }
    }
  }

  lemma NothingHappened(s: State)
    ensures PollShape(s, [], s)
  {
  }

  /**
   * A poll swallows no Ack: whatever it has read before, an Ack met in an
   * awaiting state yields exactly one file event and leaves that state, and no
   * stray text is pending when the state is AwaitingWriteAck; met in any other
   * state it changes nothing but the pending text.
   */
  lemma NoAckSwallowed(h: Host, calls: seq<Call>, t: Transfer, k: nat)
    requires Reaches(h, calls, t)
    requires k < |t.session.core.events| && t.session.core.events[k].Ack?
    ensures var es := t.session.core.events;
            var m, n := HandleEvents(t.machine, es[..k]), HandleEvents(t.machine, es[..k + 1]);
            && (Awaiting(m.state) ==>
                  && !Awaiting(n.state) && n.pending.None?
                  && exists e :: n.produced == m.produced + [e] && n.outEvents == m.outEvents + [e])
            && (m.state.AwaitingWriteAck? ==> m.pending.None? && n.state.Opened?)
            && (!Awaiting(m.state) ==> n == m.(pending := None))
  {
    hide Calls, Coupled, Reaches, HandleEvents, MachineInv;
    ReachesCoupled(h, calls, t);
    CoupledMachine(t.machine, t.session.core, |h.core.hist.resolved|);
    AckAmong(t.machine, t.session.core.events, k);
  }

  lemma AckAmong(m0: Machine, es: seq<Event>, k: nat)
    requires MachineInv(m0) && k < |es| && es[k].Ack?
    ensures var m, n := HandleEvents(m0, es[..k]), HandleEvents(m0, es[..k + 1]);
            && (Awaiting(m.state) ==>
                  && !Awaiting(n.state) && n.pending.None?
                  && exists e :: n.produced == m.produced + [e] && n.outEvents == m.outEvents + [e])
            && (m.state.AwaitingWriteAck? ==> m.pending.None? && n.state.Opened?)
            && (!Awaiting(m.state) ==> n == m.(pending := None))
  {
    hide HandleAck, HandleEvents, MachineInv, PendingFits, PollShape;
    var m := HandleEvents(m0, es[..k]);
    var _ := HandleEventsShape(m0, es[..k]);
    PendingOf(m);
    assert es[..k + 1] == es[..k] + [es[k]];
    EventsAppend(m0, es[..k], [es[k]]);
    OneMoreEvent(m, es[k]);
    AckLeaves(m);
  }

  lemma AckLeaves(m: Machine)
    requires PendingFits(m.state, m.requested, m.pending)
    ensures var n := HandleAck(m);
            && (Awaiting(m.state) ==>
                  && !Awaiting(n.state) && n.pending.None?
                  && exists e :: n.produced == m.produced + [e] && n.outEvents == m.outEvents + [e])
            && (m.state.AwaitingWriteAck? ==> m.pending.None? && n.state.Opened?)
            && (!Awaiting(m.state) ==> n == m.(pending := None))
  {
    hide HandleAck, PendingFits;
    AckConsumed(m);
    var n := HandleAck(m);
    if Awaiting(m.state) {
      var e := n.produced[|m.produced|];
      assert n.produced == n.produced[..|m.produced|] + [e];
    }
  }

  lemma {:induction false} EventsAppend(m: Machine, xs: seq<Event>, ys: seq<Event>)
    ensures HandleEvents(m, xs + ys) == HandleEvents(HandleEvents(m, xs), ys)
    decreases |xs|
  {
    hide HandleSessionEvent;
    if xs == [] {
      assert xs + ys == ys;
    } else {
      assert (xs + ys)[1..] == xs[1..] + ys;
      EventsAppend(HandleSessionEvent(m, xs[0]), xs[1..], ys);
    }
  }

  lemma OneMoreEvent(m: Machine, e: Event)
    ensures HandleEvents(m, [e]) == HandleSessionEvent(m, e)
  {
    hide HandleSessionEvent;
    var one := [e];
    assert one[1..] == [];
  }

  // ----- When a failure hides behind the answer -----

  /** The first Ack of a list of events. */
  function FirstAck(es: seq<Event>): (k: nat)
    ensures k <= |es|
    ensures k < |es| ==> es[k].Ack?
    ensures forall i :: 0 <= i < k ==> !es[i].Ack?
  {
    if es == [] || es[0].Ack? then 0 else 1 + FirstAck(es[1..])
  }

  /** The session events that fail a transfer. */
  predicate Breaks(e: Event) {
    e.FatalError? || e.OutOfSync? || e.Timeout?
  }

  ghost predicate BreaksAmong(es: seq<Event>) {
    exists j :: 0 <= j < |es| && Breaks(es[j])
  }

  lemma BreaksCons(es: seq<Event>)
    requires es != []
    ensures BreaksAmong(es) <==> Breaks(es[0]) || BreaksAmong(es[1..])
  {
    if BreaksAmong(es) && !Breaks(es[0]) {
      var j :| 0 <= j < |es| && Breaks(es[j]);
      assert es[1..][j - 1] == es[j];
    }
  }

  lemma EventEffect(m: Machine, e: Event)
    requires MachineInv(m)
    ensures var n := HandleSessionEvent(m, e);
            && MachineInv(n)
            && (Breaks(e) ==> n.state.Failed? && |n.produced| > |m.produced| && n.produced[|m.produced|].EvFailed?)
            && (!Breaks(e) && (e.Ack? ==> !Awaiting(m.state)) ==> n.state == m.state && n.produced == m.produced)
            && (e.Ack? && Awaiting(m.state) ==>
                  && !Awaiting(n.state) && |n.produced| > |m.produced|
                  && (n.state.Failed? <==> n.produced[|m.produced|].EvFailed?))
  {
    hide MachineInv, HandleAsciiLine, HandleAck;
    MachineKeeps(m, e);
    PendingOf(m);
    match e
    case AsciiLine(line) => AsciiLineKeeps(m, line);
    case Ack(_) =>
      AckConsumed(m);
      if Awaiting(m.state) {
        AckOutcome(m);
      }
    case _ =>
  }

  lemma AckOutcome(m: Machine)
    requires PendingFits(m.state, m.requested, m.pending) && Awaiting(m.state)
    ensures var n := HandleAck(m);
            |n.produced| > |m.produced| && (n.state.Failed? <==> n.produced[|m.produced|].EvFailed?)
  {
  }

  /** A settled machine fails exactly when a breaking event follows. */
  lemma {:induction false} SettledBreaks(m: Machine, es: seq<Event>)
    requires MachineInv(m) && !Awaiting(m.state) && !m.state.Failed?
    ensures HandleEvents(m, es).state.Failed? <==> BreaksAmong(es)
    decreases |es|
  {
    hide MachineInv, HandleSessionEvent, Breaks, BreaksAmong;
    if es == [] {
      NothingBreaks();
    } else {
      EventEffect(m, es[0]);
      BreaksCons(es);
      if Breaks(es[0]) {
        FailedEvents(HandleSessionEvent(m, es[0]), es[1..]);
      } else {
        SettledBreaks(HandleSessionEvent(m, es[0]), es[1..]);
      }
    }
  }

  lemma NothingBreaks()
    ensures !BreaksAmong([])
  {
  }

  /** What was produced stays. */
  lemma ProducedStays(m: Machine, es: seq<Event>)
    requires MachineInv(m)
    ensures m.produced <= HandleEvents(m, es).produced
  {
    hide MachineInv, HandleEvents;
    var _ := HandleEventsShape(m, es);
  }

  /**
   * An awaiting machine whose next file event is not a failure got it from the
   * first Ack, with nothing breaking before; it ends failed exactly when
   * something breaks after.
   */
  lemma {:induction false} AwaitingBreaks(m: Machine, es: seq<Event>)
    requires MachineInv(m) && Awaiting(m.state)
    requires |HandleEvents(m, es).produced| > |m.produced|
    requires !HandleEvents(m, es).produced[|m.produced|].EvFailed?
    ensures var k := FirstAck(es);
            && k < |es| && !BreaksAmong(es[..k])
            && (HandleEvents(m, es).state.Failed? <==> BreaksAmong(es[k + 1..]))
    decreases |es|
  {
    hide MachineInv, HandleSessionEvent, Breaks, BreaksAmong;
    if es != [] {
      var n := HandleSessionEvent(m, es[0]);
      EventEffect(m, es[0]);
      ProducedStays(n, es[1..]);
      if es[0].Ack? {
        NothingBreaks();
        AckIsNoBreak(es[0]);
        SettledBreaks(n, es[1..]);
      } else {
        AwaitingBreaks(n, es[1..]);
        var k := FirstAck(es[1..]);
        assert es[..k + 1][1..] == es[1..][..k] && es[1..][k + 1..] == es[k + 2..];
        BreaksCons(es[..k + 1]);
      }
    }
  }

  lemma AckIsNoBreak(e: Event)
    ensures e.Ack? ==> !Breaks(e)
  {
  }

  /**
   * What a poll answers, and what it leaves. A progress answer is the awaited
   * one. The events read by the poll decide whether the announced state is
   * reached: the answer comes from the first Ack among them, and the machine has
   * failed behind it if and only if a fatal error, an out-of-sync or a timeout
   * event follows that Ack.
   */
  lemma PollAnswer(t: Transfer)
    requires MachineInv(t.machine) && t.machine.outEvents == []
    ensures var (u, r) := Poll(t);
            var es := t.session.core.events;
            && (r.None? ==>
                  && u.machine.state == t.machine.state
                  && u.machine.outEvents == []
                  && u.machine.produced == t.machine.produced)
            && (r.Some? && r.value.EvFailed? ==> u.machine.state.Failed?)
            && (r.Some? && !r.value.EvFailed? ==>
                  && Awaiting(t.machine.state) && Expected(t.machine.state, r.value)
                  && FirstAck(es) < |es| && !BreaksAmong(es[..FirstAck(es)])
                  && (u.machine.state.Failed? <==> BreaksAmong(es[FirstAck(es) + 1..]))
                  && (!u.machine.state.Failed? <==> u.machine.state == Announced(r.value))
                  && (u.machine.state.Failed? <==> u.machine.outEvents != [])
                  && AllFailures(u.machine.outEvents)
                  && u.machine.produced == t.machine.produced + [r.value] + u.machine.outEvents)
  {
    hide HandleEvents, MachineInv, BreaksAmong, AllFailures, Expected, FirstAck, Awaiting;
    var x := HandleEventsShape(t.machine, t.session.core.events);
    if x != [] {
      assert x == [x[0]] + x[1..];
      assert Poll(t).0.machine.outEvents == x[1..];
      if !x[0].EvFailed? {
        AwaitingBreaks(t.machine, t.session.core.events);
      }
    }
  }
}
