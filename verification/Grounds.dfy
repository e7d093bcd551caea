/**
 * What each answer of the file transfer rests on: the session events read since
 * the request, judged by the last result line among them.
 */
module Grounds {
  import opened Prelude
  import opened Text
  import opened SessionSpec
  import opened TransferSpec
  import opened TransferInvariants
  import opened TransferTheorems
  import opened Journal

  /** The session events read by the polls since the last request. */
  function ReadSince(start: Transfer, calls: seq<Call>): seq<Event>
    decreases |calls|
  {
    if calls == [] || IsRequest(calls[|calls| - 1]) then []
    else
      var front := calls[..|calls| - 1];
      ReadSince(start, front)
      + if calls[|calls| - 1].CallPoll? && Calls(start, front).Some? then
          Calls(start, front).value.session.core.events
        else []
  }

  /** The compression the last query asked for. */
  function AskedFor(calls: seq<Call>): Compression {
    if calls == [] then NoCompression
    else if calls[|calls| - 1].CallQuery? then calls[|calls| - 1].compression
    else AskedFor(calls[..|calls| - 1])
  }

  /** The result lines of each request; every other line is chatter to it. */
  predicate IsResult(s: State, line: bytes) {
    match s
    case AwaitingQueryReply => PFT_VERSION <= line && COLON in line[|PFT_VERSION|..]
    case AwaitingOpenReply => line == PFT_SUCCESS || line == PFT_BUSY || line == PFT_FAIL
    case AwaitingCloseReply => line == PFT_SUCCESS || line == PFT_IOERROR || line == PFT_INVALID
    case AwaitingAbortReply => line == PFT_SUCCESS
    case _ => false
  }

  /** The last result line among the events. */
  function Said(s: State, es: seq<Event>): Option<bytes> {
    if es == [] then None
    else
      var e := es[|es| - 1];
      if e.AsciiLine? && IsResult(s, e.text) then Some(e.text) else Said(s, es[..|es| - 1])
  }

  /** The first event that decides a request. */
  function FirstEnd(es: seq<Event>): (k: nat)
    ensures k <= |es|
    ensures k < |es| ==> es[k].Ack? || Breaks(es[k])
    ensures forall i :: 0 <= i < k ==> !es[i].Ack? && !Breaks(es[i])
  {
    if es == [] || es[0].Ack? || Breaks(es[0]) then 0 else 1 + FirstEnd(es[1..])
  }

  /** What a result line and the ok after it amount to. */
  function ByResult(s: State, asked: Compression, line: bytes): FileEvent
    requires IsResult(s, line)
  {
    match s
    case AwaitingQueryReply =>
      var (version, spec) := SplitOnce(line[|PFT_VERSION|..], COLON).value;
      (match ChooseCompression(asked, ParseCompression(spec))
       case Success(chosen) => EvNegotiated(version, chosen)
       case Failure(err) => EvFailed(err))
    case AwaitingOpenReply =>
      if line == PFT_SUCCESS then EvOpened
      else if line == PFT_BUSY then EvFailed(OpenBusy) else EvFailed(OpenFail)
    case AwaitingCloseReply =>
      if line == PFT_SUCCESS then EvClosed
      else if line == PFT_IOERROR then EvFailed(IoError) else EvFailed(NoOpenFile)
    case _ => EvAbortAcked
  }

  /** What a request comes to: the event that decides it, and for an ok the result line said before. */
  function Verdict(s: State, asked: Compression, said: Option<bytes>, end: Event): FileEvent
    requires said.Some? ==> IsResult(s, said.value)
  {
    match end
    case FatalError => EvFailed(SessionFatalError)
    case OutOfSync(expected, got) => EvFailed(SessionOutOfSync(expected, got))
    case Timeout(_) => EvFailed(SessionTimeout)
    case _ =>
      if s.AwaitingWriteAck? then EvWriteAcked
      else if said.None? then EvFailed(ProtocolViolation(s))
      else ByResult(s, asked, said.value)
  }

  lemma {:induction false} SaidIsResult(s: State, es: seq<Event>)
    ensures Said(s, es).Some? ==> IsResult(s, Said(s, es).value)
  {
    if es != [] {
      SaidIsResult(s, es[..|es| - 1]);
    }
  }

  lemma SaidSnoc(s: State, es: seq<Event>, e: Event)
    ensures Said(s, es + [e]) == if e.AsciiLine? && IsResult(s, e.text) then Some(e.text) else Said(s, es)
  {
    hide IsResult;
    assert (es + [e])[..|es|] == es;
  }

  // ----- The machine keeps to the last result line -----

  /** What the machine holds pending after a result line. */
  function Meaning(s: State, asked: Compression, said: Option<bytes>): Option<Pending> {
    if said.None? || !IsResult(s, said.value) then None
    else
      var line := said.value;
      match s
      case AwaitingQueryReply =>
        var (version, spec) := SplitOnce(line[|PFT_VERSION|..], COLON).value;
        Some(VersionPending(asked, ParseCompression(spec), version))
      case AwaitingOpenReply =>
        Some(if line == PFT_SUCCESS then OpenSuccess else if line == PFT_BUSY then OpenBusyReply else OpenFailReply)
      case AwaitingCloseReply =>
        Some(if line == PFT_SUCCESS then CloseSuccess else if line == PFT_IOERROR then CloseIoError else CloseInvalid)
      case _ => Some(AbortSuccess)
  }

  lemma ResultsApart()
    ensures !(PFT_VERSION <= PFT_SUCCESS) && !(PFT_VERSION <= PFT_BUSY) && !(PFT_VERSION <= PFT_FAIL)
    ensures !(PFT_VERSION <= PFT_IOERROR) && !(PFT_VERSION <= PFT_INVALID)
    ensures PFT_SUCCESS != PFT_BUSY && PFT_SUCCESS != PFT_FAIL && PFT_BUSY != PFT_FAIL
    ensures PFT_IOERROR != PFT_SUCCESS && PFT_IOERROR != PFT_BUSY && PFT_IOERROR != PFT_FAIL
    ensures PFT_INVALID != PFT_SUCCESS && PFT_INVALID != PFT_BUSY && PFT_INVALID != PFT_FAIL
    ensures PFT_INVALID != PFT_IOERROR
  {
    assert PFT_VERSION[4] == 118 && PFT_SUCCESS[4] == 115 && PFT_BUSY[4] == 98 && PFT_FAIL[4] == 102;
    assert PFT_IOERROR[4] == 105 && PFT_INVALID[4] == 105 && PFT_IOERROR[5] == 111 && PFT_INVALID[5] == 110;
  }

  lemma LineHandled(m: Machine, line: bytes)
    requires Awaiting(m.state)
    ensures var n := HandleAsciiLine(m, line);
            && n == m.(pending := n.pending, advertisedVersion := n.advertisedVersion)
            && n.pending == if IsResult(m.state, line) then Meaning(m.state, m.requested, Some(line)) else m.pending
  {
    hide SplitOnce, ParseCompression, VersionPending;
    ResultsApart();
  }

  lemma AckVerdict(m: Machine, said: Option<bytes>)
    requires Awaiting(m.state) && (said.Some? ==> IsResult(m.state, said.value))
    requires m.pending == Meaning(m.state, m.requested, said)
    ensures var n := HandleAck(m);
            && n.produced == m.produced + [Verdict(m.state, m.requested, said, Ack(0))]
            && n.requested == m.requested
  {
    hide SplitOnce, ParseCompression, ChooseCompression;
    ResultsApart();
  }

  lemma EndVerdict(m: Machine, said: Option<bytes>, e: Event)
    requires Awaiting(m.state) && (said.Some? ==> IsResult(m.state, said.value))
    requires m.pending == Meaning(m.state, m.requested, said) && (e.Ack? || Breaks(e))
    ensures HandleSessionEvent(m, e).produced == m.produced + [Verdict(m.state, m.requested, said, e)]
  {
    hide HandleAck, Meaning, IsResult, ByResult;
    AckVerdict(m, said);
  }

  lemma OtherHandled(m: Machine, es: seq<Event>, e: Event)
    requires Awaiting(m.state) && !e.Ack? && !Breaks(e)
    requires m.pending == Meaning(m.state, m.requested, Said(m.state, es))
    ensures var n := HandleSessionEvent(m, e);
            && n == m.(pending := n.pending, advertisedVersion := n.advertisedVersion)
            && n.pending == Meaning(m.state, m.requested, Said(m.state, es + [e]))
  {
    hide HandleAsciiLine, Meaning, IsResult, Said;
    SaidSnoc(m.state, es, e);
    if e.AsciiLine? {
      LineHandled(m, e.text);
    }
  }

  lemma EndAt(before: seq<Event>, e: Event, after: seq<Event>)
    requires FirstEnd(before) == |before| && (e.Ack? || Breaks(e))
    ensures FirstEnd(before + ([e] + after)) == |before|
  {
    hide Breaks;
    var es := before + ([e] + after);
    assert es[|before|] == e;
    FirstEndUnique(es, |before|);
  }

  lemma FirstEndUnique(es: seq<Event>, k: nat)
    requires k <= |es| && (k < |es| ==> es[k].Ack? || Breaks(es[k]))
    requires forall i :: 0 <= i < k ==> !es[i].Ack? && !Breaks(es[i])
    ensures FirstEnd(es) == k
  {
    var j := FirstEnd(es);
    assert j < |es| ==> es[j].Ack? || Breaks(es[j]);
    assert forall i :: 0 <= i < j ==> !es[i].Ack? && !Breaks(es[i]);
  }

  lemma NoEndYet(before: seq<Event>, e: Event)
    requires FirstEnd(before) == |before| && !e.Ack? && !Breaks(e)
    ensures FirstEnd(before + [e]) == |before| + 1
  {
    hide Breaks;
    FirstEndUnique(before + [e], |before| + 1);
  }

  /** Reading on: undecided, with the last result line pending, or decided by the first ending event. */
  lemma {:induction false} EventsVerdict(m: Machine, before: seq<Event>, es: seq<Event>)
    requires MachineInv(m) && Awaiting(m.state) && FirstEnd(before) == |before|
    requires m.pending == Meaning(m.state, m.requested, Said(m.state, before))
    ensures var n, all := HandleEvents(m, es), before + es;
            var k := FirstEnd(all);
            && n.requested == m.requested
            && if k == |all| then
                 && n == m.(pending := n.pending, advertisedVersion := n.advertisedVersion)
                 && n.pending == Meaning(m.state, m.requested, Said(m.state, all))
               else
                 && (Said(m.state, all[..k]).Some? ==> IsResult(m.state, Said(m.state, all[..k]).value))
                 && |n.produced| > |m.produced|
                 && n.produced[|m.produced|]
                    == Verdict(m.state, m.requested, Said(m.state, all[..k]), all[k])
    decreases |es|
  {
    hide MachineInv, Meaning, Said, IsResult, HandleSessionEvent, Verdict, Breaks;
    if es == [] {
      assert before + es == before;
    } else {
      var e, all := es[0], before + es;
      var mid := HandleSessionEvent(m, e);
      RequestedStays(m, es);
      MachineKeeps(m, e);
      if e.Ack? || Breaks(e) {
        assert es == [e] + es[1..];
        EndAt(before, e, es[1..]);
        assert all[..|before|] == before;
        SaidIsResult(m.state, before);
        EndVerdict(m, Said(m.state, before), e);
        ProducedStays(mid, es[1..]);
      } else {
        OtherHandled(m, before, e);
        NoEndYet(before, e);
        EventsVerdict(mid, before + [e], es[1..]);
        assert (before + [e]) + es[1..] == all;
      }
    }
  }

  lemma OneRequested(m: Machine, e: Event)
    ensures HandleSessionEvent(m, e).requested == m.requested
  {
    hide SplitOnce, ParseCompression, VersionPending;
  }

  lemma {:induction false} RequestedStays(m: Machine, es: seq<Event>)
    ensures HandleEvents(m, es).requested == m.requested
    decreases |es|
  {
    hide HandleSessionEvent;
    if es != [] {
      OneRequested(m, es[0]);
      RequestedStays(HandleSessionEvent(m, es[0]), es[1..]);
    }
  }

  // ----- Over all calls -----

  ghost predicate Grounded(start: Transfer, calls: seq<Call>, t: Transfer) {
    var m, es := t.machine, ReadSince(start, calls);
    && (!m.state.Failed? ==> m.outEvents == [])
    && m.requested == AskedFor(calls)
    && (Awaiting(m.state) ==>
          FirstEnd(es) == |es| && m.pending == Meaning(m.state, m.requested, Said(m.state, es)))
  }

  lemma {:induction false} CallsLast(start: Transfer, calls: seq<Call>)
    requires calls != [] && Calls(start, calls).Some?
    ensures var k := |calls| - 1;
            && Calls(start, calls[..k]).Some? && Callable(Calls(start, calls[..k]).value, calls[k])
            && Calls(start, calls) == Some(Do(Calls(start, calls[..k]).value, calls[k]))
    decreases |calls|
  {
    hide Do, Callable;
    var k := |calls| - 1;
    if k == 0 {
      assert calls[1..] == [];
    } else {
      CallsLast(Do(start, calls[0]), calls[1..]);
      assert calls[1..][..k - 1] == calls[..k][1..];
    }
  }

  lemma RequestGrounded(start: Transfer, calls: seq<Call>, t: Transfer, call: Call)
    requires Grounded(start, calls, t) && MachineInv(t.machine) && Callable(t, call) && IsRequest(call)
    ensures Grounded(start, calls + [call], Do(t, call))
  {
    hide Submit, Language, Stage, CountWriteAcked, FirstFailure, OpenPayload;
    assert (calls + [call])[..|calls|] == calls;
    assert t.machine.pending.None?;
  }

  lemma PollGrounded(start: Transfer, calls: seq<Call>, t: Transfer)
    requires Calls(start, calls) == Some(t) && Grounded(start, calls, t) && MachineInv(t.machine)
    ensures Grounded(start, calls + [CallPoll], Do(t, CallPoll))
  {
    hide MachineInv, HandleEvents, Meaning, Said, FirstEnd, Calls, Verdict;
    var m, es, n := t.machine, t.session.core.events, Do(t, CallPoll).machine;
    assert (calls + [CallPoll])[..|calls|] == calls;
    RequestedStays(m, es);
    if m.state.Failed? {
      FailedEvents(m, es);
    } else {
      PollAnswer(t);
      if Awaiting(m.state) {
        EventsVerdict(m, ReadSince(start, calls), es);
        PollStays(t, ReadSince(start, calls) + es);
      }
    }
  }

  /** A poll that leaves the machine awaiting has met no ending event. */
  lemma PollStays(t: Transfer, all: seq<Event>)
    requires MachineInv(t.machine) && t.machine.outEvents == [] && Awaiting(t.machine.state)
    requires FirstEnd(all) < |all| ==> |HandleEvents(t.machine, t.session.core.events).produced| > |t.machine.produced|
    ensures Awaiting(Poll(t).0.machine.state) ==> FirstEnd(all) == |all|
  {
    hide MachineInv, HandleEvents, BreaksAmong;
    PollAnswer(t);
  }

  lemma OtherGrounded(start: Transfer, calls: seq<Call>, t: Transfer, call: Call)
    requires Grounded(start, calls, t) && Callable(t, call) && !IsRequest(call) && !call.CallPoll?
    ensures Grounded(start, calls + [call], Do(t, call))
  {
    hide Meaning, Said, FirstEnd, Feed, Tick;
    assert (calls + [call])[..|calls|] == calls;
    assert ReadSince(start, calls) + [] == ReadSince(start, calls);
  }

  lemma {:induction false} CallsGrounded(h: Host, calls: seq<Call>, t: Transfer)
    requires Reaches(h, calls, t)
    ensures Grounded(Transfer(NEW_MACHINE, h), calls, t)
    decreases |calls|
  {
    hide Calls, Do, Callable, Coupled, Grounded;
    var start := Transfer(NEW_MACHINE, h);
    if calls == [] {
      StartGrounded(h, t);
    } else {
      var k := |calls| - 1;
      CallsLast(start, calls);
      var s, call := Calls(start, calls[..k]).value, calls[k];
      CallsGrounded(h, calls[..k], s);
      ReachesCoupled(h, calls[..k], s);
      CoupledMachine(s.machine, s.session.core, |h.core.hist.resolved|);
      assert calls[..k] + [call] == calls;
      if IsRequest(call) {
        RequestGrounded(start, calls[..k], s, call);
      } else if call.CallPoll? {
        PollGrounded(start, calls[..k], s);
      } else {
        OtherGrounded(start, calls[..k], s, call);
      }
    }
  }

  lemma StartGrounded(h: Host, t: Transfer)
    requires Reaches(h, [], t)
    ensures Grounded(Transfer(NEW_MACHINE, h), [], t)
  {
  }

  // ----- What an answer rests on -----

  /**
   * Whatever the calls, bytes and times: an awaiting machine answers a poll exactly
   * when an ending event has been read since its request, and then with the verdict
   * on the first of them. Only an ok after the right result line is success.
   */
  lemma AnswerIsVerdict(h: Host, calls: seq<Call>, t: Transfer)
    requires Reaches(h, calls, t) && Awaiting(t.machine.state)
    ensures var s, es := t.machine.state, ReadSince(Transfer(NEW_MACHINE, h), calls) + t.session.core.events;
            var k := FirstEnd(es);
            && |ReadSince(Transfer(NEW_MACHINE, h), calls)| <= k
            && (Said(s, es[..k]).Some? ==> IsResult(s, Said(s, es[..k]).value))
            && Poll(t).1 == if k == |es| then None
                            else Some(Verdict(s, AskedFor(calls), Said(s, es[..k]), es[k]))
  {
    hide Calls, Coupled, MachineInv, HandleEvents, Meaning, Said, Verdict, IsResult, FirstEnd, BreaksAmong;
    var before := ReadSince(Transfer(NEW_MACHINE, h), calls);
    CallsGrounded(h, calls, t);
    ReachesCoupled(h, calls, t);
    CoupledMachine(t.machine, t.session.core, |h.core.hist.resolved|);
    EventsVerdict(t.machine, before, t.session.core.events);
    var es := before + t.session.core.events;
    SaidIsResult(t.machine.state, es[..FirstEnd(es)]);
    EndNotBefore(before, t.session.core.events);
    FirstProduced(t);
  }

  lemma EndNotBefore(before: seq<Event>, es: seq<Event>)
    requires FirstEnd(before) == |before|
    ensures |before| <= FirstEnd(before + es)
  {
    hide Breaks;
    assert forall i :: 0 <= i < |before| ==> (before + es)[i] == before[i] && !before[i].Ack? && !Breaks(before[i]);
  }

  lemma FirstProduced(t: Transfer)
    requires MachineInv(t.machine) && t.machine.outEvents == []
    ensures var m, n := t.machine, HandleEvents(t.machine, t.session.core.events);
            Poll(t).1 == if |n.produced| > |m.produced| then Some(n.produced[|m.produced|]) else None
  {
    hide MachineInv, HandleEvents, PollShape;
    var _ := HandleEventsShape(t.machine, t.session.core.events);
  }

  /**
   * Opened, Closed and AbortAcked are answered only if PFT:success was read since
   * that request, Negotiated only if a version line was.
   */
  lemma SuccessWasSaid(h: Host, calls: seq<Call>, t: Transfer)
    requires Reaches(h, calls, t) && Awaiting(t.machine.state) && Poll(t).1.Some?
    ensures var r, es := Poll(t).1.value, ReadSince(Transfer(NEW_MACHINE, h), calls) + t.session.core.events;
            && (r.EvOpened? || r.EvClosed? || r.EvAbortAcked? ==> AsciiLine(PFT_SUCCESS) in es)
            && (r.EvNegotiated? ==>
                  exists spec :: AsciiLine(PFT_VERSION + (r.version + [COLON] + spec)) in es
                                 && ChooseCompression(AskedFor(calls), ParseCompression(spec))
                                    == Success(r.compression))
  {
    hide Calls, Reaches, Poll, ReadSince, FirstEnd, AskedFor, ChooseCompression, ParseCompression, SplitOnce;
    AnswerIsVerdict(h, calls, t);
    var s, es := t.machine.state, ReadSince(Transfer(NEW_MACHINE, h), calls) + t.session.core.events;
    var k := FirstEnd(es);
    SaidAmong(s, es[..k]);
    if Poll(t).1.value.EvNegotiated? {
      var line := Said(s, es[..k]).value;
      var (version, spec) := SplitOnce(line[|PFT_VERSION|..], COLON).value;
      assert line == PFT_VERSION + (version + [COLON] + spec);
    }
  }

  lemma {:induction false} SaidAmong(s: State, es: seq<Event>)
    ensures Said(s, es).Some? ==> AsciiLine(Said(s, es).value) in es && IsResult(s, Said(s, es).value)
  {
    hide IsResult;
    if es != [] {
      SaidAmong(s, es[..|es| - 1]);
    }
  }
}
