/**
 * Failures that no UploadError reports: a fatal error received right behind the
 * ok that completes OPEN or CLOSE. Both lemmas give the calls and the received
 * bytes that lead there from any session at rest.
 */
module Unreported {
  import opened Prelude
  import opened Codec
  import opened Text
  import opened SessionSpec
  import opened TransferSpec
  import opened TransferTheorems
  import opened Conversation
  import opened Journal
  import opened Progress
  import SessionTheorems
  import D = DeviceSpec
  import Replies

  /** Nothing outstanding and nothing unread; frames may still wait to be written. */
  predicate Free(t: Transfer) {
    var m, c := t.machine, t.session.core;
    && m.pending.None? && m.outEvents == []
    && t.session.inbound == [] && c.isSynced && c.inFlight.None? && c.queued == [] && c.events == []
  }

  /** The reply lines of a device: a text line and ok<n>. */
  function Reply(line: bytes, n: byte): bytes {
    line + [LF] + D.OkText(n) + [LF]
  }

  /** Those lines with a fatal error behind them. */
  function FatalReply(line: bytes, n: byte): bytes {
    Reply(line, n) + (FE + [LF])
  }

  function Round(call: Call, reply: bytes, now: int): seq<Call> {
    [call, CallFeed(reply, now), CallPoll]
  }

  lemma RoundMade(t: Transfer, call: Call, reply: bytes, now: int)
    requires Callable(t, call)
    ensures Calls(t, Round(call, reply, now)) == Some(Heard(Do(t, call), reply, now).0)
  {
    hide Do, Feed, Poll;
    var all, two, one := Round(call, reply, now), [CallFeed(reply, now), CallPoll], [CallPoll];
    assert all[1..] == two && two[1..] == one && one[1..] == [];
    var u := Do(t, call);
    var v := u.(session := Feed(u.session, reply, now));
    FeedIsCall(u, reply, now, v);
    PollIsCall(v);
    assert Calls(t, all) == Calls(u, two);
    assert Calls(u, two) == Calls(v, one);
  }

  lemma FeedIsCall(t: Transfer, reply: bytes, now: int, u: Transfer)
    requires u == t.(session := Feed(t.session, reply, now))
    ensures Do(t, CallFeed(reply, now)) == u
  {
    hide Feed;
  }

  lemma PollIsCall(t: Transfer)
    ensures Do(t, CallPoll) == Poll(t).0
  {
    hide Poll;
  }

  /** The last round's poll answered what was heard. */
  lemma RoundAnswers(start: Transfer, before: seq<Call>, t: Transfer, call: Call, reply: bytes, now: int)
    requires Calls(start, before) == Some(t) && Callable(t, call)
    ensures Calls(start, before + Round(call, reply, now)) == Some(Heard(Do(t, call), reply, now).0)
    ensures LastAnswer(start, before + Round(call, reply, now)) == Heard(Do(t, call), reply, now).1
  {
    hide Do, Feed, Poll, Calls;
    RoundMade(t, call, reply, now);
    CallsAll(start, before, t, Round(call, reply, now));
    var u := Do(t, call);
    var v := u.(session := Feed(u.session, reply, now));
    CallsThen(start, before, t, call);
    FeedIsCall(u, reply, now, v);
    CallsThen(start, before + [call], u, CallFeed(reply, now));
    var all := before + Round(call, reply, now);
    assert all[..|all| - 1] == before + [call] + [CallFeed(reply, now)];
  }

  /** A request of a free transfer waits under the session's number. */
  lemma RequestWaits(t: Transfer, call: Call)
    requires Free(t) && Callable(t, call)
    requires call.CallQuery? || call.CallOpen? || call.CallClose?
    ensures Waiting(Do(t, call), Do(t, call).machine.state, t.session.core.sync)
    ensures Do(t, call).session.core.sync == t.session.core.sync && Do(t, call).session.core.isSynced
    ensures call.CallQuery? ==> Do(t, call).machine == t.machine.(requested := call.compression, state := AwaitingQueryReply)
    ensures call.CallOpen? ==> Do(t, call).machine == t.machine.(state := AwaitingOpenReply)
    ensures call.CallClose? ==> Do(t, call).machine == t.machine.(state := AwaitingCloseReply)
  {
    hide Wire, OpenPayload;
  }

  lemma RestedIsFree(h: Host, t: Transfer)
    requires Rested(h, t.session) && h.core.isSynced && h.core.queued == []
    requires t.machine.pending.None? && t.machine.outEvents == []
    ensures Free(t) && t.session.core.sync == (h.core.sync + 1) % 256
  {
  }

  // ----- What arrives -----

  lemma FatalHeard(h: Host, now: int)
    requires h.inbound == []
    ensures Feed(h, FE + [LF], now) == Host(Raise(h.core, FatalError), [])
  {
    hide Feed, ParseDecimalU8, ParseSync, ValidUtf8, StripLineEndings;
    Replies.FeedLine(h, FE, now);
    Replies.StripNewline(FE);
  }

  /** A result line, its ok and a fatal error, received together. */
  lemma FatalBehind(t: Transfer, s: State, n: byte, now: int)
    requires Waiting(t, s, n)
    ensures var g := Feed(t.session, FatalReply(PFT_SUCCESS, n), now);
            && g.core.events == [AsciiLine(PFT_SUCCESS), Ack(n), FatalError] && g.inbound == []
            && g.core.inFlight.None? && g.core.queued == [] && g.core.isSynced == t.session.core.isSynced
            && g.core.sync == (t.session.core.sync + 1) % 256
  {
    hide Feed, D.OkText, Plainly, HandleOk, Settling, Raise;
    SuccessIsPlain();
    var h := Host(Raise(t.session.core, AsciiLine(PFT_SUCCESS)), []);
    TextHeard(t.session, PFT_SUCCESS, now);
    AfterText(t.session.core, AsciiLine(PFT_SUCCESS));
    AckHeard(h, n, now);
    var g := Feed(h, D.OkText(n) + [LF], now);
    SessionTheorems.FeedTwice(t.session, PFT_SUCCESS + [LF], D.OkText(n) + [LF], now);
    assert Reply(PFT_SUCCESS, n) == (PFT_SUCCESS + [LF]) + (D.OkText(n) + [LF]);
    SessionTheorems.FeedTwice(t.session, Reply(PFT_SUCCESS, n), FE + [LF], now);
    FatalHeard(g, now);
    SettledAfterText(t.session.core, AsciiLine(PFT_SUCCESS), g.core);
    AfterFatal(t.session.core, g.core);
  }

  lemma AfterFatal(c: Core, d: Core)
    requires Settling(c, d)
    ensures var e := Raise(d, FatalError);
            && e.events == d.events + [FatalError] && e.inFlight.None? && e.queued == c.queued
            && e.isSynced == c.isSynced && e.sync == (c.sync + 1) % 256
  {
  }

  /** The machine reads the answer first and then fails. */
  lemma AnswersThenFails(m: Machine, n: byte)
    requires m.state.AwaitingOpenReply? || m.state.AwaitingCloseReply?
    requires m.pending.None? && m.outEvents == []
    ensures var u := HandleEvents(m, [AsciiLine(PFT_SUCCESS), Ack(n), FatalError]);
            && u.state.Failed? && u.outEvents != []
            && u.outEvents[0] == if m.state.AwaitingOpenReply? then EvOpened else EvClosed
  {
    hide HandleEvents, HandleAsciiLine, HandleAck;
    if m.state.AwaitingOpenReply? {
      OpenSuccessText(m);
    } else {
      ExplainedAck(m);
    }
    var two := [AsciiLine(PFT_SUCCESS)] + [Ack(n)];
    assert [AsciiLine(PFT_SUCCESS), Ack(n), FatalError] == two + [FatalError];
    EventsAppend(m, two, [FatalError]);
    TwoEvents(m, AsciiLine(PFT_SUCCESS), Ack(n));
    OneMoreEvent(HandleAck(HandleAsciiLine(m, PFT_SUCCESS)), FatalError);
  }

  /** One poll after such a reply: a progress answer on a failed machine, the session still usable. */
  lemma FailedAnswer(t: Transfer, s: State, n: byte, now: int)
    requires Waiting(t, s, n) && (s.AwaitingOpenReply? || s.AwaitingCloseReply?) && t.session.core.isSynced
    ensures var (u, r) := Heard(t, FatalReply(PFT_SUCCESS, n), now);
            && r == Some(if s.AwaitingOpenReply? then EvOpened else EvClosed) && u.machine.state.Failed?
            && u.session.core.isSynced && u.session.core.inFlight.None? && u.session.core.queued == []
            && u.session.core.events == [] && u.session.inbound == []
            && u.session.core.sync == (t.session.core.sync + 1) % 256
  {
    hide Feed, HandleEvents;
    FatalBehind(t, s, n, now);
    AnswersThenFails(t.machine, n);
  }

  // ----- The calls up to there -----

  /** A version the host can read, and a compression both sides accept. */
  predicate Agreeable(requested: Compression, version: bytes, c: D.CompressionSpec) {
    && ValidUtf8(version) && LF !in version && COLON !in version
    && ChooseCompression(requested, Replies.Advertised(c)).Success?
  }

  /** QUERY and its answer. */
  lemma QueryRound(h: Host, requested: Compression, version: bytes, c: D.CompressionSpec, now: int)
    returns (t: Transfer)
    requires AtRest(h) && Agreeable(requested, version, c)
    ensures Calls(Transfer(NEW_MACHINE, h),
                  Round(CallQuery(requested, now), Reply(D.VersionText(version, c), h.core.sync), now)) == Some(t)
    ensures Free(t) && t.machine.state.Negotiated? && t.session.core.sync == (h.core.sync + 1) % 256
  {
    hide Do, Feed, Poll, D.OkText, D.VersionText, ValidUtf8, ChooseCompression, HandleAsciiLine, HandleAck, Rested,
         Plainly, Heard;
    var start, n := Transfer(NEW_MACHINE, h), h.core.sync;
    var call := CallQuery(requested, now);
    var line := D.VersionText(version, c);
    RoundMade(start, call, Reply(line, n), now);
    RequestWaits(start, call);
    var mid := Do(start, call);
    VersionIsPlain(version, c);
    TextAnswer(mid, AwaitingQueryReply, line, n, now);
    Replies.VersionLineParsed(mid.machine, version, c);
    VersionAck(mid.machine, version, Replies.Advertised(c));
    t := Heard(mid, Reply(line, n), now).0;
    RestedIsFree(mid.session, t);
  }

  /** OPEN and its answer. */
  lemma OpenRound(t: Transfer, name: bytes, dummy: bool, now: int) returns (u: Transfer)
    requires Free(t) && t.machine.state.Negotiated? && |name| + 3 <= MAX_PAYLOAD
    ensures Calls(t, Round(CallOpen(name, dummy, now), Reply(PFT_SUCCESS, t.session.core.sync), now)) == Some(u)
    ensures Free(u) && u.machine.state.Opened? && u.session.core.sync == (t.session.core.sync + 1) % 256
  {
    hide Do, Feed, Poll, D.OkText, HandleAsciiLine, HandleAck, Rested, Plainly, Heard;
    var call, n := CallOpen(name, dummy, now), t.session.core.sync;
    RoundMade(t, call, Reply(PFT_SUCCESS, n), now);
    RequestWaits(t, call);
    var mid := Do(t, call);
    SuccessIsPlain();
    TextAnswer(mid, AwaitingOpenReply, PFT_SUCCESS, n, now);
    OpenSuccessText(mid.machine);
    u := Heard(mid, Reply(PFT_SUCCESS, n), now).0;
    RestedIsFree(mid.session, u);
  }

  lemma RestReaches(h: Host, calls: seq<Call>, t: Transfer)
    requires AtRest(h) && Calls(Transfer(NEW_MACHINE, h), calls) == Some(t)
    ensures Reaches(h, calls, t)
  {
    hide Calls;
  }

  function Next(n: byte): byte {
    (n + 1) % 256
  }

  /**
   * The announced state is not always reached: from any session at rest, when
   * `fe` arrives right behind the ok that completes OPEN, poll answers Opened on a
   * failed machine, and the next write or close is refused by its assertion.
   */
  lemma OpenedYetFailed(h: Host, requested: Compression, version: bytes, c: D.CompressionSpec, name: bytes,
                        dummy: bool, now: int) returns (u: Transfer)
    requires AtRest(h) && Agreeable(requested, version, c) && |name| + 3 <= MAX_PAYLOAD
    ensures var n := h.core.sync;
            var calls := Round(CallQuery(requested, now), Reply(D.VersionText(version, c), n), now)
                         + Round(CallOpen(name, dummy, now), FatalReply(PFT_SUCCESS, Next(n)), now);
            && Reaches(h, calls, u) && LastAnswer(Transfer(NEW_MACHINE, h), calls) == Some(EvOpened)
            && u.machine.state.Failed?
            && forall chunk, at :: !Callable(u, CallWrite(chunk, at)) && !Callable(u, CallClose(at))
  {
    hide Do, Calls, Round, Reply, FatalReply, Heard, Agreeable, AtRest, Reaches;
    var n := h.core.sync;
    var first := Round(CallQuery(requested, now), Reply(D.VersionText(version, c), n), now);
    var t := QueryRound(h, requested, version, c, now);
    var call := CallOpen(name, dummy, now);
    RequestWaits(t, call);
    FailedAnswer(Do(t, call), AwaitingOpenReply, Next(n), now);
    RoundAnswers(Transfer(NEW_MACHINE, h), first, t, call, FatalReply(PFT_SUCCESS, Next(n)), now);
    u := Heard(Do(t, call), FatalReply(PFT_SUCCESS, Next(n)), now).0;
    RestReaches(h, first + Round(call, FatalReply(PFT_SUCCESS, Next(n)), now), u);
  }

  /**
   * Nothing is refused at all when `fe` arrives right behind the ok that completes
   * CLOSE: poll answers Closed on a failed machine, the session accepts the
   * control CLOSE, and its ok is the next event read, which ends an upload with
   * success.
   */
  lemma ClosedYetFailed(h: Host, requested: Compression, version: bytes, c: D.CompressionSpec, name: bytes,
                        dummy: bool, now: int) returns (u: Transfer)
    requires AtRest(h) && Agreeable(requested, version, c) && |name| + 3 <= MAX_PAYLOAD
    ensures var n := h.core.sync;
            var calls := Round(CallQuery(requested, now), Reply(D.VersionText(version, c), n), now)
                         + Round(CallOpen(name, dummy, now), Reply(PFT_SUCCESS, Next(n)), now)
                         + Round(CallClose(now), FatalReply(PFT_SUCCESS, Next(Next(n))), now);
            && Reaches(h, calls, u) && LastAnswer(Transfer(NEW_MACHINE, h), calls) == Some(EvClosed)
            && u.machine.state.Failed?
            && Allowed(u.session, OpSend(0, 2, [], now))
            && var sent := Step(u.session, OpSend(0, 2, [], now));
               var g := Step(sent, OpFeed(D.OkText(Next(Next(Next(n)))) + [LF], now));
               g.core.events == [Ack(Next(Next(Next(n))))] && g.core.inFlight.None?
  {
    hide Do, Calls, Round, Reply, FatalReply, Heard, Agreeable, AtRest, Reaches, Step, D.OkText, Free, LastAnswer,
         Allowed,
         Callable, Waiting;
    var n, start := h.core.sync, Transfer(NEW_MACHINE, h);
    var first := Round(CallQuery(requested, now), Reply(D.VersionText(version, c), n), now);
    var second := Round(CallOpen(name, dummy, now), Reply(PFT_SUCCESS, Next(n)), now);
    var t1 := QueryRound(h, requested, version, c, now);
    var t2 := OpenRound(t1, name, dummy, now);
    CallsAll(start, first, t1, second);
    var call := CallClose(now);
    OpenMayClose(t2, now);
    RequestWaits(t2, call);
    FailedAnswer(Do(t2, call), AwaitingCloseReply, Next(Next(n)), now);
    RoundAnswers(start, first + second, t2, call, FatalReply(PFT_SUCCESS, Next(Next(n))), now);
    u := Heard(Do(t2, call), FatalReply(PFT_SUCCESS, Next(Next(n))), now).0;
    RestReaches(h, first + second + Round(call, FatalReply(PFT_SUCCESS, Next(Next(n))), now), u);
    ControlCloseAcked(u.session, now);
  }

  lemma OpenMayClose(t: Transfer, now: int)
    requires Free(t) && t.machine.state.Opened?
    ensures Callable(t, CallClose(now)) && t.session.core.isSynced
  {
  }

  lemma ControlCloseAcked(h: Host, now: int)
    requires h.core.isSynced && h.core.inFlight.None? && h.core.queued == [] && h.core.events == [] && h.inbound == []
    ensures Allowed(h, OpSend(0, 2, [], now))
    ensures var sent := Step(h, OpSend(0, 2, [], now));
            var g := Step(sent, OpFeed(D.OkText(h.core.sync) + [LF], now));
            g.core.events == [Ack(h.core.sync)] && g.core.inFlight.None?
  {
    hide Wire, Feed, D.OkText, HandleOk;
    var sent := Step(h, OpSend(0, 2, [], now));
    AckHeard(sent, h.core.sync, now);
    assert [] + [Ack(h.core.sync)] == [Ack(h.core.sync)];
  }
}
