/** When frames are sent again: what ticks at any times do to the packet in flight, over whole runs. */
module Pacing {
  import opened Prelude
  import opened SessionSpec
  import opened SessionInvariants
  import opened SessionTheorems
  import opened Text

  /** The instants of the ticks of a run. */
  function TickTimes(ops: seq<Op>): seq<int> {
    if ops == [] then [] else (if ops[0].OpTick? then [ops[0].now] else []) + TickTimes(ops[1..])
  }

  /**
   * The ticks at which the packet is sent again: each the first to come a response
   * timeout after the transmission before it.
   */
  function Again(lastSent: int, responseTimeout: nat, times: seq<int>): seq<int>
    decreases |times|
  {
    if times == [] then []
    else if Elapsed(times[0], lastSent) >= responseTimeout then
      [times[0]] + Again(times[0], responseTimeout, times[1..])
    else Again(lastSent, responseTimeout, times[1..])
  }

  function LastOf(times: seq<int>, otherwise: int): int {
    if times == [] then otherwise else times[|times| - 1]
  }

  // ----- Everything but ticks leaves the packet alone, or settles it -----

  /** Since c the packet then in flight was resolved, or nothing has touched it. */
  ghost predicate Untouched(c: Core, d: Core) {
    || |d.hist.resolved| > |c.hist.resolved|
    || (d.hist.resolved == c.hist.resolved && d.inFlight == c.inFlight && d.hist.dispatched == c.hist.dispatched
        && d.hist.emitted == c.hist.emitted && SameTimeouts(c, d))
  }

  lemma OkTouches(c: Core, d: Core, n: byte, now: int)
    requires c.inFlight.Some? && Untouched(c, d)
    ensures Untouched(c, HandleOk(d, n, now))
  {
    hide Wire, Decimal;
  }

  lemma SyncTouches(c: Core, d: Core, s: u16, m: u16, v: bytes, now: int)
    requires c.inFlight.Some? && Untouched(c, d)
    ensures Untouched(c, Synchronize(d, s, m, v, now))
  {
    hide Wire;
  }

  lemma NoteTouches(c: Core, d: Core, e: Event)
    requires Untouched(c, d)
    ensures Untouched(c, Raise(d, e))
  {
  }

  lemma LineTouches(c: Core, d: Core, raw: bytes, now: int)
    requires c.inFlight.Some? && Untouched(c, d)
    ensures Untouched(c, AcceptLine(d, raw, now))
  {
    hide Classify, StripLineEndings, Untouched, HandleOk, Synchronize, Raise;
    match Classify(StripLineEndings(raw))
    case OkLine(n) => OkTouches(c, d, n, now);
    case ResendLine(n) => NoteTouches(c, d, ResendRequested(n));
    case SyncLine(s, m, v) => SyncTouches(c, d, s, m, v, now);
    case FatalLine => NoteTouches(c, d, FatalError);
    case TextLine(t) => NoteTouches(c, d, AsciiLine(t));
    case Ignored =>
  }

  lemma {:induction false} LinesTouch(c: Core, d: Core, lines: seq<bytes>, now: int)
    requires c.inFlight.Some? && Untouched(c, d)
    ensures Untouched(c, AcceptLines(d, lines, now))
    decreases |lines|
  {
    hide Untouched, AcceptLine;
    if lines != [] {
      LineTouches(c, d, lines[0], now);
      LinesTouch(c, AcceptLine(d, lines[0], now), lines[1..], now);
    }
  }

  lemma OpTouches(h: Host, op: Op)
    requires h.core.inFlight.Some? && Allowed(h, op) && !op.OpReset? && !op.OpTick?
    ensures Untouched(h.core, Step(h, op).core)
  {
    hide Wire, AcceptLines, Lines, Rest;
    if op.OpFeed? {
      LinesTouch(h.core, h.core, Lines(h.inbound + op.chunk), op.now);
    }
  }

  lemma ResolvedGrows(h: Host, op: Op)
    requires Allowed(h, op) && !op.OpReset?
    ensures |h.core.hist.resolved| <= |Step(h, op).core.hist.resolved|
  {
    hide Wire, AcceptLines, Lines, Rest, Recopied;
    if op.OpFeed? {
      LinesResolve(h.core, Lines(h.inbound + op.chunk), op.now);
    }
  }

  lemma LineResolves(c: Core, raw: bytes, now: int)
    ensures |c.hist.resolved| <= |AcceptLine(c, raw, now).hist.resolved|
  {
    hide Wire, Classify, StripLineEndings, Decimal;
  }

  lemma {:induction false} LinesResolve(c: Core, lines: seq<bytes>, now: int)
    ensures |c.hist.resolved| <= |AcceptLines(c, lines, now).hist.resolved|
    decreases |lines|
  {
    hide AcceptLine;
    if lines != [] {
      LineResolves(c, lines[0], now);
      LinesResolve(AcceptLine(c, lines[0], now), lines[1..], now);
    }
  }

  lemma {:induction false} RunResolves(h: Host, ops: seq<Op>)
    requires Run(h, ops).Some? && forall op :: op in ops ==> !op.OpReset?
    ensures |h.core.hist.resolved| <= |Run(h, ops).value.core.hist.resolved|
    decreases |ops|
  {
    hide Step, Allowed;
    if ops != [] {
      assert ops[0] in ops;
      ResolvedGrows(h, ops[0]);
      RunResolves(Step(h, ops[0]), ops[1..]);
    }
  }

  // ----- Exactly when a packet is sent again -----

  /** From c to d the packet in flight was sent again at the given instants, and not otherwise. */
  ghost predicate SentAgain(c: Core, d: Core, again: seq<int>) {
    && c.inFlight.Some? && SameTimeouts(c, d)
    && d.inFlight == Some(c.inFlight.value.(lastSent := LastOf(again, c.inFlight.value.lastSent)))
    && d.hist.resolved == c.hist.resolved
    && d.hist.emitted == c.hist.emitted + Repeat(c.inFlight.value.frame, |again|)
    && |d.hist.dispatched| == |c.hist.dispatched| > 0
    && d.hist.dispatched[|d.hist.dispatched| - 1].copies
       == c.hist.dispatched[|c.hist.dispatched| - 1].copies + |again|
  }

  /**
   * A tick after the total timeout gives the packet up; one a response timeout late
   * sends it again; any other does nothing.
   */
  lemma TickDecides(c: Core, now: int)
    requires c.inFlight.Some? && c.hist.dispatched != []
    ensures var d, f := Tick(c, now), c.inFlight.value;
            if Elapsed(now, f.firstSent) >= c.totalTimeout then d.hist.resolved == c.hist.resolved + [TimedOut(f.sync)]
            else SentAgain(c, d, Again(f.lastSent, c.responseTimeout, [now]))
                 && (Elapsed(now, f.lastSent) < c.responseTimeout ==> d == c)
  {
    hide Wire;
    var one := [now];
    assert one[1..] == [];
    assert Again(now, c.responseTimeout, []) == [];
  }

  lemma SentThen(c: Core, d: Core, e: Core, xs: seq<int>, ys: seq<int>)
    requires SentAgain(c, d, xs) && SentAgain(d, e, ys)
    ensures SentAgain(c, e, xs + ys)
  {
    var frame := c.inFlight.value.frame;
    assert Repeat(frame, |xs|) + Repeat(frame, |ys|) == Repeat(frame, |xs + ys|);
    assert c.hist.emitted + Repeat(frame, |xs|) + Repeat(frame, |ys|)
        == c.hist.emitted + (Repeat(frame, |xs|) + Repeat(frame, |ys|));
  }

  lemma SentNothing(c: Core, d: Core)
    requires c.inFlight.Some? && c.hist.dispatched != [] && Untouched(c, d) && d.hist.resolved == c.hist.resolved
    ensures SentAgain(c, d, [])
  {
    assert c.hist.emitted + Repeat(c.inFlight.value.frame, 0) == c.hist.emitted;
  }

  lemma AgainSplit(lastSent: int, responseTimeout: nat, now: int, times: seq<int>)
    ensures var first := Again(lastSent, responseTimeout, [now]);
            Again(lastSent, responseTimeout, [now] + times)
            == first + Again(LastOf(first, lastSent), responseTimeout, times)
  {
    var one := [now];
    assert one[1..] == [] && ([now] + times)[1..] == times;
    assert Again(now, responseTimeout, []) == [];
    assert [] + Again(lastSent, responseTimeout, times) == Again(lastSent, responseTimeout, times);
  }

  /**
   * Over every run without reset at whose end the packet is still in flight,
   * whatever was received, queued and polled meanwhile: it was sent again at exactly
   * the ticks that were the first to come a response timeout after the transmission
   * before, each time once and unchanged, and no tick came after the total timeout.
   */
  lemma {:induction false} SentAgainWhenDue(h: Host, ops: seq<Op>)
    requires h.core.inFlight.Some? && h.core.hist.dispatched != []
    requires Run(h, ops).Some? && forall op :: op in ops ==> !op.OpReset?
    requires |Run(h, ops).value.core.hist.resolved| <= |h.core.hist.resolved|
    ensures var c, f, times := h.core, h.core.inFlight.value, TickTimes(ops);
            && SentAgain(c, Run(h, ops).value.core, Again(f.lastSent, c.responseTimeout, times))
            && forall t :: t in times ==> Elapsed(t, f.firstSent) < c.totalTimeout
    decreases |ops|
  {
    hide Step, Allowed, SentAgain, Untouched, Again;
    var c, f := h.core, h.core.inFlight.value;
    if ops == [] {
      NothingHappened(c);
    } else {
      var d, g := Step(h, ops[0]), Run(h, ops).value.core;
      assert ops[0] in ops;
      ResolvedGrows(h, ops[0]);
      RunResolves(d, ops[1..]);
      var first := FirstOp(h, ops[0]);
      StillFlying(c, d.core, first);
      SentAgainWhenDue(d, ops[1..]);
      var rest := Again(LastOf(first, f.lastSent), c.responseTimeout, TickTimes(ops[1..]));
      SentThen(c, d.core, g, first, rest);
      if ops[0].OpTick? {
        AgainSplit(f.lastSent, c.responseTimeout, ops[0].now, TickTimes(ops[1..]));
      } else {
        assert [] + TickTimes(ops[1..]) == TickTimes(ops[1..]) && [] + rest == rest;
      }
    }
  }

  lemma NothingHappened(c: Core)
    requires c.inFlight.Some? && c.hist.dispatched != []
    ensures SentAgain(c, c, Again(c.inFlight.value.lastSent, c.responseTimeout, []))
  {
    SentNothing(c, c);
  }

  lemma StillFlying(c: Core, d: Core, again: seq<int>)
    requires SentAgain(c, d, again)
    ensures SameTimeouts(c, d) && d.hist.resolved == c.hist.resolved && d.hist.dispatched != []
    ensures d.inFlight == Some(c.inFlight.value.(lastSent := LastOf(again, c.inFlight.value.lastSent)))
  {
  }

  lemma FirstOp(h: Host, op: Op) returns (first: seq<int>)
    requires h.core.inFlight.Some? && h.core.hist.dispatched != [] && Allowed(h, op) && !op.OpReset?
    requires |Step(h, op).core.hist.resolved| <= |h.core.hist.resolved|
    ensures SentAgain(h.core, Step(h, op).core, first)
    ensures first == if op.OpTick? then Again(h.core.inFlight.value.lastSent, h.core.responseTimeout, [op.now]) else []
    ensures op.OpTick? ==> Elapsed(op.now, h.core.inFlight.value.firstSent) < h.core.totalTimeout
  {
    hide Again, SentAgain, Tick, Feed, Submit;
    if op.OpTick? {
      TickDecides(h.core, op.now);
      first := Again(h.core.inFlight.value.lastSent, h.core.responseTimeout, [op.now]);
    } else {
      OpTouches(h, op);
      SentNothing(h.core, Step(h, op).core);
      first := [];
    }
  }

  // ----- Early ticks, and the first due one -----

  lemma {:induction false} AllEarly(lastSent: int, responseTimeout: nat, times: seq<int>)
    requires forall t :: t in times ==> Elapsed(t, lastSent) < responseTimeout
    ensures Again(lastSent, responseTimeout, times) == []
    decreases |times|
  {
    if times != [] {
      assert times[0] in times && forall t :: t in times[1..] ==> t in times;
      AllEarly(lastSent, responseTimeout, times[1..]);
    }
  }

  /**
   * Ticks that come before either timeout change nothing about the packet in
   * flight, however many there are and whatever happens between them; the next tick
   * a response timeout after the last transmission, and within the budget, sends
   * exactly one copy.
   */
  lemma EarlyThenDue(h: Host, ops: seq<Op>, due: int)
    requires h.core.inFlight.Some? && h.core.hist.dispatched != []
    requires Run(h, ops).Some? && forall op :: op in ops ==> !op.OpReset?
    requires |Run(h, ops).value.core.hist.resolved| <= |h.core.hist.resolved|
    requires var f := h.core.inFlight.value;
             && (forall t :: t in TickTimes(ops) ==> Elapsed(t, f.lastSent) < h.core.responseTimeout)
             && Elapsed(due, f.lastSent) >= h.core.responseTimeout && Elapsed(due, f.firstSent) < h.core.totalTimeout
    ensures var c, f, d := h.core, h.core.inFlight.value, Run(h, ops).value.core;
            var e := Tick(d, due);
            && d.inFlight == c.inFlight && d.hist.emitted == c.hist.emitted
            && e.inFlight == Some(f.(lastSent := due)) && e.hist.emitted == c.hist.emitted + [f.frame]
            && e.outbound == d.outbound + [f.frame] && e.events == d.events
  {
    hide Run, Again;
    var c, f := h.core, h.core.inFlight.value;
    SentAgainWhenDue(h, ops);
    AllEarly(f.lastSent, c.responseTimeout, TickTimes(ops));
    assert c.hist.emitted + Repeat(f.frame, 0) == c.hist.emitted;
  }

  /** With nothing received, the packet is still in flight exactly when no tick has come after the total timeout. */
  lemma {:induction false} GivenUpWhenOverdue(h: Host, ops: seq<Op>)
    requires h.core.inFlight.Some? && h.core.hist.dispatched != []
    requires Run(h, ops).Some? && forall op :: op in ops ==> !op.OpReset? && !op.OpFeed?
    ensures var c, d := h.core, Run(h, ops).value.core;
            |d.hist.resolved| <= |c.hist.resolved|
            <==> forall t :: t in TickTimes(ops) ==> Elapsed(t, c.inFlight.value.firstSent) < c.totalTimeout
    decreases |ops|
  {
    hide Step, Allowed, SentAgain, Untouched, Again;
    if ops != [] {
      var d := Step(h, ops[0]);
      assert ops[0] in ops;
      RunResolves(d, ops[1..]);
      SilentOp(h, ops[0]);
      if |d.core.hist.resolved| <= |h.core.hist.resolved| {
        var first := FirstOp(h, ops[0]);
        StillFlying(h.core, d.core, first);
        GivenUpWhenOverdue(d, ops[1..]);
      } else {
        assert ops[0].now in TickTimes(ops);
      }
    }
  }

  lemma SilentOp(h: Host, op: Op)
    requires h.core.inFlight.Some? && h.core.hist.dispatched != []
    requires Allowed(h, op) && !op.OpReset? && !op.OpFeed?
    ensures |Step(h, op).core.hist.resolved| > |h.core.hist.resolved|
            <==> op.OpTick? && Elapsed(op.now, h.core.inFlight.value.firstSent) >= h.core.totalTimeout
  {
    hide Again, Tick, Wire;
    if op.OpTick? {
      TickDecides(h.core, op.now);
    }
  }

  // ----- At least so often -----

  /** From `since` on no two ticks are further apart than `gap`, and none goes back in time. */
  predicate Paced(since: int, times: seq<int>, gap: nat)
    decreases |times|
  {
    times == [] || (since <= times[0] <= since + gap && Paced(times[0], times[1..], gap))
  }

  /**
   * Ticks at most `gap` apart send at least once in every response timeout plus gap;
   * `since` is the instant of the last tick, or of the transmission.
   */
  lemma {:induction false} OftenEnough(lastSent: int, since: int, responseTimeout: nat, gap: nat, times: seq<int>)
    requires Paced(since, times, gap) && lastSent <= since && responseTimeout + gap > 0
    requires since == lastSent || since - lastSent < responseTimeout
    ensures (|Again(lastSent, responseTimeout, times)| + 1) * (responseTimeout + gap) > LastOf(times, since) - lastSent
    decreases |times|
  {
    var period := responseTimeout + gap;
    if times != [] {
      var t, rest := times[0], times[1..];
      assert LastOf(times, since) == LastOf(rest, t);
      if Elapsed(t, lastSent) >= responseTimeout {
        OftenEnough(t, t, responseTimeout, gap, rest);
        var k := |Again(t, responseTimeout, rest)| + 1;
        OneMorePeriod(k, period);
      } else {
        OftenEnough(lastSent, t, responseTimeout, gap, rest);
      }
    }
  }

  lemma OneMorePeriod(k: nat, period: nat)
    ensures (k + 1) * period == k * period + period
  {
  }

  /**
   * A packet ticked at most `gap` apart for D from its dispatch, and still in flight,
   * has been transmitted at least D / (response timeout + gap) + 1 times.
   */
  lemma TransmittedAtLeast(h: Host, ops: seq<Op>, gap: nat)
    requires h.core.inFlight.Some? && h.core.hist.dispatched != [] && h.core.responseTimeout + gap > 0
    requires h.core.inFlight.value.lastSent == h.core.inFlight.value.firstSent
    requires Run(h, ops).Some? && forall op :: op in ops ==> !op.OpReset?
    requires |Run(h, ops).value.core.hist.resolved| <= |h.core.hist.resolved|
    requires Paced(h.core.inFlight.value.firstSent, TickTimes(ops), gap)
    ensures var c, ds := h.core, Run(h, ops).value.core.hist.dispatched;
            var f := c.inFlight.value;
            var elapsed := LastOf(TickTimes(ops), f.firstSent) - f.firstSent;
            && ds != []
            && ds[|ds| - 1].copies >= c.hist.dispatched[|c.hist.dispatched| - 1].copies
                                      + elapsed / (c.responseTimeout + gap)
  {
    hide Run, Again, Paced;
    var c, f, times := h.core, h.core.inFlight.value, TickTimes(ops);
    SentAgainWhenDue(h, ops);
    OftenEnough(f.lastSent, f.firstSent, c.responseTimeout, gap, times);
    var n := |Again(f.lastSent, c.responseTimeout, times)|;
    FewerPeriods(n, c.responseTimeout + gap, LastOf(times, f.firstSent) - f.firstSent);
  }

  lemma FewerPeriods(n: nat, period: nat, elapsed: int)
    requires period > 0 && (n + 1) * period > elapsed
    ensures elapsed / period <= n
  {
    var q := elapsed / period;
    assert elapsed == q * period + elapsed % period;
    if n + 1 <= q {
      MorePeriods(n + 1, q, period);
      assert false;
    }
  }

  lemma MorePeriods(a: int, b: int, period: nat)
    requires a <= b
    ensures a * period <= b * period
  {
    assert b * period == a * period + (b - a) * period;
  }

  // ----- When the clock of a packet starts -----

  /**
   * If a packet was dispatched between c and d and is in flight, then at this
   * instant, once, under the number shown.
   */
  ghost predicate StartedAt(c: Core, d: Core, now: int) {
    |d.hist.dispatched| > |c.hist.dispatched| && d.inFlight.Some? ==>
      var f, last := d.inFlight.value, d.hist.dispatched[|d.hist.dispatched| - 1];
      f.firstSent == now && f.lastSent == now && last.copies == 1 && f.sync == last.sync
  }

  /** Dispatches are only added. */
  predicate Adds(c: Core, d: Core) {
    |c.hist.dispatched| <= |d.hist.dispatched|
  }

  lemma DispatchStarts(c: Core, d: Core, now: int)
    requires Adds(c, d) && StartedAt(c, d, now)
    ensures Adds(c, DispatchIfIdle(d, now)) && StartedAt(c, DispatchIfIdle(d, now), now)
  {
    hide Wire;
  }

  lemma OkStarts(c: Core, d: Core, n: byte, now: int)
    requires Adds(c, d) && StartedAt(c, d, now)
    ensures Adds(c, HandleOk(d, n, now)) && StartedAt(c, HandleOk(d, n, now), now)
  {
    hide Wire, Decimal, DispatchIfIdle;
    if d.inFlight.Some? && !d.inFlight.value.isHandshake && n == d.inFlight.value.sync {
      DispatchStarts(c, AfterAck(d, n), now);
    }
  }

  lemma SyncStarts(c: Core, d: Core, s: u16, m: u16, v: bytes, now: int)
    requires Adds(c, d) && StartedAt(c, d, now)
    ensures Adds(c, Synchronize(d, s, m, v, now)) && StartedAt(c, Synchronize(d, s, m, v, now), now)
  {
    hide DispatchIfIdle;
    DispatchStarts(c, Raise(Renumbered(d, s, m, v), Synced(m, v)), now);
  }

  lemma LineStarts(c: Core, d: Core, raw: bytes, now: int)
    requires Adds(c, d) && StartedAt(c, d, now)
    ensures Adds(c, AcceptLine(d, raw, now)) && StartedAt(c, AcceptLine(d, raw, now), now)
  {
    hide Classify, StripLineEndings, HandleOk, Synchronize;
    match Classify(StripLineEndings(raw))
    case OkLine(n) => OkStarts(c, d, n, now);
    case SyncLine(s, m, v) => SyncStarts(c, d, s, m, v, now);
    case _ =>
  }

  lemma {:induction false} LinesStart(c: Core, d: Core, lines: seq<bytes>, now: int)
    requires Adds(c, d) && StartedAt(c, d, now)
    ensures Adds(c, AcceptLines(d, lines, now)) && StartedAt(c, AcceptLines(d, lines, now), now)
    decreases |lines|
  {
    hide AcceptLine, StartedAt;
    if lines != [] {
      LineStarts(c, d, lines[0], now);
      LinesStart(c, AcceptLine(d, lines[0], now), lines[1..], now);
    }
  }

  /** The instant an operation is given. */
  function TimeOf(op: Op): Option<int> {
    match op
    case OpConnect(now) => Some(now)
    case OpSend(_, _, _, now) => Some(now)
    case OpFeed(_, now) => Some(now)
    case OpTick(now) => Some(now)
    case _ => None
  }

  /**
   * Both clocks of a packet start at the instant given to the operation that
   * dispatched it, be that a send, a line received or a tick that gave up the packet
   * before; and until a tick sends it again it has been transmitted once.
   */
  lemma ClocksStart(h: Host, op: Op)
    requires Allowed(h, op) && !op.OpReset?
    ensures |h.core.hist.dispatched| <= |Step(h, op).core.hist.dispatched|
    ensures |h.core.hist.dispatched| < |Step(h, op).core.hist.dispatched| ==> TimeOf(op).Some?
    ensures TimeOf(op).Some? ==> StartedAt(h.core, Step(h, op).core, TimeOf(op).value)
  {
    hide AcceptLines, Lines, Rest, DispatchIfIdle, Recopied;
    var c := h.core;
    match op
    case OpConnect(now) => DispatchStarts(c, Enqueue(c, HANDSHAKE), now);
    case OpSend(p, t, d, now) => DispatchStarts(c, Enqueue(c, Request(p, t, d, false)), now);
    case OpFeed(chunk, now) => LinesStart(c, c, Lines(h.inbound + chunk), now);
    case OpTick(now) => TickStarts(c, now);
    case _ =>
  }

  lemma TickStarts(c: Core, now: int)
    ensures Adds(c, Tick(c, now)) && StartedAt(c, Tick(c, now), now)
  {
    hide DispatchIfIdle;
    if c.inFlight.Some? && Elapsed(now, c.inFlight.value.firstSent) >= c.totalTimeout {
      var f := c.inFlight.value;
      DispatchStarts(c, Raise(Resolve(c, TimedOut(f.sync)), Timeout(f.sync)), now);
    }
  }
}
