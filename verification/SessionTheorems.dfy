/** The session's promises over whole runs, from the invariant. */
module SessionTheorems {
  import opened Prelude
  import opened Codec
  import opened Scanner
  import opened Text
  import opened SessionSpec
  import opened SessionInvariants

  ghost predicate ReachedBy(h: Host, responseTimeout: nat, totalTimeout: nat, ops: seq<Op>) {
    Run(Fresh(responseTimeout, totalTimeout), ops) == Some(h)
  }

  lemma ReachableInv(h: Host, responseTimeout: nat, totalTimeout: nat, ops: seq<Op>)
    requires ReachedBy(h, responseTimeout, totalTimeout, ops)
    ensures Inv(h.core)
  {
    hide Loose, Run;
    FreshIsInv(responseTimeout, totalTimeout);
    RunKeeps(Fresh(responseTimeout, totalTimeout), ops);
  }

  /** The request in the in-flight slot, as a sequence of zero or one. */
  function InSlot(c: Core): seq<Request>
    requires c.inFlight.Some? ==> c.hist.dispatched != []
  {
    if c.inFlight.Some? then [c.hist.dispatched[|c.hist.dispatched| - 1].request] else []
  }

  /**
   * Conservation and FIFO: what was enqueued is what was resolved, then the
   * packet in flight, then the queue, in that order; an idle session has
   * nothing waiting; the Ack and Timeout events name the resolved packets in order.
   */
  lemma Conservation(h: Host, responseTimeout: nat, totalTimeout: nat, ops: seq<Op>)
    requires ReachedBy(h, responseTimeout, totalTimeout, ops)
    ensures var c := h.core;
            && |c.hist.resolved| <= |c.hist.dispatched|
            && (c.inFlight.Some? ==> c.hist.dispatched != [])
            && c.hist.enqueued
               == Requests(c.hist.dispatched[..|c.hist.resolved|]) + InSlot(c) + c.queued
            && (c.inFlight.None? ==> c.queued == [])
            && (forall i :: 0 <= i < |c.hist.resolved| ==> Fits(c.hist.resolved[i], c.hist.dispatched[i]))
            && Settled(c.hist.raised) == WithoutHandshakes(c.hist.resolved)
  {
    hide Wire, Expand, Numbered, CountAcks, Timers, Run, Settled, WithoutHandshakes;
    ReachableInv(h, responseTimeout, totalTimeout, ops);
    var c := h.core;
    var ds, k := c.hist.dispatched, |c.hist.resolved|;
    assert Requests(ds) == Requests(ds[..k]) + InSlot(c);
  }

  /** Until an ss has been received, only handshake frames reach outbound. */
  lemma HandshakeFirst(h: Host, responseTimeout: nat, totalTimeout: nat, ops: seq<Op>)
    requires ReachedBy(h, responseTimeout, totalTimeout, ops)
    requires h.core.hist.handshakes == 0
    ensures !h.core.isSynced
    ensures forall d :: d in h.core.hist.dispatched ==> d.request.isHandshake
  {
    hide Wire, Expand, Numbered, CountAcks, Timers, Run, Settled, WithoutHandshakes;
    ReachableInv(h, responseTimeout, totalTimeout, ops);
    var c := h.core.hist;
    assert forall i :: 0 <= i < |c.dispatched| ==>
        c.dispatched[i].request == c.enqueued[i] && c.enqueued[i] in c.enqueued;
  }

  /** However tick is called, r retransmissions of one packet need r response timeouts within the budget. */
  lemma RetransmitBound(h: Host, responseTimeout: nat, totalTimeout: nat, ops: seq<Op>, d: Dispatch)
    requires ReachedBy(h, responseTimeout, totalTimeout, ops)
    requires d in h.core.hist.dispatched
    ensures d.copies >= 1
    ensures d.copies > 1 ==> (d.copies - 1) * responseTimeout < totalTimeout
  {
    hide Wire, Expand, Numbered, CountAcks, Run, Settled, WithoutHandshakes;
    ReachableInv(h, responseTimeout, totalTimeout, ops);
    TimeoutsFixed(Fresh(responseTimeout, totalTimeout), ops);
    assert WithinBudget(d, responseTimeout, totalTimeout);
  }

  /** With the default timeouts a packet is transmitted at most 20 times. */
  lemma DefaultRetransmitBound(h: Host, ops: seq<Op>, d: Dispatch)
    requires ReachedBy(h, DEFAULT_RESPONSE_TIMEOUT, DEFAULT_TOTAL_TIMEOUT, ops)
    requires d in h.core.hist.dispatched
    ensures 1 <= d.copies <= 20
  {
    hide Run;
    RetransmitBound(h, DEFAULT_RESPONSE_TIMEOUT, DEFAULT_TOTAL_TIMEOUT, ops, d);
  }

  predicate SameTimeouts(c: Core, d: Core) {
    c.responseTimeout == d.responseTimeout && c.totalTimeout == d.totalTimeout
  }

  lemma {:induction false} LinesKeepTimeouts(c: Core, lines: seq<bytes>, now: int)
    ensures SameTimeouts(c, AcceptLines(c, lines, now))
    decreases |lines|
  {
    hide Wire, Classify, StripLineEndings;
    if lines != [] {
      LinesKeepTimeouts(AcceptLine(c, lines[0], now), lines[1..], now);
    }
  }

  lemma {:induction false} TimeoutsFixed(h: Host, ops: seq<Op>)
    ensures Run(h, ops).Some? ==> SameTimeouts(h.core, Run(h, ops).value.core)
    decreases |ops|
  {
    hide Wire, AcceptLines, Lines;
    if ops != [] && Allowed(h, ops[0]) {
      if ops[0].OpFeed? {
        LinesKeepTimeouts(h.core, Lines(h.inbound + ops[0].chunk), ops[0].now);
      }
      TimeoutsFixed(Step(h, ops[0]), ops[1..]);
    }
  }

  /**
   * Sync accounting: the counter is the number the last ss carried plus the Ack
   * events raised since its Synced event, modulo 256, however many ss have come;
   * while that ss is the only one, each data packet was given that number plus the
   * acks raised before its dispatch.
   */
  lemma SyncAccounting(h: Host, responseTimeout: nat, totalTimeout: nat, ops: seq<Op>)
    requires ReachedBy(h, responseTimeout, totalTimeout, ops)
    ensures var c := h.core;
            && c.sync == (c.hist.base + AcksSinceSynced(c.hist.raised)) % 256
            && c.hist.acksSinceBase == AcksSinceSynced(c.hist.raised)
            && c.hist.handshakes == CountSynced(c.hist.raised)
            && (c.hist.handshakes <= 1 ==> AcksSinceSynced(c.hist.raised) == CountAcks(c.hist.resolved))
            && (c.hist.handshakes <= 1 ==> Numbered(c.hist.dispatched, c.hist.resolved, c.hist.base))
  {
    hide Wire, Expand, Timers, Run, Settled, WithoutHandshakes;
    ReachableInv(h, responseTimeout, totalTimeout, ops);
  }

  /** Every frame in flight or acknowledged shows its number at offset 2. */
  lemma AckNamesByteTwo(h: Host, responseTimeout: nat, totalTimeout: nat, ops: seq<Op>, i: nat)
    requires ReachedBy(h, responseTimeout, totalTimeout, ops)
    requires i < |h.core.hist.resolved| && h.core.hist.resolved[i].Acked?
    ensures i < |h.core.hist.dispatched|
    ensures var d := h.core.hist.dispatched[i];
            !d.request.isHandshake && Wire(d.request, d.sync)[2] == h.core.hist.resolved[i].n
  {
    hide Frame, Expand, Numbered, CountAcks, Timers, Run, Settled, WithoutHandshakes;
    ReachableInv(h, responseTimeout, totalTimeout, ops);
    var d := h.core.hist.dispatched[i];
    FrameFields(PacketOf(d.request, d.sync), []);
    assert Frame(PacketOf(d.request, d.sync)) + [] == Frame(PacketOf(d.request, d.sync));
  }

  // ----- Outbound, decoded -----

  /** The dispatched packets in order, each one's copies contiguous. */
  function Stutter(ds: seq<Dispatch>): (ps: seq<Packet>)
    ensures forall p :: p in ps ==> Encodable(p)
  {
    if ds == [] then []
    else
      var d := ds[|ds| - 1];
      Stutter(ds[..|ds| - 1]) + Repeat(PacketOf(d.request, d.sync), d.copies)
  }

  lemma {:induction false} FramesAppend(ps: seq<Packet>, qs: seq<Packet>)
    requires forall p :: p in ps + qs ==> Encodable(p)
    requires (forall p :: p in ps ==> Encodable(p)) && forall p :: p in qs ==> Encodable(p)
    ensures Frames(ps + qs) == Frames(ps) + Frames(qs)
  {
    hide Frame;
    if ps == [] {
      assert ps + qs == qs;
    } else {
      assert (ps + qs)[1..] == ps[1..] + qs;
      FramesAppend(ps[1..], qs);
    }
  }

  lemma {:induction false} FramesRepeat(p: Packet, n: nat)
    requires Encodable(p)
    ensures Frames(Repeat(p, n)) == Repeat(Frame(p), n)
  {
    hide Frame;
    if n > 0 {
      assert Repeat(p, n)[1..] == Repeat(p, n - 1);
      FramesRepeat(p, n - 1);
      assert Repeat(Frame(p), n) == [Frame(p)] + Repeat(Frame(p), n - 1);
    }
  }

  lemma {:induction false} ExpandIsFrames(ds: seq<Dispatch>)
    ensures Expand(ds) == Frames(Stutter(ds))
  {
    hide Frame, Repeat;
    if ds != [] {
      var front, d := ds[..|ds| - 1], ds[|ds| - 1];
      ExpandIsFrames(front);
      FramesRepeat(PacketOf(d.request, d.sync), d.copies);
      FramesAppend(Stutter(front), Repeat(PacketOf(d.request, d.sync), d.copies));
    }
  }

  /**
   * All bytes ever pushed to outbound, cut into any chunks and fed to the
   * streaming decoder, are exactly the dispatched packets in FIFO order with
   * their retransmitted copies contiguous, and nothing is left over. What
   * outbound still holds is the end of what was pushed.
   */
  lemma OutboundDecodes(h: Host, responseTimeout: nat, totalTimeout: nat, ops: seq<Op>, chunks: seq<bytes>)
    requires ReachedBy(h, responseTimeout, totalTimeout, ops)
    requires Concat(chunks) == Concat(h.core.hist.emitted)
    ensures ScanChunks([], chunks) == Scanned(Stutter(h.core.hist.dispatched), [])
    ensures h.core.hist.enqueued == Requests(h.core.hist.dispatched) + h.core.queued
    ensures var pushed, held := h.core.hist.emitted, h.core.outbound;
            |held| <= |pushed| && held == pushed[|pushed| - |held|..]
  {
    hide Frame, Expand, Numbered, CountAcks, Timers, Run, Settled, WithoutHandshakes, Stutter, Scan, Frames,
         AcksSinceSynced, CountSynced;
    ReachableInv(h, responseTimeout, totalTimeout, ops);
    var ds := h.core.hist.dispatched;
    ExpandIsFrames(ds);
    ScanFrames(Stutter(ds));
    ScanNothing();
    AnyChunking([], chunks);
    assert [] + Concat(chunks) == Concat(chunks);
  }

  /** The frames handed out by poll_outbound, in order. */
  function PoppedBy(h: Host, ops: seq<Op>): seq<bytes>
    requires Run(h, ops).Some?
    decreases |ops|
  {
    if ops == [] then []
    else
      (if ops[0].OpPollOutbound? && h.core.outbound != [] then [h.core.outbound[0]] else [])
      + PoppedBy(Step(h, ops[0]), ops[1..])
  }

  /** Nothing is pushed to outbound without being noted. */
  ghost predicate Pushes(c: Core, d: Core) {
    exists x :: d.outbound == c.outbound + x && d.hist.emitted == c.hist.emitted + x
  }

  lemma PushesNothing(c: Core, d: Core)
    requires d.outbound == c.outbound && d.hist.emitted == c.hist.emitted
    ensures Pushes(c, d)
  {
    assert d.outbound == c.outbound + [] && d.hist.emitted == c.hist.emitted + [];
  }

  lemma PushesOne(c: Core, d: Core, f: bytes)
    requires d.outbound == c.outbound + [f] && d.hist.emitted == c.hist.emitted + [f]
    ensures Pushes(c, d)
  {
  }

  lemma DispatchPushes(c: Core, now: int)
    ensures Pushes(c, DispatchIfIdle(c, now))
  {
    hide Wire, Pushes;
    if c.inFlight.None? && c.queued != [] {
      PushesOne(c, DispatchIfIdle(c, now), Wire(c.queued[0], c.sync));
    } else {
      PushesNothing(c, c);
    }
  }

  lemma PushesThen(c: Core, d: Core, e: Core)
    requires Pushes(c, d) && Pushes(d, e)
    ensures Pushes(c, e)
  {
    var x :| d.outbound == c.outbound + x && d.hist.emitted == c.hist.emitted + x;
    var y :| e.outbound == d.outbound + y && e.hist.emitted == d.hist.emitted + y;
    assert e.outbound == c.outbound + (x + y) && e.hist.emitted == c.hist.emitted + (x + y);
  }

  /** A change of anything but the ends of the pipe, then a dispatch. */
  lemma ChangeThenDispatch(c: Core, d: Core, now: int)
    requires d.outbound == c.outbound && d.hist.emitted == c.hist.emitted
    ensures Pushes(c, DispatchIfIdle(d, now))
  {
    hide DispatchIfIdle, Pushes;
    PushesNothing(c, d);
    DispatchPushes(d, now);
    PushesThen(c, d, DispatchIfIdle(d, now));
  }

  lemma LinePushes(c: Core, raw: bytes, now: int)
    ensures Pushes(c, AcceptLine(c, raw, now))
  {
    hide Wire, Classify, StripLineEndings, Pushes, DispatchIfIdle, Decimal;
    var line, d := StripLineEndings(raw), AcceptLine(c, raw, now);
    if line != [] && Classify(line).OkLine? {
      var n := Classify(line).n;
      if c.inFlight.Some? && !c.inFlight.value.isHandshake && n == c.inFlight.value.sync {
        ChangeThenDispatch(c, AfterAck(c, n), now);
      } else {
        PushesNothing(c, d);
      }
    } else if line != [] && Classify(line).SyncLine? {
      var l := Classify(line);
      ChangeThenDispatch(c, Raise(Renumbered(c, l.sync, l.maxBlockSize, l.version), Synced(l.maxBlockSize, l.version)),
                         now);
    } else {
      PushesNothing(c, d);
    }
  }

  lemma {:induction false} LinesPush(c: Core, lines: seq<bytes>, now: int)
    ensures Pushes(c, AcceptLines(c, lines, now))
    decreases |lines|
  {
    hide AcceptLine, Pushes;
    if lines == [] {
      PushesNothing(c, c);
    } else {
      var d := AcceptLine(c, lines[0], now);
      LinePushes(c, lines[0], now);
      LinesPush(d, lines[1..], now);
      PushesThen(c, d, AcceptLines(d, lines[1..], now));
    }
  }

  lemma TickPushes(c: Core, now: int)
    ensures Pushes(c, Tick(c, now))
  {
    hide Wire, Pushes, DispatchIfIdle, Recopied;
    if c.inFlight.Some? {
      var f := c.inFlight.value;
      if Elapsed(now, f.firstSent) >= c.totalTimeout {
        ChangeThenDispatch(c, Raise(Resolve(c, TimedOut(f.sync)), Timeout(f.sync)), now);
      } else if Elapsed(now, f.lastSent) >= c.responseTimeout {
        PushesOne(c, Tick(c, now), f.frame);
      } else {
        PushesNothing(c, c);
      }
    } else {
      PushesNothing(c, c);
    }
  }

  lemma OpPushes(h: Host, op: Op)
    requires Allowed(h, op) && !op.OpReset? && !op.OpPollOutbound?
    ensures Pushes(h.core, Step(h, op).core)
  {
    hide Wire, Pushes, DispatchIfIdle, Tick, AcceptLines, Lines, Rest;
    var c := h.core;
    match op
    case OpConnect(now) => ChangeThenDispatch(c, Enqueue(c, HANDSHAKE), now);
    case OpSend(p, t, d, now) => ChangeThenDispatch(c, Enqueue(c, Request(p, t, d, false)), now);
    case OpFeed(chunk, now) => LinesPush(c, Lines(h.inbound + chunk), now);
    case OpTick(now) => TickPushes(c, now);
    case OpPollEvent => PushesNothing(c, Step(h, op).core);
  }

  /**
   * Along any run without reset, what poll_outbound handed out, followed by what
   * outbound still holds, is what it held before followed by everything pushed.
   */
  lemma {:induction false} PoppedThenPending(h: Host, ops: seq<Op>)
    requires Run(h, ops).Some? && forall op :: op in ops ==> !op.OpReset?
    ensures var g := Run(h, ops).value;
            && h.core.hist.emitted <= g.core.hist.emitted
            && PoppedBy(h, ops) + g.core.outbound
               == h.core.outbound + g.core.hist.emitted[|h.core.hist.emitted|..]
    decreases |ops|
  {
    hide Step, Allowed, Pushes;
    if ops != [] {
      var d := Step(h, ops[0]);
      assert ops[0] in ops;
      PoppedThenPending(d, ops[1..]);
      if ops[0].OpPollOutbound? {
        PopStep(h, PoppedBy(d, ops[1..]), Run(d, ops[1..]).value.core);
      } else {
        OpPushes(h, ops[0]);
        PushStep(h.core, d.core, PoppedBy(d, ops[1..]), Run(d, ops[1..]).value.core);
      }
    }
  }

  lemma PopStep(h: Host, popped: seq<bytes>, g: Core)
    requires var d := Step(h, OpPollOutbound).core;
             && d.hist.emitted <= g.hist.emitted
             && popped + g.outbound == d.outbound + g.hist.emitted[|d.hist.emitted|..]
    ensures h.core.hist.emitted <= g.hist.emitted
    ensures (if h.core.outbound != [] then [h.core.outbound[0]] else []) + popped + g.outbound
         == h.core.outbound + g.hist.emitted[|h.core.hist.emitted|..]
  {
    var out, rest := h.core.outbound, g.hist.emitted[|h.core.hist.emitted|..];
    if out != [] {
      assert [out[0]] + popped + g.outbound == [out[0]] + (popped + g.outbound);
      assert [out[0]] + (out[1..] + rest) == out + rest;
    } else {
      assert [] + popped + g.outbound == popped + g.outbound;
    }
  }

  lemma PushStep(c: Core, d: Core, popped: seq<bytes>, g: Core)
    requires Pushes(c, d) && d.hist.emitted <= g.hist.emitted
    requires popped + g.outbound == d.outbound + g.hist.emitted[|d.hist.emitted|..]
    ensures c.hist.emitted <= g.hist.emitted
    ensures [] + popped + g.outbound == c.outbound + g.hist.emitted[|c.hist.emitted|..]
  {
    var x :| d.outbound == c.outbound + x && d.hist.emitted == c.hist.emitted + x;
    DropLess(c.hist.emitted, x, g.hist.emitted);
    JoinAssociates(c.outbound, x, g.hist.emitted[|d.hist.emitted|..]);
    assert [] + popped == popped;
  }

  lemma DropLess<X>(a: seq<X>, x: seq<X>, s: seq<X>)
    requires a + x <= s
    ensures a <= s && s[|a|..] == x + s[|a + x|..]
  {
  }

  lemma ScanNothing()
    ensures Scan([]) == Scanned([], [])
  {
  }

  // ----- Inbound, in any chunks -----

  lemma NoLine(buf: bytes)
    requires IndexOf(buf, LF) == |buf|
    ensures Lines(buf) == [] && Rest(buf) == buf
  {
    hide IndexOf;
  }

  lemma FirstLine(buf: bytes, first: bytes, rest: bytes)
    requires var pos := IndexOf(buf, LF); pos < |buf| && first == buf[..pos + 1] && rest == buf[pos + 1..]
    ensures Lines(buf) == [first] + Lines(rest)
  {
    hide IndexOf;
  }

  lemma RestOfLines(buf: bytes, rest: bytes)
    requires var pos := IndexOf(buf, LF); pos < |buf| && rest == buf[pos + 1..]
    ensures Rest(buf) == Rest(rest)
  {
    hide IndexOf;
  }

  lemma SameFirstLine(a: bytes, b: bytes, pos: nat)
    requires pos == IndexOf(a, LF) && pos < |a|
    ensures IndexOf(a + b, LF) == pos
    ensures (a + b)[..pos + 1] == a[..pos + 1] && (a + b)[pos + 1..] == a[pos + 1..] + b
  {
    hide IndexOf;
    IndexOfUnique(a + b, LF, pos);
  }

  lemma {:induction false} LinesAppend(a: bytes, b: bytes)
    ensures Lines(a + b) == Lines(a) + Lines(Rest(a) + b)
    ensures Rest(a + b) == Rest(Rest(a) + b)
    decreases |a|
  {
    hide Lines, Rest, IndexOf;
    var pos := IndexOf(a, LF);
    if pos < |a| {
      var first, rest := a[..pos + 1], a[pos + 1..];
      FirstLine(a, first, rest);
      RestOfLines(a, rest);
      SameFirstLine(a, b, pos);
      FirstLine(a + b, first, rest + b);
      RestOfLines(a + b, rest + b);
      LinesAppend(rest, b);
      JoinAssociates([first], Lines(rest), Lines(Rest(rest) + b));
    } else {
      NoLine(a);
      assert [] + Lines(a + b) == Lines(a + b);
    }
  }

  lemma {:induction false} AcceptLinesAppend(c: Core, xs: seq<bytes>, ys: seq<bytes>, now: int)
    ensures AcceptLines(c, xs + ys, now) == AcceptLines(AcceptLines(c, xs, now), ys, now)
    decreases |xs|
  {
    hide AcceptLine;
    if xs == [] {
      assert xs + ys == ys;
    } else {
      assert (xs + ys)[1..] == xs[1..] + ys;
      AcceptLinesAppend(AcceptLine(c, xs[0], now), xs[1..], ys, now);
    }
  }

  lemma FeedTwice(h: Host, a: bytes, b: bytes, now: int)
    ensures Feed(Feed(h, a, now), b, now) == Feed(h, a + b, now)
  {
    hide AcceptLines, Lines, Rest;
    LinesAppend(h.inbound + a, b);
    assert h.inbound + (a + b) == (h.inbound + a) + b;
    AcceptLinesAppend(h.core, Lines(h.inbound + a), Lines(Rest(h.inbound + a) + b), now);
  }

  function FeedAll(h: Host, chunks: seq<bytes>, now: int): Host
    decreases |chunks|
  {
    if chunks == [] then h else FeedAll(Feed(h, chunks[0], now), chunks[1..], now)
  }

  /** Any partition of the received bytes leaves the same session, history included. */
  lemma {:induction false} LineChunkInvariance(h: Host, chunks: seq<bytes>, now: int)
    requires LF !in h.inbound
    ensures FeedAll(h, chunks, now) == Feed(h, Concat(chunks), now)
    decreases |chunks|
  {
    hide AcceptLine;
    if chunks == [] {
      assert h.inbound + [] == h.inbound;
      IndexOfUnique(h.inbound, LF, |h.inbound|);
    } else {
      LineChunkInvariance(Feed(h, chunks[0], now), chunks[1..], now);
      FeedTwice(h, chunks[0], Concat(chunks[1..]), now);
    }
  }

  /** Between calls the buffer holds no newline. */
  lemma {:induction false} NoNewlineBuffered(h: Host, ops: seq<Op>)
    requires LF !in h.inbound
    ensures Run(h, ops).Some? ==> LF !in Run(h, ops).value.inbound
    decreases |ops|
  {
    hide AcceptLines, Lines, Rest, Submit, Tick;
    if ops != [] && Allowed(h, ops[0]) {
      NoNewlineBuffered(Step(h, ops[0]), ops[1..]);
    }
  }

  // ----- A silent peer -----

  function TickAll(c: Core, times: seq<int>): Core
    decreases |times|
  {
    if times == [] then c else TickAll(Tick(c, times[0]), times[1..])
  }

  /** Each tick comes at least the total timeout after the then current packet was first sent. */
  predicate AllOverdue(c: Core, times: seq<int>)
    decreases |times|
  {
    times == []
    || ((c.inFlight.Some? ==> Elapsed(times[0], c.inFlight.value.firstSent) >= c.totalTimeout)
        && AllOverdue(Tick(c, times[0]), times[1..]))
  }

  function Outstanding(c: Core): nat {
    |c.queued| + if c.inFlight.Some? then 1 else 0
  }

  /**
   * With a dead peer one overdue tick per outstanding packet drains the session:
   * exactly one Timeout each, in FIFO order, the counter unchanged, and idle at the end.
   */
  lemma {:induction false} DeadPeerDrains(c: Core, times: seq<int>)
    requires Inv(c) && AllOverdue(c, times) && |times| == Outstanding(c)
    ensures var e := TickAll(c, times);
            && Inv(e) && e.inFlight.None? && e.queued == [] && e.sync == c.sync
            && e.events == c.events + (if c.inFlight.None? then []
                                       else [Timeout(c.inFlight.value.sync)] + Repeat(Timeout(c.sync), |c.queued|))
            && e.hist.enqueued == c.hist.enqueued == Requests(e.hist.dispatched)
            && |e.hist.resolved| == |e.hist.dispatched|
            && c.hist.resolved <= e.hist.resolved
            && forall i :: |c.hist.resolved| <= i < |e.hist.resolved| ==>
                 e.hist.resolved[i] == TimedOut(e.hist.dispatched[i].sync)
    decreases |times|
  {
    hide Tick, Loose, Repeat;
    if times == [] {
      DrainedState(c);
    } else {
      var d := Tick(c, times[0]);
      OverdueTick(c, times[0]);
      DeadPeerDrains(d, times[1..]);
      var e, k := TickAll(d, times[1..]), |c.hist.resolved|;
      if c.queued != [] {
        RepeatCons(Timeout(c.sync), |d.queued|);
      }
      assert d.hist.resolved[k] == TimedOut(c.inFlight.value.sync);
      OutcomeAt(e, k);
    }
  }

  lemma RepeatCons<T>(x: T, n: nat)
    ensures Repeat(x, n + 1) == [x] + Repeat(x, n)
  {
  }

  lemma OutcomeAt(c: Core, k: nat)
    requires Inv(c) && k < |c.hist.resolved| && c.hist.resolved[k].TimedOut?
    ensures k < |c.hist.dispatched| && c.hist.resolved[k] == TimedOut(c.hist.dispatched[k].sync)
  {
    hide Wire, Expand, Numbered, CountAcks, Timers, Settled, WithoutHandshakes;
  }

  lemma DrainedState(c: Core)
    requires Inv(c) && Outstanding(c) == 0
    ensures c.hist.enqueued == Requests(c.hist.dispatched) && |c.hist.resolved| == |c.hist.dispatched|
  {
    hide Wire, Expand, Numbered, CountAcks, Timers, Settled, WithoutHandshakes;
    assert Requests(c.hist.dispatched) + [] == Requests(c.hist.dispatched);
  }

  /** One overdue tick times out the packet in flight and sends the next one under the same number. */
  lemma OverdueTick(c: Core, now: int)
    requires Inv(c) && Outstanding(c) > 0
    requires c.inFlight.Some? ==> Elapsed(now, c.inFlight.value.firstSent) >= c.totalTimeout
    ensures Inv(Tick(c, now)) && c.inFlight.Some?
    ensures var d, n := Tick(c, now), c.inFlight.value.sync;
            && d.sync == c.sync && d.hist.enqueued == c.hist.enqueued
            && d.events == c.events + [Timeout(n)] && d.hist.resolved == c.hist.resolved + [TimedOut(n)]
            && (if c.queued == [] then d.inFlight.None? && d.queued == []
                else d.inFlight.Some? && d.inFlight.value.sync == c.sync && d.queued == c.queued[1..])
  {
    hide Wire, Loose;
    TickKeeps(c, now);
  }

  // ----- Retransmission happens, and the bound is attained -----

  /** Ticks that each come a response timeout after the last transmission and within the budget. */
  predicate AllDue(c: Core, times: seq<int>)
    decreases |times|
  {
    times == []
    || (c.inFlight.Some?
        && Elapsed(times[0], c.inFlight.value.firstSent) < c.totalTimeout
        && Elapsed(times[0], c.inFlight.value.lastSent) >= c.responseTimeout
        && AllDue(Tick(c, times[0]), times[1..]))
  }

  /** Every due tick pushes one more identical copy of the frame in flight, and raises nothing. */
  lemma {:induction false} DueTicksRetransmit(c: Core, times: seq<int>)
    requires Inv(c) && c.inFlight.Some? && AllDue(c, times)
    ensures var e, f := TickAll(c, times), c.inFlight.value;
            && Inv(e)
            && e.inFlight == Some(f.(lastSent := if times == [] then f.lastSent else times[|times| - 1]))
            && e.outbound == c.outbound + Repeat(f.frame, |times|)
            && e.hist.emitted == c.hist.emitted + Repeat(f.frame, |times|)
            && e.events == c.events && e.sync == c.sync && e.queued == c.queued
            && |e.hist.dispatched| == |c.hist.dispatched| > 0
            && e.hist.dispatched[|e.hist.dispatched| - 1].copies
               == c.hist.dispatched[|c.hist.dispatched| - 1].copies + |times|
    decreases |times|
  {
    hide Tick, Loose, Repeat;
    if times == [] {
      SlotHasDispatch(c);
    } else {
      DueTick(c, times[0]);
      DueTicksRetransmit(Tick(c, times[0]), times[1..]);
      RepeatCons(c.inFlight.value.frame, |times| - 1);
      JoinAssociates(c.outbound, [c.inFlight.value.frame], Repeat(c.inFlight.value.frame, |times| - 1));
      JoinAssociates(c.hist.emitted, [c.inFlight.value.frame], Repeat(c.inFlight.value.frame, |times| - 1));
    }
  }

  lemma SlotHasDispatch(c: Core)
    requires Inv(c) && c.inFlight.Some?
    ensures c.hist.dispatched != []
  {
    hide Wire, Expand, Numbered, CountAcks, Timers, Settled, WithoutHandshakes;
  }

  lemma DueTick(c: Core, now: int)
    requires Inv(c) && c.inFlight.Some?
    requires Elapsed(now, c.inFlight.value.firstSent) < c.totalTimeout
    requires Elapsed(now, c.inFlight.value.lastSent) >= c.responseTimeout
    ensures Inv(Tick(c, now))
    ensures var d, f := Tick(c, now), c.inFlight.value;
            && d.inFlight == Some(f.(lastSent := now))
            && d.outbound == c.outbound + [f.frame] && d.hist.emitted == c.hist.emitted + [f.frame]
            && d.events == c.events && d.sync == c.sync && d.queued == c.queued
            && |d.hist.dispatched| == |c.hist.dispatched| > 0
            && d.hist.dispatched[|d.hist.dispatched| - 1].copies
               == c.hist.dispatched[|c.hist.dispatched| - 1].copies + 1
  {
    hide Wire, Loose;
    TickKeeps(c, now);
    SlotHasDispatch(c);
  }

  lemma {:induction false} RunThen(h: Host, ops: seq<Op>, g: Host, op: Op)
    requires Run(h, ops) == Some(g) && Allowed(g, op)
    ensures Run(h, ops + [op]) == Some(Step(g, op))
    decreases |ops|
  {
    hide Step, Allowed;
    if ops == [] {
      var one := [op];
      assert one[1..] == [] && ops + one == one;
    } else {
      assert (ops + [op])[1..] == ops[1..] + [op];
      RunThen(Step(h, ops[0]), ops[1..], g, op);
    }
  }

  lemma ReachedThen(h: Host, responseTimeout: nat, totalTimeout: nat, ops: seq<Op>, op: Op)
    requires ReachedBy(h, responseTimeout, totalTimeout, ops) && Allowed(h, op)
    ensures ReachedBy(Step(h, op), responseTimeout, totalTimeout, ops + [op])
  {
    hide Run, Step, Allowed;
    RunThen(Fresh(responseTimeout, totalTimeout), ops, h, op);
  }

  /** With the default timeouts every number of transmissions from 1 to 20 is reached by some run. */
  lemma {:induction false} TransmissionsReached(n: nat) returns (h: Host, ops: seq<Op>)
    requires 1 <= n <= 20
    ensures ReachedBy(h, DEFAULT_RESPONSE_TIMEOUT, DEFAULT_TOTAL_TIMEOUT, ops)
    ensures h.core.hist.dispatched == [Dispatch(HANDSHAKE, 0, n)]
    ensures h.core.inFlight == Some(InFlight(0, Wire(HANDSHAKE, 0), 0, (n - 1) * 1000, true))
    ensures h.core.responseTimeout == DEFAULT_RESPONSE_TIMEOUT && h.core.totalTimeout == DEFAULT_TOTAL_TIMEOUT
    decreases n
  {
    hide Wire;
    var start := Fresh(DEFAULT_RESPONSE_TIMEOUT, DEFAULT_TOTAL_TIMEOUT);
    if n == 1 {
      h, ops := Step(start, OpConnect(0)), [OpConnect(0)];
      RunThen(start, [], start, OpConnect(0));
      assert [] + ops == ops;
    } else {
      var g, before := TransmissionsReached(n - 1);
      h, ops := Step(g, OpTick((n - 1) * 1000)), before + [OpTick((n - 1) * 1000)];
      RunThen(start, before, g, OpTick((n - 1) * 1000));
    }
  }

  // ----- An ss while a data packet is in flight -----

  /** Since c, the packet then in flight was resolved, or it still flies under the counter of c or of a later ss. */
  ghost predicate Flying(c: Core, d: Core)
    requires c.inFlight.Some?
  {
    || |d.hist.resolved| > |c.hist.resolved|
    || (&& d.hist.resolved == c.hist.resolved
        && d.inFlight.Some? && d.inFlight == Some(c.inFlight.value.(lastSent := d.inFlight.value.lastSent))
        && c.hist.handshakes <= d.hist.handshakes
        && d.sync == if d.hist.handshakes == c.hist.handshakes then c.sync else d.hist.base)
  }

  /** A data packet in flight. */
  predicate DataInFlight(c: Core) {
    c.inFlight.Some? && !c.inFlight.value.isHandshake
  }

  lemma OkFlies(c: Core, d: Core, n: byte, now: int)
    requires DataInFlight(c) && Flying(c, d)
    ensures Flying(c, HandleOk(d, n, now))
  {
    hide Wire, Decimal;
  }

  lemma SyncFlies(c: Core, d: Core, s: u16, m: u16, v: bytes, now: int)
    requires DataInFlight(c) && Flying(c, d)
    ensures Flying(c, Synchronize(d, s, m, v, now))
  {
    hide Wire;
  }

  lemma NoteFlies(c: Core, d: Core, e: Event)
    requires DataInFlight(c) && Flying(c, d)
    ensures Flying(c, Raise(d, e))
  {
  }

  lemma LineFlies(c: Core, d: Core, raw: bytes, now: int)
    requires DataInFlight(c) && Flying(c, d)
    ensures Flying(c, AcceptLine(d, raw, now))
  {
    hide Wire, Classify, StripLineEndings, Flying, HandleOk, Synchronize, Raise;
    match Classify(StripLineEndings(raw))
    case OkLine(n) => OkFlies(c, d, n, now);
    case ResendLine(n) => NoteFlies(c, d, ResendRequested(n));
    case SyncLine(s, m, v) => SyncFlies(c, d, s, m, v, now);
    case FatalLine => NoteFlies(c, d, FatalError);
    case TextLine(t) => NoteFlies(c, d, AsciiLine(t));
    case Ignored =>
  }

  lemma {:induction false} LinesFly(c: Core, d: Core, lines: seq<bytes>, now: int)
    requires DataInFlight(c) && Flying(c, d)
    ensures Flying(c, AcceptLines(d, lines, now))
    decreases |lines|
  {
    hide Flying, AcceptLine;
    if lines != [] {
      LineFlies(c, d, lines[0], now);
      LinesFly(c, AcceptLine(d, lines[0], now), lines[1..], now);
    }
  }

  lemma OpFlies(c: Core, h: Host, op: Op)
    requires DataInFlight(c) && Flying(c, h.core) && Allowed(h, op) && !op.OpReset?
    ensures Flying(c, Step(h, op).core)
  {
    hide Wire, AcceptLines, Lines, Rest;
    if op.OpFeed? {
      LinesFly(c, h.core, Lines(h.inbound + op.chunk), op.now);
    }
  }

  lemma {:induction false} RunFlies(c: Core, h: Host, ops: seq<Op>)
    requires DataInFlight(c) && Flying(c, h.core) && forall op :: op in ops ==> !op.OpReset?
    ensures Run(h, ops).Some? ==> Flying(c, Run(h, ops).value.core)
    decreases |ops|
  {
    hide Flying, Step;
    if ops != [] && Allowed(h, ops[0]) {
      assert ops[0] in ops;
      OpFlies(c, h, ops[0]);
      RunFlies(c, Step(h, ops[0]), ops[1..]);
    }
  }

  /**
   * However a run without reset goes on after a data packet was dispatched: as
   * long as the packet is in flight it keeps its number and its bytes, the counter
   * is that number or what the last ss since the dispatch said, so the two
   * disagree exactly when an ss has come whose last number was another; and the
   * packet's ok is still accepted, after which the counter steps on from its own
   * value, not from the packet's.
   */
  lemma SsDuringFlight(h: Host, ops: seq<Op>, g: Host, now: int)
    requires DataInFlight(h.core) && h.core.inFlight.value.sync == h.core.sync
    requires Run(h, ops) == Some(g) && forall op :: op in ops ==> !op.OpReset?
    requires |g.core.hist.resolved| <= |h.core.hist.resolved|
    ensures var f, c, d := h.core.inFlight.value, h.core, g.core;
            && d.inFlight.Some? && d.inFlight.value.sync == f.sync && d.inFlight.value.frame == f.frame
            && (d.sync != f.sync <==> d.hist.handshakes > c.hist.handshakes && d.hist.base != f.sync)
            && HandleOk(d, f.sync, now).hist.resolved == c.hist.resolved + [Acked(f.sync)]
            && HandleOk(d, f.sync, now).sync == (d.sync + 1) % 256
  {
    hide Run, Wire;
    RunFlies(h.core, h, ops);
  }
}
