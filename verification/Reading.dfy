/** The events a session has handed out so far, and the first of them that decides a wait. */
module Reading {
  import opened Prelude
  import opened Text
  import opened SessionSpec
  import opened SessionInvariants
  import opened SessionTheorems
  import opened TransferTheorems
  import T = TransferSpec

  /** Everything raised but what is still pending. */
  function ReadSoFar(c: Core): seq<Event> {
    if |c.events| <= |c.hist.raised| then c.hist.raised[..|c.hist.raised| - |c.events|] else []
  }

  /** The events read after the first `start`. */
  function ReadAfter(c: Core, start: nat): seq<Event> {
    Later(ReadSoFar(c), start)
  }

  function Later(es: seq<Event>, start: nat): seq<Event> {
    if start <= |es| then es[start..] else []
  }

  /** What a wait for Synced, or for an Ack, ends with; a breaking event ends either. */
  predicate Decides(e: Event, handshake: bool) {
    Breaks(e) || if handshake then e.Synced? else e.Ack?
  }

  ghost predicate Undecided(es: seq<Event>, handshake: bool) {
    forall e :: e in es ==> !Decides(e, handshake)
  }

  /** The last event read is the first that decides. */
  ghost predicate DecidedBy(es: seq<Event>, handshake: bool, e: Event) {
    es != [] && es[|es| - 1] == e && Decides(e, handshake) && Undecided(es[..|es| - 1], handshake)
  }

  /** The transfer error a breaking event is reported as. */
  function Reason(e: Event): T.FileError
    requires Breaks(e)
  {
    match e
    case FatalError => T.SessionFatalError
    case OutOfSync(expected, got) => T.SessionOutOfSync(expected, got)
    case _ => T.SessionTimeout
  }

  /** The wait was broken off by the first breaking event, and this is its error. */
  ghost predicate BrokenBy(es: seq<Event>, handshake: bool, err: T.FileError) {
    exists e :: Breaks(e) && DecidedBy(es, handshake, e) && err == Reason(e)
  }

  lemma StillUndecided(es: seq<Event>, handshake: bool, e: Event)
    requires Undecided(es, handshake)
    ensures Decides(e, handshake) ==> DecidedBy(es + [e], handshake, e)
    ensures !Decides(e, handshake) ==> Undecided(es + [e], handshake)
  {
    hide Decides;
    assert (es + [e])[..|es|] == es;
  }

  // ----- Receiving and ticking hand out nothing -----

  /** Events only came in. */
  ghost predicate Appends(c: Core, d: Core) {
    exists x :: d.events == c.events + x && d.hist.raised == c.hist.raised + x
  }

  lemma AppendsNothing(c: Core, d: Core)
    requires d.events == c.events && d.hist.raised == c.hist.raised
    ensures Appends(c, d)
  {
    assert d.events == c.events + [] && d.hist.raised == c.hist.raised + [];
  }

  lemma AppendsOne(c: Core, d: Core, e: Event)
    requires d.events == c.events + [e] && d.hist.raised == c.hist.raised + [e]
    ensures Appends(c, d)
  {
  }

  lemma AppendsThen(c: Core, d: Core, e: Core)
    requires Appends(c, d) && Appends(d, e)
    ensures Appends(c, e)
  {
    var x :| d.events == c.events + x && d.hist.raised == c.hist.raised + x;
    var y :| e.events == d.events + y && e.hist.raised == d.hist.raised + y;
    assert e.events == c.events + (x + y) && e.hist.raised == c.hist.raised + (x + y);
  }

  lemma RaiseAppends(c: Core, e: Event)
    ensures Appends(c, Raise(c, e))
  {
    hide Appends;
    AppendsOne(c, Raise(c, e), e);
  }

  lemma OkAppends(c: Core, n: byte, now: int)
    ensures Appends(c, HandleOk(c, n, now))
  {
    hide Wire, Decimal, Appends;
    match c.inFlight
    case None => RaiseAppends(c, AsciiLine(OK + Decimal(n)));
    case Some(f) =>
      if f.isHandshake || n != f.sync {
        RaiseAppends(c, OutOfSync(f.sync, n));
      } else {
        AppendsOne(c, HandleOk(c, n, now), Ack(n));
      }
  }

  lemma SyncAppends(c: Core, s: u16, m: u16, v: bytes, now: int)
    ensures Appends(c, Synchronize(c, s, m, v, now))
  {
    hide Wire, Appends;
    AppendsOne(c, Synchronize(c, s, m, v, now), Synced(m, v));
  }

  lemma LineAppends(c: Core, raw: bytes, now: int)
    ensures Appends(c, AcceptLine(c, raw, now))
  {
    hide Classify, StripLineEndings, HandleOk, Synchronize, Raise, Appends;
    AppendsNothing(c, c);
    match Classify(StripLineEndings(raw))
    case OkLine(n) => OkAppends(c, n, now);
    case ResendLine(n) => RaiseAppends(c, ResendRequested(n));
    case SyncLine(s, m, v) => SyncAppends(c, s, m, v, now);
    case FatalLine => RaiseAppends(c, FatalError);
    case TextLine(t) => RaiseAppends(c, AsciiLine(t));
    case Ignored =>
  }

  lemma {:induction false} LinesAppendEvents(c: Core, lines: seq<bytes>, now: int)
    ensures Appends(c, AcceptLines(c, lines, now))
    decreases |lines|
  {
    hide AcceptLine, Appends;
    if lines == [] {
      AppendsNothing(c, c);
    } else {
      var d := AcceptLine(c, lines[0], now);
      LineAppends(c, lines[0], now);
      LinesAppendEvents(d, lines[1..], now);
      AppendsThen(c, d, AcceptLines(d, lines[1..], now));
    }
  }

  lemma TickAppends(c: Core, now: int)
    ensures Appends(c, Tick(c, now))
  {
    hide Wire, Recopied, Appends;
    AppendsNothing(c, c);
    if c.inFlight.Some? {
      var f, d := c.inFlight.value, Tick(c, now);
      if Elapsed(now, f.firstSent) >= c.totalTimeout {
        AppendsOne(c, d, Timeout(f.sync));
      } else {
        AppendsNothing(c, d);
      }
    }
  }

  lemma AppendsUnread(c: Core, d: Core)
    requires Reported(c) && Appends(c, d)
    ensures ReadSoFar(d) == ReadSoFar(c)
  {
    hide Settled, WithoutHandshakes;
    var x :| d.events == c.events + x && d.hist.raised == c.hist.raised + x;
  }

  lemma FeedUnread(h: Host, chunk: bytes, now: int)
    requires Reported(h.core)
    ensures ReadSoFar(Feed(h, chunk, now).core) == ReadSoFar(h.core)
  {
    hide AcceptLines, Lines, Rest, Reported, ReadSoFar, Appends;
    LinesAppendEvents(h.core, Lines(h.inbound + chunk), now);
    AppendsUnread(h.core, Feed(h, chunk, now).core);
  }

  lemma TickUnread(c: Core, now: int)
    requires Reported(c)
    ensures ReadSoFar(Tick(c, now)) == ReadSoFar(c)
  {
    hide Tick, Reported, ReadSoFar, Appends;
    TickAppends(c, now);
    AppendsUnread(c, Tick(c, now));
  }

  lemma EventRead(c: Core)
    requires Reported(c)
    ensures var d := c.(events := Tail(c.events));
            ReadSoFar(d) == ReadSoFar(c) + if c.events == [] then [] else [c.events[0]]
    ensures c.events == [] ==> ReadSoFar(c) == c.hist.raised
  {
    hide Settled, WithoutHandshakes;
  }

  lemma ReachedReported(h: Host, responseTimeout: nat, totalTimeout: nat, ops: seq<Op>)
    requires ReachedBy(h, responseTimeout, totalTimeout, ops)
    ensures Reported(h.core)
  {
    hide ReachedBy, Fifo, OutcomesFit, Current, Stutters, Timers, Numbers, Reported, Pending, Counted;
    ReachableInv(h, responseTimeout, totalTimeout, ops);
  }
}
