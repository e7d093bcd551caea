/** What every run of the session keeps, and what follows from it. */
module SessionInvariants {
  import opened Prelude
  import opened Text
  import opened SessionSpec

  function Requests(ds: seq<Dispatch>): (rs: seq<Request>)
    ensures |rs| == |ds|
    ensures forall i :: 0 <= i < |ds| ==> rs[i] == ds[i].request
  {
    seq(|ds|, i requires 0 <= i < |ds| => ds[i].request)
  }

  /** The frames of the dispatches in order, each one's copies contiguous and identical. */
  function Expand(ds: seq<Dispatch>): seq<bytes> {
    if ds == [] then []
    else
      var d := ds[|ds| - 1];
      Expand(ds[..|ds| - 1]) + Repeat(Wire(d.request, d.sync), d.copies)
  }

  function CountAcks(os: seq<Outcome>): nat {
    if os == [] then 0
    else CountAcks(os[..|os| - 1]) + if os[|os| - 1].Acked? then 1 else 0
  }

  /** The Ack and Timeout events of a log, in order. */
  function Settled(es: seq<Event>): seq<Outcome> {
    if es == [] then []
    else
      Settled(es[..|es| - 1])
      + match es[|es| - 1]
        case Ack(n) => [Acked(n)]
        case Timeout(n) => [TimedOut(n)]
        case _ => []
  }

  function WithoutHandshakes(os: seq<Outcome>): seq<Outcome> {
    if os == [] then []
    else WithoutHandshakes(os[..|os| - 1]) + if os[|os| - 1].Synchronized? then [] else [os[|os| - 1]]
  }

  /** The Ack events after the last Synced event of a log. */
  function AcksSinceSynced(es: seq<Event>): nat {
    if es == [] || es[|es| - 1].Synced? then 0
    else AcksSinceSynced(es[..|es| - 1]) + if es[|es| - 1].Ack? then 1 else 0
  }

  function CountSynced(es: seq<Event>): nat {
    if es == [] then 0
    else CountSynced(es[..|es| - 1]) + if es[|es| - 1].Synced? then 1 else 0
  }

  // ----- The invariant -----

  /** FIFO and conservation: nothing enqueued is lost, duplicated or reordered. */
  ghost predicate Fifo(c: Core) {
    var h := c.hist;
    && Requests(h.dispatched) + c.queued == h.enqueued
    && |h.dispatched| == |h.resolved| + (if c.inFlight.Some? then 1 else 0)
  }

  /** Each outcome fits its dispatch: acks and timeouts name its number, ss closes only handshakes. */
  predicate Fits(o: Outcome, d: Dispatch) {
    match o
    case Acked(n) => n == d.sync && !d.request.isHandshake
    case Synchronized => d.request.isHandshake
    case TimedOut(n) => n == d.sync
  }

  ghost predicate OutcomesFit(h: History) {
    |h.resolved| <= |h.dispatched|
    && forall i :: 0 <= i < |h.resolved| ==> Fits(h.resolved[i], h.dispatched[i])
  }

  /** The in-flight slot holds the last dispatch, byte for byte. */
  ghost predicate Current(c: Core) {
    c.inFlight.Some? ==>
      && c.hist.dispatched != []
      && var f, d := c.inFlight.value, c.hist.dispatched[|c.hist.dispatched| - 1];
         f.sync == d.sync && f.frame == Wire(d.request, d.sync) && f.isHandshake == d.request.isHandshake
  }

  /** Outbound is a stuttering of the dispatch order. */
  ghost predicate Stutters(h: History) {
    h.emitted == Expand(h.dispatched) && forall d :: d in h.dispatched ==> d.copies >= 1
  }

  ghost predicate WithinBudget(d: Dispatch, responseTimeout: nat, totalTimeout: nat) {
    d.copies > 1 ==> (d.copies - 1) * responseTimeout < totalTimeout
  }

  /** Retransmissions are spaced by the response timeout and stop at the total timeout. */
  ghost predicate Timers(c: Core) {
    && (forall d :: d in c.hist.dispatched ==> WithinBudget(d, c.responseTimeout, c.totalTimeout))
    && (c.inFlight.Some? && c.hist.dispatched != [] ==>
          var f, d := c.inFlight.value, c.hist.dispatched[|c.hist.dispatched| - 1];
          && (c.responseTimeout > 0 ==> f.firstSent <= f.lastSent)
          && (d.copies - 1) * c.responseTimeout <= Elapsed(f.lastSent, f.firstSent)
          && (d.copies > 1 ==> Elapsed(f.lastSent, f.firstSent) < c.totalTimeout))
  }

  /** The counter, and the numbers handed out while a single ss has been seen. */
  ghost predicate Numbers(c: Core) {
    var h := c.hist;
    && c.sync == (h.base + h.acksSinceBase) % 256
    && (c.isSynced <==> h.handshakes > 0)
    && (h.handshakes == 0 ==> forall r :: r in h.enqueued ==> r.isHandshake)
    && (h.handshakes <= 1 ==> h.acksSinceBase == CountAcks(h.resolved))
    && (h.handshakes <= 1 ==> Numbered(h.dispatched, h.resolved, h.base))
  }

  /** Dispatch i carries the base plus the acks among the outcomes before it. */
  ghost predicate Numbered(ds: seq<Dispatch>, os: seq<Outcome>, base: byte) {
    forall i :: 0 <= i < |ds| ==>
      ds[i].request.isHandshake || (i <= |os| && ds[i].sync == (base + CountAcks(os[..i])) % 256)
  }

  /** Ack and Timeout events are raised exactly for resolved requests, in that order. */
  ghost predicate Reported(c: Core) {
    var h := c.hist;
    && Settled(h.raised) == WithoutHandshakes(h.resolved)
    && |c.events| <= |h.raised|
    && c.events == h.raised[|h.raised| - |c.events|..]
  }

  /** What waits in outbound is the end of what was pushed there. */
  ghost predicate Pending(c: Core) {
    && |c.outbound| <= |c.hist.emitted|
    && c.outbound == c.hist.emitted[|c.hist.emitted| - |c.outbound|..]
  }

  /** The two counters of the history count events of its log. */
  ghost predicate Counted(h: History) {
    h.acksSinceBase == AcksSinceSynced(h.raised) && h.handshakes == CountSynced(h.raised)
  }

  /** The invariant, except that the slot may be empty while requests wait and the counters may be ahead of the log. */
  ghost predicate Loose(c: Core) {
    && Fifo(c) && OutcomesFit(c.hist) && Current(c) && Stutters(c.hist) && Timers(c) && Numbers(c) && Reported(c)
    && Pending(c)
  }

  ghost predicate Inv(c: Core) {
    Loose(c) && Counted(c.hist) && (c.inFlight.None? ==> c.queued == [])
  }

  // ----- Preservation, one primitive at a time -----

  lemma ExpandSnoc(ds: seq<Dispatch>, d: Dispatch)
    ensures Expand(ds + [d]) == Expand(ds) + Repeat(Wire(d.request, d.sync), d.copies)
  {
    hide Wire;
    assert (ds + [d])[..|ds|] == ds;
  }

  lemma ExpandAgain(front: seq<Dispatch>, d: Dispatch)
    ensures Expand(front + [d.(copies := d.copies + 1)]) == Expand(front + [d]) + [Wire(d.request, d.sync)]
  {
    hide Wire, Expand, Repeat;
    var w := Wire(d.request, d.sync);
    ExpandSnoc(front, d);
    ExpandSnoc(front, d.(copies := d.copies + 1));
    RepeatSnoc(w, d.copies);
    JoinAssociates(Expand(front), Repeat(w, d.copies), [w]);
  }

  lemma RecopiedSnoc(front: seq<Dispatch>, d: Dispatch)
    ensures Recopied(front + [d]) == front + [d.(copies := d.copies + 1)]
  {
    assert (front + [d])[..|front|] == front;
  }

  lemma LastApart<T>(s: seq<T>)
    requires s != []
    ensures s == s[..|s| - 1] + [s[|s| - 1]]
  {
  }

  lemma ExpandRecopiedSnoc(front: seq<Dispatch>, d: Dispatch)
    ensures Expand(Recopied(front + [d])) == Expand(front + [d]) + [Wire(d.request, d.sync)]
  {
    hide Wire, Expand, Recopied;
    RecopiedSnoc(front, d);
    ExpandAgain(front, d);
  }

  lemma ExpandRecopied(ds: seq<Dispatch>)
    requires ds != []
    ensures var d := ds[|ds| - 1];
            Expand(Recopied(ds)) == Expand(ds) + [Wire(d.request, d.sync)]
  {
    hide Wire, Expand, Recopied;
    LastApart(ds);
    ExpandRecopiedSnoc(ds[..|ds| - 1], ds[|ds| - 1]);
  }

  lemma JoinAssociates<T>(a: seq<T>, b: seq<T>, c: seq<T>)
    ensures a + (b + c) == (a + b) + c
  {
  }

  lemma NumberedDispatch(ds: seq<Dispatch>, os: seq<Outcome>, base: byte, d: Dispatch)
    requires Numbered(ds, os, base) && |ds| == |os|
    requires d.request.isHandshake || d.sync == (base + CountAcks(os)) % 256
    ensures Numbered(ds + [d], os, base)
  {
    hide CountAcks;
    assert os[..|os|] == os;
  }

  lemma NumberedResolve(ds: seq<Dispatch>, os: seq<Outcome>, base: byte, o: Outcome)
    requires Numbered(ds, os, base)
    ensures Numbered(ds, os + [o], base)
  {
    hide CountAcks;
    assert forall i :: 0 <= i <= |os| ==> (os + [o])[..i] == os[..i];
  }

  lemma NumberedRecopied(ds: seq<Dispatch>, os: seq<Outcome>, base: byte)
    requires Numbered(ds, os, base)
    ensures Numbered(Recopied(ds), os, base)
  {
    hide CountAcks;
  }

  lemma CountAcksSnoc(os: seq<Outcome>, o: Outcome)
    ensures CountAcks(os + [o]) == CountAcks(os) + if o.Acked? then 1 else 0
    ensures WithoutHandshakes(os + [o]) == WithoutHandshakes(os) + if o.Synchronized? then [] else [o]
  {
    hide Wire;
    assert (os + [o])[..|os|] == os;
  }

  lemma SettledSnoc(es: seq<Event>, e: Event)
    ensures Settled(es + [e]) == Settled(es) + match e
                                               case Ack(n) => [Acked(n)]
                                               case Timeout(n) => [TimedOut(n)]
                                               case _ => []
  {
    hide Wire;
    assert (es + [e])[..|es|] == es;
  }

  lemma CountedSnoc(es: seq<Event>, e: Event)
    ensures AcksSinceSynced(es + [e])
         == if e.Synced? then 0 else AcksSinceSynced(es) + if e.Ack? then 1 else 0
    ensures CountSynced(es + [e]) == CountSynced(es) + if e.Synced? then 1 else 0
  {
    assert (es + [e])[..|es|] == es;
  }

  /** What is pushed goes to both ends. */
  lemma PendingMore(outbound: seq<bytes>, emitted: seq<bytes>, f: bytes)
    requires |outbound| <= |emitted| && outbound == emitted[|emitted| - |outbound|..]
    ensures outbound + [f] == (emitted + [f])[|emitted| - |outbound|..]
  {
  }

  lemma DispatchKeeps(c: Core, now: int)
    requires Loose(c) && Counted(c.hist)
    ensures Inv(DispatchIfIdle(c, now))
  {
    hide Wire, Expand, CountAcks, Settled, WithoutHandshakes, AcksSinceSynced, CountSynced;
    if c.inFlight.None? && c.queued != [] {
      var d := DispatchIfIdle(c, now);
      var r, h := c.queued[0], c.hist;
      var added := Dispatch(r, c.sync, 1);
      ExpandSnoc(h.dispatched, added);
      PendingMore(c.outbound, h.emitted, Wire(r, c.sync));
      assert Repeat(Wire(r, c.sync), 1) == [Wire(r, c.sync)];
      assert Requests(d.hist.dispatched) == Requests(h.dispatched) + [r];
      assert r in h.enqueued by { assert h.enqueued[|h.dispatched|] == r; }
      if h.handshakes <= 1 {
        NumberedDispatch(h.dispatched, h.resolved, h.base, added);
      }
    }
  }

  lemma EnqueueKeeps(c: Core, r: Request)
    requires Inv(c) && (r.isHandshake || c.isSynced)
    ensures Loose(Enqueue(c, r)) && Counted(Enqueue(c, r).hist)
  {
    hide Wire, Expand, CountAcks, Settled, WithoutHandshakes, AcksSinceSynced, CountSynced;
    var d := Enqueue(c, r);
    assert Requests(c.hist.dispatched) + (c.queued + [r]) == (Requests(c.hist.dispatched) + c.queued) + [r];
  }

  lemma SubmitKeeps(c: Core, r: Request, now: int)
    requires Inv(c) && (r.isHandshake || c.isSynced)
    ensures Inv(Submit(c, r, now))
  {
    hide Wire;
    EnqueueKeeps(c, r);
    DispatchKeeps(Enqueue(c, r), now);
  }

  lemma RaiseKeeps(c: Core, e: Event)
    requires Loose(c) && !e.Ack? && !e.Timeout?
    ensures Loose(Raise(c, e))
  {
    hide Wire, Expand, CountAcks, WithoutHandshakes, Settled;
    SettledSnoc(c.hist.raised, e);
    var d := Raise(c, e);
  }

  lemma NumberedAfter(h: History, o: Outcome)
    requires h.handshakes <= 1 ==> Numbered(h.dispatched, h.resolved, h.base)
    ensures h.handshakes <= 1 ==> Numbered(h.dispatched, h.resolved + [o], h.base)
  {
    hide Numbered;
    if h.handshakes <= 1 {
      NumberedResolve(h.dispatched, h.resolved, h.base, o);
    }
  }

  lemma RaiseNote(c: Core, e: Event)
    requires Inv(c) && !e.Ack? && !e.Timeout? && !e.Synced?
    ensures Inv(Raise(c, e))
  {
    hide Loose, AcksSinceSynced, CountSynced;
    RaiseKeeps(c, e);
    CountedSnoc(c.hist.raised, e);
  }

  /** The state right after an accepted ok<n>, before the next dispatch. */
  function AfterAck(c: Core, n: byte): Core {
    var d := Resolve(c, Acked(n));
    Raise(d.(sync := (c.sync + 1) % 256,
             hist := d.hist.(acksSinceBase := d.hist.acksSinceBase + 1)), Ack(n))
  }

  lemma AckNumbers(c: Core, n: byte)
    requires Numbers(c)
    ensures Numbers(AfterAck(c, n))
  {
    hide CountAcks, Numbered;
    CountAcksSnoc(c.hist.resolved, Acked(n));
    NumberedAfter(c.hist, Acked(n));
  }

  lemma AckReported(c: Core, n: byte)
    requires Reported(c)
    ensures Reported(AfterAck(c, n))
  {
    hide Settled, WithoutHandshakes;
    CountAcksSnoc(c.hist.resolved, Acked(n));
    SettledSnoc(c.hist.raised, Ack(n));
  }

  lemma AckKeeps(c: Core, n: byte)
    requires Inv(c) && c.inFlight.Some? && !c.inFlight.value.isHandshake && n == c.inFlight.value.sync
    ensures Loose(AfterAck(c, n)) && Counted(AfterAck(c, n).hist)
  {
    hide Wire, Expand, Requests, WithinBudget, AcksSinceSynced, CountSynced, Numbers, Reported;
    AckNumbers(c, n);
    AckReported(c, n);
    CountedSnoc(c.hist.raised, Ack(n));
  }

  lemma HandleOkKeeps(c: Core, n: byte, now: int)
    requires Inv(c)
    ensures Inv(HandleOk(c, n, now))
  {
    hide Loose, DispatchIfIdle;
    match c.inFlight
    case None => RaiseNote(c, AsciiLine(OK + Decimal(n)));
    case Some(f) =>
      if f.isHandshake || n != f.sync {
        RaiseNote(c, OutOfSync(f.sync, n));
      } else {
        AckKeeps(c, n);
        DispatchKeeps(AfterAck(c, n), now);
      }
  }

  lemma SynchronizeKeeps(c: Core, sync: u16, maxBlockSize: u16, version: bytes, now: int)
    requires Inv(c)
    ensures Inv(Synchronize(c, sync, maxBlockSize, version, now))
  {
    hide Wire, Loose, Raise, DispatchIfIdle, Counted;
    var b := c.(sync := sync % 256, isSynced := true,
                maxBlockSize := Some(maxBlockSize), protocolVersion := Some(version),
                hist := c.hist.(base := sync % 256, acksSinceBase := 0,
                                handshakes := c.hist.handshakes + 1));
    RebaseKeeps(c, b);
    var d := if c.inFlight.Some? && c.inFlight.value.isHandshake then Resolve(b, Synchronized) else b;
    CloseHandshakeKeeps(b);
    RaiseKeeps(d, Synced(maxBlockSize, version));
    RebaseCounts(c.hist, d.hist, Synced(maxBlockSize, version));
    RaisedHistory(d, Synced(maxBlockSize, version));
    DispatchKeeps(Raise(d, Synced(maxBlockSize, version)), now);
  }

  /** A Synced event restarts the count of acks and is itself counted. */
  lemma RebaseCounts(h: History, b: History, e: Event)
    requires Counted(h) && e.Synced?
    requires b.raised == h.raised && b.acksSinceBase == 0 && b.handshakes == h.handshakes + 1
    ensures Counted(b.(raised := b.raised + [e]))
  {
    hide AcksSinceSynced, CountSynced;
    CountedSnoc(h.raised, e);
  }

  lemma RaisedHistory(c: Core, e: Event)
    ensures Raise(c, e).hist == c.hist.(raised := c.hist.raised + [e])
  {
  }

  lemma RebaseKeeps(c: Core, b: Core)
    requires Loose(c)
    requires b == c.(sync := b.sync, isSynced := true, maxBlockSize := b.maxBlockSize,
                     protocolVersion := b.protocolVersion,
                     hist := c.hist.(base := b.sync, acksSinceBase := 0, handshakes := c.hist.handshakes + 1))
    ensures Loose(b)
  {
    hide Wire, Expand, CountAcks, Settled, WithoutHandshakes, Numbered, Requests, Numbers;
    if c.hist.handshakes == 0 {
      OnlyHandshakes(c);
      NumberedTrivially(c.hist.dispatched, c.hist.resolved, b.sync);
    }
    RebaseNumbers(c, b);
  }

  /** Before the first ss only handshakes were dispatched, and none was acknowledged. */
  lemma OnlyHandshakes(c: Core)
    requires Loose(c) && c.hist.handshakes == 0
    ensures forall i :: 0 <= i < |c.hist.dispatched| ==> c.hist.dispatched[i].request.isHandshake
    ensures CountAcks(c.hist.resolved) == 0
  {
    hide Wire, Expand, CountAcks, Settled, WithoutHandshakes, Numbered, Timers, Stutters, Current, Reported;
    var h := c.hist;
    assert forall i :: 0 <= i < |h.dispatched| ==>
        h.dispatched[i].request == h.enqueued[i] && h.enqueued[i] in h.enqueued;
    NoAcksBeforeHandshake(h.resolved, h.dispatched);
  }

  lemma NumberedTrivially(ds: seq<Dispatch>, os: seq<Outcome>, base: byte)
    requires forall i :: 0 <= i < |ds| ==> ds[i].request.isHandshake
    ensures Numbered(ds, os, base)
  {
    hide CountAcks;
  }

  lemma RebaseNumbers(c: Core, b: Core)
    requires Numbers(c)
    requires b == c.(sync := b.sync, isSynced := true, maxBlockSize := b.maxBlockSize,
                     protocolVersion := b.protocolVersion,
                     hist := c.hist.(base := b.sync, acksSinceBase := 0, handshakes := c.hist.handshakes + 1))
    requires c.hist.handshakes == 0 ==>
               CountAcks(c.hist.resolved) == 0 && Numbered(c.hist.dispatched, c.hist.resolved, b.sync)
    ensures Numbers(b)
  {
    hide CountAcks, Numbered;
  }

  lemma CloseHandshakeKeeps(c: Core)
    requires Loose(c)
    ensures c.inFlight.Some? && c.inFlight.value.isHandshake ==> Loose(Resolve(c, Synchronized))
  {
    hide Wire, Expand, CountAcks, Settled, WithoutHandshakes, Numbered;
    CountAcksSnoc(c.hist.resolved, Synchronized);
    NumberedAfter(c.hist, Synchronized);
  }

  lemma {:induction false} NoAcksBeforeHandshake(os: seq<Outcome>, ds: seq<Dispatch>)
    requires |os| <= |ds| && forall i :: 0 <= i < |os| ==> Fits(os[i], ds[i]) && ds[i].request.isHandshake
    ensures CountAcks(os) == 0
  {
    hide Wire;
    if os != [] {
      NoAcksBeforeHandshake(os[..|os| - 1], ds);
    }
  }

  lemma AcceptLineKeeps(c: Core, raw: bytes, now: int)
    requires Inv(c)
    ensures Inv(AcceptLine(c, raw, now))
  {
    hide StripLineEndings, Classify, HandleOk, Synchronize, Inv, Loose;
    var line := StripLineEndings(raw);
    match Classify(line)
    case OkLine(n) => HandleOkKeeps(c, n, now);
    case ResendLine(n) => RaiseNote(c, ResendRequested(n));
    case SyncLine(s, m, v) => SynchronizeKeeps(c, s, m, v, now);
    case FatalLine => RaiseNote(c, FatalError);
    case TextLine(t) => RaiseNote(c, AsciiLine(t));
    case Ignored =>
  }

  lemma {:induction false} AcceptLinesKeeps(c: Core, lines: seq<bytes>, now: int)
    requires Inv(c)
    ensures Inv(AcceptLines(c, lines, now))
    decreases |lines|
  {
    hide Wire;
    if lines != [] {
      AcceptLineKeeps(c, lines[0], now);
      AcceptLinesKeeps(AcceptLine(c, lines[0], now), lines[1..], now);
    }
  }

  lemma TickKeeps(c: Core, now: int)
    requires Inv(c)
    ensures Inv(Tick(c, now))
  {
    hide Loose;
    if c.inFlight.Some? {
      var f := c.inFlight.value;
      if Elapsed(now, f.firstSent) >= c.totalTimeout {
        TimeoutKeeps(c, f, now);
      } else if Elapsed(now, f.lastSent) >= c.responseTimeout {
        RetransmitKeeps(c, f, now);
      }
    }
  }

  lemma TimeoutKeeps(c: Core, f: InFlight, now: int)
    requires Inv(c) && c.inFlight == Some(f)
    ensures Inv(DispatchIfIdle(Raise(Resolve(c, TimedOut(f.sync)), Timeout(f.sync)), now))
  {
    hide Wire, Expand, CountAcks, Settled, WithoutHandshakes, AcksSinceSynced, CountSynced;
    var o := TimedOut(f.sync);
    CountedSnoc(c.hist.raised, Timeout(f.sync));
    var g := Raise(Resolve(c, o), Timeout(f.sync));
    CountAcksSnoc(c.hist.resolved, o);
    SettledSnoc(c.hist.raised, Timeout(f.sync));
    NumberedAfter(c.hist, o);
    DispatchKeeps(g, now);
  }

  lemma RetransmitKeeps(c: Core, f: InFlight, now: int)
    requires Inv(c) && c.inFlight == Some(f)
    requires Elapsed(now, f.firstSent) < c.totalTimeout && Elapsed(now, f.lastSent) >= c.responseTimeout
    ensures Inv(Tick(c, now))
  {
    hide Wire, Expand, CountAcks, Settled, WithoutHandshakes, Numbered, Timers, AcksSinceSynced, CountSynced;
    var d, h := Tick(c, now), c.hist;
    PendingMore(c.outbound, h.emitted, f.frame);
    ExpandRecopied(h.dispatched);
    RetransmitTimers(c, f, now);
    if h.handshakes <= 1 {
      NumberedRecopied(h.dispatched, h.resolved, h.base);
    }
    assert Requests(d.hist.dispatched) == Requests(h.dispatched);
  }

  lemma RetransmitTimers(c: Core, f: InFlight, now: int)
    requires Timers(c) && c.inFlight == Some(f) && c.hist.dispatched != []
    requires Elapsed(now, f.firstSent) < c.totalTimeout && Elapsed(now, f.lastSent) >= c.responseTimeout
    requires forall d :: d in c.hist.dispatched ==> d.copies >= 1
    ensures Timers(Tick(c, now))
  {
    hide Wire, DispatchIfIdle;
    var ds := c.hist.dispatched;
    var k := |ds| - 1;
    var last := ds[k];
    var again := last.(copies := last.copies + 1);
    assert Recopied(ds)[k] == again && last in ds;
    OneMore(last.copies, c.responseTimeout);
    assert (again.copies - 1) * c.responseTimeout <= Elapsed(now, f.firstSent);
    assert WithinBudget(again, c.responseTimeout, c.totalTimeout);
    assert forall d :: d in Recopied(ds) ==> d in ds || d == again;
  }

  lemma OneMore(n: nat, r: nat)
    ensures (n + 1 - 1) * r == (n - 1) * r + r
  {
  }

  lemma StepKeeps(h: Host, op: Op)
    requires Inv(h.core) && Allowed(h, op)
    ensures Inv(Step(h, op).core)
  {
    hide Wire, Loose, Submit, AcceptLines, Tick, Lines, Fresh;
    match op
    case OpConnect(now) => SubmitKeeps(h.core, HANDSHAKE, now);
    case OpSend(p, t, d, now) => SubmitKeeps(h.core, Request(p, t, d, false), now);
    case OpFeed(chunk, now) => AcceptLinesKeeps(h.core, Lines(h.inbound + chunk), now);
    case OpTick(now) => TickKeeps(h.core, now);
    case OpPollOutbound => PollsKeep(h.core);
    case OpPollEvent => PollsKeep(h.core);
    case OpReset => FreshIsInv(h.core.responseTimeout, h.core.totalTimeout);
  }

  lemma PollsKeep(c: Core)
    requires Inv(c)
    ensures Inv(c.(outbound := Tail(c.outbound)))
    ensures Inv(c.(events := Tail(c.events)))
  {
    hide Wire, Expand, CountAcks, Settled, WithoutHandshakes, Numbered, Fifo, OutcomesFit, Stutters, Timers, Numbers,
         Current, Reported, Pending, AcksSinceSynced, CountSynced;
    OutboundUnread(c);
    EventsUnread(c);
  }

  lemma OutboundUnread(c: Core)
    requires Loose(c)
    ensures Loose(c.(outbound := Tail(c.outbound)))
  {
    hide Wire, Expand, CountAcks, Settled, WithoutHandshakes, Numbered, Requests;
  }

  lemma EventsUnread(c: Core)
    requires Loose(c)
    ensures Loose(c.(events := Tail(c.events)))
  {
    hide Wire, Expand, CountAcks, Settled, WithoutHandshakes, Numbered, Requests;
  }

  lemma FreshIsInv(responseTimeout: nat, totalTimeout: nat)
    ensures Inv(Fresh(responseTimeout, totalTimeout).core)
  {
    hide Wire;
  }

  /** The invariant holds in every reachable state. */
  lemma {:induction false} RunKeeps(h: Host, ops: seq<Op>)
    requires Inv(h.core)
    ensures Run(h, ops).Some? ==> Inv(Run(h, ops).value.core)
    decreases |ops|
  {
    hide Wire;
    if ops != [] && Allowed(h, ops[0]) {
      StepKeeps(h, ops[0]);
      RunKeeps(Step(h, ops[0]), ops[1..]);
    }
  }
}
