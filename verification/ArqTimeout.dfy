/**
 * Why the guarantee of Arq ends with the first Timeout: the number of the packet
 * given up goes to the next one, and whatever happened so far, some continuation
 * then takes the one for the other.
 */
module ArqTimeout {
  import opened Prelude
  import opened Codec
  import opened Text
  import opened SessionSpec
  import opened SessionInvariants
  import opened Arq

  lemma {:induction false} ActsCompose(l: Link, xs: seq<Action>, m: Link, ys: seq<Action>)
    requires Acts(l, xs) == Some(m)
    ensures Acts(l, xs + ys) == Acts(m, ys)
    decreases |xs|
  {
    hide Act, Possible;
    if xs == [] {
      assert xs + ys == ys;
    } else {
      assert (xs + ys)[1..] == xs[1..] + ys;
      ActsCompose(Act(l, xs[0]), xs[1..], m, ys);
    }
  }

  lemma OneAct(l: Link, a: Action)
    requires Possible(l, a)
    ensures Acts(l, [a]) == Some(Act(l, a))
  {
    hide Act, Possible;
    var one := [a];
    assert one[1..] == [];
  }

  lemma ThreeActs(l: Link, a: Action, b: Action, c: Action, l1: Link, l2: Link, l3: Link)
    requires Possible(l, a) && l1 == Act(l, a) && Possible(l1, b) && l2 == Act(l1, b)
    requires Possible(l2, c) && l3 == Act(l2, c)
    ensures Acts(l, [a, b, c]) == Some(l3)
  {
    hide Act, Possible;
    var all, two, one := [a, b, c], [b, c], [c];
    assert all[1..] == two && two[1..] == one && one[1..] == [];
    assert Acts(l, all) == Acts(l1, two);
    assert Acts(l1, two) == Acts(l2, one);
  }

  // ----- Emptying the channels -----

  lemma {:induction false} LoseAllFrames(l: Link) returns (acts: seq<Action>)
    ensures Acts(l, acts) == Some(l.(toDevice := []))
    decreases |l.toDevice|
  {
    if l.toDevice == [] {
      acts := [];
    } else {
      var m := Act(l, LoseFrame(0));
      assert m == l.(toDevice := l.toDevice[1..]);
      OneAct(l, LoseFrame(0));
      var more := LoseAllFrames(m);
      ActsCompose(l, [LoseFrame(0)], m, more);
      acts := [LoseFrame(0)] + more;
    }
  }

  lemma {:induction false} LoseAllReplies(l: Link) returns (acts: seq<Action>)
    requires l.heard == 0
    ensures Acts(l, acts) == Some(l.(toHost := []))
    decreases |l.toHost|
  {
    if l.toHost == [] {
      acts := [];
    } else {
      var m := Act(l, LoseReply(0));
      assert m == l.(toHost := l.toHost[1..]);
      OneAct(l, LoseReply(0));
      var more := LoseAllReplies(m);
      ActsCompose(l, [LoseReply(0)], m, more);
      acts := [LoseReply(0)] + more;
    }
  }

  function WithOutbound(l: Link, outbound: seq<bytes>): Link {
    l.(host := l.host.(core := l.host.core.(outbound := outbound)))
  }

  /** Every pending frame but the last is written and lost. */
  lemma {:induction false} LoseAllButLast(l: Link) returns (acts: seq<Action>)
    requires l.host.core.outbound != [] && l.toDevice == []
    ensures var pending := l.host.core.outbound;
            Acts(l, acts) == Some(WithOutbound(l, [pending[|pending| - 1]]))
    decreases |l.host.core.outbound|
  {
    var pending := l.host.core.outbound;
    if |pending| == 1 {
      acts := [];
      assert WithOutbound(l, [pending[0]]) == l;
    } else {
      var l1 := Act(l, Transmit);
      var l2 := Act(l1, LoseFrame(0));
      assert l1.toDevice == [pending[0]];
      assert l2 == WithOutbound(l, pending[1..]);
      OneAct(l, Transmit);
      OneAct(l1, LoseFrame(0));
      ActsCompose(l, [Transmit], l1, [LoseFrame(0)]);
      var more := LoseAllButLast(l2);
      ActsCompose(l, [Transmit] + [LoseFrame(0)], l2, more);
      acts := [Transmit] + [LoseFrame(0)] + more;
    }
  }

  // ----- The number reused -----

  /** The packet r is in flight under number n, its frame the last one pushed. */
  ghost predicate Sending(l: Link, r: Request, n: byte) {
    var c := l.host.core;
    && Hearing(l) && c.outbound != [] && c.outbound[|c.outbound| - 1] == Wire(r, n)
    && c.inFlight.Some? && c.inFlight.value.sync == n && !c.inFlight.value.isHandshake
  }

  /** An acknowledgement of n can only be on its way when the receiver has moved on. */
  ghost predicate Owes(l: Link, n: byte) {
    && (l.receiver.expected == n || l.receiver.expected == (n + 1) % 256)
    && (n in OksOf(l.toHost) ==> l.receiver.expected == (n + 1) % 256)
  }

  lemma JudgeWire(r: Receiver, q: Request, n: byte)
    ensures n == r.expected ==>
              Judge(r, Wire(q, n)) == (Receiver((n + 1) % 256, r.accepted + [PacketOf(q, n)]), [Ok(n)])
    ensures r.expected == (n + 1) % 256 ==> Judge(r, Wire(q, n)) == (r, [Ok(n)])
  {
    hide Frame, Decode;
    RoundTrip(PacketOf(q, n), []);
    assert Frame(PacketOf(q, n)) + [] == Frame(PacketOf(q, n));
    Wrap(n);
  }

  /** The rest of the first reply, read at once. */
  lemma FinishFirst(l: Link, now: int) returns (a: Action)
    requires Hearing(l) && l.toHost != []
    ensures Possible(l, a) && Act(l, a) == HeardOne(l, now)
  {
    hide Bytes, Act, HeardOne, Harmless;
    HarmlessHead(l);
    a := Receive(|Bytes(l.toHost[0])| - l.heard, now);
    ReceiveRest(l, |Bytes(l.toHost[0])| - l.heard, now);
  }

  lemma AckSettles(c: Core, n: byte, now: int)
    requires c.inFlight.Some? && c.inFlight.value.sync == n && !c.inFlight.value.isHandshake
    ensures var d := AcceptLine(c, OkReply(n), now);
            d.hist.resolved == c.hist.resolved + [Acked(n)] && d.hist.enqueued == c.hist.enqueued
  {
    hide OkReply, Wire, AcceptLine;
    OkHeard(c, n, now);
  }

  /** What the host and the receiver make of the packet q sent under n. */
  predicate Mistaken(l: Link, q: Request, n: byte, m: Link) {
    && m.host.core.hist.enqueued == l.host.core.hist.enqueued
    && m.host.core.hist.resolved == l.host.core.hist.resolved + [Acked(n)]
    && m.receiver.accepted
       == l.receiver.accepted + (if l.receiver.expected == n then [PacketOf(q, n)] else [])
  }

  lemma OnlyFrameArrives(l: Link, q: Request, n: byte, now: int) returns (acts: seq<Action>, m: Link)
    requires Sending(l, q, n) && l.toDevice == [] && l.toHost == [] && |l.host.core.outbound| == 1
    requires l.receiver.expected == n || l.receiver.expected == (n + 1) % 256
    ensures Acts(l, acts) == Some(m) && Mistaken(l, q, n, m)
  {
    hide Wire, Judge, OkReply, Feed, AcceptLine, Harmless;
    var l1 := Act(l, Transmit);
    assert l1.toDevice == [Wire(q, n)];
    var l2 := Act(l1, Deliver);
    JudgeWire(l.receiver, q, n);
    assert l2.toHost == [Ok(n)];
    OkIsHeard(l2, n);
    AckSettles(l2.host.core, n, now);
    var a := FinishFirst(l2, now);
    m := HeardOne(l2, now);
    acts := [Transmit, Deliver, a];
    ThreeActs(l, Transmit, Deliver, a, l1, l2, m);
  }

  lemma OkIsHeard(l: Link, n: byte)
    requires l.toHost == [Ok(n)] && l.heard == 0 && l.host.inbound == []
    ensures Hearing(l)
  {
    hide OkReply;
    ReplyEnds(Ok(n));
  }

  /** The reply of which a part was read is read to its end: it is the ack, or it changes nothing. */
  lemma HeadHeard(l: Link, q: Request, n: byte, now: int)
    requires Sending(l, q, n) && Owes(l, n) && l.toHost != []
    ensures var m := HeardOne(l, now);
            && m.receiver == l.receiver && m.toDevice == l.toDevice && m.heard == 0
            && (Mistaken(l, q, n, m)
                || (Sending(m, q, n) && m.host.core.hist.enqueued == l.host.core.hist.enqueued
                    && m.host.core.hist.resolved == l.host.core.hist.resolved))
  {
    hide Wire, AcceptLine, Bytes, OksOf, Hearing, HandleOk, Raise;
    var c, r := l.host.core, l.toHost[0];
    HeardOneHearing(l, now);
    HarmlessHead(l);
    OksHead(l.toHost);
    match r
    case Ok(x) =>
      OkBytes(x);
      OkHeard(c, x, now);
      if x == n {
        Wrap(n);
        assert OksOf(l.toHost)[0] == n;
        AckSettles(c, n, now);
      } else {
        OkEither(c, x, now);
      }
    case Note(line) =>
      NoteBytes(line);
      NoteHeard(c, line, now);
      if AcceptLine(c, line + [LF], now) != c {
        var e :| AcceptLine(c, line + [LF], now) == Raise(c, e) && !e.Ack? && !e.Timeout? && !e.Synced?;
        RaiseLeaves(c, e);
      }
  }

  lemma RaiseLeaves(c: Core, e: Event)
    ensures var d := Raise(c, e);
            && d.outbound == c.outbound && d.inFlight == c.inFlight && d.queued == c.queued
            && d.hist.enqueued == c.hist.enqueued && d.hist.resolved == c.hist.resolved
  {
  }

  lemma OkEither(c: Core, x: byte, now: int)
    requires c.inFlight.Some? && x != c.inFlight.value.sync
    ensures HandleOk(c, x, now) == Raise(c, OutOfSync(c.inFlight.value.sync, x))
    ensures var d := HandleOk(c, x, now);
            && d.outbound == c.outbound && d.inFlight == c.inFlight
            && d.hist.enqueued == c.hist.enqueued && d.hist.resolved == c.hist.resolved
  {
    hide Decimal, Wire;
  }

  lemma NumberReused(l: Link, q: Request, n: byte, now: int) returns (acts: seq<Action>, m: Link)
    requires Sending(l, q, n) && Owes(l, n)
    ensures Acts(l, acts) == Some(m) && Mistaken(l, q, n, m)
  {
    hide Wire, Acts, Act, Mistaken, Owes, HeardOne, OksOf, Harmless, Bytes;
    OwesExpects(l, n);
    if l.heard == 0 {
      acts, m := LastFrameArrives(l, q, n, now);
    } else {
      var a := FinishFirst(l, now);
      var h := HeardOne(l, now);
      HeadHeard(l, q, n, now);
      OneAct(l, a);
      if Mistaken(l, q, n, h) {
        acts, m := [a], h;
      } else {
        var more;
        more, m := LastFrameArrives(h, q, n, now);
        ActsCompose(l, [a], h, more);
        SameMistake(l, h, q, n, m);
        acts := [a] + more;
      }
    }
  }

  lemma OwesExpects(l: Link, n: byte)
    requires Owes(l, n)
    ensures l.receiver.expected == n || l.receiver.expected == (n + 1) % 256
  {
  }

  lemma SameMistake(l: Link, h: Link, q: Request, n: byte, m: Link)
    requires Mistaken(h, q, n, m) && h.receiver == l.receiver
    requires h.host.core.hist.enqueued == l.host.core.hist.enqueued
    requires h.host.core.hist.resolved == l.host.core.hist.resolved
    ensures Mistaken(l, q, n, m)
  {
  }

  lemma LastFrameArrives(l: Link, q: Request, n: byte, now: int) returns (acts: seq<Action>, m: Link)
    requires Sending(l, q, n) && l.heard == 0
    requires l.receiver.expected == n || l.receiver.expected == (n + 1) % 256
    ensures Acts(l, acts) == Some(m) && Mistaken(l, q, n, m)
  {
    hide Wire, Acts, Bytes, Harmless;
    var l1 := l.(toDevice := []);
    var l2 := l1.(toHost := []);
    var a1 := LoseAllFrames(l);
    var a2 := LoseAllReplies(l1);
    ActsCompose(l, a1, l1, a2);
    var a3 := LoseAllButLast(l2);
    var l3 := WithOutbound(l2, [Wire(q, n)]);
    NothingRead(l);
    ActsCompose(l, a1 + a2, l2, a3);
    var a4;
    a4, m := OnlyFrameArrives(l3, q, n, now);
    ActsCompose(l, a1 + a2 + a3, l3, a4);
    acts := a1 + a2 + a3 + a4;
  }

  lemma NothingRead(l: Link)
    requires Hearing(l) && l.heard == 0
    ensures l.host.inbound == []
  {
    hide Bytes, Harmless;
  }

  // ----- Every run that gives a packet up -----

  /** The packet that gets the number: the next one waiting, or else the one sent next. */
  function Successor(c: Core, q: Request): Request {
    if c.queued == [] then q else c.queued[0]
  }

  lemma GivingUp(l: Link, t: int)
    requires var c := l.host.core;
             c.inFlight.Some? && Elapsed(t, c.inFlight.value.firstSent) >= c.totalTimeout
    ensures var c, d := l.host.core, Act(l, DoTick(t)).host.core;
            && d.hist.resolved == c.hist.resolved + [TimedOut(c.inFlight.value.sync)]
            && d.hist.enqueued == c.hist.enqueued && d.sync == c.sync && d.isSynced == c.isSynced
            && (if c.queued == [] then d.inFlight.None? && d.queued == []
                else d.inFlight == Some(InFlight(c.sync, Wire(c.queued[0], c.sync), t, t, c.queued[0].isHandshake))
                     && d.outbound == c.outbound + [Wire(c.queued[0], c.sync)])
    ensures Act(l, DoTick(t)) == l.(host := Act(l, DoTick(t)).host) && Act(l, DoTick(t)).host.inbound == l.host.inbound
  {
    hide Wire;
  }

  lemma SendingNow(l: Link, q: Request, now: int)
    requires l.host.core.isSynced && l.host.core.inFlight.None? && l.host.core.queued == [] && Hearing(l)
    requires !q.isHandshake
    ensures Possible(l, DoSend(q.protocol, q.packetType, q.payload, now))
    ensures var m := Act(l, DoSend(q.protocol, q.packetType, q.payload, now));
            && Sending(m, q, l.host.core.sync) && m.receiver == l.receiver && m.toHost == l.toHost
            && m.host.core.hist.enqueued == l.host.core.hist.enqueued + [q]
            && m.host.core.hist.resolved == l.host.core.hist.resolved
  {
    hide Wire, Bytes, Harmless;
  }

  /** From the moment of giving up: the successor is sent under the same number. */
  lemma SuccessorSent(l: Link, t: int, q: Request, now: int) returns (acts: seq<Action>, m: Link)
    requires var c := l.host.core;
             && c.isSynced && Hearing(l) && !Successor(c, q).isHandshake
             && c.inFlight.Some? && Elapsed(t, c.inFlight.value.firstSent) >= c.totalTimeout
    ensures var c, d := l.host.core, m.host.core;
            && Acts(l, acts) == Some(m) && Sending(m, Successor(c, q), c.sync)
            && m.receiver == l.receiver && m.toHost == l.toHost
            && d.hist.enqueued == c.hist.enqueued + (if c.queued == [] then [q] else [])
            && d.hist.resolved == c.hist.resolved + [TimedOut(c.inFlight.value.sync)]
  {
    hide Wire, Act, Acts, Hearing;
    var c := l.host.core;
    GivingUp(l, t);
    OneAct(l, DoTick(t));
    var l1 := Act(l, DoTick(t));
    HearingOnly(l, l1);
    if c.queued == [] {
      var send := DoSend(q.protocol, q.packetType, q.payload, now);
      SendingNow(l1, q, now);
      OneAct(l1, send);
      ActsCompose(l, [DoTick(t)], l1, [send]);
      acts, m := [DoTick(t)] + [send], Act(l1, send);
    } else {
      acts, m := [DoTick(t)], l1;
    }
  }

  /**
   * The guarantee cannot go past a Timeout. Take any run from a start in step, with
   * whatever losses, up to the moment its first packet is given up, and any packet
   * to be sent next: some continuation acknowledges that packet to the host, yet
   * the receiver either accepted it in the place of the one given up, so that what
   * it accepted is no longer what was sent, or has never accepted it at all.
   */
  lemma TimeoutBreaksDelivery(start: Link, acts: seq<Action>, l: Link, t: int, q: Request, now: int)
    returns (more: seq<Action>, m: Link)
    requires InStep(start) && Acts(start, acts) == Some(l) && NoTimeouts(OriginOf(start), l.host.core)
    requires l.host.core.inFlight.Some? && !q.isHandshake
    requires Elapsed(t, l.host.core.inFlight.value.firstSent) >= l.host.core.totalTimeout
    ensures Acts(start, acts + more) == Some(m)
    ensures var o, c, d := OriginOf(start), l.host.core, m.host.core;
            var k, late := Done(o, c), Successor(c, q);
            && d.hist.resolved == c.hist.resolved + [TimedOut(Number(o, k)), Acked(Number(o, k))]
            && o.settled + k + 1 < |d.hist.enqueued| && d.hist.enqueued[o.settled + k + 1] == late
            && if |l.receiver.accepted| == k
               then m.receiver.accepted == l.receiver.accepted + [PacketOf(late, Number(o, k))]
               else |l.receiver.accepted| == k + 1 && m.receiver.accepted == l.receiver.accepted
  {
    hide Inv, Frame, FramesPart, RepliesPart, Acts, Act, Wire, Mistaken, Sending, Owes, Hearing;
    var o, c := OriginOf(start), l.host.core;
    InStepHolds(start);
    ActsKeep(o, start, acts);
    BeforeGivingUp(o, l, q);
    var k, late := Done(o, c), Successor(c, q);
    var a1, l1 := SuccessorSent(l, t, q, now);
    ActsCompose(start, acts, l, a1);
    SameOwes(l, l1, c.sync);
    var a2;
    a2, m := NumberReused(l1, late, c.sync, now);
    ActsCompose(start, acts + a1, l1, a2);
    more := a1 + a2;
    assert acts + more == acts + a1 + a2;
    MistakenMeans(l1, late, c.sync, m);
  }

  lemma MistakenMeans(l: Link, q: Request, n: byte, m: Link)
    requires Mistaken(l, q, n, m)
    ensures m.host.core.hist.enqueued == l.host.core.hist.enqueued
    ensures m.host.core.hist.resolved == l.host.core.hist.resolved + [Acked(n)]
    ensures m.receiver.accepted
         == if l.receiver.expected == n then l.receiver.accepted + [PacketOf(q, n)] else l.receiver.accepted
  {
    assert l.receiver.accepted + [] == l.receiver.accepted;
  }

  /** What the link invariant says about the packet in flight. */
  lemma BeforeGivingUp(o: Origin, l: Link, q: Request)
    requires LinkInv(o, l) && l.host.core.inFlight.Some? && !q.isHandshake
    ensures var c, k, a := l.host.core, Done(o, l.host.core), |l.receiver.accepted|;
            && c.isSynced && Hearing(l) && Owes(l, c.sync) && c.sync == Number(o, k) && c.inFlight.value.sync == c.sync
            && (a == k || a == k + 1) && l.receiver.expected == Number(o, a)
            && Number(o, k + 1) == (Number(o, k) + 1) % 256 && Number(o, k + 1) != Number(o, k)
            && !Successor(c, q).isHandshake
            && |c.hist.enqueued| == o.settled + k + 1 + |c.queued|
            && (c.queued != [] ==> c.hist.enqueued[o.settled + k + 1] == c.queued[0])
  {
    hide Inv, Frame, FramesPart, RepliesPart, Owes, Hearing, Number, NoTimeouts;
    SlotMatchesInv(l.host.core);
    NextNumber(o, Done(o, l.host.core));
    OwesNow(o, l);
  }

  lemma OwesNow(o: Origin, l: Link)
    requires LinkInv(o, l)
    ensures Owes(l, Number(o, Done(o, l.host.core)))
  {
    hide Inv, Frame, FramesPart, HostPart, Hearing, OksOf, Number;
    var k := Done(o, l.host.core);
    NextNumber(o, k);
    NextNumber(o, k - 1);
  }

  lemma SameOwes(l: Link, m: Link, n: byte)
    requires Owes(l, n) && m.receiver == l.receiver && m.toHost == l.toHost
    ensures Owes(m, n)
  {
    hide OksOf;
  }

  // ----- Up to the next dispatch the guarantee still holds -----

  /** A host that has given up and waits: what was accepted is a prefix of what was sent, and stays one. */
  ghost predicate Spent(o: Origin, l: Link) {
    var c, a := l.host.core, |l.receiver.accepted|;
    && Hearing(l) && c.inFlight.None? && c.queued == []
    && o.settled + a <= |c.hist.enqueued| <= o.settled + a + 1 && l.receiver.expected == Number(o, a)
    && (forall i :: 0 <= i < a ==> l.receiver.accepted[i] == Sent(o, c, i))
    && OldThenNew(Pipe(l), FrameAt(o, c, a - 1), FrameAt(o, c, a))
  }

  lemma SpentAfter(o: Origin, l: Link, t: int)
    requires LinkInv(o, l) && l.host.core.inFlight.Some? && l.host.core.queued == []
    requires Elapsed(t, l.host.core.inFlight.value.firstSent) >= l.host.core.totalTimeout
    ensures Spent(o, Act(l, DoTick(t)))
  {
    hide Inv, Frame, Wire, OldThenNew, Hearing, RepliesPart;
    var c, m := l.host.core, Act(l, DoTick(t));
    SlotMatchesInv(c);
    HearingOnly(l, m);
    assert m.host.core.outbound == c.outbound;
    assert Pipe(m) == Pipe(l);
    assert forall i :: 0 <= i && o.settled + i < |c.hist.enqueued| ==> Sent(o, m.host.core, i) == Sent(o, c, i);
  }

  lemma SpentDeliver(o: Origin, l: Link)
    requires Spent(o, l) && l.toDevice != []
    ensures Spent(o, Act(l, Deliver))
  {
    hide Frame, Judge, OldThenNew, Hearing;
    var c, r, x := l.host.core, l.receiver, l.toDevice[0];
    var a, m := |r.accepted|, Act(l, Deliver);
    TakeFirst(Pipe(l), FrameAt(o, c, a - 1), FrameAt(o, c, a));
    HeadOf(Pipe(l), FrameAt(o, c, a - 1), FrameAt(o, c, a));
    assert Pipe(l)[1..] == Pipe(m);
    var i := if Some(x) == FrameAt(o, c, a) then a else a - 1;
    JudgeFrame(o, c, r, i);
    HearingMore(l, Ok(Number(o, i)));
    HearingOnly(l.(toHost := m.toHost), m);
  }

  /** The same pipe, receiver and requests, over an idle host. */
  lemma SpentSame(o: Origin, l: Link, m: Link)
    requires Spent(o, l) && Hearing(m)
    requires Pipe(m) == Pipe(l) && m.receiver == l.receiver
    requires m.host.core.inFlight.None? && m.host.core.queued == []
    requires m.host.core.hist.enqueued == l.host.core.hist.enqueued
    ensures Spent(o, m)
  {
    hide Frame, OldThenNew, Hearing, Pipe;
    var c, d := l.host.core, m.host.core;
    assert forall i :: 0 <= i && o.settled + i < |c.hist.enqueued| ==> Sent(o, d, i) == Sent(o, c, i);
  }

  /** An idle host makes nothing of a reply but an event. */
  lemma IdleHears(l: Link, now: int)
    requires Hearing(l) && l.toHost != [] && l.host.core.inFlight.None? && l.host.core.queued == []
    ensures var c, d := l.host.core, HeardOne(l, now).host.core;
            && d.inFlight.None? && d.queued == [] && d.outbound == c.outbound && d.hist.enqueued == c.hist.enqueued
  {
    hide AcceptLine, Bytes, Hearing, HandleOk, Raise;
    var c, r := l.host.core, l.toHost[0];
    HarmlessHead(l);
    match r
    case Ok(n) =>
      OkBytes(n);
      OkHeard(c, n, now);
      IdleOk(c, n, now);
    case Note(line) =>
      NoteBytes(line);
      NoteHeard(c, line, now);
      if AcceptLine(c, line + [LF], now) != c {
        var e :| AcceptLine(c, line + [LF], now) == Raise(c, e) && !e.Ack? && !e.Timeout? && !e.Synced?;
        RaiseLeaves(c, e);
      }
  }

  lemma IdleOk(c: Core, n: byte, now: int)
    requires c.inFlight.None?
    ensures var d := HandleOk(c, n, now);
            && d.inFlight.None? && d.queued == c.queued && d.outbound == c.outbound
            && d.hist.enqueued == c.hist.enqueued
  {
    hide Decimal;
  }

  lemma {:induction false} SpentReceive(o: Origin, l: Link, n: nat, now: int)
    requires Spent(o, l) && Possible(l, Receive(n, now))
    ensures Spent(o, Act(l, Receive(n, now)))
    ensures Act(l, Receive(n, now)).host.core.hist.enqueued == l.host.core.hist.enqueued
    decreases |l.toHost|
  {
    hide Spent, Act, HeardOne, Bytes, Hearing;
    SpentIsIdle(o, l);
    SomethingToRead(l, n);
    if l.heard + n < |Bytes(l.toHost[0])| {
      ReceivePart(l, n, now);
      SpentPart(o, l, n);
    } else {
      var m, more := HeardOne(l, now), l.heard + n - |Bytes(l.toHost[0])|;
      HeardOneShape(l, now);
      ReceiveRest(l, n, now);
      SpentHears(o, l, now);
      if more > 0 {
        SpentReceive(o, m, more, now);
      }
    }
  }

  lemma SpentHears(o: Origin, l: Link, now: int)
    requires Spent(o, l) && l.toHost != []
    ensures Spent(o, HeardOne(l, now))
    ensures HeardOne(l, now).host.core.hist.enqueued == l.host.core.hist.enqueued
  {
    hide Frame, OldThenNew, Hearing, AcceptLine, Bytes;
    IdleHears(l, now);
    HeardOneHearing(l, now);
    SpentSame(o, l, HeardOne(l, now));
  }

  lemma SpentPart(o: Origin, l: Link, n: nat)
    requires Spent(o, l) && l.toHost != [] && l.heard + n < |Bytes(l.toHost[0])|
    ensures Spent(o, l.(host := Host(l.host.core, Bytes(l.toHost[0])[..l.heard + n]), heard := l.heard + n))
  {
    hide Frame, OldThenNew, Bytes, Harmless;
    var m := l.(host := Host(l.host.core, Bytes(l.toHost[0])[..l.heard + n]), heard := l.heard + n);
    SpentSame(o, l, m);
  }

  lemma SpentLoses(o: Origin, l: Link, i: nat)
    requires Spent(o, l) && i < |l.toDevice|
    ensures Spent(o, Act(l, LoseFrame(i)))
  {
    hide Frame, OldThenNew, Bytes, Harmless;
    var k := |l.receiver.accepted|;
    LoseOne(Pipe(l), i, FrameAt(o, l.host.core, k - 1), FrameAt(o, l.host.core, k));
    assert Without(Pipe(l), i) == Pipe(Act(l, LoseFrame(i)));
  }

  lemma SpentTransmits(o: Origin, l: Link)
    requires Spent(o, l) && l.host.core.outbound != []
    ensures Spent(o, Act(l, Transmit))
  {
    hide Frame, OldThenNew, Hearing;
    var m := Act(l, Transmit);
    HearingOnly(l, m);
    assert Pipe(m) == Pipe(l);
    SpentSame(o, l, m);
  }

  lemma SpentIdles(o: Origin, l: Link, a: Action)
    requires Spent(o, l) && Possible(l, a)
    requires a.DoTick? || a.DoPollEvent? || a.Chatter? || a.LoseReply?
    ensures Spent(o, Act(l, a))
  {
    hide Frame, OldThenNew, Hearing, Harmless;
    var m := Act(l, a);
    if a.LoseReply? {
      HearingWithout(l, a.index);
    } else if a.Chatter? {
      HearingMore(l, Note(a.line));
    } else {
      HearingOnly(l, m);
    }
    SpentSame(o, l, m);
  }

  lemma SpentStays(o: Origin, l: Link, a: Action)
    requires Spent(o, l) && Possible(l, a) && !a.DoSend?
    ensures Spent(o, Act(l, a)) && Act(l, a).host.core.hist.enqueued == l.host.core.hist.enqueued
  {
    hide Frame, OldThenNew, Judge, Feed, Spent, Hearing, Harmless, Stream, Advance;
    SpentIsIdle(o, l);
    match a
    case Transmit => SpentTransmits(o, l);
    case LoseFrame(i) => SpentLoses(o, l, i);
    case Deliver => SpentDeliver(o, l);
    case Receive(n, now) => SpentReceive(o, l, n, now);
    case _ => SpentIdles(o, l, a);
  }

  lemma SpentIsIdle(o: Origin, l: Link)
    requires Spent(o, l)
    ensures l.host.core.inFlight.None? && Hearing(l)
  {
    hide Hearing;
  }

  lemma {:induction false} SpentActs(o: Origin, l: Link, acts: seq<Action>)
    requires Spent(o, l) && forall a :: a in acts ==> !a.DoSend?
    ensures Acts(l, acts).Some? ==>
              && Spent(o, Acts(l, acts).value)
              && Acts(l, acts).value.host.core.hist.enqueued == l.host.core.hist.enqueued
    decreases |acts|
  {
    hide Spent, Act;
    if acts != [] && Possible(l, acts[0]) {
      assert acts[0] in acts;
      SpentStays(o, l, acts[0]);
      SpentActs(o, Act(l, acts[0]), acts[1..]);
    }
  }

  /**
   * Until its successor is sent, giving a packet up does no harm: whatever is lost,
   * delivered late or ticked, what the receiver has accepted is still a prefix of
   * what was sent, lacking at most the packet given up.
   */
  lemma HarmlessUntilNextSend(start: Link, acts: seq<Action>, l: Link, t: int, more: seq<Action>, m: Link)
    requires InStep(start) && Acts(start, acts) == Some(l) && NoTimeouts(OriginOf(start), l.host.core)
    requires l.host.core.inFlight.Some? && l.host.core.queued == []
    requires Elapsed(t, l.host.core.inFlight.value.firstSent) >= l.host.core.totalTimeout
    requires Acts(Act(l, DoTick(t)), more) == Some(m) && forall a :: a in more ==> !a.DoSend?
    ensures var o, c, a := OriginOf(start), m.host.core, m.receiver.accepted;
            && c.hist.enqueued == l.host.core.hist.enqueued
            && o.settled + |a| <= |c.hist.enqueued| <= o.settled + |a| + 1
            && forall i :: 0 <= i < |a| ==> a[i] == PacketOf(c.hist.enqueued[o.settled + i], (o.sync + i) % 256)
  {
    hide Inv, Frame, FramesPart, RepliesPart, Acts, Act, OldThenNew, LinkInv;
    InStepHolds(start);
    ActsKeep(OriginOf(start), start, acts);
    SpentAfter(OriginOf(start), l, t);
    GivingUp(l, t);
    SpentActs(OriginOf(start), Act(l, DoTick(t)), more);
  }

  // ----- Both mistakes happen -----

  /**
   * From every start in step there is such a run of either kind: with `lost` the
   * frame of the first packet never arrives, otherwise only the reply to it.
   */
  lemma BothWays(l: Link, first: Request, lost: bool, now: int) returns (acts: seq<Action>, m: Link)
    requires InStep(l) && !first.isHandshake
    ensures Acts(l, acts) == Some(m) && NoTimeouts(OriginOf(l), m.host.core)
    ensures var c, d := l.host.core, m.host.core;
            && d.inFlight == Some(InFlight(c.sync, Wire(first, c.sync), now, now, false)) && d.queued == []
            && d.hist.enqueued == c.hist.enqueued + [first]
            && d.totalTimeout == c.totalTimeout && Done(OriginOf(l), d) == 0
            && m.receiver.accepted == if lost then [] else [PacketOf(first, c.sync)]
  {
    hide Wire, Judge, Inv;
    var c := l.host.core;
    IdleStart(c);
    var send := DoSend(first.protocol, first.packetType, first.payload, now);
    var l1 := Act(l, send);
    assert l1.host.core.outbound == [Wire(first, c.sync)];
    var l2 := Act(l1, Transmit);
    assert l2.toDevice == [Wire(first, c.sync)];
    if lost {
      m := Act(l2, LoseFrame(0));
      acts := [send, Transmit, LoseFrame(0)];
      ThreeActs(l, send, Transmit, LoseFrame(0), l1, l2, m);
    } else {
      JudgeWire(l.receiver, first, c.sync);
      m := Act(l2, Deliver);
      acts := [send, Transmit, Deliver];
      ThreeActs(l, send, Transmit, Deliver, l1, l2, m);
    }
  }

  lemma IdleStart(c: Core)
    requires Inv(c) && c.inFlight.None?
    ensures c.queued == []
  {
  }
}
