/**
 * Stop-and-wait over two FIFO channels that may lose whole frames and whole
 * reply lines. The host is the session, which reads the reply lines in chunks of
 * any size. The receiver accepts a frame that carries the expected number,
 * acknowledges the previous number again, and drops anything else (an assumption
 * about the peer: the fake device of the test fixtures does not suppress
 * duplicates); between acknowledgements it may write any text and rs lines.
 */
module Arq {
  import opened Prelude
  import opened Codec
  import opened Text
  import opened SessionSpec
  import opened SessionInvariants
  import SessionTheorems
  import LineMeaning
  import D = DeviceSpec
  import Replies

  datatype Receiver = Receiver(expected: byte, accepted: seq<Packet>)

  /** A line on its way to the host: an acknowledgement, or a text or rs line. */
  datatype Reply = Ok(n: byte) | Note(line: bytes)

  /** The host has read the first `heard` bytes of the first reply. */
  datatype Link = Link(host: Host, toDevice: seq<bytes>, toHost: seq<Reply>, heard: nat, receiver: Receiver)

  datatype Action =
    | DoSend(protocol: byte, packetType: byte, payload: bytes, now: int)
    | DoTick(now: int)
    | DoPollEvent
    | Transmit
    | LoseFrame(index: nat)
    | Deliver
    | Chatter(line: bytes)
    | LoseReply(index: nat)
    | Receive(count: nat, now: int)

  function OkReply(n: byte): bytes {
    D.OkText(n) + [LF]
  }

  function Bytes(r: Reply): bytes {
    match r
    case Ok(n) => OkReply(n)
    case Note(line) => line + [LF]
  }

  function Stream(replies: seq<Reply>): bytes {
    if replies == [] then [] else Bytes(replies[0]) + Stream(replies[1..])
  }

  /** A line that neither acknowledges nor synchronises nor fails. */
  predicate Harmless(line: bytes) {
    LF !in line && LineMeaning.Inert(StripLineEndings(line + [LF]))
  }

  /** The assumed receiver: its next state, and its reply if it sends one. */
  function Judge(r: Receiver, frame: bytes): (Receiver, seq<Reply>) {
    match Decode(frame)
    case Failure(_) => (r, [])
    case Success((p, _)) =>
      if p.sync == r.expected then
        (Receiver((r.expected + 1) % 256, r.accepted + [p]), [Ok(p.sync)])
      else if p.sync == (r.expected + 255) % 256 then (r, [Ok(p.sync)])
      else (r, [])
  }

  /** A reply of which the host has read a part cannot be lost any more. */
  predicate Possible(l: Link, a: Action) {
    match a
    case DoSend(p, t, d, now) => Allowed(l.host, OpSend(p, t, d, now))
    case Transmit => l.host.core.outbound != []
    case LoseFrame(i) => i < |l.toDevice|
    case Deliver => l.toDevice != []
    case Chatter(line) => Harmless(line)
    case LoseReply(i) => i < |l.toHost| && (l.heard > 0 ==> i > 0)
    case Receive(n, _) => n > 0 && l.heard + n <= |Stream(l.toHost)|
    case _ => true
  }

  /** What is left after k bytes: the replies not read to the end, and how far the first one is. */
  function Advance(replies: seq<Reply>, k: nat): (seq<Reply>, nat)
    decreases |replies|
  {
    if replies == [] || k < |Bytes(replies[0])| then (replies, k)
    else Advance(replies[1..], k - |Bytes(replies[0])|)
  }

  function Without<X>(s: seq<X>, i: nat): seq<X>
    requires i < |s|
  {
    s[..i] + s[i + 1..]
  }

  function Act(l: Link, a: Action): Link
    requires Possible(l, a)
  {
    match a
    case DoSend(p, t, d, now) => l.(host := Step(l.host, OpSend(p, t, d, now)))
    case DoTick(now) => l.(host := Step(l.host, OpTick(now)))
    case DoPollEvent => l.(host := Step(l.host, OpPollEvent))
    case Transmit =>
      l.(host := Step(l.host, OpPollOutbound), toDevice := l.toDevice + [l.host.core.outbound[0]])
    case LoseFrame(i) => l.(toDevice := Without(l.toDevice, i))
    case Deliver =>
      var (r, reply) := Judge(l.receiver, l.toDevice[0]);
      l.(toDevice := l.toDevice[1..], toHost := l.toHost + reply, receiver := r)
    case Chatter(line) => l.(toHost := l.toHost + [Note(line)])
    case LoseReply(i) => l.(toHost := Without(l.toHost, i))
    case Receive(n, now) =>
      var (rest, heard) := Advance(l.toHost, l.heard + n);
      l.(host := Step(l.host, OpFeed(Stream(l.toHost)[l.heard..l.heard + n], now)), toHost := rest, heard := heard)
  }

  function Acts(l: Link, acts: seq<Action>): Option<Link>
    decreases |acts|
  {
    if acts == [] then Some(l)
    else if !Possible(l, acts[0]) then None
    else Acts(Act(l, acts[0]), acts[1..])
  }

  /** A synced, idle host and a receiver that agree on the next number, over empty channels. */
  ghost predicate InStep(l: Link) {
    var c := l.host.core;
    && Inv(c) && c.isSynced && c.inFlight.None? && c.outbound == [] && l.host.inbound == []
    && l.toDevice == [] && l.toHost == [] && l.heard == 0 && l.receiver == Receiver(c.sync, [])
  }

  // ----- The invariant of a run that started in step -----

  /** Where the run started: how many packets were settled, and the next number. */
  datatype Origin = Origin(settled: nat, sync: byte)

  function Number(o: Origin, i: int): byte {
    (o.sync + i) % 256
  }

  /** The i-th packet sent since the origin, with the number it gets. */
  function Sent(o: Origin, c: Core, i: nat): Packet
    requires o.settled + i < |c.hist.enqueued|
  {
    PacketOf(c.hist.enqueued[o.settled + i], Number(o, i))
  }

  /** Packets acknowledged to the host since the origin. */
  function Done(o: Origin, c: Core): int {
    |c.hist.resolved| - o.settled
  }

  /** Only old items, then only new ones. */
  ghost predicate OldThenNew<X>(s: seq<X>, old_: Option<X>, new_: Option<X>) {
    && (forall x :: x in s ==> Some(x) == old_ || Some(x) == new_)
    && (forall i, j :: 0 <= i < j < |s| && Some(s[i]) == new_ ==> Some(s[j]) == new_)
  }

  ghost predicate NoTimeouts(o: Origin, c: Core) {
    forall i :: o.settled <= i < |c.hist.resolved| ==> c.hist.resolved[i].Acked?
  }

  /** The host side: numbers follow the acks, and the slot holds the next packet. */
  ghost predicate HostPart(o: Origin, c: Core) {
    && Inv(c) && c.isSynced && o.settled <= |c.hist.resolved| && NoTimeouts(o, c)
    && (forall i :: o.settled <= i < |c.hist.enqueued| ==> !c.hist.enqueued[i].isHandshake)
    && c.sync == Number(o, Done(o, c))
    && (c.inFlight.Some? ==>
          && o.settled + Done(o, c) < |c.hist.enqueued|
          && c.inFlight.value.sync == c.sync && !c.inFlight.value.isHandshake
          && c.inFlight.value.frame == Frame(Sent(o, c, Done(o, c))))
    && (c.inFlight.None? ==> o.settled + Done(o, c) == |c.hist.enqueued|)
  }

  ghost predicate ReceiverPart(o: Origin, c: Core, r: Receiver) {
    && o.settled + |r.accepted| <= |c.hist.enqueued|
    && r.expected == Number(o, |r.accepted|)
    && (forall i :: 0 <= i < |r.accepted| ==> r.accepted[i] == Sent(o, c, i))
    && (|r.accepted| == Done(o, c) || (|r.accepted| == Done(o, c) + 1 && c.inFlight.Some?))
  }

  /** Frames on their way, in a channel or still in outbound. */
  function Pipe(l: Link): seq<bytes> {
    l.toDevice + l.host.core.outbound
  }

  function FrameAt(o: Origin, c: Core, i: int): Option<bytes> {
    if 0 <= i && o.settled + i < |c.hist.enqueued| then Some(Frame(Sent(o, c, i))) else None
  }

  function OkAt(o: Origin, i: int): Option<byte> {
    if 0 <= i then Some(Number(o, i)) else None
  }

  /** The numbers acknowledged by the replies on their way. */
  function OksOf(replies: seq<Reply>): seq<byte> {
    if replies == [] then []
    else (if replies[0].Ok? then [replies[0].n] else []) + OksOf(replies[1..])
  }

  /** The line buffer holds what was read of the first reply, and every text line is harmless. */
  ghost predicate Hearing(l: Link) {
    && (forall r :: r in l.toHost && r.Note? ==> Harmless(r.line))
    && if l.toHost == [] then l.heard == 0 && l.host.inbound == []
       else l.heard < |Bytes(l.toHost[0])| && l.host.inbound == Bytes(l.toHost[0])[..l.heard]
  }

  /** The packet not yet accepted can only be preceded by copies of the one accepted last. */
  ghost predicate FramesPart(o: Origin, l: Link) {
    var c, a := l.host.core, |l.receiver.accepted|;
    OldThenNew(Pipe(l), FrameAt(o, c, a - 1), if a == Done(o, c) && c.inFlight.Some? then FrameAt(o, c, a) else None)
  }

  /** The ack the host waits for can only be preceded by repeats of the one it had. */
  ghost predicate RepliesPart(o: Origin, l: Link) {
    var k := Done(o, l.host.core);
    OldThenNew(OksOf(l.toHost), OkAt(o, k - 1), if |l.receiver.accepted| == k + 1 then OkAt(o, k) else None)
  }

  ghost predicate LinkInv(o: Origin, l: Link) {
    && Hearing(l)
    && HostPart(o, l.host.core) && ReceiverPart(o, l.host.core, l.receiver)
    && FramesPart(o, l) && RepliesPart(o, l)
  }

  // ----- Host steps -----

  lemma SlotMatchesInv(c: Core)
    requires Inv(c)
    ensures |c.hist.enqueued| == |c.hist.resolved| + (if c.inFlight.Some? then 1 else 0) + |c.queued|
    ensures c.inFlight.None? ==> c.queued == []
    ensures c.inFlight.Some? ==> |c.hist.dispatched| == |c.hist.resolved| + 1
                                 && c.hist.dispatched[|c.hist.resolved|].request == c.hist.enqueued[|c.hist.resolved|]
    ensures c.queued != [] ==> c.queued[0] == c.hist.enqueued[|c.hist.dispatched|]
  {
    hide Wire, Expand, Numbered, CountAcks, Timers, Settled, WithoutHandshakes;
  }

  /** The effect of a host step on what the link looks at. */
  ghost predicate Same(o: Origin, c: Core, d: Core) {
    && HostPart(o, d) && Done(o, d) == Done(o, c) && c.hist.enqueued <= d.hist.enqueued
    && (c.inFlight.Some? ==> d.inFlight.Some?)
  }

  lemma SendStep(o: Origin, c: Core, r: Request, now: int)
    requires HostPart(o, c) && !r.isHandshake
    ensures var d := Submit(c, r, now);
            && Same(o, c, d)
            && d.outbound == c.outbound + (if c.inFlight.Some? then [] else [Frame(Sent(o, d, Done(o, d)))])
            && d.inFlight.Some?
  {
    hide Frame, Inv;
    SubmitKeeps(c, r, now);
    SlotMatchesInv(c);
  }

  lemma TickStep(o: Origin, c: Core, now: int)
    requires HostPart(o, c)
    ensures var d := Tick(c, now);
            || (Same(o, c, d) && c.hist.enqueued == d.hist.enqueued && (d.inFlight.Some? <==> c.inFlight.Some?)
                && (d.outbound == c.outbound
                    || (c.inFlight.Some? && d.outbound == c.outbound + [Frame(Sent(o, c, Done(o, c)))])))
            || (c.hist.resolved <= d.hist.resolved && !NoTimeouts(o, d))
  {
    hide Wire, Inv, Recopied;
    TickKeeps(c, now);
    var d := Tick(c, now);
    if |d.hist.resolved| > |c.hist.resolved| {
      assert d.hist.resolved[|c.hist.resolved|].TimedOut?;
    }
  }

  lemma StaleOkStep(o: Origin, c: Core, n: byte, now: int)
    requires HostPart(o, c) && n != c.sync
    ensures var d := HandleOk(c, n, now);
            Same(o, c, d) && d.hist.enqueued == c.hist.enqueued
            && d.outbound == c.outbound && d.inFlight == c.inFlight
  {
    hide Wire, Inv, Decimal;
    HandleOkKeeps(c, n, now);
  }

  lemma FreshOkStep(o: Origin, c: Core, now: int)
    requires HostPart(o, c) && c.inFlight.Some?
    ensures var d := HandleOk(c, c.sync, now);
            && HostPart(o, d) && Done(o, d) == Done(o, c) + 1 && d.hist.enqueued == c.hist.enqueued
            && d.outbound == c.outbound + (if d.inFlight.Some? then [Frame(Sent(o, d, Done(o, d)))] else [])
  {
    hide Frame, Inv;
    HandleOkKeeps(c, c.sync, now);
    SlotMatchesInv(c);
    var d := HandleOk(c, c.sync, now);
    SlotMatchesInv(d);
    NextNumber(o, Done(o, c));
  }

  lemma NextNumber(o: Origin, i: int)
    ensures Number(o, i + 1) == (Number(o, i) + 1) % 256
    ensures Number(o, i + 1) != Number(o, i)
    ensures Number(o, i) == (Number(o, i + 1) + 255) % 256
  {
    hide Number;
    NumberStep(o, i);
    Wrap(Number(o, i));
  }

  lemma NumberStep(o: Origin, i: int)
    ensures Number(o, i + 1) == (Number(o, i) + 1) % 256
  {
    assert o.sync + (i + 1) == (o.sync + i) + 1;
  }

  /** Adding one modulo 256 gives another byte, and adding 255 more comes back. */
  lemma Wrap(x: byte)
    ensures (x + 1) % 256 != x && ((x + 1) % 256 + 255) % 256 == x
  {
  }

  // ----- Channels -----

  lemma LoseOne<X>(s: seq<X>, i: nat, old_: Option<X>, new_: Option<X>)
    requires OldThenNew(s, old_, new_) && i < |s|
    ensures OldThenNew(Without(s, i), old_, new_)
  {
    var t := Without(s, i);
    assert forall j :: 0 <= j < |t| ==> t[j] == s[if j < i then j else j + 1];
  }

  lemma TakeFirst<X>(s: seq<X>, old_: Option<X>, new_: Option<X>)
    requires OldThenNew(s, old_, new_) && s != []
    ensures OldThenNew(s[1..], old_, new_)
    ensures Some(s[0]) == new_ ==> OldThenNew(s[1..], new_, None)
  {
    var t := s[1..];
    assert forall j :: 0 <= j < |t| ==> t[j] == s[j + 1];
  }

  lemma AddLast<X>(s: seq<X>, old_: Option<X>, x: X)
    requires OldThenNew(s, old_, Some(x)) || OldThenNew(s, old_, None)
    ensures OldThenNew(s + [x], old_, Some(x))
  {
  }

  lemma AddOld<X>(s: seq<X>, x: X)
    requires OldThenNew(s, Some(x), None)
    ensures OldThenNew(s + [x], Some(x), None)
  {
  }

  /** A frame in the pipe is the one accepted last or the next one, never both. */
  lemma JudgeFrame(o: Origin, c: Core, r: Receiver, i: int)
    requires 0 <= i && o.settled + i < |c.hist.enqueued| && r.expected == Number(o, |r.accepted|)
    ensures i == |r.accepted| ==>
              Judge(r, Frame(Sent(o, c, i)))
              == (Receiver(Number(o, i + 1), r.accepted + [Sent(o, c, i)]), [Ok(Number(o, i))])
    ensures i == |r.accepted| - 1 ==>
              Judge(r, Frame(Sent(o, c, i))) == (r, [Ok(Number(o, i))])
  {
    hide Frame, Decode;
    var p := Sent(o, c, i);
    RoundTrip(p, []);
    assert Frame(p) + [] == Frame(p);
    NextNumber(o, i);
  }

  lemma OksSnoc(replies: seq<Reply>, r: Reply)
    ensures OksOf(replies + [r]) == OksOf(replies) + if r.Ok? then [r.n] else []
  {
    hide OksOf;
    OksAppend(replies, [r]);
    OksHead([r]);
    OksNone([r][1..]);
  }

  lemma OksNone(replies: seq<Reply>)
    requires replies == []
    ensures OksOf(replies) == []
  {
  }

  lemma HearingMore(l: Link, r: Reply)
    requires Hearing(l) && (r.Note? ==> Harmless(r.line))
    ensures Hearing(l.(toHost := l.toHost + [r]))
  {
    hide Harmless, Bytes;
    if r.Note? {
      HarmlessIsLine(r.line);
    }
    ReplyEnds(r);
  }

  lemma HarmlessIsLine(line: bytes)
    requires Harmless(line)
    ensures LF !in line
  {
  }

  /** The frame delivered is that of packet i: the next one, or the one accepted last. */
  lemma DeliveredFrame(o: Origin, l: Link) returns (i: int)
    requires HostPart(o, l.host.core) && ReceiverPart(o, l.host.core, l.receiver) && FramesPart(o, l)
    requires l.toDevice != []
    ensures var c, r, m := l.host.core, l.receiver, Act(l, Deliver);
            var a := |r.accepted|;
            && 0 <= i && o.settled + i < |c.hist.enqueued|
            && (if i == a then
                  && a == Done(o, c) && c.inFlight.Some?
                  && m.receiver == Receiver(Number(o, a + 1), r.accepted + [Sent(o, c, a)])
                else i == a - 1 && m.receiver == r)
            && m.toHost == l.toHost + [Ok(Number(o, i))]
    ensures FramesPart(o, Act(l, Deliver))
  {
    hide Frame, Inv, Judge, OldThenNew;
    var c, r, x := l.host.core, l.receiver, l.toDevice[0];
    var a, m := |r.accepted|, Act(l, Deliver);
    var next := if a == Done(o, c) && c.inFlight.Some? then FrameAt(o, c, a) else None;
    TakeFirst(Pipe(l), FrameAt(o, c, a - 1), next);
    assert Pipe(l)[1..] == Pipe(m);
    HeadOf(Pipe(l), FrameAt(o, c, a - 1), next);
    i := if Some(x) == next then a else a - 1;
    JudgeFrame(o, c, r, i);
  }

  lemma DeliverKeeps(o: Origin, l: Link)
    requires LinkInv(o, l) && l.toDevice != []
    ensures LinkInv(o, Act(l, Deliver))
  {
    hide Inv, Judge, OldThenNew, OksOf, Hearing, FramesPart, FrameAt, Frame;
    var k, m := Done(o, l.host.core), Act(l, Deliver);
    var i := DeliveredFrame(o, l);
    HearingMore(l, Ok(Number(o, i)));
    HearingOnly(l.(toHost := m.toHost), m);
    OksSnoc(l.toHost, Ok(Number(o, i)));
    if i == k {
      AddLast(OksOf(l.toHost), OkAt(o, k - 1), Number(o, k));
    } else {
      AddOld(OksOf(l.toHost), Number(o, k - 1));
    }
  }

  lemma HearingOnly(l: Link, m: Link)
    requires Hearing(l) && m.toHost == l.toHost && m.heard == l.heard && m.host.inbound == l.host.inbound
    ensures Hearing(m)
  {
    hide Harmless, Bytes;
  }

  lemma HeadOf<X>(s: seq<X>, old_: Option<X>, new_: Option<X>)
    requires OldThenNew(s, old_, new_) && s != []
    ensures Some(s[0]) == old_ || Some(s[0]) == new_
  {
  }

  // ----- Reading replies in chunks -----

  /** A reply is a line: its only newline is at its end. */
  lemma ReplyEnds(r: Reply)
    requires r.Note? ==> LF !in r.line
    ensures var b := Bytes(r);
            b != [] && IndexOf(b, LF) == |b| - 1 && forall i :: 0 <= i < |b| - 1 ==> b[i] != LF
  {
    hide Decimal;
    var b := Bytes(r);
    if r.Ok? {
      Replies.DigitsAreAscii(Decimal(r.n));
    }
    IndexOfUnique(b, LF, |b| - 1);
  }

  /** The first reply read to its end, when nothing of the next has been read. */
  function HeardOne(l: Link, now: int): Link
    requires l.toHost != []
  {
    l.(host := Host(AcceptLine(l.host.core, Bytes(l.toHost[0]), now), []), toHost := l.toHost[1..], heard := 0)
  }

  lemma PartOfLine(h: Host, b: bytes, heard: nat, n: nat, now: int)
    requires heard + n < |b| && h.inbound == b[..heard] && forall i :: 0 <= i < |b| - 1 ==> b[i] != LF
    ensures Feed(h, b[heard..heard + n], now) == Host(h.core, b[..heard + n])
  {
    hide Lines, Rest, AcceptLine;
    var buf := b[..heard + n];
    assert h.inbound + b[heard..heard + n] == buf;
    IndexOfUnique(buf, LF, |buf|);
    SessionTheorems.NoLine(buf);
  }

  lemma WholeLine(h: Host, b: bytes, heard: nat, rest: bytes, now: int)
    requires heard < |b| && h.inbound == b[..heard] && IndexOf(b, LF) == |b| - 1
    ensures Feed(h, b[heard..] + rest, now) == Feed(Host(AcceptLine(h.core, b, now), []), rest, now)
  {
    hide Lines, Rest, AcceptLine, IndexOf;
    assert h.inbound + (b[heard..] + rest) == b + rest;
    SessionTheorems.SameFirstLine(b, rest, |b| - 1);
    assert b[..|b|] == b && b[|b|..] + rest == rest && [] + rest == rest;
    SessionTheorems.FirstLine(b + rest, b, rest);
    SessionTheorems.RestOfLines(b + rest, rest);
    FirstOfLines(h.core, b, Lines(rest), now);
  }

  lemma FirstOfLines(c: Core, b: bytes, lines: seq<bytes>, now: int)
    ensures AcceptLines(c, [b] + lines, now) == AcceptLines(AcceptLine(c, b, now), lines, now)
  {
    hide AcceptLine;
    assert ([b] + lines)[1..] == lines;
  }

  lemma FeedNothing(h: Host, now: int)
    requires h.inbound == []
    ensures Feed(h, [], now) == h
  {
    assert Lines([]) == [] && Rest([]) == [];
  }

  /** A chunk stays within the first reply. */
  lemma ReceivePart(l: Link, n: nat, now: int)
    requires Hearing(l) && Possible(l, Receive(n, now)) && l.toHost != [] && l.heard + n < |Bytes(l.toHost[0])|
    ensures var b := Bytes(l.toHost[0]);
            Act(l, Receive(n, now)) == l.(host := Host(l.host.core, b[..l.heard + n]), heard := l.heard + n)
  {
    hide Bytes, Feed, Harmless;
    var b := Bytes(l.toHost[0]);
    HarmlessHead(l);
    ReplyEnds(l.toHost[0]);
    PartOfLine(l.host, b, l.heard, n, now);
    assert Stream(l.toHost)[l.heard..l.heard + n] == b[l.heard..l.heard + n];
  }

  lemma HarmlessHead(l: Link)
    requires Hearing(l) && l.toHost != []
    ensures l.toHost[0].Note? ==> Harmless(l.toHost[0].line) && LF !in l.toHost[0].line
    ensures l.heard < |Bytes(l.toHost[0])| && l.host.inbound == Bytes(l.toHost[0])[..l.heard]
  {
    hide Bytes;
    assert l.toHost[0] in l.toHost;
  }

  /** A chunk that reaches the end of the first reply: that reply is heard, then the rest of the chunk. */
  lemma ReceiveRest(l: Link, n: nat, now: int)
    requires Hearing(l) && Possible(l, Receive(n, now)) && l.toHost != [] && l.heard + n >= |Bytes(l.toHost[0])|
    ensures var m, more := HeardOne(l, now), l.heard + n - |Bytes(l.toHost[0])|;
            if more == 0 then Act(l, Receive(n, now)) == m
            else Possible(m, Receive(more, now)) && Act(l, Receive(n, now)) == Act(m, Receive(more, now))
  {
    hide Bytes, Feed, Harmless, AcceptLine;
    var b, tail := Bytes(l.toHost[0]), Stream(l.toHost[1..]);
    var more := l.heard + n - |b|;
    HarmlessHead(l);
    ReplyEnds(l.toHost[0]);
    ChunkSplits(b, tail, l.heard, n);
    WholeLine(l.host, b, l.heard, tail[..more], now);
    if more == 0 {
      FeedNothing(HeardOne(l, now).host, now);
      AdvanceNothing(l.toHost[1..]);
    }
  }

  lemma AdvanceNothing(replies: seq<Reply>)
    ensures Advance(replies, 0) == (replies, 0)
  {
    hide D.OkText;
  }

  lemma ChunkSplits(b: bytes, tail: bytes, heard: nat, n: nat)
    requires heard < |b| && |b| <= heard + n <= |b| + |tail|
    ensures (b + tail)[heard..heard + n] == b[heard..] + tail[..heard + n - |b|]
  {
  }

  lemma OkHeard(c: Core, n: byte, now: int)
    ensures AcceptLine(c, OkReply(n), now) == HandleOk(c, n, now)
  {
    hide AcceptLine, HandleOk, Feed, D.OkText;
    var h := Host(c, []);
    Replies.OkRoundTrip(h, n, now);
    OkTextIsLine(n);
    Replies.FeedLine(h, D.OkText(n), now);
  }

  lemma OkTextIsLine(n: byte)
    ensures LF !in D.OkText(n)
  {
    hide Decimal;
    Replies.DigitsAreAscii(Decimal(n));
  }

  /** A text or rs line changes nothing but the events. */
  lemma NoteHeard(c: Core, line: bytes, now: int)
    requires Harmless(line)
    ensures var d := AcceptLine(c, line + [LF], now);
            d == c || exists e :: d == Raise(c, e) && !e.Ack? && !e.Timeout? && !e.Synced?
  {
    hide AcceptLine, StripLineEndings, Raise, LineMeaning.Inert;
    LineMeaning.InertHeard(c, line + [LF], now);
  }

  lemma NoteStep(o: Origin, c: Core, line: bytes, now: int)
    requires HostPart(o, c) && Harmless(line)
    ensures var d := AcceptLine(c, line + [LF], now);
            Same(o, c, d) && d.hist.enqueued == c.hist.enqueued && d.outbound == c.outbound && d.inFlight == c.inFlight
  {
    hide Inv, AcceptLine, Frame;
    NoteHeard(c, line, now);
    var d := AcceptLine(c, line + [LF], now);
    if d != c {
      var e :| d == Raise(c, e) && !e.Ack? && !e.Timeout? && !e.Synced?;
      RaiseNote(c, e);
    }
  }

  /** Hearing one reply to its end keeps everything. */
  lemma HeardOneKeeps(o: Origin, l: Link, now: int)
    requires LinkInv(o, l) && l.toHost != []
    ensures LinkInv(o, HeardOne(l, now))
  {
    hide Frame, Inv, OldThenNew, AcceptLine, HandleOk, Hearing, OksOf, Bytes;
    var c, r := l.host.core, l.toHost[0];
    HeardOneHearing(l, now);
    HarmlessHead(l);
    OksHead(l.toHost);
    match r
    case Ok(n) => OkHeardKeeps(o, l, n, now);
    case Note(line) =>
      NoteBytes(line);
      NoteStep(o, c, line, now);
      QuietlyHeard(o, l, AcceptLine(c, line + [LF], now), now);
  }

  lemma NoteBytes(line: bytes)
    ensures Bytes(Note(line)) == line + [LF]
  {
  }

  lemma OkBytes(n: byte)
    ensures Bytes(Ok(n)) == OkReply(n)
  {
  }

  lemma OksHead(replies: seq<Reply>)
    requires replies != []
    ensures OksOf(replies) == (if replies[0].Ok? then [replies[0].n] else []) + OksOf(replies[1..])
    ensures replies[0].Ok? ==> OksOf(replies)[1..] == OksOf(replies[1..]) && OksOf(replies)[0] == replies[0].n
    ensures replies[0].Note? ==> OksOf(replies) == OksOf(replies[1..])
  {
  }

  lemma HeardOneHearing(l: Link, now: int)
    requires Hearing(l) && l.toHost != []
    ensures Hearing(HeardOne(l, now))
  {
    hide AcceptLine, Harmless, Bytes;
    var rest := l.toHost[1..];
    assert forall r :: r in rest ==> r in l.toHost;
    if rest != [] {
      assert rest[0] in l.toHost;
      HarmlessLine(rest[0], l);
      ReplyEnds(rest[0]);
    }
  }

  /** A reply heard that leaves slot, pipe and requests alone. */
  lemma QuietlyHeard(o: Origin, l: Link, d: Core, now: int)
    requires LinkInv(o, l) && l.toHost != [] && HeardOne(l, now).host.core == d && Hearing(HeardOne(l, now))
    requires Same(o, l.host.core, d) && d.hist.enqueued == l.host.core.hist.enqueued
    requires d.outbound == l.host.core.outbound && d.inFlight == l.host.core.inFlight
    requires OksOf(l.toHost[1..]) == OksOf(l.toHost)
             || (OksOf(l.toHost) != [] && OksOf(l.toHost[1..]) == OksOf(l.toHost)[1..])
    ensures LinkInv(o, HeardOne(l, now))
  {
    hide Frame, Inv, OldThenNew, AcceptLine, Hearing, OksOf, Bytes;
    var m, k := HeardOne(l, now), Done(o, l.host.core);
    assert Pipe(m) == Pipe(l);
    var next := if |l.receiver.accepted| == k + 1 then OkAt(o, k) else None;
    if OksOf(l.toHost[1..]) != OksOf(l.toHost) {
      TakeFirst(OksOf(l.toHost), OkAt(o, k - 1), next);
    }
  }

  lemma OkHeardKeeps(o: Origin, l: Link, n: byte, now: int)
    requires LinkInv(o, l) && l.toHost != [] && l.toHost[0] == Ok(n) && Hearing(HeardOne(l, now))
    ensures LinkInv(o, HeardOne(l, now))
  {
    hide Frame, Inv, OldThenNew, AcceptLine, HandleOk, Hearing, OksOf, Bytes, OkReply;
    var c, a, k := l.host.core, |l.receiver.accepted|, Done(o, l.host.core);
    var next := if a == k + 1 then OkAt(o, k) else None;
    OksHead(l.toHost);
    OkBytes(n);
    OkHeard(c, n, now);
    HeadOf(OksOf(l.toHost), OkAt(o, k - 1), next);
    if Some(n) == next {
      TakeFirst(OksOf(l.toHost), OkAt(o, k - 1), next);
      FreshOkStep(o, c, now);
      FreshOkPipe(o, l, HandleOk(c, c.sync, now));
      SamePipe(o, l.(host := l.host.(core := HandleOk(c, c.sync, now))), HeardOne(l, now));
    } else {
      NextNumber(o, k - 1);
      StaleOkStep(o, c, n, now);
      QuietlyHeard(o, l, HandleOk(c, n, now), now);
    }
  }

  lemma PartHeardKeeps(o: Origin, l: Link, n: nat)
    requires LinkInv(o, l) && l.toHost != [] && l.heard + n < |Bytes(l.toHost[0])|
    ensures LinkInv(o, l.(host := Host(l.host.core, Bytes(l.toHost[0])[..l.heard + n]), heard := l.heard + n))
  {
    hide Frame, Inv, OldThenNew, HostPart, ReceiverPart, OksOf, Bytes, Harmless;
    var m := l.(host := Host(l.host.core, Bytes(l.toHost[0])[..l.heard + n]), heard := l.heard + n);
    assert Pipe(m) == Pipe(l);
  }

  /** Whatever the chunk, what it completes is heard line by line. */
  lemma {:induction false} ReceiveKeeps(o: Origin, l: Link, n: nat, now: int)
    requires LinkInv(o, l) && Possible(l, Receive(n, now))
    ensures LinkInv(o, Act(l, Receive(n, now)))
    decreases |l.toHost|
  {
    hide LinkInv, Act, HeardOne, Bytes;
    HearingOf(o, l);
    SomethingToRead(l, n);
    if l.heard + n < |Bytes(l.toHost[0])| {
      ReceivePart(l, n, now);
      PartHeardKeeps(o, l, n);
    } else {
      var m, more := HeardOne(l, now), l.heard + n - |Bytes(l.toHost[0])|;
      HeardOneShape(l, now);
      ReceiveRest(l, n, now);
      HeardOneKeeps(o, l, now);
      if more > 0 {
        ReceiveKeeps(o, m, more, now);
      }
    }
  }

  lemma HeardOneShape(l: Link, now: int)
    requires l.toHost != []
    ensures HeardOne(l, now).toHost == l.toHost[1..]
  {
  }

  lemma HearingOf(o: Origin, l: Link)
    requires LinkInv(o, l)
    ensures Hearing(l)
  {
  }

  lemma SomethingToRead(l: Link, n: nat)
    requires n > 0 && l.heard + n <= |Stream(l.toHost)|
    ensures l.toHost != []
  {
  }

  /** Once the ack is in, every frame on its way is a copy of the old packet, then the next one. */
  lemma FreshOkPipe(o: Origin, l: Link, d: Core)
    requires LinkInv(o, l) && |l.receiver.accepted| == Done(o, l.host.core) + 1
    requires HostPart(o, d) && Done(o, d) == Done(o, l.host.core) + 1
    requires d.hist.enqueued == l.host.core.hist.enqueued
    requires d.outbound == l.host.core.outbound
                           + (if d.inFlight.Some? then [Frame(Sent(o, d, Done(o, d)))] else [])
    ensures FramesPart(o, l.(host := l.host.(core := d)))
  {
    hide Frame, Inv, OldThenNew, Hearing, OksOf;
    var m, a := l.(host := l.host.(core := d)), |l.receiver.accepted|;
    if d.inFlight.Some? {
      AddLast(Pipe(l), FrameAt(o, d, a - 1), Frame(Sent(o, d, a)));
      assert Pipe(m) == Pipe(l) + [Frame(Sent(o, d, a))];
    } else {
      assert Pipe(m) == Pipe(l);
    }
  }

  /** A host step that settles nothing, and puts at most the packet in flight into the pipe. */
  lemma SameKeeps(o: Origin, l: Link, d: Core)
    requires LinkInv(o, l) && Same(o, l.host.core, d)
    requires || (d.outbound == l.host.core.outbound && (d.inFlight.Some? <==> l.host.core.inFlight.Some?))
             || (d.inFlight.Some? && d.outbound == l.host.core.outbound + [Frame(Sent(o, d, Done(o, d)))])
    ensures LinkInv(o, l.(host := l.host.(core := d)))
  {
    hide Frame, Inv, OldThenNew, Bytes, OksOf, Harmless;
    var m, c, a, k := l.(host := l.host.(core := d)), l.host.core, |l.receiver.accepted|, Done(o, d);
    assert forall i :: 0 <= i && o.settled + i < |c.hist.enqueued| ==> Sent(o, d, i) == Sent(o, c, i);
    if d.outbound == c.outbound && (d.inFlight.Some? <==> c.inFlight.Some?) {
      assert Pipe(m) == Pipe(l);
    } else {
      var f := Frame(Sent(o, d, k));
      assert Pipe(m) == Pipe(l) + [f];
      if a == k {
        AddLast(Pipe(l), FrameAt(o, c, a - 1), f);
      } else {
        AddOld(Pipe(l), f);
      }
    }
  }

  lemma TransmitKeeps(o: Origin, l: Link)
    requires LinkInv(o, l) && l.host.core.outbound != []
    ensures LinkInv(o, Act(l, Transmit))
  {
    hide Frame, Inv, OldThenNew, Bytes, OksOf, Harmless;
    var c, d := l.host.core, Act(l, Transmit).host.core;
    PollsKeep(c);
    assert Pipe(Act(l, Transmit)) == Pipe(l);
  }

  /** Every action keeps the link invariant, unless a packet runs out of budget. */
  lemma ActKeeps(o: Origin, l: Link, a: Action)
    requires LinkInv(o, l) && Possible(l, a)
    ensures LinkInv(o, Act(l, a)) || !NoTimeouts(o, Act(l, a).host.core)
  {
    hide LinkInv, NoTimeouts, Act;
    match a
    case DoSend(p, t, d, now) => SendKeepsLink(o, l, Request(p, t, d, false), now);
    case DoTick(now) => TickKeepsLink(o, l, now);
    case DoPollEvent => PollEventKeeps(o, l);
    case Transmit => TransmitKeeps(o, l);
    case LoseFrame(i) => LosePipe(o, l, i);
    case Deliver => DeliverKeeps(o, l);
    case Chatter(line) => ChatterKeeps(o, l, line);
    case LoseReply(i) => LoseReplyKeeps(o, l, i);
    case Receive(n, now) => ReceiveKeeps(o, l, n, now);
  }

  lemma SendKeepsLink(o: Origin, l: Link, r: Request, now: int)
    requires LinkInv(o, l) && !r.isHandshake && Possible(l, DoSend(r.protocol, r.packetType, r.payload, now))
    ensures LinkInv(o, Act(l, DoSend(r.protocol, r.packetType, r.payload, now)))
  {
    hide Frame, Inv, OldThenNew, HostPart, ReceiverPart, Submit, Hearing;
    SendStep(o, l.host.core, r, now);
    SameKeeps(o, l, Submit(l.host.core, r, now));
  }

  lemma TickKeepsLink(o: Origin, l: Link, now: int)
    requires LinkInv(o, l)
    ensures LinkInv(o, Act(l, DoTick(now))) || !NoTimeouts(o, Act(l, DoTick(now)).host.core)
  {
    hide Frame, Inv, OldThenNew, HostPart, ReceiverPart, Tick, NoTimeouts, Hearing;
    TickStep(o, l.host.core, now);
    if NoTimeouts(o, Act(l, DoTick(now)).host.core) {
      SameKeeps(o, l, Tick(l.host.core, now));
    }
  }

  lemma {:induction false} OksWithout(replies: seq<Reply>, i: nat, old_: Option<byte>, new_: Option<byte>)
    requires i < |replies| && OldThenNew(OksOf(replies), old_, new_)
    ensures OldThenNew(OksOf(Without(replies, i)), old_, new_)
  {
    hide OldThenNew, OksOf;
    var head, tail := replies[..i], replies[i + 1..];
    assert replies == head + ([replies[i]] + tail);
    OksAppend(head, [replies[i]] + tail);
    OksAppend(head, tail);
    OksHead([replies[i]] + tail);
    assert ([replies[i]] + tail)[1..] == tail;
    if replies[i].Ok? {
      var all, k := OksOf(replies), |OksOf(head)|;
      assert all[..k] == OksOf(head) && all[k + 1..] == OksOf(tail);
      LoseOne(all, k, old_, new_);
    }
  }

  lemma {:induction false} OksAppend(a: seq<Reply>, b: seq<Reply>)
    ensures OksOf(a + b) == OksOf(a) + OksOf(b)
    decreases |a|
  {
    hide OksOf;
    if a == [] {
      assert a + b == b;
      OksNone(a);
    } else {
      assert (a + b)[1..] == a[1..] + b;
      OksHead(a);
      OksHead(a + b);
      OksAppend(a[1..], b);
    }
  }

  lemma LoseReplyKeeps(o: Origin, l: Link, i: nat)
    requires LinkInv(o, l) && Possible(l, LoseReply(i))
    ensures LinkInv(o, Act(l, LoseReply(i)))
  {
    hide Frame, Inv, OldThenNew, HostPart, ReceiverPart, FramesPart, Hearing, OksOf;
    var k := Done(o, l.host.core);
    OksWithout(l.toHost, i, OkAt(o, k - 1), if |l.receiver.accepted| == k + 1 then OkAt(o, k) else None);
    HearingWithout(l, i);
    SamePipe(o, l, Act(l, LoseReply(i)));
  }

  lemma HearingWithout(l: Link, i: nat)
    requires Hearing(l) && Possible(l, LoseReply(i))
    ensures Hearing(Act(l, LoseReply(i)))
  {
    hide Harmless, Bytes;
    var rest := Without(l.toHost, i);
    assert forall r :: r in rest ==> r in l.toHost;
    if rest != [] {
      HarmlessLine(rest[0], l);
      ReplyEnds(rest[0]);
    }
  }

  lemma HarmlessLine(r: Reply, l: Link)
    requires Hearing(l) && r in l.toHost
    ensures r.Note? ==> LF !in r.line
  {
    hide Bytes;
  }

  lemma ChatterKeeps(o: Origin, l: Link, line: bytes)
    requires LinkInv(o, l) && Harmless(line)
    ensures LinkInv(o, Act(l, Chatter(line)))
  {
    hide Frame, Inv, OldThenNew, HostPart, ReceiverPart, FramesPart, Hearing, OksOf, Harmless;
    HearingMore(l, Note(line));
    OksSnoc(l.toHost, Note(line));
    assert OksOf(l.toHost) + [] == OksOf(l.toHost);
    SamePipe(o, l, Act(l, Chatter(line)));
  }

  lemma SamePipe(o: Origin, l: Link, m: Link)
    requires FramesPart(o, l) && m.host.core == l.host.core && m.toDevice == l.toDevice && m.receiver == l.receiver
    ensures FramesPart(o, m)
  {
    hide Frame, OldThenNew;
  }

  lemma PollEventKeeps(o: Origin, l: Link)
    requires LinkInv(o, l)
    ensures LinkInv(o, Act(l, DoPollEvent))
  {
    hide Frame, Inv, OldThenNew, Bytes, OksOf, Harmless;
    PollsKeep(l.host.core);
    assert Pipe(Act(l, DoPollEvent)) == Pipe(l);
  }

  lemma LosePipe(o: Origin, l: Link, i: nat)
    requires LinkInv(o, l) && i < |l.toDevice|
    ensures LinkInv(o, Act(l, LoseFrame(i)))
  {
    hide Frame, Inv, OldThenNew, HostPart, ReceiverPart, Bytes, OksOf, Harmless;
    var c, a := l.host.core, |l.receiver.accepted|;
    LoseOne(Pipe(l), i, FrameAt(o, c, a - 1), if a == Done(o, c) && c.inFlight.Some? then FrameAt(o, c, a) else None);
    assert Without(Pipe(l), i) == Pipe(Act(l, LoseFrame(i)));
  }

  // ----- Whole runs -----

  lemma OutcomesGrow(c: Core, raw: bytes, now: int)
    ensures c.hist.resolved <= AcceptLine(c, raw, now).hist.resolved
  {
    hide Wire, Classify, StripLineEndings, Decimal;
  }

  lemma {:induction false} OutcomesOnlyGrow(c: Core, lines: seq<bytes>, now: int)
    ensures c.hist.resolved <= AcceptLines(c, lines, now).hist.resolved
    decreases |lines|
  {
    hide AcceptLine;
    if lines != [] {
      OutcomesGrow(c, lines[0], now);
    }
    if lines != [] {
      OutcomesOnlyGrow(AcceptLine(c, lines[0], now), lines[1..], now);
    }
  }

  lemma TimeoutsStay(o: Origin, l: Link, a: Action)
    requires Possible(l, a) && !NoTimeouts(o, l.host.core)
    ensures !NoTimeouts(o, Act(l, a).host.core)
  {
    hide Wire, AcceptLines, Judge, Lines, Rest, Stream, Advance;
    if a.Receive? {
      var chunk := Stream(l.toHost)[l.heard..l.heard + a.count];
      OutcomesOnlyGrow(l.host.core, Lines(l.host.inbound + chunk), a.now);
    }
    var c, d := l.host.core, Act(l, a).host.core;
    assert c.hist.resolved <= d.hist.resolved;
    var i :| o.settled <= i < |c.hist.resolved| && !c.hist.resolved[i].Acked?;
    assert d.hist.resolved[i] == c.hist.resolved[i];
  }

  lemma {:induction false} ActsKeep(o: Origin, l: Link, acts: seq<Action>)
    requires LinkInv(o, l) || !NoTimeouts(o, l.host.core)
    ensures Acts(l, acts).Some? ==>
              LinkInv(o, Acts(l, acts).value) || !NoTimeouts(o, Acts(l, acts).value.host.core)
    decreases |acts|
  {
    hide LinkInv, NoTimeouts, Act;
    if acts != [] && Possible(l, acts[0]) {
      if LinkInv(o, l) {
        ActKeeps(o, l, acts[0]);
      } else {
        TimeoutsStay(o, l, acts[0]);
      }
      ActsKeep(o, Act(l, acts[0]), acts[1..]);
    }
  }

  function OriginOf(l: Link): Origin {
    Origin(|l.host.core.hist.resolved|, l.host.core.sync)
  }

  lemma InStepHolds(l: Link)
    requires InStep(l)
    ensures LinkInv(OriginOf(l), l)
  {
    hide Inv, Frame;
    SlotMatchesInv(l.host.core);
  }

  /**
   * Exactly once, in order: from a synced start, whatever is sent, lost,
   * retransmitted or repeated, through every wrap of the counter, what the
   * receiver has accepted is a prefix of what was sent, each packet under the
   * next number, and it is as long as the acks the host has seen or one longer.
   * This holds as long as no packet was given up after its total timeout.
   */
  lemma ExactlyOnce(start: Link, acts: seq<Action>, l: Link)
    requires InStep(start) && Acts(start, acts) == Some(l)
    requires NoTimeouts(OriginOf(start), l.host.core)
    ensures var o, c, a := OriginOf(start), l.host.core, l.receiver.accepted;
            && o.settled + |a| <= |c.hist.enqueued|
            && (forall i :: 0 <= i < |a| ==>
                  a[i] == PacketOf(c.hist.enqueued[o.settled + i], (o.sync + i) % 256))
            && Done(o, c) <= |a| <= Done(o, c) + 1
            && (forall i :: o.settled <= i < |c.hist.resolved| ==> c.hist.resolved[i].Acked?)
            && c.sync == (o.sync + Done(o, c)) % 256
  {
    hide Inv, Frame, FramesPart, RepliesPart, Acts;
    InStepHolds(start);
    ActsKeep(OriginOf(start), start, acts);
  }

  /** When the host is idle again, everything sent has been accepted exactly once. */
  lemma IdleMeansDelivered(start: Link, acts: seq<Action>, l: Link)
    requires InStep(start) && Acts(start, acts) == Some(l)
    requires NoTimeouts(OriginOf(start), l.host.core) && l.host.core.inFlight.None?
    ensures OriginOf(start).settled + |l.receiver.accepted| == |l.host.core.hist.enqueued|
  {
    hide Inv, Frame, FramesPart, RepliesPart, Acts;
    InStepHolds(start);
    ActsKeep(OriginOf(start), start, acts);
  }
}
