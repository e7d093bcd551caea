/**
 * The sans-I/O session driver: fields updated in place, one method per
 * operation. `ops` is the history of operations performed on the object, and the
 * class invariant says that running them from a fresh session gives its state.
 */
module SessionClass {
  import opened Prelude
  import opened Codec
  import opened Text
  import Spec = SessionSpec
  import opened SessionTheorems

  class Session {
    var sync: byte
    var isSynced: bool
    var maxBlockSize: Option<u16>
    var protocolVersion: Option<bytes>
    var inFlight: Option<Spec.InFlight>
    var queued: seq<Spec.Request>
    var outbound: seq<bytes>
    var events: seq<Spec.Event>
    var inbound: bytes
    const responseTimeout: nat
    const totalTimeout: nat
    ghost var hist: Spec.History
    ghost var ops: seq<Spec.Op>

    ghost function Now(): Spec.Core
      reads this
    {
      Spec.Core(sync, isSynced, maxBlockSize, protocolVersion, inFlight, queued, outbound, events,
                responseTimeout, totalTimeout, hist)
    }

    ghost function State(): Spec.Host
      reads this
    {
      Spec.Host(Now(), inbound)
    }

    ghost predicate Valid()
      reads this
    {
      ReachedBy(State(), responseTimeout, totalTimeout, ops)
    }

    /** `new` followed by the two timeout builders. */
    constructor (responseTimeout: nat, totalTimeout: nat)
      ensures Valid() && State() == Spec.Fresh(responseTimeout, totalTimeout) && ops == []
    {
      sync, isSynced, maxBlockSize, protocolVersion := 0, false, None, None;
      inFlight, queued, outbound, events, inbound := None, [], [], [], [];
      this.responseTimeout, this.totalTimeout := responseTimeout, totalTimeout;
      hist, ops := Spec.NO_HISTORY, [];
    }

    /** Notes down an operation just performed. */
    ghost method Record(before: Spec.Host, op: Spec.Op)
      requires ReachedBy(before, responseTimeout, totalTimeout, ops) && Spec.Allowed(before, op)
      requires State() == Spec.Step(before, op)
      modifies this`ops
      ensures ops == old(ops) + [op] && ReachedBy(State(), responseTimeout, totalTimeout, ops)
    {
      hide ReachedBy;
      ReachedThen(before, responseTimeout, totalTimeout, ops, op);
      ops := ops + [op];
    }

    method Reset()
      requires Valid()
      modifies this
      ensures Valid() && State() == Spec.Reset(old(State())) && ops == old(ops) + [Spec.OpReset]
    {
      hide ReachedBy;
      ghost var before := State();
      sync, isSynced, maxBlockSize, protocolVersion := 0, false, None, None;
      hist := Spec.NO_HISTORY;
      ClearQueues();
      Record(before, Spec.OpReset);
    }

    method ClearQueues()
      modifies this
      ensures Now() == old(Now()).(inFlight := None, queued := [], outbound := [], events := [])
      ensures inbound == [] && ops == old(ops)
    {
      inFlight, queued, outbound, events, inbound := None, [], [], [], [];
    }

    method Connect(now: int)
      requires Valid()
      modifies this
      ensures Valid()
      ensures Now() == Spec.Submit(old(Now()), Spec.HANDSHAKE, now) && inbound == old(inbound)
      ensures ops == old(ops) + [Spec.OpConnect(now)]
    {
      hide ReachedBy;
      ghost var before := State();
      Queue(Spec.HANDSHAKE);
      DispatchIfIdle(now);
      Record(before, Spec.OpConnect(now));
    }

    /** The requires clauses are the assertions of the source. */
    method Send(protocol: byte, packetType: byte, payload: bytes, now: int)
      requires Valid()
      requires isSynced && protocol <= 15 && packetType <= 15 && |payload| <= MAX_PAYLOAD
      modifies this
      ensures Valid()
      ensures Now() == Spec.Submit(old(Now()), Spec.Request(protocol, packetType, payload, false), now)
      ensures inbound == old(inbound) && ops == old(ops) + [Spec.OpSend(protocol, packetType, payload, now)]
    {
      hide ReachedBy;
      ghost var before := State();
      Queue(Spec.Request(protocol, packetType, payload, false));
      DispatchIfIdle(now);
      Record(before, Spec.OpSend(protocol, packetType, payload, now));
    }

    method Queue(r: Spec.Request)
      modifies this
      ensures Now() == Spec.Enqueue(old(Now()), r) && inbound == old(inbound) && ops == old(ops)
    {
      queued := queued + [r];
      hist := hist.(enqueued := hist.enqueued + [r]);
    }

    /** Assigns the sync number at dispatch time; validation already happened when queueing. */
    static method Build(r: Spec.Request, sync: byte) returns (frame: bytes)
      ensures frame == Spec.Wire(r, sync)
    {
      hide Frame;
      var packet := NewPacket(sync, r.protocol, r.packetType, r.payload);
      assert packet == Success(Spec.PacketOf(r, sync));
      var result, appended := Encode(packet.value, []);
      frame := appended;
      assert [] + Frame(packet.value) == Frame(packet.value);
    }

    method DispatchIfIdle(now: int)
      modifies this
      ensures Now() == Spec.DispatchIfIdle(old(Now()), now) && inbound == old(inbound) && ops == old(ops)
    {
      hide Spec.Wire;
      if inFlight.Some? || queued == [] {
        return;
      }
      var next := queued[0];
      queued := queued[1..];
      var frame := Build(next, sync);
      outbound := outbound + [frame];
      inFlight := Some(Spec.InFlight(sync, frame, now, now, next.isHandshake));
      hist := hist.(dispatched := hist.dispatched + [Spec.Dispatch(next, sync, 1)],
                    emitted := hist.emitted + [frame]);
    }

    method PollOutbound() returns (frame: Option<bytes>)
      requires Valid()
      modifies this
      ensures Valid()
      ensures frame == Spec.Head(old(outbound))
      ensures Now() == old(Now()).(outbound := Spec.Tail(old(outbound))) && inbound == old(inbound)
      ensures ops == old(ops) + [Spec.OpPollOutbound]
    {
      hide ReachedBy;
      ghost var before := State();
      frame := Spec.Head(outbound);
      outbound := Spec.Tail(outbound);
      Record(before, Spec.OpPollOutbound);
    }

    method PollEvent() returns (event: Option<Spec.Event>)
      requires Valid()
      modifies this
      ensures Valid()
      ensures event == Spec.Head(old(events))
      ensures Now() == old(Now()).(events := Spec.Tail(old(events))) && inbound == old(inbound)
      ensures ops == old(ops) + [Spec.OpPollEvent]
    {
      hide ReachedBy;
      ghost var before := State();
      event := Spec.Head(events);
      events := Spec.Tail(events);
      Record(before, Spec.OpPollEvent);
    }

    /** Consumes complete lines one at a time; the rest stays buffered. */
    method Feed(chunk: bytes, now: int)
      requires Valid()
      modifies this
      ensures Valid() && State() == Spec.Feed(old(State()), chunk, now)
      ensures ops == old(ops) + [Spec.OpFeed(chunk, now)]
    {
      hide Spec.ProcessLine, StripLineEndings, ReachedBy;
      ghost var before := State();
      inbound := inbound + chunk;
      ghost var whole := inbound;
      var pos := IndexOf(inbound, LF);
      while pos < |inbound|
        invariant pos == IndexOf(inbound, LF)
        invariant Spec.AcceptLines(Now(), Spec.Lines(inbound), now)
               == Spec.AcceptLines(old(Now()), Spec.Lines(whole), now)
        invariant Spec.Rest(inbound) == Spec.Rest(whole) && ops == old(ops)
        decreases |inbound|
      {
        var line := inbound[..pos + 1];
        inbound := inbound[pos + 1..];
        var trimmed := StripLineEndingsLoop(line);
        if trimmed != [] {
          ProcessLine(trimmed, now);
        }
        pos := IndexOf(inbound, LF);
      }
      Record(before, Spec.OpFeed(chunk, now));
    }

    method ProcessLine(line: bytes, now: int)
      modifies this
      ensures Now() == Spec.ProcessLine(old(Now()), line, now) && inbound == old(inbound) && ops == old(ops)
    {
      hide Spec.ParseDecimalU8, Spec.ParseSync, Spec.HandleOk, Spec.Synchronize, ValidUtf8;
      var okRest := StripPrefix(line, Spec.OK);
      if okRest.Some? {
        var n := Spec.ParseDecimalU8(okRest.value);
        if n.Some? {
          HandleOk(n.value, now);
          return;
        }
      }
      var rsRest := StripPrefix(line, Spec.RS);
      if rsRest.Some? {
        var n := Spec.ParseDecimalU8(rsRest.value);
        if n.Some? {
          PushEvent(Spec.ResendRequested(n.value));
          return;
        }
      }
      var ssRest := StripPrefix(line, Spec.SS);
      if ssRest.Some? {
        HandleSs(ssRest.value, now);
        return;
      }
      if line == Spec.FE {
        PushEvent(Spec.FatalError);
        return;
      }
      if ValidUtf8(line) {
        PushEvent(Spec.AsciiLine(line));
      }
    }

    method PushEvent(e: Spec.Event)
      modifies this
      ensures Now() == Spec.Raise(old(Now()), e) && inbound == old(inbound) && ops == old(ops)
    {
      events := events + [e];
      hist := hist.(raised := hist.raised + [e]);
    }

    method HandleOk(n: byte, now: int)
      modifies this
      ensures Now() == Spec.HandleOk(old(Now()), n, now) && inbound == old(inbound) && ops == old(ops)
    {
      hide Spec.DispatchIfIdle, Decimal;
      match inFlight {
        case None =>
          PushEvent(Spec.AsciiLine(Spec.OK + Decimal(n)));
        case Some(flight) =>
          if flight.isHandshake || n != flight.sync {
            PushEvent(Spec.OutOfSync(flight.sync, n));
            return;
          }
          inFlight := None;
          sync := (sync + 1) % 256;
          hist := hist.(resolved := hist.resolved + [Spec.Acked(n)], acksSinceBase := hist.acksSinceBase + 1);
          PushEvent(Spec.Ack(n));
          DispatchIfIdle(now);
      }
    }

    method HandleSs(rest: bytes, now: int)
      modifies this
      ensures inbound == old(inbound) && ops == old(ops)
      ensures Now() == match Spec.ParseSync(rest)
                       case None => old(Now())
                       case Some((s, m, v)) => Spec.Synchronize(old(Now()), s, m, v, now)
    {
      hide Spec.DispatchIfIdle, Spec.ParseSync, Spec.Renumbered;
      var parsed := ParseSyncReply(rest);
      if parsed.None? {
        return;
      }
      var (newSync, size, version) := parsed.value;
      SynchronizeTo(newSync, size, version);
      PushEvent(Spec.Synced(size, version));
      DispatchIfIdle(now);
    }

    method SynchronizeTo(newSync: u16, size: u16, version: bytes)
      modifies this
      ensures Now() == Spec.Renumbered(old(Now()), newSync, size, version)
      ensures inbound == old(inbound) && ops == old(ops)
    {
      sync := newSync % 256;
      maxBlockSize := Some(size);
      protocolVersion := Some(version);
      isSynced := true;
      hist := hist.(base := sync, acksSinceBase := 0, handshakes := hist.handshakes + 1);
      SettleHandshake();
    }

    method SettleHandshake()
      modifies this
      ensures Now() == (if old(inFlight).Some? && old(inFlight).value.isHandshake
                        then Spec.Resolve(old(Now()), Spec.Synchronized) else old(Now()))
      ensures inbound == old(inbound) && ops == old(ops)
    {
      if inFlight.Some? && inFlight.value.isHandshake {
        inFlight := None;
        hist := hist.(resolved := hist.resolved + [Spec.Synchronized]);
      }
    }

    /** `splitn(3, ',')`, then two numbers and a trimmed version that keeps its commas. */
    static method ParseSyncReply(rest: bytes) returns (r: Option<(u16, u16, bytes)>)
      ensures r == Spec.ParseSync(rest)
    {
      hide ValidUtf8, SplitOnce, ParseUnsigned, Trim;
      if !ValidUtf8(rest) {
        return None;
      }
      var first := SplitOnce(rest, COMMA);
      if first.None? {
        return None;
      }
      var second := SplitOnce(first.value.1, COMMA);
      if second.None? {
        return None;
      }
      var newSync := ParseUnsigned(Trim(first.value.0), 65535);
      if newSync.None? {
        return None;
      }
      var size := ParseUnsigned(Trim(second.value.0), 65535);
      if size.None? {
        return None;
      }
      r := Some((newSync.value, size.value, Trim(second.value.1)));
    }

    method Tick(now: int)
      requires Valid()
      modifies this
      ensures Valid()
      ensures Now() == Spec.Tick(old(Now()), now) && inbound == old(inbound)
      ensures ops == old(ops) + [Spec.OpTick(now)]
    {
      hide Spec.DispatchIfIdle, ReachedBy;
      ghost var before := State();
      if inFlight.Some? {
        TickFlight(inFlight.value, now);
      }
      Record(before, Spec.OpTick(now));
    }

    method TickFlight(flight: Spec.InFlight, now: int)
      requires inFlight == Some(flight)
      modifies this
      ensures Now() == Spec.Tick(old(Now()), now) && inbound == old(inbound) && ops == old(ops)
    {
      hide Spec.DispatchIfIdle;
      if Spec.Elapsed(now, flight.firstSent) >= totalTimeout {
        inFlight := None;
        hist := hist.(resolved := hist.resolved + [Spec.TimedOut(flight.sync)]);
        PushEvent(Spec.Timeout(flight.sync));
        DispatchIfIdle(now);
        return;
      }
      if Spec.Elapsed(now, flight.lastSent) >= responseTimeout {
        outbound := outbound + [flight.frame];
        inFlight := Some(flight.(lastSent := now));
        hist := hist.(dispatched := Spec.Recopied(hist.dispatched), emitted := hist.emitted + [flight.frame]);
      }
    }
  }
}
