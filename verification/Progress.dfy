/** With a peer that answers every packet at once, everything is delivered, each frame written once. */
module Progress {
  import opened Prelude
  import opened Text
  import opened SessionSpec
  import opened SessionInvariants
  import opened SessionTheorems
  import opened UploadSpec
  import opened Arq
  import D = DeviceSpec
  import Replies

  /** An idle, synced session with nothing pending anywhere. */
  ghost predicate AtRest(h: Host) {
    var c := h.core;
    && h.inbound == [] && c.isSynced && c.inFlight.None? && c.queued == []
    && c.outbound == [] && c.events == []
  }

  lemma {:induction false} RunAll(h: Host, ops: seq<Op>, g: Host, more: seq<Op>)
    requires Run(h, ops) == Some(g)
    ensures Run(h, ops + more) == Run(g, more)
    decreases |ops|
  {
    hide Step, Allowed;
    if ops == [] {
      assert ops + more == more;
    } else {
      assert (ops + more)[1..] == ops[1..] + more;
      RunAll(Step(h, ops[0]), ops[1..], g, more);
    }
  }

  lemma RunFour(h: Host, a: Op, b: Op, c: Op, d: Op)
    requires Allowed(h, a) && !b.OpSend? && !c.OpSend? && !d.OpSend?
    ensures Run(h, [a, b, c, d]) == Some(Step(Step(Step(Step(h, a), b), c), d))
  {
    hide Step;
    var ops := [a, b, c, d];
    assert ops[1..] == [b, c, d] && [b, c, d][1..] == [c, d];
    var two, one := [c, d], [d];
    assert two[1..] == one && one[1..] == [];
    assert Run(h, ops) == Run(Step(h, a), [b, c, d]);
    assert Run(Step(h, a), [b, c, d]) == Run(Step(Step(h, a), b), two);
    assert Run(Step(Step(h, a), b), two) == Run(Step(Step(Step(h, a), b), c), one);
  }

  /** Connecting and receiving the device's ss line leaves the session at rest under the ss number. */
  lemma HandshakeCompletes(responseTimeout: nat, totalTimeout: nat, sync: u16, maxBlockSize: u16,
                           version: bytes, now: int)
    returns (h: Host, ops: seq<Op>)
    requires ValidUtf8(version) && LF !in version
    ensures ReachedBy(h, responseTimeout, totalTimeout, ops)
    ensures AtRest(h) && h.core.sync == sync % 256 && h.core.maxBlockSize == Some(maxBlockSize)
    ensures h.core.hist.enqueued == [HANDSHAKE] && h.core.hist.dispatched == [Dispatch(HANDSHAKE, 0, 1)]
    ensures h.core.hist.resolved == [Synchronized]
  {
    hide Wire, D.SyncText, ValidUtf8, Trim, Feed, Run;
    var start := Fresh(responseTimeout, totalTimeout);
    var line := D.SyncText(sync, maxBlockSize, version) + [LF];
    ops := [OpConnect(now), OpPollOutbound, OpFeed(line, now), OpPollEvent];
    var g := Step(Step(start, OpConnect(now)), OpPollOutbound);
    Replies.SyncLineFed(g, sync, maxBlockSize, version, now);
    h := Step(Step(g, OpFeed(line, now)), OpPollEvent);
    RunFour(start, OpConnect(now), OpPollOutbound, OpFeed(line, now), OpPollEvent);
  }

  /** One packet sent and acknowledged at once. */
  lemma PacketCompletes(h: Host, r: Request, now: int) returns (g: Host, ops: seq<Op>)
    requires AtRest(h) && !r.isHandshake
    ensures Run(h, ops) == Some(g) && AtRest(g) && g.core.sync == (h.core.sync + 1) % 256
    ensures g.core.hist.enqueued == h.core.hist.enqueued + [r]
    ensures g.core.hist.dispatched == h.core.hist.dispatched + [Dispatch(r, h.core.sync, 1)]
    ensures g.core.hist.resolved == h.core.hist.resolved + [Acked(h.core.sync)]
    ensures g.core.hist.handshakes == h.core.hist.handshakes && g.core.hist.base == h.core.hist.base
  {
    hide Wire, D.OkText, Feed, Run;
    var send := OpSend(r.protocol, r.packetType, r.payload, now);
    var line := D.OkText(h.core.sync) + [LF];
    ops := [send, OpPollOutbound, OpFeed(line, now), OpPollEvent];
    var mid := Step(Step(h, send), OpPollOutbound);
    Replies.OkRoundTrip(mid, h.core.sync, now);
    g := Step(Step(mid, OpFeed(line, now)), OpPollEvent);
    RunFour(h, send, OpPollOutbound, OpFeed(line, now), OpPollEvent);
  }

  /** What a run against the prompt peer has achieved for the requests rs. */
  ghost predicate Achieved(h: Host, rs: seq<Request>) {
    var t := h.core.hist;
    && AtRest(h) && t.enqueued == [HANDSHAKE] + rs
    && |t.dispatched| == |t.resolved| == 1 + |rs|
    && t.resolved[0] == Synchronized && (forall i :: 1 <= i <= |rs| ==> t.resolved[i].Acked?)
    && forall d :: d in t.dispatched ==> d.copies == 1
  }

  /**
   * Every list of data packets is delivered by some run: the handshake and then
   * each packet is dispatched once, in order, and acknowledged.
   */
  lemma PromptPeerDelivers(responseTimeout: nat, totalTimeout: nat, sync: u16, rs: seq<Request>)
    returns (h: Host, ops: seq<Op>)
    requires forall r :: r in rs ==> !r.isHandshake
    ensures ReachedBy(h, responseTimeout, totalTimeout, ops)
    ensures Achieved(h, rs)
    ensures Delivered([TRIGGER] + h.core.hist.emitted, h.core, [HANDSHAKE] + rs)
  {
    hide Inv, Run, Delivered;
    h, ops := PromptPeerAchieves(responseTimeout, totalTimeout, sync, rs);
    ReachableInv(h, responseTimeout, totalTimeout, ops);
    AchievedIsDelivered(h, rs);
  }

  lemma {:induction false} PromptPeerAchieves(responseTimeout: nat, totalTimeout: nat, sync: u16, rs: seq<Request>)
    returns (h: Host, ops: seq<Op>)
    requires forall r :: r in rs ==> !r.isHandshake
    ensures ReachedBy(h, responseTimeout, totalTimeout, ops) && Achieved(h, rs)
  {
    hide Run;
    if rs == [] {
      h, ops := HandshakeCompletes(responseTimeout, totalTimeout, sync, 512, [], 0);
    } else {
      var k := |rs| - 1;
      var g, before := PromptPeerAchieves(responseTimeout, totalTimeout, sync, rs[..k]);
      var more;
      h, more := PacketCompletes(g, rs[k], 0);
      RunAll(Fresh(responseTimeout, totalTimeout), before, g, more);
      ops := before + more;
      assert [HANDSHAKE] + rs == ([HANDSHAKE] + rs[..k]) + [rs[k]];
    }
  }

  lemma AchievedIsDelivered(h: Host, rs: seq<Request>)
    requires Achieved(h, rs) && Inv(h.core)
    ensures Delivered([TRIGGER] + h.core.hist.emitted, h.core, [HANDSHAKE] + rs)
  {
    hide Wire, Expand, Numbered, CountAcks, Timers, Settled, WithoutHandshakes;
    assert Requests(h.core.hist.dispatched) + [] == Requests(h.core.hist.dispatched);
  }

  /** After the handshake, host and a fresh receiver start in step, so exactly-once delivery applies. */
  lemma HandshakeIsInStep(responseTimeout: nat, totalTimeout: nat, sync: u16, maxBlockSize: u16,
                          version: bytes, now: int) returns (l: Link, ops: seq<Op>)
    requires ValidUtf8(version) && LF !in version
    ensures ReachedBy(l.host, responseTimeout, totalTimeout, ops)
    ensures InStep(l) && Achieved(l.host, []) && l.receiver == Receiver(sync % 256, [])
  {
    hide Inv, Run, ValidUtf8;
    var h;
    h, ops := HandshakeCompletes(responseTimeout, totalTimeout, sync, maxBlockSize, version, now);
    ReachableInv(h, responseTimeout, totalTimeout, ops);
    l := Link(h, [], [], 0, Receiver(sync % 256, []));
  }
}
