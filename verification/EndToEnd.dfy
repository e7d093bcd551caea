/** From the bytes an upload wrote to what the device decoded and stored. */
module EndToEnd {
  import opened Prelude
  import opened Codec
  import opened Scanner
  import opened SessionSpec
  import opened SessionInvariants
  import opened SessionTheorems
  import opened UploadSpec
  import T = TransferSpec
  import D = DeviceSpec

  // ----- Numbers -----

  lemma {:induction false} AcksAfterHandshake(os: seq<Outcome>, k: nat)
    requires 1 <= k <= |os| && os[0] == Synchronized && forall i :: 1 <= i < |os| ==> os[i].Acked?
    ensures CountAcks(os[..k]) == k - 1
    decreases k
  {
    if k == 1 {
      assert os[..1][..0] == [];
    } else {
      AcksAfterHandshake(os, k - 1);
      assert os[..k][..k - 1] == os[..k - 1];
    }
  }

  /**
   * Sync accounting of a completed upload that saw a single ss carrying s0:
   * the i-th packet after the handshake went out as s0 + i, and with N chunks the
   * counter ends at s0 + N + 4, all modulo 256.
   */
  lemma UploadNumbers(written: seq<bytes>, c: Core, o: Options, comp: T.Compression, chunks: seq<bytes>)
    requires |o.destFilename| + 3 <= MAX_PAYLOAD && forall x :: x in chunks ==> |x| <= MAX_PAYLOAD
    requires Delivered(written, c, Plan(o, comp, chunks)) && c.hist.handshakes <= 1
    ensures |c.hist.dispatched| == |chunks| + 5
    ensures forall i :: 1 <= i < |chunks| + 5 ==> c.hist.dispatched[i].sync == (c.hist.base + i - 1) % 256
    ensures c.sync == (c.hist.base + |chunks| + 4) % 256
  {
    hide Inv, Plan, CountAcks, Expand, Numbered;
    var h, plan := c.hist, Plan(o, comp, chunks);
    PlanShape(o, comp, chunks);
    SingleSs(c);
    AcksAfterHandshake(h.resolved, |plan|);
    assert h.resolved[..|plan|] == h.resolved;
    forall i | 1 <= i < |plan|
      ensures h.dispatched[i].sync == (h.base + i - 1) % 256
    {
      AcksAfterHandshake(h.resolved, i);
      assert h.dispatched[i].request == plan[i];
      NumberAt(h, i);
    }
  }

  lemma PlanShape(o: Options, comp: T.Compression, chunks: seq<bytes>)
    requires |o.destFilename| + 3 <= MAX_PAYLOAD && forall x :: x in chunks ==> |x| <= MAX_PAYLOAD
    ensures var plan := Plan(o, comp, chunks);
            |plan| == |chunks| + 5 && forall i :: 1 <= i < |plan| ==> !plan[i].isHandshake
  {
    hide T.OpenPayload;
  }

  lemma SingleSs(c: Core)
    requires Inv(c) && c.hist.handshakes <= 1
    ensures c.sync == (c.hist.base + CountAcks(c.hist.resolved)) % 256
    ensures Numbered(c.hist.dispatched, c.hist.resolved, c.hist.base)
  {
    hide Fifo, OutcomesFit, Current, Stutters, Timers, Reported, Numbered, CountAcks;
  }

  lemma NumberAt(h: History, i: nat)
    requires Numbered(h.dispatched, h.resolved, h.base)
    requires i < |h.dispatched| && i <= |h.resolved| && !h.dispatched[i].request.isHandshake
    ensures h.dispatched[i].sync == (h.base + CountAcks(h.resolved[..i])) % 256
  {
    hide CountAcks;
  }

  // ----- Frames -----

  lemma {:induction false} ConcatTrigger(rest: seq<bytes>)
    ensures Concat([TRIGGER] + rest) == TRIGGER + Concat(rest)
  {
    assert ([TRIGGER] + rest)[1..] == rest;
  }

  /**
   * The bytes of a completed upload, delivered to a decoder in any chunks, come
   * out as exactly the planned packets in order, copies contiguous; the trigger
   * is skipped and nothing is left over.
   */
  lemma UploadDecodes(written: seq<bytes>, c: Core, plan: seq<Request>, chunks: seq<bytes>)
    requires Delivered(written, c, plan) && Concat(chunks) == Concat(written)
    ensures ScanChunks([], chunks) == Scanned(Stutter(c.hist.dispatched), [])
    ensures Requests(c.hist.dispatched) == plan
    ensures forall d :: d in c.hist.dispatched ==> d.copies >= 1
  {
    hide Frame, Expand, Stutter, Frames, Scan, Fifo, OutcomesFit, Current, Timers, Numbers, Reported;
    var ds := c.hist.dispatched;
    ExpandIsFrames(ds);
    ConcatTrigger(Expand(ds));
    SomePacket(ds);
    ResyncAfterGarbage(TRIGGER, Stutter(ds), chunks);
  }

  lemma SomePacket(ds: seq<Dispatch>)
    requires ds != [] && forall d :: d in ds ==> d.copies >= 1
    ensures Stutter(ds) != []
  {
    assert ds[|ds| - 1] in ds;
  }

  // ----- What the device stores -----

  predicate IsWrite(p: Packet) {
    p.protocol == 1 && p.packetType == 3
  }

  /** The payloads of the WRITE packets, in order. */
  function Stored(ps: seq<Packet>): bytes {
    if ps == [] then [] else (if IsWrite(ps[0]) then ps[0].payload else []) + Stored(ps[1..])
  }

  lemma {:induction false} StoredAppend(ps: seq<Packet>, qs: seq<Packet>)
    ensures Stored(ps + qs) == Stored(ps) + Stored(qs)
  {
    if ps == [] {
      assert ps + qs == qs;
    } else {
      assert (ps + qs)[1..] == ps[1..] + qs;
      StoredAppend(ps[1..], qs);
    }
  }

  lemma {:induction false} DeviceStores(d: D.Device, ps: seq<Packet>)
    requires d.behaviour.resendOnceForSync.None?
    ensures D.HandleAll(d, ps).writtenBytes == d.writtenBytes + Stored(ps)
    ensures D.HandleAll(d, ps).behaviour.resendOnceForSync.None?
    decreases |ps|
  {
    hide D.Handle;
    if ps != [] {
      HandleStores(d, ps[0]);
      DeviceStores(D.Handle(d, ps[0]), ps[1..]);
    }
  }

  lemma HandleStores(d: D.Device, p: Packet)
    requires d.behaviour.resendOnceForSync.None?
    ensures var e := D.Handle(d, p);
            e.writtenBytes == d.writtenBytes + (if IsWrite(p) then p.payload else [])
            && e.behaviour.resendOnceForSync.None?
  {
    hide D.OkText, D.SyncText, D.VersionText, D.ResendText, D.OpenReply, D.OpenFields;
    if (p.protocol, p.packetType) == (1, 1) {
      OpenStores(d, p.payload);
    }
  }

  lemma OpenStores(d: D.Device, payload: bytes)
    ensures var e := D.OpenReply(D.OpenFields(d, payload));
            e.writtenBytes == d.writtenBytes && e.behaviour.resendOnceForSync == d.behaviour.resendOnceForSync
  {
  }

  /** The payloads of the WRITE requests, once each. */
  function Payloads(rs: seq<Request>): bytes {
    if rs == [] then []
    else Payloads(rs[..|rs| - 1]) + if IsWrite(PacketOf(rs[|rs| - 1], 0)) then rs[|rs| - 1].payload else []
  }

  predicate WroteOnce(ds: seq<Dispatch>) {
    forall d :: d in ds && IsWrite(PacketOf(d.request, d.sync)) ==> d.copies == 1
  }

  lemma {:induction false} StoredRepeat(p: Packet, n: nat)
    ensures n == 1 || !IsWrite(p) ==> Stored(Repeat(p, n)) == if IsWrite(p) then p.payload else []
    ensures IsWrite(p) && n >= 1 ==> |Stored(Repeat(p, n))| >= n * |p.payload|
  {
    if n > 0 {
      assert Repeat(p, n)[1..] == Repeat(p, n - 1);
      StoredRepeat(p, n - 1);
      assert n * |p.payload| == (n - 1) * |p.payload| + |p.payload|;
    }
  }

  /** Storing every copy gives the payloads exactly when no WRITE was repeated; otherwise it gives more. */
  lemma {:induction false} StoredOrMore(ds: seq<Dispatch>)
    requires forall d :: d in ds ==> d.copies >= 1
    requires forall d :: d in ds && IsWrite(PacketOf(d.request, d.sync)) ==> d.request.payload != []
    ensures WroteOnce(ds) ==> Stored(Stutter(ds)) == Payloads(Requests(ds))
    ensures !WroteOnce(ds) ==> |Stored(Stutter(ds))| > |Payloads(Requests(ds))|
  {
    hide Repeat;
    if ds != [] {
      var front, d := ds[..|ds| - 1], ds[|ds| - 1];
      var p := PacketOf(d.request, d.sync);
      assert forall x :: x in ds <==> x in front || x == d;
      StoredOrMore(front);
      StoredAppend(Stutter(front), Repeat(p, d.copies));
      StoredRepeat(p, d.copies);
      assert Requests(ds)[..|ds| - 1] == Requests(front);
      if IsWrite(p) && d.copies > 1 {
        MoreThanOnce(d.copies, |p.payload|);
      }
    }
  }

  lemma MoreThanOnce(n: nat, k: nat)
    requires n > 1 && k > 0
    ensures n * k > k
  {
    assert n * k == (n - 1) * k + k;
    assert (n - 1) * k >= k by {
      assert (n - 1) * k == (n - 2) * k + k;
      assert (n - 2) * k >= 0;
    }
  }

  lemma {:induction false} PayloadsAppend(a: seq<Request>, b: seq<Request>)
    ensures Payloads(a + b) == Payloads(a) + Payloads(b)
  {
    if b == [] {
      assert a + b == a;
    } else {
      assert (a + b)[..|a + b| - 1] == a + b[..|b| - 1];
      PayloadsAppend(a, b[..|b| - 1]);
    }
  }

  lemma PayloadsSnoc(rs: seq<Request>, r: Request)
    ensures Payloads(rs + [r]) == Payloads(rs) + if IsWrite(PacketOf(r, 0)) then r.payload else []
  {
    assert (rs + [r])[..|rs|] == rs;
  }

  lemma {:induction false} PayloadsOfWrites(chunks: seq<bytes>)
    requires forall x :: x in chunks ==> |x| <= MAX_PAYLOAD
    ensures Payloads(WriteRequests(chunks)) == Concat(chunks)
    decreases |chunks|, 0
  {
    if chunks == [] {
      assert WriteRequests(chunks) == [];
    } else {
      WritesSplit(chunks[..|chunks| - 1], chunks[|chunks| - 1], chunks);
    }
  }

  lemma {:induction false} WritesSplit(front: seq<bytes>, x: bytes, chunks: seq<bytes>)
    requires chunks == front + [x] && forall c :: c in chunks ==> |c| <= MAX_PAYLOAD
    ensures Payloads(WriteRequests(chunks)) == Concat(chunks)
    decreases |front|, 1
  {
    hide Payloads, WriteRequests, Concat;
    assert x in chunks && forall c :: c in front ==> c in chunks;
    PayloadsOfWrites(front);
    WriteRequestsSnoc(front, x);
    PayloadsSnoc(WriteRequests(front), T.FileRequest(T.PT_WRITE, x));
    ConcatAppend(front, [x]);
    ConcatOne(x);
  }

  lemma PayloadsOfPlan(o: Options, comp: T.Compression, chunks: seq<bytes>)
    requires |o.destFilename| + 3 <= MAX_PAYLOAD && forall x :: x in chunks ==> |x| <= MAX_PAYLOAD
    ensures Payloads(Plan(o, comp, chunks)) == Concat(chunks)
  {
    hide T.OpenPayload, WriteRequests, Payloads, Concat;
    var a, w, z := Opening(o, comp), WriteRequests(chunks), [T.FileRequest(T.PT_CLOSE, []), CONTROL_CLOSE];
    PayloadsAppend(a + w, z);
    PayloadsAppend(a, w);
    PayloadsOfWrites(chunks);
    NoPayloads(a);
    NoPayloads(z);
  }

  lemma {:induction false} NoPayloads(rs: seq<Request>)
    requires forall r :: r in rs ==> !IsWrite(PacketOf(r, 0))
    ensures Payloads(rs) == []
  {
    if rs != [] {
      NoPayloads(rs[..|rs| - 1]);
    }
  }

  /**
   * A device without duplicate suppression, fed the written bytes in any chunks,
   * has closed the file, left binary mode, and stored the payload exactly when no
   * WRITE frame was retransmitted.
   */
  lemma StoredPayload(written: seq<bytes>, c: Core, o: Options, comp: T.Compression, chunks: seq<bytes>,
                      device: D.Device, deliveries: seq<bytes>)
    requires |o.destFilename| + 3 <= MAX_PAYLOAD && forall x :: x in chunks ==> 0 < |x| <= MAX_PAYLOAD
    requires Delivered(written, c, Plan(o, comp, chunks)) && Concat(deliveries) == Concat(written)
    requires device.writtenBytes == [] && device.behaviour.resendOnceForSync.None?
    ensures var peer := D.FeedAll(D.Peer(device, []), deliveries);
            && peer.inbound == [] && peer.device.closed && peer.device.controlClosed
            && (peer.device.writtenBytes == Concat(chunks) <==> WroteOnce(c.hist.dispatched))
  {
    hide Frame, Expand, Stutter, Scan, D.HandleAll, Inv, Plan;
    var ds, all := c.hist.dispatched, Concat(deliveries);
    UploadDecodes(written, c, Plan(o, comp, chunks), [all]);
    ScanNothing();
    D.PeerChunkInvariance(D.Peer(device, []), deliveries);
    AnyChunking([], [all]);
    var one := [all];
    assert one[1..] == [];
    assert Concat(one) == all && [] + all == all;
    DeviceStores(device, Stutter(ds));
    LastTwo(o, comp, chunks, ds);
    DeviceCloses(device, Stutter(ds));
    WritesAreChunks(o, comp, chunks, ds);
    StoredOrMore(ds);
    PayloadsOfPlan(o, comp, chunks);
  }

  lemma {:induction false} StutterContains(ds: seq<Dispatch>, i: nat)
    requires i < |ds| && ds[i].copies >= 1
    ensures PacketOf(ds[i].request, ds[i].sync) in Stutter(ds)
    decreases |ds|
  {
    if i < |ds| - 1 {
      StutterContains(ds[..|ds| - 1], i);
    } else {
      var d := ds[i];
      assert Repeat(PacketOf(d.request, d.sync), d.copies)[0] == PacketOf(d.request, d.sync);
    }
  }

  /** The stream holds a CLOSE and a control CLOSE. */
  lemma LastTwo(o: Options, comp: T.Compression, chunks: seq<bytes>, ds: seq<Dispatch>)
    requires |o.destFilename| + 3 <= MAX_PAYLOAD && forall x :: x in chunks ==> |x| <= MAX_PAYLOAD
    requires Requests(ds) == Plan(o, comp, chunks) && forall d :: d in ds ==> d.copies >= 1
    ensures exists p :: p in Stutter(ds) && p.protocol == 1 && p.packetType == 2
    ensures exists p :: p in Stutter(ds) && p.protocol == 0 && p.packetType == 2
  {
    hide Stutter, T.OpenPayload;
    var n := |chunks|;
    assert ds[n + 3].request == Plan(o, comp, chunks)[n + 3] == T.FileRequest(T.PT_CLOSE, []);
    assert ds[n + 4].request == Plan(o, comp, chunks)[n + 4] == CONTROL_CLOSE;
    StutterContains(ds, n + 3);
    StutterContains(ds, n + 4);
  }

  lemma {:induction false} DeviceCloses(d: D.Device, ps: seq<Packet>)
    requires d.behaviour.resendOnceForSync.None?
    ensures D.HandleAll(d, ps).closed
            <==> d.closed || exists p :: p in ps && p.protocol == 1 && p.packetType == 2
    ensures D.HandleAll(d, ps).controlClosed
            <==> d.controlClosed || exists p :: p in ps && p.protocol == 0 && p.packetType == 2
    decreases |ps|
  {
    hide D.Handle;
    if ps != [] {
      HandleStores(d, ps[0]);
      HandleCloses(d, ps[0]);
      DeviceCloses(D.Handle(d, ps[0]), ps[1..]);
      assert forall p :: p in ps <==> p == ps[0] || p in ps[1..];
    }
  }

  lemma HandleCloses(d: D.Device, p: Packet)
    requires d.behaviour.resendOnceForSync.None?
    ensures D.Handle(d, p).closed <==> d.closed || (p.protocol == 1 && p.packetType == 2)
    ensures D.Handle(d, p).controlClosed <==> d.controlClosed || (p.protocol == 0 && p.packetType == 2)
  {
    hide D.OkText, D.SyncText, D.VersionText, D.ResendText, D.OpenReply, D.OpenFields;
    if (p.protocol, p.packetType) == (1, 1) {
      OpenLeavesFlags(d, p.payload);
    }
  }

  lemma OpenLeavesFlags(d: D.Device, payload: bytes)
    ensures var e := D.OpenReply(D.OpenFields(d, payload));
            e.closed == d.closed && e.controlClosed == d.controlClosed
  {
  }

  lemma WritesAreChunks(o: Options, comp: T.Compression, chunks: seq<bytes>, ds: seq<Dispatch>)
    requires |o.destFilename| + 3 <= MAX_PAYLOAD && forall x :: x in chunks ==> 0 < |x| <= MAX_PAYLOAD
    requires Requests(ds) == Plan(o, comp, chunks)
    ensures forall d :: d in ds && IsWrite(PacketOf(d.request, d.sync)) ==> d.request.payload != []
  {
    hide T.OpenPayload;
    var plan := Plan(o, comp, chunks);
    forall i | 0 <= i < |ds| && IsWrite(PacketOf(ds[i].request, ds[i].sync))
      ensures ds[i].request.payload != []
    {
      assert ds[i].request == plan[i];
      assert 3 <= i < 3 + |chunks| && plan[i] == WriteRequests(chunks)[i - 3];
      assert chunks[i - 3] in chunks;
    }
  }
}
