/**
 * The streaming use of the decoder: decode, consume the frame, skip one byte
 * after a rejected header, and wait on Incomplete.
 */
module Scanner {
  import opened Prelude
  import opened Codec

  datatype Scanned = Scanned(packets: seq<Packet>, rest: bytes)

  function Scan(buf: bytes): (s: Scanned)
    ensures |s.rest| <= |buf|
    decreases |buf|
  {
    match Decode(buf)
    case Success((p, k)) =>
      var s := Scan(buf[k..]);
      Scanned([p] + s.packets, s.rest)
    case Failure(Incomplete(_, _)) => Scanned([], buf)
    case Failure(_) => Scan(buf[1..])
  }

  /** Joining the packets of two successive scans. */
  function Then(first: Scanned, second: Scanned): Scanned {
    Scanned(first.packets + second.packets, second.rest)
  }

  /** Scanning is independent of how the stream is cut into chunks. */
  lemma {:induction false} ChunkInvariance(a: bytes, b: bytes)
    ensures Scan(a + b) == Then(Scan(a), Scan(Scan(a).rest + b))
    decreases |a|
  {
    hide Decode;
    match Decode(a)
    case Success((p, k)) =>
      DecodeExtend(a, b);
      assert (a + b)[k..] == a[k..] + b;
      ChunkInvariance(a[k..], b);
      var s, t := Scan(a[k..]), Scan(Scan(a[k..]).rest + b);
      assert [p] + (s.packets + t.packets) == ([p] + s.packets) + t.packets;
    case Failure(Incomplete(_, _)) =>
      assert Scan(a) == Scanned([], a);
    case Failure(_) =>
      DecodeExtend(a, b);
      assert (a + b)[1..] == a[1..] + b;
      ChunkInvariance(a[1..], b);
  }

  /** What is left over is a waiting prefix: scanning it again finds nothing. */
  lemma {:induction false} RestWaits(buf: bytes)
    ensures Scan(Scan(buf).rest) == Scanned([], Scan(buf).rest)
    decreases |buf|
  {
    hide Decode;
    match Decode(buf)
    case Success((p, k)) => RestWaits(buf[k..]);
    case Failure(Incomplete(_, _)) =>
    case Failure(_) => RestWaits(buf[1..]);
  }

  /** Back-to-back frames come out in order with nothing left over. */
  lemma {:induction false} ScanFrames(ps: seq<Packet>)
    requires forall p :: p in ps ==> Encodable(p)
    ensures Scan(Concat(Frames(ps))) == Scanned(ps, [])
  {
    hide Frame, Decode;
    if ps != [] {
      var tail := Concat(Frames(ps[1..]));
      RoundTrip(ps[0], tail);
      assert (Frame(ps[0]) + tail)[WireLen(ps[0])..] == tail;
      ScanFrames(ps[1..]);
      assert ps == [ps[0]] + ps[1..];
    }
  }

  /** Bytes that cannot start a frame are skipped without touching what follows. */
  lemma {:induction false} SkipGarbage(g: bytes, buf: bytes)
    requires TOKEN_LO !in g && |buf| >= HEADER_LEN
    ensures Scan(g + buf) == Scan(buf)
  {
    if g == [] {
      assert g + buf == buf;
    } else {
      assert FromLe(g[0], (g + buf)[1]) != PACKET_TOKEN;
      assert (g + buf)[1..] == g[1..] + buf;
      SkipGarbage(g[1..], buf);
    }
  }

  /** Scan of a stream delivered as chunks, one call per chunk. */
  function ScanChunks(rest: bytes, chunks: seq<bytes>): Scanned
    decreases |chunks|
  {
    if chunks == [] then Scanned([], rest)
    else
      var s := Scan(rest + chunks[0]);
      Then(s, ScanChunks(s.rest, chunks[1..]))
  }

  /** Any partition of the stream gives the packets and the remainder of the whole. */
  lemma {:induction false} AnyChunking(rest: bytes, chunks: seq<bytes>)
    requires Scan(rest) == Scanned([], rest)
    ensures ScanChunks(rest, chunks) == Scan(rest + Concat(chunks))
    decreases |chunks|
  {
    if chunks == [] {
      assert rest + [] == rest;
    } else {
      var tail := Concat(chunks[1..]);
      assert rest + Concat(chunks) == (rest + chunks[0]) + tail;
      RestWaits(rest + chunks[0]);
      AnyChunking(Scan(rest + chunks[0]).rest, chunks[1..]);
      ChunkInvariance(rest + chunks[0], tail);
    }
  }

  /** Garbage, then frames, in any chunking: exactly the packets, in order. */
  lemma ResyncAfterGarbage(g: bytes, ps: seq<Packet>, chunks: seq<bytes>)
    requires TOKEN_LO !in g && ps != []
    requires forall p :: p in ps ==> Encodable(p)
    requires Concat(chunks) == g + Concat(Frames(ps))
    ensures ScanChunks([], chunks) == Scanned(ps, [])
  {
    AnyChunking([], chunks);
    assert [] + Concat(chunks) == g + Concat(Frames(ps));
    SkipGarbage(g, Concat(Frames(ps)));
    ScanFrames(ps);
  }
}
