/** What a whole upload promises about the wire, apart from any transport. */
module UploadSpec {
  import opened Prelude
  import opened Codec
  import opened SessionSpec
  import opened SessionInvariants
  import T = TransferSpec

  const FALLBACK_CHUNK_SIZE: nat := 256

  /** The ASCII trigger "M28B1\n". */
  const TRIGGER: bytes := [77, 50, 56, 66, 49, 10]

  /**
   * Within what the device buffers, or the fallback when it reported nothing, and
   * within what was asked for, if anything.
   */
  predicate Acceptable(n: nat, requested: nat, deviceMax: u16) {
    && n <= (if deviceMax == 0 then FALLBACK_CHUNK_SIZE else deviceMax)
    && (requested != 0 ==> n <= requested)
  }

  /** The greatest acceptable size; never zero, never more than one packet can carry. */
  function ResolveChunkSize(requested: nat, deviceMax: u16): (n: nat)
    ensures 1 <= n <= MAX_PAYLOAD
    ensures Acceptable(n, requested, deviceMax)
    ensures forall k: nat :: Acceptable(k, requested, deviceMax) ==> k <= n
  {
    var limit: nat := if deviceMax == 0 then FALLBACK_CHUNK_SIZE else deviceMax;
    if requested == 0 then limit else if requested < limit then requested else limit
  }

  /** `slice::chunks`. */
  function Chunks(payload: bytes, size: nat): seq<bytes>
    requires size > 0
    decreases |payload|
  {
    if payload == [] then []
    else if |payload| <= size then [payload]
    else [payload[..size]] + Chunks(payload[size..], size)
  }

  /**
   * Nothing is lost in chunking, every chunk but the last is full, none is empty, and
   * there are ceil(len / size) of them.
   */
  lemma {:induction false} ChunksCover(payload: bytes, size: nat)
    requires size > 0
    ensures Concat(Chunks(payload, size)) == payload
    ensures Cut(Chunks(payload, size), size)
    ensures |Chunks(payload, size)| == (|payload| + size - 1) / size
    decreases |payload|
  {
    hide Cut, Concat;
    if |payload| <= size {
      OneChunk(payload, size);
      CeilOfSmall(|payload|, size);
    } else {
      var rest := payload[size..];
      ChunksCover(rest, size);
      CutFirst(payload[..size], Chunks(rest, size), size);
      assert payload[..size] + rest == payload;
      CeilStep(|payload|, size);
    }
  }

  lemma OneChunk(payload: bytes, size: nat)
    requires |payload| <= size
    ensures var chunks := if payload == [] then [] else [payload];
            Cut(chunks, size) && Concat(chunks) == payload
  {
    ConcatOne(payload);
  }

  lemma CutFirst(first: bytes, rest: seq<bytes>, size: nat)
    requires |first| == size > 0 && Cut(rest, size)
    ensures Cut([first] + rest, size) && Concat([first] + rest) == first + Concat(rest)
  {
    var all := [first] + rest;
    assert all[1..] == rest;
    assert forall i :: 1 <= i < |all| ==> all[i] == rest[i - 1];
  }

  lemma CeilOfSmall(n: nat, size: nat)
    requires n <= size && size > 0
    ensures (n + size - 1) / size == if n == 0 then 0 else 1
  {
    if n == 0 {
      SmallQuotient(size - 1, size);
    } else {
      QuotientStep(n - 1, size);
      SmallQuotient(n - 1, size);
    }
  }

  lemma CeilStep(n: nat, size: nat)
    requires n > size > 0
    ensures (n + size - 1) / size == (n - size + size - 1) / size + 1
  {
    QuotientStep(n - 1, size);
  }

  lemma SmallQuotient(a: nat, b: nat)
    requires a < b
    ensures a / b == 0
  {
  }

  lemma QuotientStep(a: nat, b: nat)
    requires b > 0
    ensures (a + b) / b == a / b + 1
  {
    var q, r := a / b, a % b;
    assert a + b == b * (q + 1) + r;
    QuotientUnique(a + b, b, q + 1, r);
  }

  lemma QuotientUnique(n: nat, b: nat, q: nat, r: nat)
    requires b > 0 && n == b * q + r && r < b
    ensures n / b == q
  {
    var p, t := n / b, n % b;
    SplitProduct(n, b);
    assert b * p + t == b * q + r;
    assert b * (p - q) == r - t;
    MultipleIsLarge(b, p - q);
  }

  lemma SplitProduct(n: nat, b: nat)
    requires b > 0
    ensures n == b * (n / b) + n % b
  {
  }

  lemma MultipleIsLarge(b: int, d: int)
    requires b > 0
    ensures d >= 1 ==> b * d >= b
    ensures d <= -1 ==> b * d <= -b
  {
    assert b * d == b + b * (d - 1);
    assert b * d == -b + b * (d + 1);
    assert d >= 1 ==> b * (d - 1) >= 0;
    assert d <= -1 ==> b * (-d - 1) >= 0;
    assert b * (d + 1) == -(b * (-d - 1));
  }

  datatype Options = Options(
    destFilename: bytes,
    compression: T.Compression,
    dummy: bool,
    chunkSize: nat)

  datatype Stats = Stats(sourceBytes: nat, bytesSent: nat, chunksSent: nat, compression: T.Compression)

  /** An opaque compressor; None is its error. */
  type Compressor = (bytes, byte, byte) -> Option<bytes>

  /** Chunks of the given size, the last one possibly shorter and none empty. */
  ghost predicate Cut(chunks: seq<bytes>, size: nat) {
    && (forall c :: c in chunks ==> 0 < |c| <= size)
    && forall i :: 0 <= i < |chunks| - 1 ==> |chunks[i]| == size
  }

  /** The chunks join to the source, or to what the compressor made of it with the agreed window and lookahead. */
  ghost predicate Carry(chunks: seq<bytes>, source: bytes, c: T.Compression, compress: Compressor) {
    if c.Heatshrink? then compress(source, c.window, c.lookahead) == Some(Concat(chunks))
    else Concat(chunks) == source
  }

  predicate CompressorFails(source: bytes, c: T.Compression, compress: Compressor) {
    c.Heatshrink? && compress(source, c.window, c.lookahead).None?
  }

  function WriteRequests(chunks: seq<bytes>): (rs: seq<Request>)
    requires forall c :: c in chunks ==> |c| <= MAX_PAYLOAD
    ensures |rs| == |chunks|
    ensures forall i :: 0 <= i < |rs| ==> rs[i] == T.FileRequest(T.PT_WRITE, chunks[i])
  {
    seq(|chunks|, i requires 0 <= i < |chunks| => T.FileRequest(T.PT_WRITE, chunks[i]))
  }

  lemma WriteRequestsSnoc(front: seq<bytes>, x: bytes)
    requires |x| <= MAX_PAYLOAD && forall c :: c in front ==> |c| <= MAX_PAYLOAD
    ensures forall c :: c in front + [x] ==> |c| <= MAX_PAYLOAD
    ensures WriteRequests(front + [x]) == WriteRequests(front) + [T.FileRequest(T.PT_WRITE, x)]
  {
  }

  const CONTROL_CLOSE := Request(0, 2, [], false)

  function OpenRequest(o: Options, c: T.Compression): Request
    requires |o.destFilename| + 3 <= MAX_PAYLOAD
  {
    T.FileRequest(T.PT_OPEN, T.OpenPayload(Some(c), o.destFilename, o.dummy))
  }

  function Opening(o: Options, c: T.Compression): seq<Request>
    requires |o.destFilename| + 3 <= MAX_PAYLOAD
  {
    [HANDSHAKE, T.FileRequest(T.PT_QUERY, []), OpenRequest(o, c)]
  }

  /** SYNC, QUERY, OPEN, one WRITE per chunk, CLOSE, control CLOSE. */
  function Plan(o: Options, c: T.Compression, chunks: seq<bytes>): seq<Request>
    requires |o.destFilename| + 3 <= MAX_PAYLOAD
    requires forall x :: x in chunks ==> |x| <= MAX_PAYLOAD
  {
    Opening(o, c) + WriteRequests(chunks) + [T.FileRequest(T.PT_CLOSE, []), CONTROL_CLOSE]
  }

  /**
   * The wire trace of a completed upload: after the trigger, exactly the frames
   * of the plan in order, each written one or more times in a row; every packet
   * but the handshake was acknowledged, none was given up.
   */
  ghost predicate Delivered(written: seq<bytes>, c: Core, plan: seq<Request>) {
    && Inv(c)
    && Requests(c.hist.dispatched) == plan
    && written == [TRIGGER] + Expand(c.hist.dispatched)
    && |c.hist.resolved| == |plan| && plan != []
    && c.hist.resolved[0] == Synchronized
    && forall i :: 1 <= i < |plan| ==> c.hist.resolved[i].Acked?
  }
}
