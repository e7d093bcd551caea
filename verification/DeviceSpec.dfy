/** The peer: a device that decodes the byte stream and answers with text lines. */
module DeviceSpec {
  import opened Prelude
  import opened Codec
  import opened Scanner
  import opened Text

  datatype CompressionSpec = Plain | Shrink(window: byte, lookahead: byte)

  datatype Behaviour = Behaviour(
    resendOnceForSync: Option<byte>,
    busyOnNextOpen: bool,
    failOnNextOpen: bool,
    skipPftOnTerminal: bool)

  datatype Device = Device(
    initialSync: byte,
    maxBlockSize: u16,
    protocolVersion: bytes,
    compression: CompressionSpec,
    behaviour: Behaviour,
    lastOpenFilename: Option<bytes>,
    lastOpenDummy: Option<bool>,
    lastOpenCompressionByte: Option<byte>,
    writtenBytes: bytes,
    aborted: bool,
    closed: bool,
    controlClosed: bool,
    reply: bytes)

  /** A device and the undecoded bytes it holds. */
  datatype Peer = Peer(device: Device, inbound: bytes)

  const NO_BEHAVIOUR := Behaviour(None, false, false, false)

  /** "none" / "heatshrink,<window>,<lookahead>" */
  function Render(c: CompressionSpec): bytes {
    match c
    case Plain => [110, 111, 110, 101]
    case Shrink(w, l) =>
      [104, 101, 97, 116, 115, 104, 114, 105, 110, 107, 44] + Decimal(w) + [COMMA] + Decimal(l)
  }

  function OkText(n: byte): bytes {
    [111, 107] + Decimal(n)
  }

  function ResendText(n: byte): bytes {
    [114, 115] + Decimal(n)
  }

  function SyncText(sync: u16, maxBlockSize: u16, version: bytes): bytes {
    [115, 115] + (Decimal(sync) + [COMMA] + (Decimal(maxBlockSize) + [COMMA] + version))
  }

  /** "PFT:version:" */
  const VERSION_PREFIX: bytes := [80, 70, 84, 58, 118, 101, 114, 115, 105, 111, 110, 58]
  const SUCCESS_TEXT: bytes := [80, 70, 84, 58, 115, 117, 99, 99, 101, 115, 115]
  const BUSY_TEXT: bytes := [80, 70, 84, 58, 98, 117, 115, 121]
  const FAIL_TEXT: bytes := [80, 70, 84, 58, 102, 97, 105, 108]

  function VersionText(version: bytes, c: CompressionSpec): bytes {
    VERSION_PREFIX + (version + [COLON] + Render(c))
  }

  function WriteLine(d: Device, line: bytes): Device {
    d.(reply := d.reply + line + [LF])
  }

  function OpenFields(d: Device, payload: bytes): Device {
    if |payload| < 3 then d
    else
      d.(lastOpenDummy := Some(payload[0] != 0),
         lastOpenCompressionByte := Some(payload[1]),
         lastOpenFilename := Some(payload[2..][..IndexOf(payload[2..], 0)]))
  }

  function OpenReply(d: Device): Device {
    if d.behaviour.busyOnNextOpen then
      WriteLine(d.(behaviour := d.behaviour.(busyOnNextOpen := false)), BUSY_TEXT)
    else if d.behaviour.failOnNextOpen then
      WriteLine(d.(behaviour := d.behaviour.(failOnNextOpen := false)), FAIL_TEXT)
    else WriteLine(d, SUCCESS_TEXT)
  }

  function TerminalReply(d: Device): Device {
    if d.behaviour.skipPftOnTerminal then d else WriteLine(d, SUCCESS_TEXT)
  }

  function Handle(d: Device, p: Packet): Device {
    if d.behaviour.resendOnceForSync == Some(p.sync) then
      WriteLine(d.(behaviour := d.behaviour.(resendOnceForSync := None)), ResendText(p.sync))
    else
      match (p.protocol, p.packetType)
      case (0, 1) => WriteLine(d, SyncText(d.initialSync, d.maxBlockSize, d.protocolVersion))
      case (0, 2) => WriteLine(d.(controlClosed := true), OkText(p.sync))
      case (1, 0) => WriteLine(WriteLine(d, VersionText(d.protocolVersion, d.compression)), OkText(p.sync))
      case (1, 1) => WriteLine(OpenReply(OpenFields(d, p.payload)), OkText(p.sync))
      case (1, 2) => WriteLine(TerminalReply(d.(closed := true)), OkText(p.sync))
      case (1, 3) => WriteLine(d.(writtenBytes := d.writtenBytes + p.payload), OkText(p.sync))
      case (1, 4) => WriteLine(TerminalReply(d.(aborted := true)), OkText(p.sync))
      case _ => WriteLine(d, OkText(p.sync))
  }

  function HandleAll(d: Device, ps: seq<Packet>): Device
    decreases |ps|
  {
    if ps == [] then d else HandleAll(Handle(d, ps[0]), ps[1..])
  }

  function Feed(peer: Peer, chunk: bytes): Peer {
    var s := Scan(peer.inbound + chunk);
    Peer(HandleAll(peer.device, s.packets), s.rest)
  }

  lemma {:induction false} HandleAllAppend(d: Device, ps: seq<Packet>, qs: seq<Packet>)
    ensures HandleAll(d, ps + qs) == HandleAll(HandleAll(d, ps), qs)
    decreases |ps|
  {
    hide Handle;
    if ps == [] {
      assert ps + qs == qs;
    } else {
      assert (ps + qs)[1..] == ps[1..] + qs;
      HandleAllAppend(Handle(d, ps[0]), ps[1..], qs);
    }
  }

  /** Two feeds leave the device in the state of one feed of both chunks. */
  lemma FeedTwice(peer: Peer, a: bytes, b: bytes)
    ensures Feed(Feed(peer, a), b) == Feed(peer, a + b)
  {
    hide Scan, HandleAll;
    assert peer.inbound + (a + b) == (peer.inbound + a) + b;
    ChunkInvariance(peer.inbound + a, b);
    var s := Scan(peer.inbound + a);
    HandleAllAppend(peer.device, s.packets, Scan(s.rest + b).packets);
  }

  function FeedAll(peer: Peer, chunks: seq<bytes>): Peer
    decreases |chunks|
  {
    if chunks == [] then peer else FeedAll(Feed(peer, chunks[0]), chunks[1..])
  }

  /** A host byte stream drives the device to the same state in any chunking. */
  lemma {:induction false} PeerChunkInvariance(peer: Peer, chunks: seq<bytes>)
    requires Scan(peer.inbound) == Scanned([], peer.inbound)
    ensures FeedAll(peer, chunks) == Feed(peer, Concat(chunks))
    decreases |chunks|
  {
    hide Scan, Handle;
    if chunks == [] {
      assert peer.inbound + [] == peer.inbound;
    } else {
      var s := Scan(peer.inbound + chunks[0]);
      RestWaits(peer.inbound + chunks[0]);
      PeerChunkInvariance(Feed(peer, chunks[0]), chunks[1..]);
      FeedTwice(peer, chunks[0], Concat(chunks[1..]));
    }
  }
}
