/**
 * Packet framing.
 *
 *   offset 0..2    start token 0xB5AD, little-endian, not checksummed
 *   offset 2       sync
 *   offset 3       protocol (high nibble), packet type (low nibble)
 *   offset 4..6    payload length, little-endian
 *   offset 6..8    Fletcher-16 of bytes 2..6
 *   offset 8..     payload and Fletcher-16 of bytes 2..8+N, both absent if N == 0
 */
module Codec {
  import opened Prelude
  import opened Fletcher

  const PACKET_TOKEN: u16 := 0xB5AD
  const TOKEN_LO: byte := 0xAD
  const TOKEN_HI: byte := 0xB5
  const HEADER_LEN: nat := 8
  const MAX_PAYLOAD: nat := 65535

  datatype Packet = Packet(sync: byte, protocol: byte, packetType: byte, payload: bytes)

  datatype EncodeError =
    | PayloadTooLarge(len: nat)
    | BadProtocol(protocol: byte)
    | BadPacketType(packetType: byte)

  datatype DecodeError =
    | Incomplete(need: nat, have: nat)
    | BadToken(expected: u16, got: u16)
    | HeaderChecksum(stored: u16, computed: u16)
    | PayloadChecksum(stored: u16, computed: u16)

  predicate Encodable(p: Packet) {
    p.protocol <= 15 && p.packetType <= 15 && |p.payload| <= MAX_PAYLOAD
  }

  /** A packet that fits the wire, or the first of the three things wrong with it. */
  function NewPacket(sync: byte, protocol: byte, packetType: byte, payload: bytes)
    : (r: Result<Packet, EncodeError>)
    ensures r.Success? <==> Encodable(Packet(sync, protocol, packetType, payload))
    ensures r.Success? ==> r.value == Packet(sync, protocol, packetType, payload)
    ensures r.Failure? ==>
              match r.error
              case BadProtocol(p) => p == protocol && p > 15
              case BadPacketType(t) => t == packetType && t > 15 && protocol <= 15
              case PayloadTooLarge(n) => n == |payload| > MAX_PAYLOAD && protocol <= 15 && packetType <= 15
  {
    if protocol > 15 then Failure(BadProtocol(protocol))
    else if packetType > 15 then Failure(BadPacketType(packetType))
    else if |payload| > MAX_PAYLOAD then Failure(PayloadTooLarge(|payload|))
    else Success(Packet(sync, protocol, packetType, payload))
  }

  function WireLen(p: Packet): nat {
    if p.payload == [] then HEADER_LEN else HEADER_LEN + |p.payload| + 2
  }

  /** Little-endian u16. */
  function Le(x: u16): bytes {
    [x % 256, x / 256]
  }

  function FromLe(lo: byte, hi: byte): u16 {
    hi * 256 + lo
  }

  /** The four bytes the header checksum covers. */
  function Header(p: Packet): bytes
    requires Encodable(p)
  {
    [p.sync, p.protocol * 16 + p.packetType] + Le(|p.payload|)
  }

  /** Everything the payload checksum covers. */
  function Body(p: Packet): bytes
    requires Encodable(p)
  {
    Header(p) + Le(Checksum(Header(p))) + p.payload
  }

  /** The bytes of a packet on the wire. */
  function Frame(p: Packet): (f: bytes)
    requires Encodable(p)
    ensures |f| == WireLen(p)
  {
    [TOKEN_LO, TOKEN_HI] + Body(p) + if p.payload == [] then [] else Le(Checksum(Body(p)))
  }

  /** Appends the wire bytes of `packet` to `out` and returns how many there are. */
  method Encode(packet: Packet, out: bytes) returns (r: Result<nat, EncodeError>, appended: bytes)
    ensures r.Success? <==> Encodable(packet)
    ensures r.Success? ==> appended == out + Frame(packet) && r.value == WireLen(packet)
    ensures r.Failure? ==>
              appended == out
              && NewPacket(packet.sync, packet.protocol, packet.packetType, packet.payload)
                 == Failure(r.error)
  {
    appended := out;
    if packet.protocol > 15 {
      return Failure(BadProtocol(packet.protocol)), appended;
    }
    if packet.packetType > 15 {
      return Failure(BadPacketType(packet.packetType)), appended;
    }
    if |packet.payload| > MAX_PAYLOAD {
      return Failure(PayloadTooLarge(|packet.payload|)), appended;
    }
    hide Checksum, Frame, Body, Header;
    var start := |appended|;
    appended := appended + Le(PACKET_TOKEN);
    var headerStart := |appended|;
    appended := appended + [packet.sync];
    appended := appended + [packet.protocol * 16 + packet.packetType];
    appended := appended + Le(|packet.payload|);
    HeaderPushed(out, packet);
    var headerCs := Fletcher16(appended[headerStart..]);
    appended := appended + Le(headerCs);
    if packet.payload != [] {
      appended := appended + packet.payload;
      BodyPushed(out, packet);
      var payloadCs := Fletcher16(appended[headerStart..]);
      appended := appended + Le(payloadCs);
    }
    FramePushed(out, packet);
    r := Success(|appended| - start);
  }

  lemma HeaderPushed(out: bytes, p: Packet)
    requires Encodable(p)
    ensures var buf := out + Le(PACKET_TOKEN) + [p.sync] + [p.protocol * 16 + p.packetType] + Le(|p.payload|);
            buf == out + [TOKEN_LO, TOKEN_HI] + Header(p) && buf[|out| + 2..] == Header(p)
  {
  }

  lemma BodyPushed(out: bytes, p: Packet)
    requires Encodable(p)
    ensures var buf := out + [TOKEN_LO, TOKEN_HI] + Header(p) + Le(Checksum(Header(p))) + p.payload;
            buf[|out| + 2..] == Body(p)
  {
    hide Checksum, Header;
  }

  lemma FramePushed(out: bytes, p: Packet)
    requires Encodable(p)
    ensures var buf := out + [TOKEN_LO, TOKEN_HI] + Header(p) + Le(Checksum(Header(p)));
            (if p.payload == [] then buf else buf + p.payload + Le(Checksum(Body(p)))) == out + Frame(p)
  {
    hide Checksum, Header;
  }

  function Decode(buf: bytes): (r: Result<(Packet, nat), DecodeError>)
    ensures r.Success? ==> HEADER_LEN <= r.value.1 <= |buf|
    ensures r.Failure? && !r.error.Incomplete? ==> |buf| >= HEADER_LEN
  {
    if |buf| < HEADER_LEN then
      Failure(Incomplete(HEADER_LEN, |buf|))
    else
      var token := FromLe(buf[0], buf[1]);
      if token != PACKET_TOKEN then
        Failure(BadToken(PACKET_TOKEN, token))
      else
        var protocol := buf[3] / 16;
        var packetType := buf[3] % 16;
        var payloadLen := FromLe(buf[4], buf[5]);
        var storedHeader := FromLe(buf[6], buf[7]);
        var computedHeader := Checksum(buf[2..6]);
        if storedHeader != computedHeader then
          Failure(HeaderChecksum(storedHeader, computedHeader))
        else if payloadLen == 0 then
          Success((Packet(buf[2], protocol, packetType, []), HEADER_LEN))
        else
          var total := HEADER_LEN + payloadLen + 2;
          if |buf| < total then
            Failure(Incomplete(total, |buf|))
          else
            var csOff := HEADER_LEN + payloadLen;
            var storedPayload := FromLe(buf[csOff], buf[csOff + 1]);
            var computedPayload := Checksum(buf[2..csOff]);
            if storedPayload != computedPayload then
              Failure(PayloadChecksum(storedPayload, computedPayload))
            else
              Success((Packet(buf[2], protocol, packetType, buf[HEADER_LEN..csOff]), total))
  }

  lemma LeRoundTrip(x: u16)
    ensures FromLe(Le(x)[0], Le(x)[1]) == x
  {
  }

  lemma LeOfFromLe(lo: byte, hi: byte)
    ensures Le(FromLe(lo, hi)) == [lo, hi]
  {
  }

  /** The slices of a frame that the decoder looks at. */
  lemma FrameFields(p: Packet, tail: bytes)
    requires Encodable(p)
    ensures var buf := Frame(p) + tail;
            && FromLe(buf[0], buf[1]) == PACKET_TOKEN
            && buf[2] == p.sync && buf[3] == p.protocol * 16 + p.packetType
            && FromLe(buf[4], buf[5]) == |p.payload|
            && buf[2..6] == Header(p)
            && FromLe(buf[6], buf[7]) == Checksum(Header(p))
            && buf[2..8 + |p.payload|] == Body(p)
            && buf[8..8 + |p.payload|] == p.payload
            && (p.payload != [] ==>
                  FromLe(buf[8 + |p.payload|], buf[9 + |p.payload|]) == Checksum(Body(p)))
  {
    hide Checksum;
    var buf := Frame(p) + tail;
    LeRoundTrip(|p.payload|);
    LeRoundTrip(Checksum(Header(p)));
    LeRoundTrip(Checksum(Body(p)));
    assert buf[2..8 + |p.payload|] == Body(p);
    assert Body(p)[..4] == Header(p);
    assert buf[2..6] == Body(p)[..4];
    assert Body(p)[6..] == p.payload;
    assert buf[8..8 + |p.payload|] == Body(p)[6..];
    assert buf[4] == Body(p)[2] && buf[5] == Body(p)[3];
    assert buf[6] == Body(p)[4] && buf[7] == Body(p)[5];
  }

  /** Decoding a frame gives the packet back, whatever follows it. */
  lemma RoundTrip(p: Packet, tail: bytes)
    requires Encodable(p)
    ensures Decode(Frame(p) + tail) == Success((p, WireLen(p)))
  {
    hide Checksum, Frame;
    FrameFields(p, tail);
    var buf := Frame(p) + tail;
    assert buf[3] / 16 == p.protocol && buf[3] % 16 == p.packetType;
    if p.payload == [] {
      assert Decode(buf) == Success((Packet(buf[2], p.protocol, p.packetType, []), 8));
    } else {
      var csOff := 8 + |p.payload|;
      assert Checksum(buf[2..csOff]) == FromLe(buf[csOff], buf[csOff + 1]);
    }
  }

  lemma NibblesJoin(b: byte)
    ensures b / 16 <= 15 && b % 16 <= 15 && b / 16 * 16 + b % 16 == b
  {
  }

  /** What an accepted buffer holds, field by field. */
  lemma DecodedFields(buf: bytes, p: Packet, k: nat)
    requires Decode(buf) == Success((p, k))
    ensures FromLe(buf[0], buf[1]) == PACKET_TOKEN
    ensures p.sync == buf[2] && p.protocol == buf[3] / 16 && p.packetType == buf[3] % 16
    ensures |p.payload| == FromLe(buf[4], buf[5]) && k == WireLen(p)
    ensures FromLe(buf[6], buf[7]) == Checksum(buf[2..6])
    ensures p.payload == buf[8..8 + |p.payload|]
    ensures p.payload != [] ==>
              FromLe(buf[8 + |p.payload|], buf[9 + |p.payload|]) == Checksum(buf[2..8 + |p.payload|])
  {
    hide Checksum;
  }

  lemma SliceFrame(buf: bytes, p: Packet, k: nat)
    requires Decode(buf) == Success((p, k))
    ensures Encodable(p) && k == WireLen(p)
    ensures Header(p) == buf[2..6] && Body(p) == buf[2..8 + |p.payload|]
  {
    hide Checksum, Decode, FromLe, Le;
    DecodedFields(buf, p, k);
    NibblesJoin(buf[3]);
    LeOfFromLe(buf[4], buf[5]);
    LeOfFromLe(buf[6], buf[7]);
    var n := |p.payload|;
    assert buf[2..6] == [buf[2], buf[3]] + [buf[4], buf[5]];
    assert buf[2..8 + n] == buf[2..6] + [buf[6], buf[7]] + buf[8..8 + n];
  }

  /** Only canonical frames decode: what was consumed is what Encode would write. */
  lemma DecodeCanonical(buf: bytes, p: Packet, k: nat)
    requires Decode(buf) == Success((p, k))
    ensures Encodable(p) && k == WireLen(p) && Frame(p) == buf[..k]
  {
    hide Checksum, Header, Body, Decode;
    DecodedFields(buf, p, k);
    SliceFrame(buf, p, k);
    var csOff := HEADER_LEN + |p.payload|;
    if p.payload != [] {
      LeOfFromLe(buf[csOff], buf[csOff + 1]);
      assert Le(Checksum(Body(p))) == buf[csOff..k];
    }
    assert buf[..k] == buf[..2] + buf[2..csOff] + buf[csOff..k];
    assert buf[..2] == [TOKEN_LO, TOKEN_HI];
  }

  /** More bytes never change an answer other than Incomplete. */
  lemma DecodeExtend(a: bytes, b: bytes)
    requires !(Decode(a).Failure? && Decode(a).error.Incomplete?)
    ensures Decode(a + b) == Decode(a)
  {
    var c := a + b;
    assert c[2..6] == a[2..6];
    var csOff := HEADER_LEN + FromLe(a[4], a[5]);
    if csOff <= |a| {
      assert c[2..csOff] == a[2..csOff];
      assert c[HEADER_LEN..csOff] == a[HEADER_LEN..csOff];
    }
  }

  /** Every proper prefix of a frame asks for more, and never for more than the frame. */
  lemma PrefixIncomplete(p: Packet, k: nat)
    requires Encodable(p) && k < WireLen(p)
    ensures var r := Decode(Frame(p)[..k]);
            r.Failure? && r.error.Incomplete? && r.error.have == k && k < r.error.need <= WireLen(p)
  {
    FrameFields(p, []);
    var f := Frame(p);
    assert f + [] == f;
    var buf := f[..k];
    if k >= HEADER_LEN {
      assert buf[2..6] == f[2..6];
    }
  }

  function Frames(ps: seq<Packet>): seq<bytes>
    requires forall p :: p in ps ==> Encodable(p)
  {
    if ps == [] then [] else [Frame(ps[0])] + Frames(ps[1..])
  }

  /** A byte stream is the concatenation of at most one sequence of frames. */
  lemma {:induction false} FramesUnique(ps: seq<Packet>, qs: seq<Packet>)
    requires forall p :: p in ps ==> Encodable(p)
    requires forall q :: q in qs ==> Encodable(q)
    requires Concat(Frames(ps)) == Concat(Frames(qs))
    ensures ps == qs
  {
    hide Frame, Decode;
    if ps == [] || qs == [] {
    } else {
      RoundTrip(ps[0], Concat(Frames(ps[1..])));
      RoundTrip(qs[0], Concat(Frames(qs[1..])));
      assert ps[0] == qs[0];
      var k := WireLen(ps[0]);
      assert Concat(Frames(ps[1..])) == Concat(Frames(ps))[k..];
      assert Concat(Frames(qs[1..])) == Concat(Frames(qs))[k..];
      FramesUnique(ps[1..], qs[1..]);
      assert ps == [ps[0]] + ps[1..] && qs == [qs[0]] + qs[1..];
    }
  }
}
