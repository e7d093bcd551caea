/** What the two checksums of a frame detect: one corrupted byte, or two exchanged payload bytes. */
module Corruption {
  import opened Prelude
  import opened Fletcher
  import opened Codec

  /** The decoder rejected the bytes outright: no packet, and no request for more bytes. */
  predicate Detected(r: Result<(Packet, nat), DecodeError>) {
    r.Failure? && !r.error.Incomplete?
  }

  /** Frame offsets that are only protected by a checksum of their value modulo 255. */
  predicate Summed(p: Packet, i: nat) {
    2 <= i < 6 || 8 <= i < 8 + |p.payload|
  }

  function Corrupt(p: Packet, i: nat, v: byte, tail: bytes): bytes
    requires Encodable(p) && i < WireLen(p)
  {
    Frame(p)[i := v] + tail
  }

  /** What the decoder answers once the header is accepted with payload length n. */
  lemma AcceptedHeader(g: bytes, n: nat)
    requires |g| >= HEADER_LEN && FromLe(g[0], g[1]) == PACKET_TOKEN
    requires FromLe(g[4], g[5]) == n && FromLe(g[6], g[7]) == Checksum(g[2..6])
    ensures var r, total := Decode(g), HEADER_LEN + n + 2;
            if n == 0 then
              r == Success((Packet(g[2], g[3] / 16, g[3] % 16, []), HEADER_LEN))
            else if |g| < total then
              r == Failure(Incomplete(total, |g|))
            else if FromLe(g[8 + n], g[9 + n]) == Checksum(g[2..8 + n]) then
              r == Success((Packet(g[2], g[3] / 16, g[3] % 16, g[8..8 + n]), total))
            else
              r.Failure? && r.error.PayloadChecksum?
  {
  }

  lemma SliceOfOverwrite(s: bytes, tail: bytes, lo: nat, hi: nat, i: nat, v: byte)
    requires lo <= hi <= |s| && i < |s|
    ensures (s[i := v] + tail)[lo..hi] == if lo <= i < hi then s[lo..hi][i - lo := v] else s[lo..hi]
  {
  }

  lemma CorruptFields(p: Packet, i: nat, v: byte, tail: bytes)
    requires Encodable(p) && i < WireLen(p)
    ensures var g, n := Corrupt(p, i, v, tail), |p.payload|;
            && g[2..6] == (if 2 <= i < 6 then Header(p)[i - 2 := v] else Header(p))
            && g[2..8 + n] == (if 2 <= i < 8 + n then Body(p)[i - 2 := v] else Body(p))
            && g[8..8 + n] == (if 8 <= i < 8 + n then p.payload[i - 8 := v] else p.payload)
            && (forall k :: 0 <= k < WireLen(p) && k != i ==> g[k] == Frame(p)[k])
            && g[i] == v
  {
    var f := Frame(p);
    FrameFields(p, []);
    assert f + [] == f;
    SliceOfOverwrite(f, tail, 2, 6, i, v);
    SliceOfOverwrite(f, tail, 2, 8 + |p.payload|, i, v);
    SliceOfOverwrite(f, tail, 8, 8 + |p.payload|, i, v);
  }

  lemma HeaderBytes(p: Packet, i: nat)
    requires Encodable(p) && i < WireLen(p)
    ensures 2 <= i < 6 ==> Frame(p)[i] == Header(p)[i - 2]
    ensures 2 <= i < 8 + |p.payload| ==> Frame(p)[i] == Body(p)[i - 2]
    ensures 8 <= i < 8 + |p.payload| ==> Frame(p)[i] == p.payload[i - 8]
  {
    FrameFields(p, []);
    assert Frame(p) + [] == Frame(p);
    var f := Frame(p);
    assert 2 <= i < 6 ==> f[i] == f[2..6][i - 2];
    assert 2 <= i < 8 + |p.payload| ==> f[i] == f[2..8 + |p.payload|][i - 2];
    assert 8 <= i < 8 + |p.payload| ==> f[i] == f[8..8 + |p.payload|][i - 8];
  }

  lemma TokenByte(p: Packet, i: nat, v: byte, tail: bytes)
    requires Encodable(p) && i < 2 && v != Frame(p)[i]
    ensures var r := Decode(Corrupt(p, i, v, tail)); r.Failure? && r.error.BadToken?
  {
    hide Checksum, Body;
    CorruptFields(p, i, v, tail);
  }

  lemma HeaderByte(p: Packet, i: nat, v: byte, tail: bytes)
    requires Encodable(p) && 2 <= i < 8 && v != Frame(p)[i]
    requires 6 <= i || !BlindPair(Frame(p)[i], v)
    ensures var r := Decode(Corrupt(p, i, v, tail)); r.Failure? && r.error.HeaderChecksum?
  {
    hide Checksum, Body;
    CorruptFields(p, i, v, tail);
    HeaderBytes(p, i);
    FrameFields(p, []);
    assert Frame(p) + [] == Frame(p);
    if i < 6 {
      OverwriteUndetected(Header(p), i - 2, v);
    }
  }

  lemma PayloadByte(p: Packet, i: nat, v: byte, tail: bytes)
    requires Encodable(p) && 8 <= i < WireLen(p) && v != Frame(p)[i]
    requires 8 + |p.payload| <= i || !BlindPair(Frame(p)[i], v)
    ensures var r := Decode(Corrupt(p, i, v, tail)); r.Failure? && r.error.PayloadChecksum?
  {
    hide Checksum, Body;
    CorruptFields(p, i, v, tail);
    HeaderBytes(p, i);
    FrameFields(p, []);
    assert Frame(p) + [] == Frame(p);
    if i < 8 + |p.payload| {
      OverwriteUndetected(Body(p), i - 2, v);
    }
    var g, csOff := Corrupt(p, i, v, tail), 8 + |p.payload|;
    assert FromLe(g[4], g[5]) == |p.payload|;
    assert FromLe(g[csOff], g[csOff + 1]) != Checksum(g[2..csOff]);
  }

  /** The packet a receiver sees after an accepted corruption at offset i. */
  function Altered(p: Packet, i: nat, v: byte): Packet
    requires i == 2 || i == 3 || 8 <= i < 8 + |p.payload|
  {
    if i == 2 then p.(sync := v)
    else if i == 3 then p.(protocol := v / 16, packetType := v % 16)
    else p.(payload := p.payload[i - 8 := v])
  }

  /** Exchanging 0x00 and 0xFF in sync, protocol/type or payload is accepted, and alters the packet. */
  lemma BlindByteAccepted(p: Packet, i: nat, v: byte, tail: bytes)
    requires Encodable(p) && (i == 2 || i == 3 || 8 <= i < 8 + |p.payload|)
    requires BlindPair(Frame(p)[i], v)
    ensures Decode(Corrupt(p, i, v, tail)) == Success((Altered(p, i, v), WireLen(p)))
    ensures Altered(p, i, v) != p
  {
    hide Checksum, Corrupt, Frame, Decode;
    BlindFields(p, i, v, tail);
    AcceptedHeader(Corrupt(p, i, v, tail), |p.payload|);
    HeaderBytes(p, i);
    AlteredNibbles(p, v);
  }

  lemma AlteredNibbles(p: Packet, v: byte)
    requires Encodable(p)
    ensures (p.protocol * 16 + p.packetType) / 16 == p.protocol && (p.protocol * 16 + p.packetType) % 16 == p.packetType
    ensures v / 16 == p.protocol && v % 16 == p.packetType ==> v == p.protocol * 16 + p.packetType
  {
  }

  lemma BlindFields(p: Packet, i: nat, v: byte, tail: bytes)
    requires Encodable(p) && (i == 2 || i == 3 || 8 <= i < 8 + |p.payload|)
    requires BlindPair(Frame(p)[i], v)
    ensures var g, n := Corrupt(p, i, v, tail), |p.payload|;
            && |g| >= WireLen(p) && FromLe(g[0], g[1]) == PACKET_TOKEN
            && g[2] == (if i == 2 then v else p.sync)
            && g[3] == (if i == 3 then v else p.protocol * 16 + p.packetType)
            && FromLe(g[4], g[5]) == n && FromLe(g[6], g[7]) == Checksum(g[2..6])
            && g[8..8 + n] == (if 8 <= i then p.payload[i - 8 := v] else p.payload)
            && (n > 0 ==> FromLe(g[8 + n], g[9 + n]) == Checksum(g[2..8 + n]))
            && (8 <= i ==> p.payload[i - 8] != v)
  {
    hide Checksum, Body;
    CorruptFields(p, i, v, tail);
    HeaderBytes(p, i);
    FrameFields(p, []);
    assert Frame(p) + [] == Frame(p);
    if i < 6 {
      OverwriteUndetected(Header(p), i - 2, v);
    }
    if p.payload != [] {
      OverwriteUndetected(Body(p), i - 2, v);
    }
  }

  /** The payload length a receiver reads after a corruption of the length field. */
  function AlteredLength(p: Packet, i: nat, v: byte): nat
    requires Encodable(p) && (i == 4 || i == 5)
  {
    if i == 4 then FromLe(v, Frame(p)[5]) else FromLe(Frame(p)[4], v)
  }

  /** The bytes a receiver takes for the payload checksum do not match what precedes them. */
  predicate Mismatch(g: bytes, n: nat)
    requires |g| >= HEADER_LEN + n + 2
  {
    FromLe(g[8 + n], g[9 + n]) != Checksum(g[2..8 + n])
  }

  /** A blind length byte is still caught when the length it announces is there but does not check out. */
  predicate LengthCaught(p: Packet, i: nat, v: byte, tail: bytes)
    requires Encodable(p) && i < WireLen(p)
  {
    (i == 4 || i == 5)
    && var g, n := Corrupt(p, i, v, tail), AlteredLength(p, i, v);
       n != 0 && |g| >= HEADER_LEN + n + 2 && Mismatch(g, n)
  }

  /**
   * One corrupted byte at any offset, whatever follows the frame, is rejected
   * outright exactly when it is not a 0x00/0xFF exchange in a summed byte, or is
   * one in the length field that the payload checksum still catches.
   */
  lemma SingleByteCorruption(p: Packet, i: nat, v: byte, tail: bytes)
    requires Encodable(p) && i < WireLen(p) && v != Frame(p)[i]
    ensures Detected(Decode(Corrupt(p, i, v, tail)))
            <==> !(Summed(p, i) && BlindPair(Frame(p)[i], v)) || LengthCaught(p, i, v, tail)
  {
    hide Frame, Decode, Checksum, Corrupt;
    if Summed(p, i) && BlindPair(Frame(p)[i], v) {
      if i == 4 || i == 5 {
        LengthByteCorruption(p, i, v, tail);
      } else {
        BlindByteAccepted(p, i, v, tail);
      }
    } else if i < 2 {
      TokenByte(p, i, v, tail);
    } else if i < 8 {
      HeaderByte(p, i, v, tail);
    } else {
      PayloadByte(p, i, v, tail);
    }
  }

  /**
   * The exchange in a length byte, whatever follows the frame: a zero length drops
   * the payload, a length that runs past the buffer waits for more, and any other
   * is accepted exactly when the bytes it covers check out.
   */
  lemma LengthByteCorruption(p: Packet, i: nat, v: byte, tail: bytes)
    requires Encodable(p) && (i == 4 || i == 5) && BlindPair(Frame(p)[i], v)
    ensures var g, n := Corrupt(p, i, v, tail), AlteredLength(p, i, v);
            var r, total := Decode(g), HEADER_LEN + n + 2;
            && n != |p.payload|
            && if n == 0 then
                 r == Success((p.(payload := []), HEADER_LEN))
               else if |g| < total then
                 r == Failure(Incomplete(total, |g|))
               else if !Mismatch(g, n) then
                 r == Success((p.(payload := g[8..8 + n]), total))
               else
                 r.Failure? && r.error.PayloadChecksum?
  {
    hide Frame, Decode, Checksum, Corrupt, AlteredLength;
    var g, n := Corrupt(p, i, v, tail), AlteredLength(p, i, v);
    LengthFields(p, i, v, tail, g, n);
    AcceptedHeader(g, n);
  }

  lemma LengthFields(p: Packet, i: nat, v: byte, tail: bytes, g: bytes, n: nat)
    requires Encodable(p) && (i == 4 || i == 5) && BlindPair(Frame(p)[i], v)
    requires g == Corrupt(p, i, v, tail) && n == AlteredLength(p, i, v)
    ensures |g| >= HEADER_LEN && FromLe(g[0], g[1]) == PACKET_TOKEN
    ensures g[2] == p.sync && g[3] / 16 == p.protocol && g[3] % 16 == p.packetType
    ensures FromLe(g[4], g[5]) == n && n != |p.payload|
    ensures FromLe(g[6], g[7]) == Checksum(g[2..6])
  {
    hide Checksum, Body;
    CorruptFields(p, i, v, tail);
    HeaderBytes(p, i);
    FrameFields(p, []);
    assert Frame(p) + [] == Frame(p);
    OverwriteUndetected(Header(p), i - 2, v);
  }

  /** Exchanging two payload bytes x and y at distance d is accepted exactly when 255 | d * (x - y). */
  lemma PayloadSwap(p: Packet, i: nat, j: nat, tail: bytes)
    requires Encodable(p) && i < j < |p.payload|
    ensures var r := Decode(Swap(Frame(p), 8 + i, 8 + j) + tail);
            var undetected := ((j - i) * (p.payload[i] as int - p.payload[j] as int)) % 255 == 0;
            && (undetected ==> r == Success((p.(payload := Swap(p.payload, i, j)), WireLen(p))))
            && (!undetected ==> r.Failure? && r.error.PayloadChecksum?)
  {
    hide Swap, Checksum, Frame, Body, Decode;
    SwapDecodes(p, i, j, tail);
    SwapInBody(p, i, j);
  }

  /** Whether the exchange shows is decided by the checksum alone. */
  lemma SwapDecodes(p: Packet, i: nat, j: nat, tail: bytes)
    requires Encodable(p) && i < j < |p.payload|
    ensures var r := Decode(Swap(Frame(p), 8 + i, 8 + j) + tail);
            if Checksum(Swap(Body(p), 6 + i, 6 + j)) == Checksum(Body(p)) then
              r == Success((p.(payload := Swap(p.payload, i, j)), WireLen(p)))
            else r.Failure? && r.error.PayloadChecksum?
  {
    hide Swap, Checksum, Frame, Body, FromLe, Decode;
    var g := Swap(Frame(p), 8 + i, 8 + j) + tail;
    SwapFields(p, i, j, tail, g);
    AcceptedHeader(g, |p.payload|);
  }

  lemma SwapInBody(p: Packet, i: nat, j: nat)
    requires Encodable(p) && i < j < |p.payload|
    ensures Checksum(Swap(Body(p), 6 + i, 6 + j)) == Checksum(Body(p))
            <==> ((j - i) * (p.payload[i] as int - p.payload[j] as int)) % 255 == 0
  {
    hide Swap, Checksum;
    PayloadInBody(p, i);
    PayloadInBody(p, j);
    SwapUndetected(Body(p), 6 + i, 6 + j);
    assert (6 + j) - (6 + i) == j - i;
  }

  lemma SwapFields(p: Packet, i: nat, j: nat, tail: bytes, g: bytes)
    requires Encodable(p) && i < j < |p.payload|
    requires g == Swap(Frame(p), 8 + i, 8 + j) + tail
    ensures var n := |p.payload|;
            && |g| >= WireLen(p) && FromLe(g[0], g[1]) == PACKET_TOKEN
            && g[2] == p.sync && g[3] / 16 == p.protocol && g[3] % 16 == p.packetType
            && FromLe(g[4], g[5]) == n && FromLe(g[6], g[7]) == Checksum(g[2..6])
            && g[2..8 + n] == Swap(Body(p), 6 + i, 6 + j)
            && g[8..8 + n] == Swap(p.payload, i, j)
            && FromLe(g[8 + n], g[9 + n]) == Checksum(Body(p))
            && Body(p)[6 + i] == p.payload[i] && Body(p)[6 + j] == p.payload[j]
  {
    hide Swap, Checksum, Frame, Body, FromLe;
    var f, n := Frame(p), |p.payload|;
    FrameFields(p, []);
    assert f + [] == f;
    PayloadInBody(p, i);
    PayloadInBody(p, j);
    SwapInPayload(f, tail, n, i, j);
  }

  lemma PayloadInBody(p: Packet, i: nat)
    requires Encodable(p) && i < |p.payload|
    ensures Body(p)[6 + i] == p.payload[i]
  {
    hide Checksum;
  }

  lemma SwapInPayload(f: bytes, tail: bytes, n: nat, i: nat, j: nat)
    requires |f| == 10 + n && i < j < n
    ensures var g := Swap(f, 8 + i, 8 + j) + tail;
            && (forall k :: 0 <= k < 8 ==> g[k] == f[k]) && g[2..6] == f[2..6]
            && g[8 + n] == f[8 + n] && g[9 + n] == f[9 + n]
            && g[2..8 + n] == Swap(f[2..8 + n], 6 + i, 6 + j)
            && g[8..8 + n] == Swap(f[8..8 + n], i, j)
  {
    hide Swap;
    forall k | 0 <= k < 10 + n && k != 8 + i && k != 8 + j
      ensures (Swap(f, 8 + i, 8 + j) + tail)[k] == f[k]
    {
      SwapElsewhere(f, 8 + i, 8 + j, k);
    }
    SliceOfSwap(f, tail, 2, 6, 8 + i, 8 + j);
    SliceOfSwap(f, tail, 2, 8 + n, 8 + i, 8 + j);
    SliceOfSwap(f, tail, 8, 8 + n, 8 + i, 8 + j);
  }

  lemma SwapElsewhere(s: bytes, i: nat, j: nat, k: nat)
    requires i < j < |s| && k < |s| && k != i && k != j
    ensures Swap(s, i, j)[k] == s[k]
  {
  }

  lemma SliceOfSwap(s: bytes, tail: bytes, lo: nat, hi: nat, i: nat, j: nat)
    requires lo <= hi <= |s| && i < j < |s|
    requires (lo <= i && j < hi) || hi <= i
    ensures (Swap(s, i, j) + tail)[lo..hi] == if hi <= i then s[lo..hi] else Swap(s[lo..hi], i - lo, j - lo)
  {
  }
}
