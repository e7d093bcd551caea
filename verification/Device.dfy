/** The device as an object: a decoding loop over its inbound buffer, and one handler. */
module DeviceClass {
  import opened Prelude
  import opened Codec
  import opened Scanner
  import opened Text
  import D = DeviceSpec

  class FakeDevice {
    var inbound: bytes
    var reply: bytes
    const initialSync: byte
    const maxBlockSize: u16
    const protocolVersion: bytes
    const compression: D.CompressionSpec
    var behaviour: D.Behaviour
    var lastOpenFilename: Option<bytes>
    var lastOpenDummy: Option<bool>
    var lastOpenCompressionByte: Option<byte>
    var writtenBytes: bytes
    var aborted: bool
    var closed: bool
    var controlClosed: bool

    ghost function Device(): D.Device
      reads this
    {
      D.Device(initialSync, maxBlockSize, protocolVersion, compression, behaviour, lastOpenFilename,
               lastOpenDummy, lastOpenCompressionByte, writtenBytes, aborted, closed, controlClosed, reply)
    }

    ghost function Peer(): D.Peer
      reads this
    {
      D.Peer(Device(), inbound)
    }

    constructor (maxBlockSize: u16, protocolVersion: bytes, initialSync: byte,
                 compression: D.CompressionSpec, behaviour: D.Behaviour)
      ensures Peer() == D.Peer(D.Device(initialSync, maxBlockSize, protocolVersion, compression, behaviour,
                                        None, None, None, [], false, false, false, []), [])
    {
      inbound, reply, writtenBytes := [], [], [];
      this.initialSync, this.maxBlockSize, this.protocolVersion := initialSync, maxBlockSize, protocolVersion;
      this.compression, this.behaviour := compression, behaviour;
      lastOpenFilename, lastOpenDummy, lastOpenCompressionByte := None, None, None;
      aborted, closed, controlClosed := false, false, false;
    }

    /** Decodes and handles frames; a rejected header costs one byte; Incomplete waits. */
    method Feed(chunk: bytes)
      modifies this
      ensures Peer() == D.Feed(old(Peer()), chunk)
    {
      hide Decode, D.Handle;
      inbound := inbound + chunk;
      ghost var whole := inbound;
      while true
        invariant D.HandleAll(Device(), Scan(inbound).packets)
               == D.HandleAll(old(Device()), Scan(whole).packets)
        invariant Scan(inbound).rest == Scan(whole).rest
        decreases |inbound|
      {
        var r := Decode(inbound);
        match r {
          case Success((packet, consumed)) =>
            inbound := inbound[consumed..];
            Handle(packet);
          case Failure(Incomplete(_, _)) =>
            break;
          case Failure(_) =>
            if inbound == [] {
              break;
            }
            inbound := inbound[1..];
        }
      }
    }

    method DrainReply() returns (taken: bytes)
      modifies this
      ensures taken == old(reply) && Peer() == old(Peer()).(device := old(Device()).(reply := []))
    {
      taken := reply;
      reply := [];
    }

    method WriteLine(line: bytes)
      modifies this
      ensures Device() == D.WriteLine(old(Device()), line) && inbound == old(inbound)
    {
      reply := reply + line;
      reply := reply + [LF];
    }

    method Handle(p: Packet)
      modifies this
      ensures Device() == D.Handle(old(Device()), p) && inbound == old(inbound)
    {
      hide D.WriteLine, D.OkText, D.SyncText, D.VersionText, D.ResendText, D.OpenReply, D.OpenFields, D.TerminalReply;
      if behaviour.resendOnceForSync == Some(p.sync) {
        behaviour := behaviour.(resendOnceForSync := None);
        WriteLine(D.ResendText(p.sync));
        return;
      }
      match (p.protocol, p.packetType) {
        case (0, 1) =>
          WriteLine(D.SyncText(initialSync, maxBlockSize, protocolVersion));
        case (0, 2) =>
          controlClosed := true;
          WriteLine(D.OkText(p.sync));
        case (1, 0) =>
          WriteLine(D.VersionText(protocolVersion, compression));
          WriteLine(D.OkText(p.sync));
        case (1, 1) =>
          HandleOpen(p.payload);
          WriteLine(D.OkText(p.sync));
        case (1, 2) =>
          closed := true;
          HandleTerminal();
          WriteLine(D.OkText(p.sync));
        case (1, 3) =>
          writtenBytes := writtenBytes + p.payload;
          WriteLine(D.OkText(p.sync));
        case (1, 4) =>
          aborted := true;
          HandleTerminal();
          WriteLine(D.OkText(p.sync));
        case _ =>
          WriteLine(D.OkText(p.sync));
      }
    }

    method HandleOpen(payload: bytes)
      modifies this
      ensures Device() == D.OpenReply(D.OpenFields(old(Device()), payload)) && inbound == old(inbound)
    {
      hide D.WriteLine;
      if |payload| >= 3 {
        lastOpenDummy := Some(payload[0] != 0);
        lastOpenCompressionByte := Some(payload[1]);
        var name := payload[2..];
        lastOpenFilename := Some(name[..IndexOf(name, 0)]);
      }
      if behaviour.busyOnNextOpen {
        behaviour := behaviour.(busyOnNextOpen := false);
        WriteLine(D.BUSY_TEXT);
      } else if behaviour.failOnNextOpen {
        behaviour := behaviour.(failOnNextOpen := false);
        WriteLine(D.FAIL_TEXT);
      } else {
        WriteLine(D.SUCCESS_TEXT);
      }
    }

    method HandleTerminal()
      modifies this
      ensures Device() == D.TerminalReply(old(Device())) && inbound == old(inbound)
    {
      if !behaviour.skipPftOnTerminal {
        WriteLine(D.SUCCESS_TEXT);
      }
    }
  }
}
