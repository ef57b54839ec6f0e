/**
 * The outer, encrypted packet of the transport: a 20-byte header
 * (version byte, three reserved 0xff bytes, a big-endian 64-bit route whose
 * lowest bit carries the direction, a big-endian 64-bit counter) followed
 * by the payload.
 */
module Packet {
  import opened Bytes
  import opened Wrappers

  type RoutingKey = u64

  datatype RoutingDirection = Initiator2Responder | Responder2Initiator

  datatype EncryptedPacket = EncryptedPacket(
    version: u8,
    route: RoutingKey,
    direction: RoutingDirection,
    counter: u64,
    payload: seq<u8>)

  /**
   * `Truncated` is the I/O error a short read of the input slice gives;
   * `InvalidVersion` is the decoder's own rejection.
   */
  datatype PacketError = Truncated | InvalidVersion(version: u8)

  const Version: u8 := 0x08
  const Reserved: seq<u8> := [0xff, 0xff, 0xff]
  const HeaderSize: nat := 20

  /** The eight route bytes, with bit 0 of the last one carrying the direction. */
  function RouteBytes(route: RoutingKey, direction: RoutingDirection): (r: seq<u8>)
    ensures |r| == 8
  {
    Pow256Widths();
    var b := BigEndian(route, 8);
    b[..7] + [if direction == Initiator2Responder then ClearLowBit(b[7]) else SetLowBit(b[7])]
  }

  /** The bytes `EncryptedPacket::encode` produces. */
  function PacketBytes(p: EncryptedPacket): (r: seq<u8>)
    ensures |r| == HeaderSize + |p.payload|
    ensures r[HeaderSize..] == p.payload
  {
    Pow256Widths();
    [p.version] + Reserved + RouteBytes(p.route, p.direction) + BigEndian(p.counter, 8) + p.payload
  }

  /** The direction carried by route byte 8 (offset 11 of the packet). */
  function DirectionOf(b: u8): (r: RoutingDirection)
    ensures r == Responder2Initiator <==> b % 2 == 1
  {
    if b % 2 == 0 then Initiator2Responder else Responder2Initiator
  }

  /** What `EncryptedPacket::decode` returns for `buf`. */
  function ParsePacket(buf: seq<u8>): (r: Result<EncryptedPacket, PacketError>)
    ensures r.Ok? <==> |buf| >= HeaderSize && buf[0] == Version && buf[1..4] == Reserved
    ensures |buf| < HeaderSize ==> r == Err(Truncated)
    ensures r.Ok? ==>
      && r.value.version == Version
      && r.value.route % 2 == 0
      && r.value.direction == DirectionOf(buf[11])
      && r.value.payload == buf[HeaderSize..]
  {
    if |buf| < HeaderSize then Err(Truncated)
    else if buf[0] != Version || buf[1..4] != Reserved then Err(InvalidVersion(buf[0]))
    else
      var route := buf[4..12];
      ClearLastBit(route);
      Pow256Widths();
      Ok(EncryptedPacket(
        buf[0],
        FromBigEndian(route[..7] + [ClearLowBit(route[7])]),
        DirectionOf(route[7]),
        FromBigEndian(buf[12..20]),
        buf[HeaderSize..]))
  }

  /** `EncryptedPacket::decode`: reads the header field by field through a slice cursor. */
  method Decode(inbuf: seq<u8>) returns (r: Result<EncryptedPacket, PacketError>)
    ensures r == ParsePacket(inbuf)
  {
    Pow256Widths();
    var cur := inbuf;
    if |cur| < 1 { return Err(Truncated); }
    var version := cur[0];
    cur := cur[1..];
    if |cur| < 3 { return Err(Truncated); }
    var reserved := cur[..3];
    cur := cur[3..];
    assert reserved == inbuf[1..4] && cur == inbuf[4..];
    if |cur| < 8 { return Err(Truncated); }
    var route := new u8[8](i requires 0 <= i < 8 => cur[i]);
    cur := cur[8..];
    assert cur == inbuf[12..];
    var direction := DirectionOf(route[7]);
    route[7] := ClearLowBit(route[7]);
    var routeKey := FromBigEndian(route[..]);
    if |cur| < 8 { return Err(Truncated); }
    assert cur[..8] == inbuf[12..20];
    var counter := FromBigEndian(cur[..8]);
    cur := cur[8..];
    if version != Version || reserved != Reserved {
      return Err(InvalidVersion(version));
    }
    assert route[..] == inbuf[4..11] + [ClearLowBit(inbuf[11])];
    assert inbuf[4..12][..7] == inbuf[4..11];
    assert cur == inbuf[HeaderSize..];
    r := Ok(EncryptedPacket(version, routeKey, direction, counter, cur));
  }

  /** `EncryptedPacket::encode`: appends the fields one by one, setting the direction bit in place. */
  method Encode(p: EncryptedPacket) returns (w: seq<u8>)
    ensures w == PacketBytes(p)
    ensures |w| == HeaderSize + |p.payload|
  {
    Pow256Widths();
    w := [p.version];
    w := w + [0xff, 0xff, 0xff];
    var be := BigEndian(p.route, 8);
    var route := new u8[8](i requires 0 <= i < 8 => be[i]);
    match p.direction {
      case Initiator2Responder => route[7] := ClearLowBit(route[7]);
      case Responder2Initiator => route[7] := SetLowBit(route[7]);
    }
    assert route[..] == RouteBytes(p.route, p.direction);
    w := w + route[..];
    w := w + BigEndian(p.counter, 8);
    w := w + p.payload;
  }

  /** The encoding is always the 20-byte header followed by the payload. */
  lemma {:induction false} PacketBytesLayout(p: EncryptedPacket)
    ensures |PacketBytes(p)| == HeaderSize + |p.payload|
    ensures PacketBytes(p)[0] == p.version
    ensures PacketBytes(p)[1..4] == Reserved
    ensures (PacketBytes(p)[11] % 2 == 1) <==> p.direction == Responder2Initiator
    ensures PacketBytes(p)[HeaderSize..] == p.payload
  {
  }

  /**
   * Decoding an encoded packet of version 8 gives it back, except that the
   * route loses its low bit (that bit is the direction on the wire).
   */
  lemma {:induction false} DecodeEncode(p: EncryptedPacket)
    requires p.version == Version
    ensures ParsePacket(PacketBytes(p)) == Ok(p.(route := p.route - p.route % 2))
  {
    Pow256Widths();
    var buf := PacketBytes(p);
    var be := BigEndian(p.route, 8);
    var rb := RouteBytes(p.route, p.direction);
    assert buf[4..12] == rb;
    assert buf[12..20] == BigEndian(p.counter, 8);
    assert buf[HeaderSize..] == p.payload;
    assert rb[..7] + [ClearLowBit(rb[7])] == be[..7] + [ClearLowBit(be[7])];
    ClearLastBit(be);
    assert be[..|be| - 1] == be[..7];
    FromBigEndianOfBigEndian(p.route, 8);
    FromBigEndianOfBigEndian(p.counter, 8);
  }

  /** The round trip the packet layer relies on: an even route and version 8 survive exactly. */
  lemma {:induction false} DecodeEncodeEvenRoute(p: EncryptedPacket)
    requires p.version == Version && p.route % 2 == 0
    ensures ParsePacket(PacketBytes(p)) == Ok(p)
  {
    DecodeEncode(p);
  }

  /** Every byte string that decodes is exactly the encoding of what it decodes to. */
  lemma {:induction false} EncodeDecode(buf: seq<u8>)
    requires ParsePacket(buf).Ok?
    ensures PacketBytes(ParsePacket(buf).value) == buf
  {
    Pow256Widths();
    var p := ParsePacket(buf).value;
    RouteBytesRestored(buf[4..12]);
    assert RouteBytes(p.route, p.direction) == buf[4..12];
    BigEndianOfFromBigEndian(buf[12..20]);
    assert BigEndian(p.counter, 8) == buf[12..20];
    HeaderSplit(buf);
  }

  /** Re-encoding the route and direction read from eight route bytes gives those bytes back. */
  lemma {:induction false} RouteBytesRestored(rb: seq<u8>)
    requires |rb| == 8
    ensures Pow256(8) == 0x1_0000_0000_0000_0000
    ensures RouteBytes(FromBigEndian(rb[..7] + [ClearLowBit(rb[7])]), DirectionOf(rb[7])) == rb
  {
    Pow256Widths();
    var cleared := rb[..7] + [ClearLowBit(rb[7])];
    BigEndianOfFromBigEndian(cleared);
    assert BigEndian(FromBigEndian(cleared), 8) == cleared;
    assert cleared[..7] == rb[..7];
  }

  /** A buffer is its header fields followed by its payload. */
  lemma {:induction false} HeaderSplit(buf: seq<u8>)
    requires |buf| >= HeaderSize
    ensures buf == [buf[0]] + buf[1..4] + buf[4..12] + buf[12..20] + buf[HeaderSize..]
  {
  }

  /** The unit test `decode_with_payload`: a valid header followed by `f0 0d`. */
  lemma {:induction false} DecodeWithPayloadVector()
    ensures ParsePacket([0x08, 0xff, 0xff, 0xff, 0, 0, 0, 0, 0, 0, 0, 0,
                         0, 0, 0, 0, 0, 0, 0, 0, 0xf0, 0x0d]).Ok?
    ensures ParsePacket([0x08, 0xff, 0xff, 0xff, 0, 0, 0, 0, 0, 0, 0, 0,
                         0, 0, 0, 0, 0, 0, 0, 0, 0xf0, 0x0d]).value.payload == [0xf0, 0x0d]
  {
    var buf: seq<u8> := [0x08, 0xff, 0xff, 0xff, 0, 0, 0, 0, 0, 0, 0, 0,
                         0, 0, 0, 0, 0, 0, 0, 0, 0xf0, 0x0d];
    assert buf[1..4] == Reserved;
    assert buf[HeaderSize..] == [0xf0, 0x0d];
  }

  /** A full header whose version byte or any reserved byte is wrong is refused, carrying the version byte. */
  lemma {:induction false} BadHeaderRejected(buf: seq<u8>)
    requires |buf| >= HeaderSize && (buf[0] != Version || buf[1..4] != Reserved)
    ensures ParsePacket(buf) == Err(InvalidVersion(buf[0]))
  {
  }

  /** The unit test `decode_invalid_packets`: empty, all-zero and all-0x08 inputs are refused. */
  lemma {:induction false} DecodeInvalidVectors()
    ensures ParsePacket([]) == Err(Truncated)
    ensures ParsePacket(seq(128, i => 0)) == Err(InvalidVersion(0))
    ensures ParsePacket(seq(128, i => 0x08)) == Err(InvalidVersion(0x08))
  {
    var zeros: seq<u8> := seq(128, i => 0);
    var eights: seq<u8> := seq(128, i => 0x08);
    assert zeros[0] == 0;
    assert eights[1..4][0] != Reserved[0];
    BadHeaderRejected(zeros);
    BadHeaderRejected(eights);
  }
}
