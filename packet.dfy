/** Packet definitions and the binary wire codec (rust-core/src/packet.rs).

    Wire layout, all integers big-endian:
      version (1) | type (1) | flags (1) | sequence (4) | timestamp (8) | route length (2)
      | route bytes | payload length (4) | payload bytes
    The fixed part is 21 bytes. The route is kept as its UTF-8 bytes. */
module Packets {
  import opened Constants
  import opened Errors
  import opened ByteOrder
  import opened Utf8

  datatype PacketType = Data | Ack | Nack | Heartbeat | Connect | ConnectAck | Disconnect | Batch

  /** `packet_type as u8`: the discriminant of the variant. */
  function TypeCode(t: PacketType): (b: byte)
    ensures b < 8
  {
    match t
    case Data => 0
    case Ack => 1
    case Nack => 2
    case Heartbeat => 3
    case Connect => 4
    case ConnectAck => 5
    case Disconnect => 6
    case Batch => 7
  }

  /** `PacketType::try_from(u8)`: decodes a discriminant, refusing every byte above 7. */
  function PacketTypeFromByte(b: byte): (r: Result<PacketType>)
    ensures r.Ok? <==> b < 8
    ensures r.Ok? ==> TypeCode(r.value) == b
    ensures r.Err? ==> r.error == InvalidPacket(UnknownPacketType(b))
  {
    if b == 0 then Ok(Data)
    else if b == 1 then Ok(Ack)
    else if b == 2 then Ok(Nack)
    else if b == 3 then Ok(Heartbeat)
    else if b == 4 then Ok(Connect)
    else if b == 5 then Ok(ConnectAck)
    else if b == 6 then Ok(Disconnect)
    else if b == 7 then Ok(Batch)
    else Err(InvalidPacket(UnknownPacketType(b)))
  }

  /** Decoding the discriminant of a variant gives that variant back. */
  lemma TypeCodeRoundTrip(t: PacketType)
    ensures PacketTypeFromByte(TypeCode(t)) == Ok(t)
  {
  }

  datatype PacketFlags = PacketFlags(encrypted: bool, compressed: bool, requiresAck: bool)

  /** `PacketFlags::default()`: no flag set. */
  const NoFlags := PacketFlags(false, false, false)

  /** The flags byte: bit 0 encrypted, bit 1 compressed, bit 2 requires-ack. */
  function FlagsByte(f: PacketFlags): (b: byte)
  {
    (if f.encrypted then 1 else 0) + (if f.compressed then 2 else 0) + (if f.requiresAck then 4 else 0)
  }

  /** `PacketFlags::to_byte`: ORs each set flag's bit into a byte that starts at zero. */
  method ToByte(f: PacketFlags) returns (b: byte)
    ensures b == FlagsByte(f)
  {
    var bits: bv8 := 0;
    if f.encrypted {
      bits := bits | 0x01;
    }
    if f.compressed {
      bits := bits | 0x02;
    }
    if f.requiresAck {
      bits := bits | 0x04;
    }
    b := bits as int;
  }

  /** `PacketFlags::from_byte`: reads bits 0, 1 and 2 (the masks 0b001, 0b010, 0b100). */
  function FlagsFromByte(b: byte): (f: PacketFlags)
    ensures FlagsByte(f) == b % 8
  {
    PacketFlags(b % 2 == 1, b / 2 % 2 == 1, b / 4 % 2 == 1)
  }

  /** The flags byte decodes to the flags it encodes and never uses bits 3-7. */
  lemma FlagsRoundTrip(f: PacketFlags)
    ensures FlagsByte(f) <= 7
    ensures FlagsFromByte(FlagsByte(f)) == f
  {
  }

  /** Decoding ignores bits 3-7, so re-encoding a decoded byte clears them. */
  lemma FlagsIgnoreHighBits(b: byte)
    ensures FlagsFromByte(b) == FlagsFromByte(b % 8)
    ensures FlagsByte(FlagsFromByte(b)) == b % 8
  {
    var q, r := b / 8, b % 8;
    assert b == 8 * q + r;
    assert b / 2 == 4 * q + r / 2;
    assert b / 4 == 2 * q + r / 4;
  }

  datatype Packet = Packet(
    version: byte,
    packetType: PacketType,
    flags: PacketFlags,
    sequence: u32,
    timestamp: u64,
    route: seq<byte>,
    payload: seq<byte>)

  /** `Packet::new_data`; the clock reading is the parameter `now`. */
  function NewData(route: seq<byte>, payload: seq<byte>, sequence: u32, now: u64): (p: Packet)
    ensures p.version == PROTOCOL_VERSION && TypeCode(p.packetType) == 0 && FlagsByte(p.flags) == 4
    ensures p.route == route && p.payload == payload && p.sequence == sequence && p.timestamp == now
    ensures |Serialized(p)| == FIXED_SIZE + |route| + |payload|
  {
    Packet(PROTOCOL_VERSION, Data, NoFlags.(requiresAck := true), sequence, now, route, payload)
  }

  /** `Packet::new_ack`. */
  function NewAck(sequence: u32, now: u64): (p: Packet)
    ensures p.version == PROTOCOL_VERSION && TypeCode(p.packetType) == 1 && FlagsByte(p.flags) == 0
    ensures p.sequence == sequence && p.timestamp == now
    ensures |Serialized(p)| == FIXED_SIZE
  {
    Packet(PROTOCOL_VERSION, Ack, NoFlags, sequence, now, [], [])
  }

  /** `Packet::new_nack`. */
  function NewNack(sequence: u32, now: u64): (p: Packet)
    ensures p.version == PROTOCOL_VERSION && TypeCode(p.packetType) == 2 && FlagsByte(p.flags) == 0
    ensures p.sequence == sequence && p.timestamp == now
    ensures |Serialized(p)| == FIXED_SIZE
  {
    Packet(PROTOCOL_VERSION, Nack, NoFlags, sequence, now, [], [])
  }

  /** `Packet::new_heartbeat`. */
  function NewHeartbeat(now: u64): (p: Packet)
    ensures p.version == PROTOCOL_VERSION && TypeCode(p.packetType) == 3 && FlagsByte(p.flags) == 0
    ensures p.sequence == 0 && p.timestamp == now
    ensures |Serialized(p)| == FIXED_SIZE
  {
    Packet(PROTOCOL_VERSION, Heartbeat, NoFlags, 0, now, [], [])
  }

  /** `Packet::new_connect`. */
  function NewConnect(now: u64): (p: Packet)
    ensures p.version == PROTOCOL_VERSION && TypeCode(p.packetType) == 4 && FlagsByte(p.flags) == 0
    ensures p.sequence == 0 && p.timestamp == now
    ensures |Serialized(p)| == FIXED_SIZE
  {
    Packet(PROTOCOL_VERSION, Connect, NoFlags, 0, now, [], [])
  }

  /** Length of the fixed part: 17 header bytes and the 4-byte payload length. */
  const FIXED_SIZE: int := 21

  /** The bytes `serialize` produces. The route length is cast to u16 and the payload
      length to u32, so both are taken modulo the width; the bytes themselves are copied whole. */
  function Serialized(p: Packet): (s: seq<byte>)
    ensures |s| == FIXED_SIZE + |p.route| + |p.payload|
    ensures s[0] == p.version && s[1] == TypeCode(p.packetType) && s[2] == FlagsByte(p.flags)
  {
    WidthBounds();
    var routeLen := |p.route| % 0x1_0000;
    var payloadLen := |p.payload| % 0x1_0000_0000;
    [p.version, TypeCode(p.packetType), FlagsByte(p.flags)]
      + BigEndian(p.sequence, 4) + BigEndian(p.timestamp, 8)
      + BigEndian(routeLen, 2) + p.route
      + BigEndian(payloadLen, 4) + p.payload
  }

  /** `Packet::serialize`: appends each field to a growing buffer. It never fails. */
  method Serialize(p: Packet) returns (r: Result<seq<byte>>)
    ensures r == Ok(Serialized(p))
  {
    WidthBounds();
    var routeLen := |p.route| % 0x1_0000;
    var payloadLen := |p.payload| % 0x1_0000_0000;
    var buf: seq<byte> := [];
    buf := buf + [p.version];
    buf := buf + [TypeCode(p.packetType)];
    var flags := ToByte(p.flags);
    buf := buf + [flags];
    assert buf == [p.version, TypeCode(p.packetType), FlagsByte(p.flags)];
    buf := buf + BigEndian(p.sequence, 4);
    buf := buf + BigEndian(p.timestamp, 8);
    buf := buf + BigEndian(routeLen, 2);
    buf := buf + p.route;
    buf := buf + BigEndian(payloadLen, 4);
    buf := buf + p.payload;
    r := Ok(buf);
  }

  /** What `deserialize` returns for the bytes `data`, checking in the source's order. */
  function Deserialized(data: seq<byte>): (r: Result<Packet>)
    ensures |data| < 20 ==> r == Err(InvalidPacket(TooSmall))
    ensures r.Ok? ==>
      && FIXED_SIZE + |r.value.route| + |r.value.payload| <= |data|
      && r.value.version == PROTOCOL_VERSION && TypeCode(r.value.packetType) == data[1]
      && r.value.flags == FlagsFromByte(data[2]) && ValidUtf8(r.value.route)
  {
    WidthBounds();
    if |data| < 20 then Err(InvalidPacket(TooSmall))
    else if data[0] != PROTOCOL_VERSION then Err(VersionMismatch(PROTOCOL_VERSION, data[0]))
    else match PacketTypeFromByte(data[1])
      case Err(e) => Err(e)
      case Ok(packetType) =>
        var routeLen := FromBigEndian(data[15..17]);
        if |data| - 17 < routeLen then Err(InvalidPacket(BadRouteLength))
        else
          var route := data[17..17 + routeLen];
          if !ValidUtf8(route) then Err(InvalidPacket(BadRouteUtf8))
          else if |data| - (17 + routeLen) < 4 then Err(InvalidPacket(BadPayloadLength))
          else
            var at := 17 + routeLen + 4;
            var payloadLen := FromBigEndian(data[at - 4..at]);
            if |data| - at < payloadLen then Err(InvalidPacket(BadPayloadData))
            else Ok(Packet(data[0], packetType, FlagsFromByte(data[2]),
                           FromBigEndian(data[3..7]), FromBigEndian(data[7..15]),
                           route, data[at..at + payloadLen]))
  }

  /** `Packet::deserialize`: consumes the input through a cursor, as `get_u8`, `get_u32`,
      `get_u64`, `get_u16` and `copy_to_bytes` do; `|data| - cursor` is `remaining()`. */
  method Deserialize(data: seq<byte>) returns (r: Result<Packet>)
    ensures r == Deserialized(data)
  {
    WidthBounds();
    var cursor := 0;
    if |data| - cursor < 20 {
      return Err(InvalidPacket(TooSmall));
    }
    var version := data[cursor];
    cursor := cursor + 1;
    if version != PROTOCOL_VERSION {
      return Err(VersionMismatch(PROTOCOL_VERSION, version));
    }
    var decoded := PacketTypeFromByte(data[cursor]);
    cursor := cursor + 1;
    if decoded.Err? {
      return Err(decoded.error);
    }
    var flags := FlagsFromByte(data[cursor]);
    cursor := cursor + 1;
    var sequence := FromBigEndian(data[cursor..cursor + 4]);
    cursor := cursor + 4;
    var timestamp := FromBigEndian(data[cursor..cursor + 8]);
    cursor := cursor + 8;
    var routeLen := FromBigEndian(data[cursor..cursor + 2]);
    cursor := cursor + 2;
    if |data| - cursor < routeLen {
      return Err(InvalidPacket(BadRouteLength));
    }
    var route := data[cursor..cursor + routeLen];
    cursor := cursor + routeLen;
    if !ValidUtf8(route) {
      return Err(InvalidPacket(BadRouteUtf8));
    }
    if |data| - cursor < 4 {
      return Err(InvalidPacket(BadPayloadLength));
    }
    var payloadLen := FromBigEndian(data[cursor..cursor + 4]);
    cursor := cursor + 4;
    if |data| - cursor < payloadLen {
      return Err(InvalidPacket(BadPayloadData));
    }
    var payload := data[cursor..cursor + payloadLen];
    r := Ok(Packet(version, decoded.value, flags, sequence, timestamp, route, payload));
  }

  /** `serialize` writes 21 + |route| + |payload| bytes: version, type, flags, the sequence
      and timestamp, the route length (mod 2^16) and route, the payload length (mod 2^32)
      and payload, in that order. */
  lemma SerializedLayout(p: Packet)
    ensures var s, r := Serialized(p), |p.route|;
      && |s| == FIXED_SIZE + r + |p.payload|
      && s[0] == p.version && s[1] == TypeCode(p.packetType) && s[2] == FlagsByte(p.flags)
      && FromBigEndian(s[3..7]) == p.sequence
      && FromBigEndian(s[7..15]) == p.timestamp
      && FromBigEndian(s[15..17]) == r % 0x1_0000
      && s[17..17 + r] == p.route
      && FromBigEndian(s[17 + r..21 + r]) == |p.payload| % 0x1_0000_0000
      && s[21 + r..] == p.payload
  {
    WidthBounds();
    var s, r := Serialized(p), |p.route|;
    var routeLen := r % 0x1_0000;
    var payloadLen := |p.payload| % 0x1_0000_0000;
    assert s[3..7] == BigEndian(p.sequence, 4);
    assert s[7..15] == BigEndian(p.timestamp, 8);
    assert s[15..17] == BigEndian(routeLen, 2);
    assert s[17..17 + r] == p.route;
    assert s[17 + r..21 + r] == BigEndian(payloadLen, 4);
    assert s[21 + r..] == p.payload;
    FromBigEndianOfBigEndian(p.sequence, 4);
    FromBigEndianOfBigEndian(p.timestamp, 8);
    FromBigEndianOfBigEndian(routeLen, 2);
    FromBigEndianOfBigEndian(payloadLen, 4);
  }

  /** The bytes that `deserialize` accepts, and the packet it reads from them. */
  lemma {:induction false} AcceptedWhenWellFormed(data: seq<byte>, routeLen: nat, payloadLen: nat)
    requires 21 + routeLen + payloadLen <= |data|
    requires data[0] == PROTOCOL_VERSION && data[1] < 8
    requires FromBigEndian(data[15..17]) == routeLen
    requires ValidUtf8(data[17..17 + routeLen])
    requires FromBigEndian(data[17 + routeLen..21 + routeLen]) == payloadLen
    ensures Deserialized(data) == Ok(Packet(data[0], PacketTypeFromByte(data[1]).value, FlagsFromByte(data[2]),
      FromBigEndian(data[3..7]), FromBigEndian(data[7..15]),
      data[17..17 + routeLen], data[21 + routeLen..21 + routeLen + payloadLen]))
  {
  }

  /** Round trip: a packet of the current version whose route fits the u16 length field
      and is well-formed UTF-8 (as every Rust `String` is) and whose payload fits the u32
      length field is read back unchanged, whatever bytes follow it. */
  lemma RoundTrip(p: Packet, extra: seq<byte>)
    requires p.version == PROTOCOL_VERSION
    requires |p.route| < 0x1_0000 && |p.payload| < 0x1_0000_0000
    requires ValidUtf8(p.route)
    ensures Deserialized(Serialized(p) + extra) == Ok(p)
  {
    var s, r := Serialized(p) + extra, |p.route|;
    SerializedFields(p, extra);
    AcceptedWhenWellFormed(s, r, |p.payload|);
  }

  /** The fields `deserialize` reads from a serialized packet, whatever follows it, are
      the packet's own. */
  lemma SerializedFields(p: Packet, extra: seq<byte>)
    requires |p.route| < 0x1_0000 && |p.payload| < 0x1_0000_0000
    ensures var s, r := Serialized(p) + extra, |p.route|;
      && 21 + r + |p.payload| <= |s|
      && s[0] == p.version && s[1] < 8
      && FromBigEndian(s[15..17]) == r
      && FromBigEndian(s[17 + r..21 + r]) == |p.payload|
      && p == Packet(s[0], PacketTypeFromByte(s[1]).value, FlagsFromByte(s[2]),
                     FromBigEndian(s[3..7]), FromBigEndian(s[7..15]),
                     s[17..17 + r], s[21 + r..21 + r + |p.payload|])
  {
    var t, r := Serialized(p), |p.route|;
    SerializedLayout(p);
    FlagsRoundTrip(p.flags);
    TypeCodeRoundTrip(p.packetType);
    PrefixSlice(t, extra, 3, 7);
    PrefixSlice(t, extra, 7, 15);
    PrefixSlice(t, extra, 15, 17);
    PrefixSlice(t, extra, 17, 17 + r);
    PrefixSlice(t, extra, 17 + r, 21 + r);
    PrefixSlice(t, extra, 21 + r, |t|);
  }

  lemma PrefixSlice(t: seq<byte>, extra: seq<byte>, i: nat, j: nat)
    requires i <= j <= |t|
    ensures (t + extra)[i..j] == t[i..j]
  {
  }

  /** The fields of an accepted packet, at the offsets the layout gives them. */
  lemma AcceptedFields(data: seq<byte>)
    requires Deserialized(data).Ok?
    ensures var p := Deserialized(data).value;
      var routeLen := FromBigEndian(data[15..17]);
      && 21 + routeLen <= |data|
      && var payloadLen := FromBigEndian(data[17 + routeLen..21 + routeLen]);
      && 21 + routeLen + payloadLen <= |data|
      && data[0] == PROTOCOL_VERSION && data[1] < 8
      && p == Packet(data[0], PacketTypeFromByte(data[1]).value, FlagsFromByte(data[2]),
                     FromBigEndian(data[3..7]), FromBigEndian(data[7..15]),
                     data[17..17 + routeLen], data[21 + routeLen..21 + routeLen + payloadLen])
      && ValidUtf8(p.route)
  {
  }

  /** The converse of the round trip: whatever `deserialize` accepts is a serialized packet
      followed by ignored bytes, up to bits 3-7 of the flags byte, which it drops. */
  lemma ReserializeAccepted(data: seq<byte>)
    requires Deserialized(data).Ok?
    ensures var p := Deserialized(data).value; var n := FIXED_SIZE + |p.route| + |p.payload|;
      && n <= |data|
      && |p.route| < 0x1_0000 && |p.payload| < 0x1_0000_0000
      && p.version == PROTOCOL_VERSION && ValidUtf8(p.route)
      && Serialized(p) == data[..2] + [data[2] % 8] + data[3..n]
  {
    WidthBounds();
    AcceptedFields(data);
    var p := Deserialized(data).value;
    var r := |p.route|;
    var n := FIXED_SIZE + r + |p.payload|;
    assert r == FromBigEndian(data[15..17]);
    assert |p.payload| == FromBigEndian(data[17 + r..21 + r]);
    ReserializeFields(data, p);
  }

  lemma ReserializeFields(data: seq<byte>, p: Packet)
    requires 21 + |p.route| + |p.payload| <= |data|
    requires |p.route| == FromBigEndian(data[15..17])
    requires |p.payload| == FromBigEndian(data[17 + |p.route|..21 + |p.route|])
    requires data[1] < 8 && p.packetType == PacketTypeFromByte(data[1]).value
    requires p == Packet(data[0], p.packetType, FlagsFromByte(data[2]),
                     FromBigEndian(data[3..7]), FromBigEndian(data[7..15]),
                     data[17..17 + |p.route|], data[21 + |p.route|..21 + |p.route| + |p.payload|])
    ensures |p.route| < 0x1_0000 && |p.payload| < 0x1_0000_0000
    ensures Serialized(p) == data[..2] + [data[2] % 8] + data[3..21 + |p.route| + |p.payload|]
  {
    WidthBounds();
    var r := |p.route|;
    var n := FIXED_SIZE + r + |p.payload|;
    ReserializeHeader(data, p);
    ReserializeNumbers(data, p);
    var h := data[..2] + [data[2] % 8];
    var a, b, c, d, e, f := data[3..7], data[7..15], data[15..17], data[17..17 + r], data[17 + r..21 + r], data[21 + r..n];
    calc {
      Serialized(p);
      h + a + b + c + d + e + f;
      { ConcatAssoc(h, a, b, c, d, e, f); }
      h + (a + b + c + d + e + f);
      { SliceSplit(data, r, n); }
      h + data[3..n];
    }
  }

  lemma ConcatAssoc(h: seq<byte>, a: seq<byte>, b: seq<byte>, c: seq<byte>, d: seq<byte>, e: seq<byte>, f: seq<byte>)
    ensures h + a + b + c + d + e + f == h + (a + b + c + d + e + f)
  {
  }

  lemma SliceSplit(data: seq<byte>, r: nat, n: nat)
    requires 21 + r <= n <= |data|
    ensures data[3..n] == data[3..7] + data[7..15] + data[15..17] + data[17..17 + r]
      + data[17 + r..21 + r] + data[21 + r..n]
  {
  }

  lemma ReserializeHeader(data: seq<byte>, p: Packet)
    requires 3 <= |data| && data[1] < 8 && p.packetType == PacketTypeFromByte(data[1]).value
    requires p.version == data[0] && p.flags == FlagsFromByte(data[2])
    ensures [p.version, TypeCode(p.packetType), FlagsByte(p.flags)] == data[..2] + [data[2] % 8]
  {
    FlagsIgnoreHighBits(data[2]);
    TypeCodeRoundTrip(p.packetType);
  }

  lemma ReserializeNumbers(data: seq<byte>, p: Packet)
    requires 21 + |p.route| <= |data|
    requires |p.route| == FromBigEndian(data[15..17])
    requires |p.payload| == FromBigEndian(data[17 + |p.route|..21 + |p.route|])
    requires p.sequence == FromBigEndian(data[3..7]) && p.timestamp == FromBigEndian(data[7..15])
    ensures |p.route| < 0x1_0000 && |p.payload| < 0x1_0000_0000
    ensures BigEndian(p.sequence, 4) == data[3..7] && BigEndian(p.timestamp, 8) == data[7..15]
    ensures BigEndian(|p.route| % 0x1_0000, 2) == data[15..17]
    ensures BigEndian(|p.payload| % 0x1_0000_0000, 4) == data[17 + |p.route|..21 + |p.route|]
  {
    WidthBounds();
    BigEndianOfFromBigEndian(data[3..7]);
    BigEndianOfFromBigEndian(data[7..15]);
    BigEndianOfFromBigEndian(data[15..17]);
    BigEndianOfFromBigEndian(data[17 + |p.route|..21 + |p.route|]);
  }

  /** Each refusal of `deserialize`, checked in order: fewer than 20 bytes, a foreign
      version, an unknown type, a route length past the end, a route that is not UTF-8,
      fewer than 4 bytes for the payload length, a payload length past the end. */
  lemma DeserializeRejects(data: seq<byte>)
    ensures |data| < 20 ==> Deserialized(data) == Err(InvalidPacket(TooSmall))
    ensures |data| >= 20 && data[0] != PROTOCOL_VERSION ==>
      Deserialized(data) == Err(VersionMismatch(PROTOCOL_VERSION, data[0]))
    ensures |data| >= 20 && data[0] == PROTOCOL_VERSION && data[1] >= 8 ==>
      Deserialized(data) == Err(InvalidPacket(UnknownPacketType(data[1])))
    ensures |data| >= 20 && data[0] == PROTOCOL_VERSION && data[1] < 8 ==>
      var routeLen := FromBigEndian(data[15..17]);
      && (|data| < 17 + routeLen ==> Deserialized(data) == Err(InvalidPacket(BadRouteLength)))
      && (17 + routeLen <= |data| && !ValidUtf8(data[17..17 + routeLen]) ==>
            Deserialized(data) == Err(InvalidPacket(BadRouteUtf8)))
      && (17 + routeLen <= |data| < 21 + routeLen && ValidUtf8(data[17..17 + routeLen]) ==>
            Deserialized(data) == Err(InvalidPacket(BadPayloadLength)))
      && (21 + routeLen <= |data| && ValidUtf8(data[17..17 + routeLen])
          && |data| < 21 + routeLen + FromBigEndian(data[17 + routeLen..21 + routeLen]) ==>
            Deserialized(data) == Err(InvalidPacket(BadPayloadData)))
    ensures Deserialized(data).Ok? ==> |data| >= FIXED_SIZE
  {
  }

  /** A packet that serializes to a bare 21-byte header with a zero flags byte and reads
      back unchanged. */
  ghost predicate IsBareHeader(p: Packet)
  {
    |Serialized(p)| == FIXED_SIZE && Serialized(p)[2] == 0 && Deserialized(Serialized(p)) == Ok(p)
  }

  lemma {:induction false} BareHeader(p: Packet)
    requires p.version == PROTOCOL_VERSION && p.flags == NoFlags && p.route == [] && p.payload == []
    ensures IsBareHeader(p)
    ensures FromBigEndian(Serialized(p)[3..7]) == p.sequence
  {
    SerializedLayout(p);
    AsciiIsValid([]);
    RoundTrip(p, []);
    assert Serialized(p) + [] == Serialized(p);
  }

  /** ACK and NACK echo the given sequence, heartbeat and connect carry sequence 0; all
      four are bare headers. */
  lemma ControlPacketsAreBareHeaders(sequence: u32, now: u64)
    ensures IsBareHeader(NewAck(sequence, now)) && IsBareHeader(NewNack(sequence, now))
    ensures IsBareHeader(NewHeartbeat(now)) && IsBareHeader(NewConnect(now))
    ensures FromBigEndian(Serialized(NewAck(sequence, now))[3..7]) == sequence
    ensures FromBigEndian(Serialized(NewNack(sequence, now))[3..7]) == sequence
    ensures FromBigEndian(Serialized(NewHeartbeat(now))[3..7]) == 0
    ensures FromBigEndian(Serialized(NewConnect(now))[3..7]) == 0
  {
    BareHeader(NewAck(sequence, now));
    BareHeader(NewNack(sequence, now));
    BareHeader(NewHeartbeat(now));
    BareHeader(NewConnect(now));
  }

  /** A data packet asks for an ACK and for nothing else (flags byte 4), and reads back
      unchanged when its route and payload fit their length fields. */
  lemma DataPacketRoundTrip(route: seq<byte>, payload: seq<byte>, sequence: u32, now: u64)
    requires |route| < 0x1_0000 && |payload| < 0x1_0000_0000 && ValidUtf8(route)
    ensures var s := Serialized(NewData(route, payload, sequence, now));
      && |s| == FIXED_SIZE + |route| + |payload|
      && s[2] == 4
      && Deserialized(s) == Ok(NewData(route, payload, sequence, now))
  {
    var p := NewData(route, payload, sequence, now);
    SerializedLayout(p);
    RoundTrip(p, []);
    assert Serialized(p) + [] == Serialized(p);
  }
}
