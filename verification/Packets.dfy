/**
 The load generator's MQTT packets and their wire format. Text is the bytes of a UTF-8 string.
 Flag bytes are written with arithmetic: the bits combined are disjoint, so sums and quotients by
 powers of two stand for the source's shifts and masks.
 */
module Packets {
  import opened Wrappers

  type byte = b: int | 0 <= b < 256
  type u16 = n: int | 0 <= n < 65536
  type u32 = n: int | 0 <= n < 4294967296
  type Bytes = seq<byte>

  datatype Version = V3 | V5

  datatype QoS = AtMostOnce | AtLeastOnce | ExactlyOnce {
    function AsByte(): (b: byte)
      ensures b <= 2
    {
      match this case AtMostOnce => 0 case AtLeastOnce => 1 case ExactlyOnce => 2
    }
  }

  /** Anything unknown becomes QoS 2. */
  function QoSFrom(v: int): QoS { if v == 0 then AtMostOnce else if v == 1 then AtLeastOnce else ExactlyOnce }

  datatype Will = Will(topic: Bytes, payload: Bytes, qos: QoS, retain: bool)

  datatype Connect = Connect(
    clean: bool, keepalive: u16, clientId: Bytes, username: Option<Bytes>, password: Option<Bytes>,
    will: Option<Will>, sessionExpiry: Option<u32>)

  datatype Publish = Publish(topic: Bytes, payload: Bytes, qos: QoS, retain: bool, dup: bool, pid: Option<u16>)

  datatype AckKind = PubAck | PubRec | PubRel | PubComp

  datatype Packet =
    | ConnectPacket(connect: Connect)
    | ConnAck(code: byte, sessionPresent: bool, receiveMax: Option<u16>)
    | PublishPacket(publish: Publish)
    | Ack(kind: AckKind, pid: u16, reason: byte)
    | Subscribe(pid: u16, filters: seq<(Bytes, QoS)>)
    | SubAck(pid: u16, reasons: Bytes)
    | Unsubscribe(pid: u16, names: seq<Bytes>)
    | UnsubAck(pid: u16, reasons: Bytes)
    | PingReq
    | PingResp
    | Disconnect(reason: byte)

  datatype CodecError = PacketTooLarge(size: nat, limit: nat) | InvalidPacketId | Malformed | Incomplete | Unsupported

  // ---------------------------------------------------------------------------------------------
  // Fields
  // ---------------------------------------------------------------------------------------------

  function Bit(b: bool): (n: nat) ensures n <= 1 { if b then 1 else 0 }

  /** Big-endian 16 bits; a longer length is truncated. */
  function PutU16(n: nat): Bytes { [n / 256 % 256, n % 256] }

  function PutU32(n: u32): Bytes { PutU16(n / 65536) + PutU16(n % 65536) }

  function PutString(s: Bytes): (r: Bytes)
    ensures |r| == 2 + |s|
  {
    PutU16(|s|) + s
  }

  /** Variable length integer, seven bits at a time, low bits first (section 1.5.5 of MQTT 5.0). */
  function PutVarInt(n: nat): (r: Bytes)
    ensures |r| >= 1
  {
    if n < 128 then [n] else [128 + n % 128] + PutVarInt(n / 128)
  }

  /** The empty v5 property block. */
  function Props(v: Version): Bytes { if v == V5 then [0] else [] }

  // ---------------------------------------------------------------------------------------------
  // Bodies and frames
  // ---------------------------------------------------------------------------------------------

  const MQTT_NAME: Bytes := [77, 81, 84, 84]

  function Level(v: Version): byte { if v == V3 then 4 else 5 }

  /** A password needs the user name flag, so an absent user name is sent as the empty one. */
  function SentUsername(c: Connect): Option<Bytes> {
    if c.username.None? && c.password.Some? then Some([]) else c.username
  }

  function ConnectFlags(c: Connect): byte {
    2 * Bit(c.clean) + 64 * Bit(c.password.Some?) + 128 * Bit(SentUsername(c).Some?)
    + if c.will.Some? then 4 + 8 * c.will.value.qos.AsByte() + 32 * Bit(c.will.value.retain) else 0
  }

  function ConnectProps(v: Version, c: Connect): Bytes {
    if v == V3 then []
    else if c.sessionExpiry.None? then PutVarInt(0)
    else PutVarInt(5) + [0x11] + PutU32(c.sessionExpiry.value)
  }

  function WillBytes(v: Version, w: Option<Will>): Bytes {
    if w.None? then [] else Props(v) + PutString(w.value.topic) + PutString(w.value.payload)
  }

  function OptString(s: Option<Bytes>): Bytes { if s.None? then [] else PutString(s.value) }

  function ConnectBody(v: Version, c: Connect): Bytes {
    PutString(MQTT_NAME) + [Level(v)] + [ConnectFlags(c)] + PutU16(c.keepalive) + ConnectProps(v, c)
    + PutString(c.clientId) + WillBytes(v, c.will) + OptString(SentUsername(c)) + OptString(c.password)
  }

  function PublishBody(v: Version, p: Publish): Bytes {
    PutString(p.topic) + (if p.pid.Some? then PutU16(p.pid.value) else []) + Props(v) + p.payload
  }

  function AckBody(v: Version, pid: u16, reason: byte): Bytes {
    PutU16(pid) + if v == V5 && reason != 0 then [reason, 0] else []
  }

  function FilterBytes(filters: seq<(Bytes, QoS)>): Bytes {
    if filters == [] then []
    else PutString(filters[0].0) + [filters[0].1.AsByte()] + FilterBytes(filters[1..])
  }

  function NameBytes(names: seq<Bytes>): Bytes {
    if names == [] then [] else PutString(names[0]) + NameBytes(names[1..])
  }

  function PublishHeader(p: Publish): byte {
    0x30 + 8 * Bit(p.dup) + 2 * p.qos.AsByte() + Bit(p.retain)
  }

  function AckHeader(k: AckKind): byte {
    match k case PubAck => 0x40 case PubRec => 0x50 case PubRel => 0x62 case PubComp => 0x70
  }

  /** Fixed header byte and body, or the reason the packet cannot be sent. */
  function EncodeBody(v: Version, pkt: Packet): Result<(byte, Bytes), CodecError> {
    match pkt
    case ConnectPacket(c) => if |c.clientId| > 65535 then Err(Malformed) else Ok((0x10, ConnectBody(v, c)))
    case ConnAck(_, _, _) => Err(Unsupported)
    case PublishPacket(p) =>
      if p.qos != AtMostOnce && p.pid.None? then Err(InvalidPacketId)
      else if p.qos == AtMostOnce && p.pid.Some? then Err(Malformed)
      else if p.pid == Some(0) then Err(InvalidPacketId)
      else Ok((PublishHeader(p), PublishBody(v, p)))
    case Ack(kind, pid, reason) =>
      if pid == 0 then Err(InvalidPacketId) else Ok((AckHeader(kind), AckBody(v, pid, reason)))
    case Subscribe(pid, filters) => Ok((0x82, PutU16(pid) + Props(v) + FilterBytes(filters)))
    case SubAck(pid, reasons) => Ok((0x90, PutU16(pid) + Props(v) + reasons))
    case Unsubscribe(pid, names) => Ok((0xA2, PutU16(pid) + Props(v) + NameBytes(names)))
    case UnsubAck(pid, reasons) => Ok((0xB0, PutU16(pid) + if v == V5 then [0] + reasons else []))
    case PingReq => Ok((0xC0, []))
    case PingResp => Ok((0xD0, []))
    case Disconnect(reason) => Ok((0xE0, if v == V5 && reason != 0 then [reason, 0] else []))
  }

  function Frame(header: byte, body: Bytes): Bytes { [header] + PutVarInt(|body|) + body }

  function Encode(v: Version, pkt: Packet): Result<Bytes, CodecError> {
    match EncodeBody(v, pkt)
    case Err(e) => Err(e)
    case Ok(hb) => Ok(Frame(hb.0, hb.1))
  }

  // ---------------------------------------------------------------------------------------------
  // Which packets survive the wire, and as what
  // ---------------------------------------------------------------------------------------------

  predicate Continuation(b: byte) { 0x80 <= b <= 0xBF }

  /** Well-formed UTF-8 (RFC 3629): no overlong forms, no surrogates, nothing above U+10FFFF. */
  predicate Utf8(s: Bytes) {
    if s == [] then true
    else if s[0] < 0x80 then Utf8(s[1..])
    else if 0xC2 <= s[0] <= 0xDF then |s| >= 2 && Continuation(s[1]) && Utf8(s[2..])
    else if 0xE0 <= s[0] <= 0xEF then
      && |s| >= 3 && Continuation(s[1]) && Continuation(s[2])
      && (s[0] == 0xE0 ==> s[1] >= 0xA0) && (s[0] == 0xED ==> s[1] <= 0x9F)
      && Utf8(s[3..])
    else if 0xF0 <= s[0] <= 0xF4 then
      && |s| >= 4 && Continuation(s[1]) && Continuation(s[2]) && Continuation(s[3])
      && (s[0] == 0xF0 ==> s[1] >= 0x90) && (s[0] == 0xF4 ==> s[1] <= 0x8F)
      && Utf8(s[4..])
    else false
  }

  predicate Short(s: Bytes) { |s| <= 65535 }

  predicate ShortText(s: Bytes) { Short(s) && Utf8(s) }

  predicate Representable(pkt: Packet) {
    match pkt
    case ConnectPacket(c) =>
      && ShortText(c.clientId)
      && (c.username.Some? ==> ShortText(c.username.value))
      && (c.password.Some? ==> Short(c.password.value))
      && (c.will.Some? ==> ShortText(c.will.value.topic) && Short(c.will.value.payload))
    case PublishPacket(p) =>
      ShortText(p.topic) && p.topic != [] && (p.pid.None? <==> p.qos == AtMostOnce) && p.pid != Some(0)
    case Ack(_, pid, _) => pid != 0
    case Subscribe(pid, filters) =>
      pid != 0 && filters != [] && forall i :: 0 <= i < |filters| ==> ShortText(filters[i].0)
    case Unsubscribe(pid, names) => pid != 0 && forall i :: 0 <= i < |names| ==> ShortText(names[i])
    case SubAck(pid, _) => pid != 0
    case UnsubAck(pid, _) => pid != 0
    case ConnAck(_, _, _) => false
    case _ => true
  }

  /** What the receiver sees: v3 carries no reason codes, CONNECT loses its session expiry. */
  function Normalised(v: Version, pkt: Packet): Packet {
    match pkt
    case ConnectPacket(c) => ConnectPacket(c.(username := SentUsername(c), sessionExpiry := None))
    case Ack(kind, pid, reason) => if v == V3 then Ack(kind, pid, 0) else pkt
    case UnsubAck(pid, reasons) => if v == V3 then UnsubAck(pid, []) else pkt
    case Disconnect(reason) => if v == V3 then Disconnect(0) else pkt
    case _ => pkt
  }

  /** Four length bytes carry 28 bits. */
  const MAX_LENGTH := 268435456
}
