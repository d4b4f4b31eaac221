/**
 The bytes of every packet, position by position, as chapters 2 and 3 of MQTT 3.1.1 and 5.0 lay them
 out. Reading back what was written cannot show this: a decoder that ignores a byte accepts any.
 */
module PacketLayout {
  import opened Wrappers
  import opened Sequences
  import opened Packets

  /** Two bytes, most significant first. */
  predicate BigEndian(b: Bytes, at: nat, n: nat) {
    at + 1 < |b| && b[at] as int * 256 + b[at + 1] as int == n
  }

  function Number(q: QoS): nat { match q case AtMostOnce => 0 case AtLeastOnce => 1 case ExactlyOnce => 2 }

  lemma U16Bytes(n: nat)
    requires n < 65536
    ensures |PutU16(n)| == 2 && PutU16(n)[0] as int * 256 + PutU16(n)[1] as int == n
  {
  }

  // ---------------------------------------------------------------------------------------------
  // CONNECT
  // ---------------------------------------------------------------------------------------------

  /** Where the client id begins. */
  function ConnectHead(v: Version, c: Connect): nat {
    if v == V3 then 10 else if c.sessionExpiry.None? then 11 else 16
  }

  predicate FlagBits(f: int, c: Connect) {
    && f % 2 == 0
    && (f / 2 % 2 == 1 <==> c.clean)
    && (f / 4 % 2 == 1 <==> c.will.Some?)
    && f / 8 % 4 == (if c.will.Some? then Number(c.will.value.qos) else 0)
    && (f / 32 % 2 == 1 <==> c.will.Some? && c.will.value.retain)
    && (f / 64 % 2 == 1 <==> c.password.Some?)
    && (f / 128 % 2 == 1 <==> c.username.Some? || c.password.Some?)
  }

  lemma FlagBitsOf(f: int, clean: int, will: int, q: int, r: int, b: int, u: int)
    requires 0 <= clean <= 1 && 0 <= will <= 1 && 0 <= q < 4 && 0 <= r <= 1 && 0 <= b <= 1 && 0 <= u <= 1
    requires f == 2 * (clean + 2 * (will + 2 * (q + 4 * (r + 2 * (b + 2 * u)))))
    ensures f % 2 == 0 && f / 2 % 2 == clean && f / 4 % 2 == will
    ensures f / 8 % 4 == q && f / 32 % 2 == r && f / 64 % 2 == b && f / 128 % 2 == u
  {
    assert f / 2 == clean + 2 * (will + 2 * (q + 4 * (r + 2 * (b + 2 * u))));
    assert f / 4 == will + 2 * (q + 4 * (r + 2 * (b + 2 * u)));
    assert f / 8 == q + 4 * (r + 2 * (b + 2 * u));
    assert f / 32 == r + 2 * (b + 2 * u);
    assert f / 64 == b + 2 * u;
    assert f / 128 == u;
  }

  lemma ConnectFlagBits(c: Connect)
    ensures FlagBits(ConnectFlags(c), c)
  {
    var b, u := if c.password.Some? then 1 else 0, if c.username.Some? || c.password.Some? then 1 else 0;
    var clean := if c.clean then 1 else 0;
    if c.will.Some? {
      var w := c.will.value;
      FlagBitsOf(ConnectFlags(c), clean, 1, Number(w.qos), if w.retain then 1 else 0, b, u);
    } else {
      FlagBitsOf(ConnectFlags(c), clean, 0, 0, 0, b, u);
    }
  }

  /** The property block: absent, empty, or the session expiry alone with its four bytes. */
  predicate ConnectBlock(v: Version, c: Connect, b: Bytes) {
    match (v, c.sessionExpiry)
    case (V3, _) => true
    case (V5, None) => |b| > 10 && b[10] == 0
    case (V5, Some(n)) =>
      && |b| > 15 && b[10] == 5 && b[11] == 0x11
      && b[12] as int * 16777216 + b[13] as int * 65536 + b[14] as int * 256 + b[15] as int == n
  }

  lemma U32Bytes(n: u32)
    ensures |PutU32(n)| == 4
    ensures var p := PutU32(n); p[0] as int * 16777216 + p[1] as int * 65536 + p[2] as int * 256 + p[3] as int == n
  {
    U16Bytes(n / 65536);
    U16Bytes(n % 65536);
  }

  function HeadBytes(v: Version, c: Connect): Bytes {
    PutString(MQTT_NAME) + [Level(v)] + [ConnectFlags(c)] + PutU16(c.keepalive)
  }

  lemma HeadLayout(v: Version, c: Connect)
    ensures var h := HeadBytes(v, c);
      && |h| == 10 && h[..7] == [0, 4, 77, 81, 84, 84, if v == V3 then 4 else 5]
      && h[7] == ConnectFlags(c) && BigEndian(h, 8, c.keepalive)
  {
    hide ConnectFlags;
    U16Bytes(c.keepalive);
    var h := HeadBytes(v, c);
    assert h[..7] == [0, 4, 77, 81, 84, 84, if v == V3 then 4 else 5];
  }

  lemma ThreeParts(b: Bytes, head: Bytes, props: Bytes, tail: Bytes)
    requires b == head + (props + tail) && |head| == 10
    ensures b[..7] == head[..7] && b[7] == head[7] && b[8] == head[8] && b[9] == head[9]
    ensures forall i :: 0 <= i < |props| ==> b[10 + i] == props[i]
    ensures b[10 + |props|..] == tail
  {
  }

  /** Section 3.1.2: protocol name, level, flags and keepalive in the first ten bytes, then the properties. */
  lemma ConnectLayout(v: Version, c: Connect)
    ensures var b := ConnectBody(v, c);
      && |b| >= ConnectHead(v, c)
      && b[..7] == [0, 4, 77, 81, 84, 84, if v == V3 then 4 else 5]
      && FlagBits(b[7], c) && BigEndian(b, 8, c.keepalive) && ConnectBlock(v, c, b)
      && b[ConnectHead(v, c)..] == ConnectPayload(v, c)
  {
    hide ConnectBody; hide ConnectFlags; hide WillBytes; hide OptString; hide SentUsername; hide FlagBits;
    hide ConnectPayload; hide HeadBytes; hide ConnectProps; hide PutString;
    var tail := PutString(c.clientId) + WillBytes(v, c.will) + OptString(SentUsername(c)) + OptString(c.password);
    HeadLayout(v, c);
    ConnectParts(v, c);
    ThreeParts(ConnectBody(v, c), HeadBytes(v, c), ConnectProps(v, c), tail);
    PayloadLayout(v, c);
    ConnectFlagBits(c);
    ConnectPropBytes(v, c);
  }

  /** Section 3.1.3: client id, will, user name, password, in this order; a password implies a user name. */
  function ConnectPayload(v: Version, c: Connect): Bytes {
    Text(c.clientId)
    + (if c.will.None? then [] else Block(v) + Text(c.will.value.topic) + Text(c.will.value.payload))
    + (if c.username.Some? then Text(c.username.value) else if c.password.Some? then [0, 0] else [])
    + (if c.password.Some? then Text(c.password.value) else [])
  }

  lemma PayloadLayout(v: Version, c: Connect)
    ensures PutString(c.clientId) + WillBytes(v, c.will) + OptString(SentUsername(c)) + OptString(c.password) ==
      ConnectPayload(v, c)
  {
    assert PutString([]) == [0, 0];
  }

  lemma ConnectParts(v: Version, c: Connect)
    ensures ConnectBody(v, c) ==
      HeadBytes(v, c)
      + (ConnectProps(v, c)
         + (PutString(c.clientId) + WillBytes(v, c.will) + OptString(SentUsername(c)) + OptString(c.password)))
  {
    hide ConnectFlags; hide WillBytes; hide OptString; hide SentUsername; hide PutString; hide ConnectProps;
    hide PutU16;
    var h := HeadBytes(v, c);
    var p, i, w := ConnectProps(v, c), PutString(c.clientId), WillBytes(v, c.will);
    var u, k := OptString(SentUsername(c)), OptString(c.password);
    Associative(p, i, w);
    Associative(p, i + w, u);
    Associative(p, i + w + u, k);
    Associative(h, p, i);
    Associative(h, p + i, w);
    Associative(h, p + i + w, u);
    Associative(h, p + i + w + u, k);
  }

  lemma ConnectPropBytes(v: Version, c: Connect)
    ensures var p := ConnectProps(v, c);
      match (v, c.sessionExpiry)
      case (V3, _) => p == []
      case (V5, None) => p == [0]
      case (V5, Some(n)) =>
        && |p| == 6 && p[0] == 5 && p[1] == 0x11 && p[2..] == PutU32(n)
        && p[2] as int * 16777216 + p[3] as int * 65536 + p[4] as int * 256 + p[5] as int == n
  {
    assert PutVarInt(0) == [0] && PutVarInt(5) == [5];
    if v == V5 && c.sessionExpiry.Some? {
      U32Bytes(c.sessionExpiry.value);
      var p, four := ConnectProps(v, c), PutU32(c.sessionExpiry.value);
      assert p == [5, 0x11] + four;
      assert p[2] == four[0] && p[3] == four[1] && p[4] == four[2] && p[5] == four[3];
    }
  }

  // ---------------------------------------------------------------------------------------------
  // The other packets
  // ---------------------------------------------------------------------------------------------

  /** Section 2.2: type and reserved bits of the first byte of every packet. */
  predicate HeaderOf(pkt: Packet, h: int) {
    match pkt
    case ConnectPacket(_) => h == 0x10
    case PublishPacket(p) =>
      && h / 16 == 3 && (h / 8 % 2 == 1 <==> p.dup) && h / 2 % 4 == Number(p.qos) && (h % 2 == 1 <==> p.retain)
    case Ack(PubAck, _, _) => h == 0x40
    case Ack(PubRec, _, _) => h == 0x50
    case Ack(PubRel, _, _) => h == 0x62
    case Ack(PubComp, _, _) => h == 0x70
    case Subscribe(_, _) => h == 0x82
    case SubAck(_, _) => h == 0x90
    case Unsubscribe(_, _) => h == 0xA2
    case UnsubAck(_, _) => h == 0xB0
    case PingReq => h == 0xC0
    case PingResp => h == 0xD0
    case Disconnect(_) => h == 0xE0
    case ConnAck(_, _, _) => false
  }

  function Two(n: nat): Bytes { [n / 256 % 256, n % 256] }

  function Block(v: Version): Bytes { if v == V3 then [] else [0] }

  function Text(s: Bytes): Bytes { Two(|s|) + s }

  function FilterField(f: (Bytes, QoS)): Bytes { Text(f.0) + [Number(f.1)] }

  /** The body of every packet but CONNECT, written out. */
  function BodyOf(v: Version, pkt: Packet): Bytes {
    match pkt
    case PublishPacket(p) =>
      Text(p.topic) + (if p.qos == AtMostOnce || p.pid.None? then [] else Two(p.pid.value)) + Block(v) + p.payload
    case Ack(_, pid, reason) => Two(pid) + if v == V3 || reason == 0 then [] else [reason, 0]
    case Subscribe(pid, filters) => Two(pid) + Block(v) + FlatMap(FilterField, filters)
    case SubAck(pid, reasons) => Two(pid) + Block(v) + reasons
    case Unsubscribe(pid, names) => Two(pid) + Block(v) + FlatMap(Text, names)
    case UnsubAck(pid, reasons) => if v == V3 then Two(pid) else Two(pid) + [0] + reasons
    case Disconnect(reason) => if v == V3 || reason == 0 then [] else [reason, 0]
    case _ => []
  }

  lemma {:induction false} FilterLayout(filters: seq<(Bytes, QoS)>)
    ensures FilterBytes(filters) == FlatMap(FilterField, filters)
    decreases |filters|
  {
    if filters != [] {
      FilterLayout(filters[1..]);
      FlatMapHead(FilterField, filters);
    }
  }

  lemma {:induction false} NameLayout(names: seq<Bytes>)
    ensures NameBytes(names) == FlatMap(Text, names)
    decreases |names|
  {
    if names != [] {
      NameLayout(names[1..]);
      FlatMapHead(Text, names);
    }
  }

  lemma HeaderLayout(v: Version, pkt: Packet)
    requires EncodeBody(v, pkt).Ok?
    ensures HeaderOf(pkt, EncodeBody(v, pkt).value.0)
  {
    if pkt.PublishPacket? { PublishHeaderBits(pkt.publish); }
  }

  lemma PublishHeaderBits(p: Publish)
    ensures var h := PublishHeader(p);
      h / 16 == 3 && (h / 8 % 2 == 1 <==> p.dup) && h / 2 % 4 == Number(p.qos) && (h % 2 == 1 <==> p.retain)
  {
    var d, q, r := if p.dup then 1 else 0, Number(p.qos), if p.retain then 1 else 0;
    var h: int := PublishHeader(p);
    assert h == r + 2 * (q + 4 * (d + 2 * 3));
    assert h / 2 == q + 4 * (d + 2 * 3);
    assert h / 8 == d + 2 * 3;
    assert h / 16 == 3;
  }

  /** Every encoded packet has the first byte and the body laid down for it. */
  lemma EveryLayout(v: Version, pkt: Packet)
    requires EncodeBody(v, pkt).Ok?
    ensures HeaderOf(pkt, EncodeBody(v, pkt).value.0)
    ensures !pkt.ConnectPacket? ==> EncodeBody(v, pkt).value.1 == BodyOf(v, pkt)
    ensures pkt.ConnectPacket? ==> EncodeBody(v, pkt).value.1 == ConnectBody(v, pkt.connect)
  {
    hide HeaderOf; hide ConnectBody; hide FilterBytes; hide NameBytes; hide FlatMap; hide PublishHeader;
    HeaderLayout(v, pkt);
    match pkt
    case Subscribe(pid, filters) => FilterLayout(filters);
    case Unsubscribe(pid, names) => NameLayout(names);
    case UnsubAck(pid, reasons) =>
      assert Two(pid) + [0] + reasons == Two(pid) + ([0] + reasons);
      assert Two(pid) + [] == Two(pid);
    case _ =>
  }

  /** Exactly which packets cannot be sent, and with which error. */
  lemma EncodeErrors(v: Version, pkt: Packet)
    ensures EncodeBody(v, pkt) == Err(Unsupported) <==> pkt.ConnAck?
    ensures EncodeBody(v, pkt) == Err(InvalidPacketId) <==>
      || (pkt.Ack? && pkt.pid == 0)
      || (pkt.PublishPacket? && pkt.publish.qos != AtMostOnce && (pkt.publish.pid.None? || pkt.publish.pid == Some(0)))
    ensures EncodeBody(v, pkt) == Err(Malformed) <==>
      || (pkt.ConnectPacket? && |pkt.connect.clientId| > 65535)
      || (pkt.PublishPacket? && pkt.publish.qos == AtMostOnce && pkt.publish.pid.Some?)
    ensures EncodeBody(v, pkt).Err? ==> EncodeBody(v, pkt).error in {Unsupported, InvalidPacketId, Malformed}
  {
  }
}
