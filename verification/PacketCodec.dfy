/**
 The codec in the imperative form the load generator runs: a cursor that advances over a body,
 loops that append or consume bytes, and the framing buffer. Each method is tied to its function
 in `Packets`, `PacketParsing` or `PacketStream`.
 */
module PacketCodec {
  import opened Wrappers
  import opened Sequences
  import opened Packets
  import opened PacketParsing
  import opened PacketStream
  import opened PacketGrammar

  // ---------------------------------------------------------------------------------------------
  // Writing
  // ---------------------------------------------------------------------------------------------

  method PutRemainingLength(dst: Bytes, len: nat) returns (dst': Bytes)
    ensures dst' == dst + PutVarInt(len)
  {
    dst' := dst;
    var left := len;
    while true
      invariant dst' + PutVarInt(left) == dst + PutVarInt(len)
      decreases left
    {
      ghost var tail := PutVarInt(left);
      var b := left % 128;
      var more := left / 128;
      if more > 0 { b := b + 128; }
      assert tail == [b] + if more > 0 then PutVarInt(more) else [];
      assert dst' + tail == dst' + [b] + if more > 0 then PutVarInt(more) else [];
      dst' := dst' + [b];
      if more == 0 { break; }
      left := more;
    }
  }

  function RemainingLengthLen(len: nat): nat {
    if len <= 127 then 1 else if len <= 16383 then 2 else if len <= 2097151 then 3 else 4
  }

  /** The table agrees with the bytes written, for every length four bytes can carry. */
  lemma RemainingLengthLenExact(len: nat)
    ensures |PutVarInt(len)| == RemainingLengthLen(len) <==> len < MAX_LENGTH
  {
    if len >= 128 {
      assert PutVarInt(len) == [128 + len % 128] + PutVarInt(len / 128);
      var a := len / 128;
      if a >= 128 {
        assert PutVarInt(a) == [128 + a % 128] + PutVarInt(a / 128);
        var b := a / 128;
        if b >= 128 {
          assert PutVarInt(b) == [128 + b % 128] + PutVarInt(b / 128);
          var c := b / 128;
          assert c >= 128 ==> PutVarInt(c) == [128 + c % 128] + PutVarInt(c / 128);
        }
      }
    }
  }

  function PublishWireSize(v: Version, topicLen: nat, payloadLen: nat, qos: nat): nat {
    var body := 2 + topicLen + (if qos > 0 then 2 else 0) + payloadLen + (if v == V5 then 1 else 0);
    1 + RemainingLengthLen(body) + body
  }

  /** The predicted size of a PUBLISH is the size of its frame. */
  lemma PublishWireSizeExact(v: Version, p: Publish)
    requires EncodeBody(v, PublishPacket(p)).Ok? && |PublishBody(v, p)| < MAX_LENGTH
    ensures |FrameOf(v, PublishPacket(p))| == PublishWireSize(v, |p.topic|, |p.payload|, p.qos.AsByte())
  {
    RemainingLengthLenExact(|PublishBody(v, p)|);
  }

  method PutFilters(dst: Bytes, filters: seq<(Bytes, QoS)>) returns (dst': Bytes)
    ensures dst' == dst + FilterBytes(filters)
  {
    dst' := dst;
    assert filters[0..] == filters;
    for i := 0 to |filters|
      invariant dst' + FilterBytes(filters[i..]) == dst + FilterBytes(filters)
    {
      ghost var one := PutString(filters[i].0) + [filters[i].1.AsByte()];
      assert filters[i..][1..] == filters[i + 1..];
      assert dst' + (one + FilterBytes(filters[i + 1..])) == dst' + one + FilterBytes(filters[i + 1..]);
      assert dst' + one == dst' + PutString(filters[i].0) + [filters[i].1.AsByte()];
      dst' := dst' + PutString(filters[i].0);
      dst' := dst' + [filters[i].1.AsByte()];
    }
    assert filters[|filters|..] == [];
  }

  method PutNames(dst: Bytes, names: seq<Bytes>) returns (dst': Bytes)
    ensures dst' == dst + NameBytes(names)
  {
    dst' := dst;
    assert names[0..] == names;
    for i := 0 to |names|
      invariant dst' + NameBytes(names[i..]) == dst + NameBytes(names)
    {
      assert names[i..][1..] == names[i + 1..];
      assert dst' + (PutString(names[i]) + NameBytes(names[i + 1..])) ==
        dst' + PutString(names[i]) + NameBytes(names[i + 1..]);
      dst' := dst' + PutString(names[i]);
    }
    assert names[|names|..] == [];
  }

  method PutReasons(dst: Bytes, reasons: Bytes) returns (dst': Bytes)
    ensures dst' == dst + reasons
  {
    dst' := dst;
    for i := 0 to |reasons|
      invariant dst' == dst + reasons[..i]
    {
      dst' := dst' + [reasons[i]];
    }
  }

  /** The flag byte, one flag at a time. */
  method WriteFlags(c: Connect) returns (flags: byte, username: Option<Bytes>)
    ensures flags == ConnectFlags(c) && username == SentUsername(c)
  {
    flags := 0;
    if c.clean { flags := flags + 0x02; }
    match (c.username, c.password) {
      case (Some(u), _) => username := Some(u);
      case (None, Some(_)) => username := Some([]);
      case (None, None) => username := None;
    }
    if username.Some? { flags := flags + 0x80; }
    if c.password.Some? { flags := flags + 0x40; }
    if c.will.Some? {
      flags := flags + 0x04 + 8 * c.will.value.qos.AsByte();
      if c.will.value.retain { flags := flags + 0x20; }
    }
  }

  method WriteConnect(v: Version, c: Connect) returns (r: Result<Bytes, CodecError>)
    ensures r == if |c.clientId| > 65535 then Err(Malformed) else Ok(ConnectBody(v, c))
  {
    hide PutString; hide PutU16; hide PutU32; hide ConnectFlags; hide SentUsername; hide PutVarInt;
    if |c.clientId| > 65535 { return Err(Malformed); }
    var flags, username := WriteFlags(c);
    var body := PutString(MQTT_NAME);
    body := body + [Level(v)];
    body := body + [flags];
    body := body + PutU16(c.keepalive);
    body := WriteConnectProps(v, c, body);
    body := body + PutString(c.clientId);
    body := WriteWill(v, c.will, body);
    ghost var head := body;
    if username.Some? { body := body + PutString(username.value); }
    assert body == head + OptString(username);
    head := body;
    if c.password.Some? { body := body + PutString(c.password.value); }
    assert body == head + OptString(c.password);
    r := Ok(body);
  }

  method WriteConnectProps(v: Version, c: Connect, dst: Bytes) returns (dst': Bytes)
    ensures dst' == dst + ConnectProps(v, c)
  {
    hide PutU32; hide PutVarInt;
    dst' := dst;
    if v == V5 {
      dst' := PutRemainingLength(dst', if c.sessionExpiry.Some? then 5 else 0);
      if c.sessionExpiry.Some? {
        Associative(dst, PutVarInt(5), [0x11]);
        Associative(dst, PutVarInt(5) + [0x11], PutU32(c.sessionExpiry.value));
        dst' := dst' + [0x11];
        dst' := dst' + PutU32(c.sessionExpiry.value);
      }
    }
  }

  method WriteWill(v: Version, w: Option<Will>, dst: Bytes) returns (dst': Bytes)
    ensures dst' == dst + WillBytes(v, w)
  {
    hide PutString;
    dst' := dst;
    if w.Some? {
      Associative(dst, Props(v), PutString(w.value.topic));
      Associative(dst, Props(v) + PutString(w.value.topic), PutString(w.value.payload));
      if v == V5 { dst' := dst' + [0]; }
      assert dst' == dst + Props(v);
      dst' := dst' + PutString(w.value.topic);
      dst' := dst' + PutString(w.value.payload);
    }
  }

  /** A zero id is noticed only after the topic was written. */
  method WritePublish(v: Version, p: Publish) returns (r: Result<Bytes, CodecError>)
    ensures r == match EncodeBody(v, PublishPacket(p)) case Err(e) => Err(e) case Ok(hb) => Ok(hb.1)
    ensures r.Ok? ==> r.value == PublishBody(v, p)
  {
    hide PutString; hide PutU16;
    if p.qos != AtMostOnce && p.pid.None? { return Err(InvalidPacketId); }
    if p.qos == AtMostOnce && p.pid.Some? { return Err(Malformed); }
    var body := PutString(p.topic);
    if p.pid.Some? {
      if p.pid.value == 0 { return Err(InvalidPacketId); }
      body := body + PutU16(p.pid.value);
    }
    assert body == PutString(p.topic) + if p.pid.Some? then PutU16(p.pid.value) else [];
    ghost var head := body;
    if v == V5 { body := body + [0]; }
    assert body == head + Props(v);
    body := body + p.payload;
    r := Ok(body);
  }

  method WriteAck(v: Version, pid: u16, reason: byte) returns (r: Result<Bytes, CodecError>)
    ensures r == if pid == 0 then Err(InvalidPacketId) else Ok(AckBody(v, pid, reason))
  {
    if pid == 0 { return Err(InvalidPacketId); }
    var body := PutU16(pid);
    if v == V5 && reason != 0 {
      Associative(PutU16(pid), [reason], [0]);
      body := body + [reason];
      body := body + [0];
    }
    assert body == AckBody(v, pid, reason);
    r := Ok(body);
  }

  /** An id and, in v5, the empty property block. */
  method WritePid(v: Version, pid: u16) returns (body: Bytes)
    ensures body == PutU16(pid) + Props(v)
  {
    body := PutU16(pid);
    if v == V5 { body := body + [0]; }
  }

  /** Header byte and body of a packet, appended field by field, or the first error met. */
  method WriteBody(v: Version, pkt: Packet) returns (r: Result<(byte, Bytes), CodecError>)
    ensures r == EncodeBody(v, pkt)
  {
    hide ConnectBody; hide PublishBody; hide AckBody; hide PutU16; hide FilterBytes; hide NameBytes; hide PublishHeader;
    match pkt {
      case ConnectPacket(c) =>
        var body :- WriteConnect(v, c);
        r := Ok((0x10, body));
      case ConnAck(_, _, _) => r := Err(Unsupported);
      case PublishPacket(p) =>
        var body :- WritePublish(v, p);
        r := Ok((PublishHeader(p), body));
      case Ack(kind, pid, reason) =>
        var body :- WriteAck(v, pid, reason);
        r := Ok((AckHeader(kind), body));
      case Subscribe(pid, filters) =>
        var body := WritePid(v, pid);
        body := PutFilters(body, filters);
        r := Ok((0x82, body));
      case SubAck(pid, reasons) =>
        var body := WritePid(v, pid);
        body := PutReasons(body, reasons);
        r := Ok((0x90, body));
      case Unsubscribe(pid, names) =>
        var body := WritePid(v, pid);
        body := PutNames(body, names);
        r := Ok((0xA2, body));
      case UnsubAck(pid, reasons) =>
        var body := WritePid(v, pid);
        Associative(PutU16(pid), Props(v), reasons);
        if v == V5 { body := PutReasons(body, reasons); }
        assert body == PutU16(pid) + if v == V5 then [0] + reasons else [];
        r := Ok((0xB0, body));
      case PingReq => r := Ok((0xC0, []));
      case PingResp => r := Ok((0xD0, []));
      case Disconnect(reason) =>
        var body: Bytes := [];
        if v == V5 && reason != 0 {
          body := body + [reason];
          body := body + [0];
        }
        assert body == if v == V5 && reason != 0 then [reason, 0] else [];
        r := Ok((0xE0, body));
    }
  }

  // ---------------------------------------------------------------------------------------------
  // Reading
  // ---------------------------------------------------------------------------------------------

  /** A method's answer and the bytes it leaves unread are what the parser function says. */
  predicate Tied<T(==)>(spec: Parsed<T>, r: Result<T, CodecError>, rest: Bytes) {
    match spec
    case Err(e) => r == Err(e)
    case Ok((x, left)) => r == Ok(x) && rest == left
  }

  class Cur {
    const data: Bytes
    var pos: nat

    ghost predicate Valid() reads this { pos <= |data| }

    ghost function Rest(): Bytes
      requires Valid()
      reads this
    {
      data[pos..]
    }

    constructor (data: Bytes)
      ensures Valid() && Rest() == data
    {
      this.data, pos := data, 0;
    }

    method Byte() returns (r: Result<byte, CodecError>)
      requires Valid()
      modifies this
      ensures Valid() && Tied(GetByte(old(Rest())), r, Rest())
    {
      if pos >= |data| { return Err(Incomplete); }
      r := Ok(data[pos]);
      pos := pos + 1;
    }

    method U16() returns (r: Result<u16, CodecError>)
      requires Valid()
      modifies this
      ensures Valid() && Tied(GetU16(old(Rest())), r, Rest())
    {
      if |data| - pos < 2 { return Err(Incomplete); }
      r := Ok(U16Of(data[pos], data[pos + 1]));
      pos := pos + 2;
    }

    /** Up to four bytes, seven bits each, low bits first. */
    method VarInt() returns (r: Result<nat, CodecError>)
      requires Valid()
      modifies this
      ensures Valid() && Tied(GetVarInt(old(Rest())), r, Rest())
    {
      var value: nat, weight: nat := 0, 1;
      ghost var start := Rest();
      assert start[0..] == start;
      for i := 0 to 4
        invariant Valid()
        invariant i < 4 ==>
          i <= |start| && Rest() == start[i..] && Peek(start, 0) == Shifted(Peek(Rest(), i), value, weight, i)
        invariant i == 4 ==> Peek(start, 0) == Err(Malformed)
      {
        ghost var here := Rest();
        var b :- Byte();
        ShiftedStep(here, value, weight, i);
        value := value + (b % 128) * weight;
        if b < 128 {
          assert Rest() == start[i + 1..];
          return Ok(value);
        }
        weight := weight * 128;
      }
      return Err(Malformed);
    }

    method Take(n: nat) returns (r: Result<Bytes, CodecError>)
      requires Valid()
      modifies this
      ensures Valid() && Tied(PacketParsing.Take(old(Rest()), n), r, Rest())
    {
      if |data| - pos < n { return Err(Incomplete); }
      assert data[pos..][..n] == data[pos..pos + n];
      r := Ok(data[pos..pos + n]);
      pos := pos + n;
    }

    method Binary() returns (r: Result<Bytes, CodecError>)
      requires Valid()
      modifies this
      ensures Valid() && Tied(GetBinary(old(Rest())), r, Rest())
    {
      var len :- U16();
      r := Take(len);
    }

    method String() returns (r: Result<Bytes, CodecError>)
      requires Valid()
      modifies this
      ensures Valid() && Tied(GetString(old(Rest())), r, Rest())
    {
      var raw :- Binary();
      r := if Utf8(raw) then Ok(raw) else Err(Malformed);
    }

    method TakeRest() returns (s: Bytes)
      requires Valid()
      modifies this
      ensures Valid() && s == old(Rest()) && Rest() == []
    {
      s := data[pos..];
      pos := |data|;
    }

    /** Skip the property block of a v5 packet. */
    method SkipProperties(v: Version) returns (r: Result<(), CodecError>)
      requires Valid()
      modifies this
      ensures Valid() && Tied(SkipProps(v, old(Rest())), r, Rest())
    {
      if v == V3 { return Ok(()); }
      var len :- VarInt();
      if len > |data| - pos { return Err(Incomplete); }
      pos := pos + len;
      r := Ok(());
    }

    method ReadPid() returns (r: Result<u16, CodecError>)
      requires Valid()
      modifies this
      ensures Valid() && Tied(GetPid(old(Rest())), r, Rest())
    {
      var pid :- U16();
      r := if pid == 0 then Err(InvalidPacketId) else Ok(pid);
    }

    method ReadPidProps(v: Version) returns (r: Result<u16, CodecError>)
      requires Valid()
      modifies this
      ensures Valid() && Tied(GetPidProps(v, old(Rest())), r, Rest())
    {
      var pid :- ReadPid();
      var _ :- SkipProperties(v);
      r := Ok(pid);
    }
  }

  /** The integer read so far and what the rest of the bytes add to it. */
  function Shifted(r: Result<Option<(nat, nat)>, CodecError>, value: nat, weight: nat, i: nat):
    Result<Option<(nat, nat)>, CodecError> {
    match r
    case Ok(Some((v, n))) => Ok(Some((value + weight * v, n + i)))
    case other => other
  }

  lemma ShiftedStep(s: Bytes, value: nat, weight: nat, i: nat)
    requires s != [] && i <= 3
    ensures s[0] < 128 ==> Shifted(Peek(s, i), value, weight, i) == Ok(Some((value + s[0] % 128 * weight, i + 1)))
    ensures s[0] >= 128 && i < 3 ==>
      Shifted(Peek(s, i), value, weight, i) ==
      Shifted(Peek(s[1..], i + 1), value + s[0] % 128 * weight, weight * 128, i + 1)
    ensures s[0] >= 128 && i == 3 ==> Peek(s, i) == Err(Malformed)
  {
    if s[0] >= 128 && i < 3 && Peek(s[1..], i + 1).Ok? && Peek(s[1..], i + 1).value.Some? {
      var v := Peek(s[1..], i + 1).value.value.0;
      var a: nat := s[0] % 128;
      assert s[0] - 128 == a;
      Distribute(weight, a, v);
    }
  }

  lemma Distribute(w: nat, a: nat, v: nat)
    ensures w * (a + 128 * v) == a * w + w * 128 * v
  {
    assert w * (a + 128 * v) == w * a + w * (128 * v);
  }

  // ---------------------------------------------------------------------------------------------
  // Packets
  // ---------------------------------------------------------------------------------------------

  method ReadWill(v: Version, flags: byte, c: Cur) returns (r: Result<Option<Will>, CodecError>)
    requires c.Valid()
    modifies c
    ensures c.Valid() && Tied(GetWill(v, flags, old(c.Rest())), r, c.Rest())
  {
    if flags / 4 % 2 == 0 { return Ok(None); }
    var _ :- c.SkipProperties(v);
    var topic :- c.String();
    var payload :- c.Binary();
    r := Ok(Some(Will(topic, payload, QoSFrom(flags / 8 % 4), flags / 32 % 2 == 1)));
  }

  method ReadConnectTail(v: Version, flags: byte, keepalive: u16, c: Cur) returns (r: Result<Packet, CodecError>)
    requires c.Valid()
    modifies c
    ensures r == GetConnectTail(v, flags, keepalive, old(c.Rest()))
  {
    hide GetWill; hide SkipProps; hide GetString; hide GetBinary;
    var _ :- c.SkipProperties(v);
    var clientId :- c.String();
    var will :- ReadWill(v, flags, c);
    var username: Option<Bytes>, password: Option<Bytes> := None, None;
    if flags / 128 % 2 == 1 {
      var u :- c.String();
      username := Some(u);
    }
    if flags / 64 % 2 == 1 {
      var p :- c.Binary();
      password := Some(p);
    }
    r := Ok(ConnectPacket(Connect(flags / 2 % 2 == 1, keepalive, clientId, username, password, will, None)));
  }

  method ReadConnect(v: Version, headerFlags: byte, c: Cur) returns (r: Result<Packet, CodecError>)
    requires c.Valid()
    modifies c
    ensures r == ParseConnect(v, headerFlags, old(c.Rest()))
  {
    hide GetString; hide GetConnectTail;
    var name :- c.String();
    if name != MQTT_NAME && name != MQISDP_NAME { return Err(Malformed); }
    var level :- c.Byte();
    if !(3 <= level <= 5) { return Err(Malformed); }
    if v == V3 && headerFlags % 16 != 0 { return Err(Malformed); }
    var flags :- c.Byte();
    var keepalive :- c.U16();
    r := ReadConnectTail(v, flags, keepalive, c);
  }

  method ReadPublish(v: Version, flags: byte, c: Cur) returns (r: Result<Packet, CodecError>)
    requires c.Valid()
    modifies c
    ensures r == ParsePublish(v, flags, old(c.Rest()))
  {
    hide GetString; hide SkipProps; hide GetPid;
    var raw := flags / 2 % 4;
    if raw > 2 { return Err(Malformed); }
    var topic :- c.String();
    if topic == [] { return Err(Malformed); }
    var pid: Option<u16> := None;
    if raw != 0 {
      var p :- c.ReadPid();
      pid := Some(p);
    }
    var _ :- c.SkipProperties(v);
    var payload := c.TakeRest();
    r := Ok(PublishPacket(Publish(topic, payload, QoSFrom(raw), flags % 2 == 1, flags / 8 % 2 == 1, pid)));
  }

  method ReadAck(v: Version, kind: AckKind, c: Cur) returns (r: Result<Packet, CodecError>)
    requires c.Valid()
    modifies c
    ensures r == ParseAck(v, kind, old(c.Rest()))
  {
    hide SkipProps; hide GetPid;
    var pid :- c.ReadPid();
    var reason: byte := 0;
    if v == V5 && c.pos < |c.data| {
      var b := c.Byte();
      reason := b.value;
      if c.pos < |c.data| { var _ :- c.SkipProperties(v); }
    }
    r := Ok(Ack(kind, pid, reason));
  }

  method ReadSubscribe(v: Version, flags: byte, c: Cur) returns (r: Result<Packet, CodecError>)
    requires c.Valid()
    modifies c
    ensures r == ParseSubscribe(v, flags, old(c.Rest()))
  {
    hide GetString; hide GetPidProps;
    if flags != 2 { return Err(Malformed); }
    var pid :- c.ReadPidProps(v);
    var filters: seq<(Bytes, QoS)> := [];
    ghost var start := c.Rest();
    AppendedNil(GetFilters(v, start));
    while c.pos < |c.data|
      invariant c.Valid()
      invariant GetFilters(v, start) == Appended(filters, GetFilters(v, c.Rest()))
      decreases |c.data| - c.pos
    {
      ghost var here := c.Rest();
      GetStringShrinks(here);
      var filter :- c.String();
      var b :- c.Byte();
      if v == V3 && b >= 4 { return Err(Malformed); }
      AppendedStep(filters, (filter, QoSFrom(b % 4)), GetFilters(v, c.Rest()));
      filters := filters + [(filter, QoSFrom(b % 4))];
    }
    assert filters + [] == filters;
    if filters == [] { return Err(Malformed); }
    r := Ok(Subscribe(pid, filters));
  }

  /** A list read so far followed by what the rest yields. */
  function Appended<T>(done: seq<T>, r: Result<seq<T>, CodecError>): Result<seq<T>, CodecError> {
    match r case Err(e) => Err(e) case Ok(more) => Ok(done + more)
  }

  lemma AppendedNil<T>(r: Result<seq<T>, CodecError>)
    ensures Appended([], r) == r
  {
    if r.Ok? { assert [] + r.value == r.value; }
  }

  lemma AppendedStep<T>(done: seq<T>, x: T, r: Result<seq<T>, CodecError>)
    ensures Appended(done, match r case Err(e) => Err(e) case Ok(more) => Ok([x] + more)) == Appended(done + [x], r)
  {
    if r.Ok? { assert done + ([x] + r.value) == done + [x] + r.value; }
  }

  lemma GetStringShrinks(s: Bytes)
    ensures GetString(s).Ok? ==> |GetString(s).value.1| < |s|
  {
  }

  method ReadUnsubscribe(v: Version, flags: byte, c: Cur) returns (r: Result<Packet, CodecError>)
    requires c.Valid()
    modifies c
    ensures r == ParseUnsubscribe(v, flags, old(c.Rest()))
  {
    hide GetString; hide GetPidProps;
    if flags != 2 { return Err(Malformed); }
    var pid :- c.ReadPidProps(v);
    var names: seq<Bytes> := [];
    ghost var start := c.Rest();
    AppendedNil(GetNames(start));
    while c.pos < |c.data|
      invariant c.Valid()
      invariant GetNames(start) == Appended(names, GetNames(c.Rest()))
      decreases |c.data| - c.pos
    {
      GetStringShrinks(c.Rest());
      var name :- c.String();
      AppendedStep(names, name, GetNames(c.Rest()));
      names := names + [name];
    }
    assert names + [] == names;
    r := Ok(Unsubscribe(pid, names));
  }

  /** Read past a length and that many bytes. */
  method SkipCounted(c: Cur) returns (r: Result<(), CodecError>)
    requires c.Valid()
    modifies c
    ensures c.Valid() && Tied(GetCounted(old(c.Rest())), r, c.Rest())
  {
    hide GetVarInt;
    var n :- c.VarInt();
    var _ :- c.Take(n);
    r := Ok(());
  }

  /** Read one property of a v5 CONNACK. */
  method ReadProperty(c: Cur) returns (r: Result<Option<u16>, CodecError>)
    requires c.Valid()
    modifies c
    ensures c.Valid() && Tied(GetProperty(old(c.Rest())), r, c.Rest())
  {
    hide GetVarInt; hide GetCounted;
    var id :- c.Byte();
    if id == 0x11 || id == 0x13 || id == 0x27 {
      var _ :- c.Take(4);
    } else if id == 0x12 || id == 0x1A || id == 0x1C || id == 0x1F {
      var _ :- SkipCounted(c);
    } else if id == 0x21 {
      var n :- c.U16();
      return Ok(Some(n));
    } else if id == 0x22 {
      var _ :- c.U16();
    } else if id == 0x24 || id == 0x25 || id == 0x28 || id == 0x29 || id == 0x2A {
      var _ :- c.Byte();
    } else if id == 0x26 {
      var _ :- SkipCounted(c);
      var _ :- SkipCounted(c);
    } else {
      return Err(Malformed);
    }
    r := Ok(None);
  }

  /** The property block of a v5 CONNACK; the last Receive Maximum in it counts. */
  method ReadConnAckProps(c: Cur) returns (r: Result<Option<u16>, CodecError>)
    requires c.Valid()
    modifies c
    ensures c.Valid() && Tied(GetConnAckProps(old(c.Rest())), r, c.Rest())
  {
    hide GetVarInt; hide GetProperty;
    var block :- c.VarInt();
    if block > |c.data| - c.pos { return Err(Incomplete); }
    var end := c.pos + block;
    var receiveMax: Option<u16> := None;
    ghost var goal := GetProperties(c.Rest(), |c.data| - end, None);
    while c.pos < end
      invariant c.Valid()
      invariant goal == GetProperties(c.Rest(), |c.data| - end, receiveMax)
      decreases |c.data| - c.pos
    {
      ghost var here := c.Rest();
      PropertyShrinks(here);
      var x := ReadProperty(c);
      if x.Err? { return Err(x.error); }
      if x.value.Some? { receiveMax := x.value; }
    }
    if c.pos > end { return Err(Malformed); }
    r := Ok(receiveMax);
  }

  method ReadConnAck(v: Version, c: Cur) returns (r: Result<Packet, CodecError>)
    requires c.Valid()
    modifies c
    ensures r == ParseConnAck(v, old(c.Rest()))
  {
    hide GetConnAckProps;
    if v == V3 {
      var flags :- c.Byte();
      var code :- c.Byte();
      return Ok(ConnAck(code, flags % 2 == 1, None));
    }
    var code :- c.Byte();
    var receiveMax :- ReadConnAckProps(c);
    r := Ok(ConnAck(code, false, receiveMax));
  }

  /** Parse a complete body. */
  method ReadPacket(v: Version, header: byte, body: Bytes) returns (r: Result<Packet, CodecError>)
    ensures r == Parse(v, header, body)
  {
    hide ParseConnect; hide ParseConnAck; hide ParsePublish; hide ParseAck;
    hide ParseSubscribe; hide ParseUnsubscribe; hide GetPidProps;
    var kind, flags := header / 16, header % 16;
    var c := new Cur(body);
    if kind == 1 { r := ReadConnect(v, flags, c); }
    else if kind == 2 { r := ReadConnAck(v, c); }
    else if kind == 3 { r := ReadPublish(v, flags, c); }
    else if kind == 4 { r := ReadAck(v, PubAck, c); }
    else if kind == 5 { r := ReadAck(v, PubRec, c); }
    else if kind == 6 {
      if flags != 2 { return Err(Malformed); }
      r := ReadAck(v, PubRel, c);
    }
    else if kind == 7 { r := ReadAck(v, PubComp, c); }
    else if kind == 8 { r := ReadSubscribe(v, flags, c); }
    else if kind == 9 {
      var pid :- c.ReadPidProps(v);
      var reasons := c.TakeRest();
      r := Ok(SubAck(pid, reasons));
    }
    else if kind == 10 { r := ReadUnsubscribe(v, flags, c); }
    else if kind == 11 {
      var pid :- c.ReadPidProps(v);
      var reasons: Bytes := [];
      if v == V5 { reasons := c.TakeRest(); }
      r := Ok(UnsubAck(pid, reasons));
    }
    else if kind == 12 { r := Ok(PingReq); }
    else if kind == 13 { r := Ok(PingResp); }
    else if kind == 14 {
      var reason: byte := 0;
      if v == V5 && c.pos < |c.data| {
        var b := c.Byte();
        reason := b.value;
      }
      r := Ok(Disconnect(reason));
    }
    else { r := Err(Malformed); }
  }

  // ---------------------------------------------------------------------------------------------
  // Framing
  // ---------------------------------------------------------------------------------------------

  /** Read the length without consuming: value and width, or nothing when bytes are missing. */
  method PeekRemainingLength(src: Bytes) returns (r: Result<Option<(nat, nat)>, CodecError>)
    ensures r == Peek(src, 0)
  {
    var value: nat, weight: nat := 0, 1;
    assert src[0..] == src;
    for i := 0 to |src|
      invariant i <= 3
      invariant Peek(src, 0) == Shifted(Peek(src[i..], i), value, weight, i)
    {
      var b := src[i];
      ShiftedStep(src[i..], value, weight, i);
      assert src[i..][1..] == src[i + 1..];
      value := value + (b % 128) * weight;
      weight := weight * 128;
      if b < 128 { return Ok(Some((value, i + 1))); }
      if i == 3 { return Err(Malformed); }
    }
    return Ok(None);
  }

  lemma FrameParts(dst: Bytes, header: byte, body: Bytes)
    ensures dst + [header] + PutVarInt(|body|) + body == dst + Frame(header, body)
  {
    hide PutVarInt;
    Associative(dst, [header], PutVarInt(|body|));
    Associative(dst, [header] + PutVarInt(|body|), body);
  }

  /** A PUBLISH to the topic `a` with a payload of `n` bytes. */
  function Filler(n: nat): Packet {
    PublishPacket(Publish([97], seq(n, _ => 0), AtMostOnce, false, false, None))
  }

  /**
   With the smallest limit, 64, a payload of 64 bytes makes a frame of 69: the packet encodes and is
   refused, and the error that should carry its size carries 0. A refused frame's size is never 0.
   */
  lemma SizeReportExample(pkt: Packet)
    ensures Encode(V3, Filler(64)).Ok? && |FrameOf(V3, Filler(64))| == 69
    ensures forall v :: Encode(v, pkt).Ok? ==> |FrameOf(v, pkt)| != 0
  {
    var p := Filler(64).publish;
    assert |PublishBody(V3, p)| == 67;
    assert PutVarInt(67) == [67];
    assert EncodeBody(V3, Filler(64)) == Ok((PublishHeader(p), PublishBody(V3, p)));
    hide EncodeBody; hide PutVarInt;
  }

  class Codec {
    const version: Version
    const maxPacketSize: nat
    var want: nat

    constructor (version: Version, maxPacketSize: nat)
      ensures this.version == version && this.maxPacketSize == (if maxPacketSize < 64 then 64 else maxPacketSize)
    {
      this.version := version;
      this.maxPacketSize := if maxPacketSize < 64 then 64 else maxPacketSize;
      want := 0;
    }

    /** Append a frame; on any error the buffer is as before. The size reported is that of the truncated buffer. */
    method EncodeInto(pkt: Packet, dst: Bytes) returns (r: Result<(), CodecError>, dst': Bytes)
      ensures Encode(version, pkt).Err? ==> r == Err(Encode(version, pkt).error) && dst' == dst
      ensures Encode(version, pkt).Ok? && |FrameOf(version, pkt)| > maxPacketSize ==>
        r == Err(PacketTooLarge(0, maxPacketSize)) && dst' == dst
      ensures Encode(version, pkt).Ok? && |FrameOf(version, pkt)| <= maxPacketSize ==>
        r.Ok? && dst' == dst + FrameOf(version, pkt)
    {
      hide EncodeBody; hide PutVarInt;
      var parts := WriteBody(version, pkt);
      if parts.Err? { return Err(parts.error), dst; }
      var (header, body) := parts.value;
      dst' := dst + [header];
      dst' := PutRemainingLength(dst', |body|);
      dst' := dst' + body;
      FrameParts(dst, header, body);
      if |dst'| - |dst| > maxPacketSize {
        dst' := dst'[..|dst|];
        return Err(PacketTooLarge(|dst'| - |dst|, maxPacketSize)), dst';
      }
      r := Ok(());
    }

    /** Try to decode one packet; `want` says how long the buffer must get when none came out. */
    method Decode(src: Bytes) returns (r: Result<Option<Packet>, CodecError>, src': Bytes)
      modifies this
      ensures (r, src') == DecodeStep(version, maxPacketSize, src)
      ensures r == Ok(None) ==> want > |src|
      ensures r == Ok(None) && |src| < 2 ==> want == 2
      ensures r == Ok(None) && |src| >= 2 && Continues(src[1..]) ==> want == |src| + 1
      ensures forall head, tail :: r == Ok(None) && Headed(src, head, tail) ==> want == 1 + |head| + ValueOf(head)
      ensures r != Ok(None) ==> want == if src' == src then old(want) else 0
    {
      hide Parse; hide Peek; hide ValueOf;
      forall head, tail | Headed(src, head, tail)
        ensures Peek(src[1..], 0) == Ok(Some((ValueOf(head), |head|)))
      {
        assert src[1..] == head + tail;
        PeekBack(head, tail, 0);
      }
      if |src| >= 2 { PeekOpen(src[1..], 0); }
      src' := src;
      if |src| < 2 {
        want := 2;
        return Ok(None), src';
      }
      var peeked := PeekRemainingLength(src[1..]);
      if peeked.Err? { return Err(peeked.error), src'; }
      if peeked.value.None? {
        want := |src| + 1;
        return Ok(None), src';
      }
      var (len, width) := peeked.value.value;
      var total := 1 + width + len;
      if len > maxPacketSize { return Err(PacketTooLarge(len, maxPacketSize)), src'; }
      if |src| < total {
        want := total;
        return Ok(None), src';
      }
      want := 0;
      src' := src[total..];
      var parsed := ReadPacket(version, src[0], src[1 + width..total]);
      if parsed.Err? { return Err(parsed.error), src'; }
      r := Ok(Some(parsed.value));
    }
  }
}
