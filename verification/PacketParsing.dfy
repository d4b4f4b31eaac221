/** The packet decoder as functions over the unread bytes: a parser returns a value and what is left. */
module PacketParsing {
  import opened Wrappers
  import opened Packets

  type Parsed<T> = Result<(T, Bytes), CodecError>

  // ---------------------------------------------------------------------------------------------
  // Fields
  // ---------------------------------------------------------------------------------------------

  function GetByte(s: Bytes): Parsed<byte> {
    if s == [] then Err(Incomplete) else Ok((s[0], s[1..]))
  }

  function U16Of(hi: byte, lo: byte): u16 { var h: int, l: int := hi, lo; h * 256 + l }

  function GetU16(s: Bytes): Parsed<u16> {
    if |s| < 2 then Err(Incomplete) else Ok((U16Of(s[0], s[1]), s[2..]))
  }

  function Take(s: Bytes, n: nat): Parsed<Bytes> {
    if |s| < n then Err(Incomplete) else Ok((s[..n], s[n..]))
  }

  /**
   Value and width of the variable length integer at the front, `k` bytes of it already read;
   nothing yet when the bytes run out, malformed after four.
   */
  function Peek(s: Bytes, k: nat): (r: Result<Option<(nat, nat)>, CodecError>)
    ensures r.Ok? && r.value.Some? ==> 1 <= r.value.value.1 <= |s|
  {
    if s == [] then Ok(None)
    else if s[0] < 128 then Ok(Some((s[0], 1)))
    else if k >= 3 then Err(Malformed)
    else
      match Peek(s[1..], k + 1)
      case Ok(Some((v, n))) => Ok(Some((s[0] - 128 + 128 * v, n + 1)))
      case other => other
  }

  function GetVarInt(s: Bytes): Parsed<nat> {
    match Peek(s, 0)
    case Err(e) => Err(e)
    case Ok(None) => Err(Incomplete)
    case Ok(Some((v, n))) => Ok((v, s[n..]))
  }

  function GetBinary(s: Bytes): Parsed<Bytes> {
    match GetU16(s)
    case Err(e) => Err(e)
    case Ok((n, rest)) => Take(rest, n)
  }

  function GetString(s: Bytes): Parsed<Bytes> {
    match GetBinary(s)
    case Err(e) => Err(e)
    case Ok((raw, rest)) => if Utf8(raw) then Ok((raw, rest)) else Err(Malformed)
  }

  function SkipProps(v: Version, s: Bytes): Parsed<()> {
    if v == V3 then Ok(((), s))
    else
      match GetVarInt(s)
      case Err(e) => Err(e)
      case Ok((n, rest)) => if n > |rest| then Err(Incomplete) else Ok(((), rest[n..]))
  }

  function GetPid(s: Bytes): Parsed<u16> {
    match GetU16(s)
    case Err(e) => Err(e)
    case Ok((pid, rest)) => if pid == 0 then Err(InvalidPacketId) else Ok((pid, rest))
  }

  /** An id followed by the v5 property block. */
  function GetPidProps(v: Version, s: Bytes): Parsed<u16> {
    match GetPid(s)
    case Err(e) => Err(e)
    case Ok((pid, rest)) =>
      match SkipProps(v, rest)
      case Err(e) => Err(e)
      case Ok((_, left)) => Ok((pid, left))
  }

  // ---------------------------------------------------------------------------------------------
  // Packets
  // ---------------------------------------------------------------------------------------------

  function GetFilters(v: Version, s: Bytes): (r: Result<seq<(Bytes, QoS)>, CodecError>)
    ensures r.Ok? ==> forall i :: 0 <= i < |r.value| ==> ShortText(r.value[i].0)
  {
    if s == [] then Ok([])
    else
      match GetString(s)
      case Err(e) => Err(e)
      case Ok((f, rest)) =>
        match GetByte(rest)
        case Err(e) => Err(e)
        case Ok((b, left)) =>
          if v == V3 && b >= 4 then Err(Malformed)
          else
            match GetFilters(v, left)
            case Err(e) => Err(e)
            case Ok(more) => Ok([(f, QoSFrom(b % 4))] + more)
  }

  function GetNames(s: Bytes): (r: Result<seq<Bytes>, CodecError>)
    ensures r.Ok? ==> forall i :: 0 <= i < |r.value| ==> ShortText(r.value[i])
  {
    if s == [] then Ok([])
    else
      match GetString(s)
      case Err(e) => Err(e)
      case Ok((f, rest)) =>
        match GetNames(rest)
        case Err(e) => Err(e)
        case Ok(more) => Ok([f] + more)
  }

  function GetWill(v: Version, flags: byte, s: Bytes): Parsed<Option<Will>> {
    if flags / 4 % 2 == 0 then Ok((None, s))
    else
      match SkipProps(v, s)
      case Err(e) => Err(e)
      case Ok((_, s1)) =>
        match GetString(s1)
        case Err(e) => Err(e)
        case Ok((topic, s2)) =>
          match GetBinary(s2)
          case Err(e) => Err(e)
          case Ok((payload, s3)) => Ok((Some(Will(topic, payload, QoSFrom(flags / 8 % 4), flags / 32 % 2 == 1)), s3))
  }

  function GetOptString(present: bool, s: Bytes): Parsed<Option<Bytes>> {
    if !present then Ok((None, s))
    else
      match GetString(s)
      case Err(e) => Err(e)
      case Ok((x, rest)) => Ok((Some(x), rest))
  }

  function GetOptBinary(present: bool, s: Bytes): Parsed<Option<Bytes>> {
    if !present then Ok((None, s))
    else
      match GetBinary(s)
      case Err(e) => Err(e)
      case Ok((x, rest)) => Ok((Some(x), rest))
  }

  const MQISDP_NAME: Bytes := [77, 81, 73, 115, 100, 112]

  /** Protocol name and level, checked; then flags and keepalive. */
  function GetConnectHead(v: Version, headerFlags: byte, s: Bytes): Parsed<(byte, u16)> {
    match GetString(s)
    case Err(e) => Err(e)
    case Ok((name, s1)) =>
      if name != MQTT_NAME && name != MQISDP_NAME then Err(Malformed)
      else
        match GetByte(s1)
        case Err(e) => Err(e)
        case Ok((level, s2)) =>
          if !(3 <= level <= 5) then Err(Malformed)
          else if v == V3 && headerFlags % 16 != 0 then Err(Malformed)
          else
            match GetByte(s2)
            case Err(e) => Err(e)
            case Ok((flags, s3)) =>
              match GetU16(s3)
              case Err(e) => Err(e)
              case Ok((keepalive, s4)) => Ok(((flags, keepalive), s4))
  }

  function GetConnectTail(v: Version, flags: byte, keepalive: u16, s: Bytes): Result<Packet, CodecError> {
    match SkipProps(v, s)
    case Err(e) => Err(e)
    case Ok((_, s1)) =>
      match GetString(s1)
      case Err(e) => Err(e)
      case Ok((clientId, s2)) =>
        match GetWill(v, flags, s2)
        case Err(e) => Err(e)
        case Ok((will, s3)) =>
          match GetOptString(flags / 128 % 2 == 1, s3)
          case Err(e) => Err(e)
          case Ok((username, s4)) =>
            match GetOptBinary(flags / 64 % 2 == 1, s4)
            case Err(e) => Err(e)
            case Ok((password, _)) =>
              Ok(ConnectPacket(Connect(flags / 2 % 2 == 1, keepalive, clientId, username, password, will, None)))
  }

  function ParseConnect(v: Version, headerFlags: byte, s: Bytes): Result<Packet, CodecError> {
    match GetConnectHead(v, headerFlags, s)
    case Err(e) => Err(e)
    case Ok(((flags, keepalive), rest)) => GetConnectTail(v, flags, keepalive, rest)
  }

  function ParsePublish(v: Version, flags: byte, s: Bytes): Result<Packet, CodecError> {
    var raw := flags / 2 % 4;
    if raw > 2 then Err(Malformed)
    else
      match GetString(s)
      case Err(e) => Err(e)
      case Ok((topic, s1)) =>
        if topic == [] then Err(Malformed)
        else
          var id: Parsed<u16> := if raw == 0 then Ok((0, s1)) else GetPid(s1);
          match id
          case Err(e) => Err(e)
          case Ok((pid, s2)) =>
            match SkipProps(v, s2)
            case Err(e) => Err(e)
            case Ok((_, s3)) =>
              Ok(PublishPacket(
                Publish(topic, s3, QoSFrom(raw), flags % 2 == 1, flags / 8 % 2 == 1,
                        if raw == 0 then None else Some(pid))))
  }

  function ParseAck(v: Version, kind: AckKind, s: Bytes): Result<Packet, CodecError> {
    match GetPid(s)
    case Err(e) => Err(e)
    case Ok((pid, s1)) =>
      if v == V5 && s1 != [] then
        if |s1| == 1 then Ok(Ack(kind, pid, s1[0]))
        else
          match SkipProps(V5, s1[1..])
          case Err(e) => Err(e)
          case Ok(_) => Ok(Ack(kind, pid, s1[0]))
      else Ok(Ack(kind, pid, 0))
  }

  function ParseSubscribe(v: Version, flags: byte, s: Bytes): Result<Packet, CodecError> {
    if flags != 2 then Err(Malformed)
    else
      match GetPidProps(v, s)
      case Err(e) => Err(e)
      case Ok((pid, rest)) =>
        match GetFilters(v, rest)
        case Err(e) => Err(e)
        case Ok(filters) => if filters == [] then Err(Malformed) else Ok(Subscribe(pid, filters))
  }

  function ParseUnsubscribe(v: Version, flags: byte, s: Bytes): Result<Packet, CodecError> {
    if flags != 2 then Err(Malformed)
    else
      match GetPidProps(v, s)
      case Err(e) => Err(e)
      case Ok((pid, rest)) =>
        match GetNames(rest)
        case Err(e) => Err(e)
        case Ok(names) => Ok(Unsubscribe(pid, names))
  }

  function ParseSubAck(v: Version, s: Bytes): Result<Packet, CodecError> {
    match GetPidProps(v, s)
    case Err(e) => Err(e)
    case Ok((pid, rest)) => Ok(SubAck(pid, rest))
  }

  function ParseUnsubAck(v: Version, s: Bytes): Result<Packet, CodecError> {
    match GetPidProps(v, s)
    case Err(e) => Err(e)
    case Ok((pid, rest)) => Ok(UnsubAck(pid, if v == V5 then rest else []))
  }

  /** A length and that many bytes, dropped. */
  function GetCounted(s: Bytes): Parsed<()> {
    match GetVarInt(s)
    case Err(e) => Err(e)
    case Ok((n, rest)) => if |rest| < n then Err(Incomplete) else Ok(((), rest[n..]))
  }

  function Without<T>(p: Parsed<T>): Parsed<Option<u16>> {
    match p
    case Err(e) => Err(e)
    case Ok((_, rest)) => Ok((None, rest))
  }

  /** One property of a v5 CONNACK: the Receive Maximum, or nothing of interest. */
  function GetProperty(s: Bytes): Parsed<Option<u16>> {
    match GetByte(s)
    case Err(e) => Err(e)
    case Ok((id, s1)) =>
      if id == 0x11 || id == 0x13 || id == 0x27 then Without(Take(s1, 4))
      else if id == 0x12 || id == 0x1A || id == 0x1C || id == 0x1F then Without(GetCounted(s1))
      else if id == 0x21 then
        match GetU16(s1)
        case Err(e) => Err(e)
        case Ok((n, s2)) => Ok((Some(n), s2))
      else if id == 0x22 then Without(GetU16(s1))
      else if id == 0x24 || id == 0x25 || id == 0x28 || id == 0x29 || id == 0x2A then Without(GetByte(s1))
      else if id == 0x26 then
        match GetCounted(s1)
        case Err(e) => Err(e)
        case Ok((_, s2)) => Without(GetCounted(s2))
      else Err(Malformed)
  }

  lemma CountedShrinks(s: Bytes)
    ensures GetCounted(s).Ok? ==> |GetCounted(s).value.1| < |s|
  {
    hide Peek;
  }

  lemma PropertyShrinks(s: Bytes)
    ensures GetProperty(s).Ok? ==> |GetProperty(s).value.1| < |s|
  {
    hide GetCounted;
    if s != [] {
      CountedShrinks(s[1..]);
      if GetCounted(s[1..]).Ok? { CountedShrinks(GetCounted(s[1..]).value.1); }
    }
  }

  /** Properties until `tail` bytes are left; the last Receive Maximum counts, a property may not overrun. */
  function GetProperties(s: Bytes, tail: nat, receiveMax: Option<u16>): Parsed<Option<u16>>
    decreases |s|
  {
    if |s| == tail then Ok((receiveMax, s))
    else if |s| < tail then Err(Malformed)
    else
      PropertyShrinks(s);
      match GetProperty(s)
      case Err(e) => Err(e)
      case Ok((x, rest)) => GetProperties(rest, tail, if x.Some? then x else receiveMax)
  }

  function GetConnAckProps(s: Bytes): Parsed<Option<u16>> {
    match GetVarInt(s)
    case Err(e) => Err(e)
    case Ok((block, rest)) => if block > |rest| then Err(Incomplete) else GetProperties(rest, |rest| - block, None)
  }

  function ParseConnAck(v: Version, s: Bytes): Result<Packet, CodecError> {
    match GetByte(s)
    case Err(e) => Err(e)
    case Ok((first, s1)) =>
      if v == V3 then
        match GetByte(s1)
        case Err(e) => Err(e)
        case Ok((code, _)) => Ok(ConnAck(code, first % 2 == 1, None))
      else
        match GetConnAckProps(s1)
        case Err(e) => Err(e)
        case Ok((receiveMax, _)) => Ok(ConnAck(first, false, receiveMax))
  }

  /**
   Section 3.2 of MQTT 5.0 puts the flags before the reason code. The parser has no flags byte in v5,
   so on every successful CONNACK of that layout it takes the flags for the reason and the reason 0
   for an empty property block: the Receive Maximum is never seen, whatever follows.
   */
  lemma StandardConnAckMisread(flags: byte, properties: Bytes)
    ensures Parse(V5, 0x20, [flags, 0] + properties) == Ok(ConnAck(flags, false, None))
  {
    var s := [flags, 0] + properties;
    assert s[1..] == [0] + properties;
    assert ([0] + properties)[1..] == properties;
  }

  /** Parse a complete body; `header` is the fixed header byte. */
  function Parse(v: Version, header: byte, body: Bytes): Result<Packet, CodecError> {
    var kind, flags := header / 16, header % 16;
    if kind == 1 then ParseConnect(v, flags, body)
    else if kind == 2 then ParseConnAck(v, body)
    else if kind == 3 then ParsePublish(v, flags, body)
    else if kind == 4 then ParseAck(v, PubAck, body)
    else if kind == 5 then ParseAck(v, PubRec, body)
    else if kind == 6 then if flags != 2 then Err(Malformed) else ParseAck(v, PubRel, body)
    else if kind == 7 then ParseAck(v, PubComp, body)
    else if kind == 8 then ParseSubscribe(v, flags, body)
    else if kind == 9 then ParseSubAck(v, body)
    else if kind == 10 then ParseUnsubscribe(v, flags, body)
    else if kind == 11 then ParseUnsubAck(v, body)
    else if kind == 12 then Ok(PingReq)
    else if kind == 13 then Ok(PingResp)
    else if kind == 14 then Ok(Disconnect(if v == V5 && body != [] then body[0] else 0))
    else Err(Malformed)
  }

  lemma ConnectIsRepresentable(v: Version, flags: byte, s: Bytes)
    ensures ParseConnect(v, flags, s).Ok? ==> Representable(ParseConnect(v, flags, s).value)
  {
    match GetConnectHead(v, flags, s)
    case Err(_) =>
    case Ok(((f, keepalive), rest)) => ConnectTailIsRepresentable(v, f, keepalive, rest);
  }

  lemma ConnectTailIsRepresentable(v: Version, flags: byte, keepalive: u16, s: Bytes)
    ensures var r := GetConnectTail(v, flags, keepalive, s); r.Ok? ==> Representable(r.value)
  {
    hide Utf8; hide SkipProps;
  }

  lemma PublishIsRepresentable(v: Version, flags: byte, s: Bytes)
    ensures ParsePublish(v, flags, s).Ok? ==> Representable(ParsePublish(v, flags, s).value)
  {
    hide Utf8; hide SkipProps;
  }

  /** Whatever the bytes, a packet the parser returns is a CONNACK or satisfies every field rule. */
  lemma ParsedIsRepresentable(v: Version, header: byte, body: Bytes)
    ensures Parse(v, header, body).Ok? ==>
      var pkt := Parse(v, header, body).value;
      (pkt.ConnAck? <==> header / 16 == 2) && (!pkt.ConnAck? ==> Representable(pkt))
  {
    hide Utf8; hide SkipProps; hide GetConnectHead; hide GetConnectTail; hide ParsePublish; hide GetConnAckProps;
    ConnectIsRepresentable(v, header % 16, body);
    PublishIsRepresentable(v, header % 16, body);
  }

  // ---------------------------------------------------------------------------------------------
  // Reading back what was written
  // ---------------------------------------------------------------------------------------------

  lemma U16Back(n: nat, t: Bytes)
    requires n < 65536
    ensures GetU16(PutU16(n) + t) == Ok((n, t))
  {
    assert (PutU16(n) + t)[2..] == t;
  }

  lemma BinaryBack(s: Bytes, t: Bytes)
    requires Short(s)
    ensures GetBinary(PutString(s) + t) == Ok((s, t))
  {
    assert PutString(s) + t == PutU16(|s|) + (s + t);
    U16Back(|s|, s + t);
    assert (s + t)[..|s|] == s && (s + t)[|s|..] == t;
  }

  lemma StringBack(s: Bytes, t: Bytes)
    requires ShortText(s)
    ensures GetString(PutString(s) + t) == Ok((s, t))
  {
    BinaryBack(s, t);
  }

  function Limit(k: nat): nat {
    if k == 0 then 268435456 else if k == 1 then 2097152 else if k == 2 then 16384 else 128 }

  lemma {:induction false} VarIntBack(n: nat, k: nat, t: Bytes)
    requires k <= 3 && n < Limit(k)
    ensures Peek(PutVarInt(n) + t, k) == Ok(Some((n, |PutVarInt(n)|)))
    decreases n
  {
    if n >= 128 {
      VarIntBack(n / 128, k + 1, t);
      assert (PutVarInt(n) + t)[1..] == PutVarInt(n / 128) + t;
    }
  }

  /** A length of 2^28 or more does not read back. */
  lemma {:induction false} VarIntTooLong(n: nat, k: nat, t: Bytes)
    requires k <= 3 && n >= Limit(k)
    ensures Peek(PutVarInt(n) + t, k) == Err(Malformed)
    decreases n
  {
    if k < 3 {
      VarIntTooLong(n / 128, k + 1, t);
      assert (PutVarInt(n) + t)[1..] == PutVarInt(n / 128) + t;
    }
  }

  /** Fewer bytes than were written: nothing yet. */
  lemma {:induction false} VarIntPartial(n: nat, k: nat, j: nat)
    requires k <= 3 && n < Limit(k) && j < |PutVarInt(n)|
    ensures Peek(PutVarInt(n)[..j], k) == Ok(None)
    decreases n
  {
    if n >= 128 && j > 0 {
      VarIntPartial(n / 128, k + 1, j - 1);
      assert PutVarInt(n)[..j][1..] == PutVarInt(n / 128)[..j - 1];
    }
  }

  lemma PropsBack(v: Version, t: Bytes)
    ensures SkipProps(v, Props(v) + t) == Ok(((), t))
  {
    if v == V5 {
      assert PutVarInt(0) + t == Props(v) + t;
      VarIntBack(0, 0, t);
      assert (Props(v) + t)[1..] == t && t[0..] == t;
    } else {
      assert Props(v) + t == t;
    }
  }

  lemma ConnectPropsBack(v: Version, c: Connect, t: Bytes)
    ensures SkipProps(v, ConnectProps(v, c) + t) == Ok(((), t))
  {
    if v == V5 && c.sessionExpiry.Some? {
      var block := [0x11] + PutU32(c.sessionExpiry.value);
      assert ConnectProps(v, c) + t == PutVarInt(5) + (block + t);
      VarIntBack(5, 0, block + t);
      assert (PutVarInt(5) + (block + t))[1..] == block + t;
      assert (block + t)[5..] == t;
    } else if v == V5 {
      PropsBack(V5, t);
    } else {
      assert ConnectProps(v, c) + t == t;
    }
  }

  lemma {:induction false} FiltersBack(v: Version, filters: seq<(Bytes, QoS)>)
    requires forall i :: 0 <= i < |filters| ==> ShortText(filters[i].0)
    ensures GetFilters(v, FilterBytes(filters)) == Ok(filters)
    decreases |filters|
  {
    hide GetString; hide PutString; hide Utf8; hide Short;
    if filters != [] {
      var (f, q) := filters[0];
      var tail := [q.AsByte()] + FilterBytes(filters[1..]);
      assert FilterBytes(filters) == PutString(f) + tail;
      StringBack(f, tail);
      FiltersBack(v, filters[1..]);
      assert tail[1..] == FilterBytes(filters[1..]);
      assert [filters[0]] + filters[1..] == filters;
    }
  }

  lemma {:induction false} NamesBack(names: seq<Bytes>)
    requires forall i :: 0 <= i < |names| ==> ShortText(names[i])
    ensures GetNames(NameBytes(names)) == Ok(names)
    decreases |names|
  {
    hide GetString; hide PutString; hide Utf8; hide Short;
    if names != [] {
      StringBack(names[0], NameBytes(names[1..]));
      NamesBack(names[1..]);
      assert [names[0]] + names[1..] == names;
    }
  }
}
