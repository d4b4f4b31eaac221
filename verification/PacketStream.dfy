/**
 Whole packets and streams of them: every packet that fits the format survives encoding and
 decoding, no other packet does, and how the bytes are cut into chunks makes no difference.
 */
module PacketStream {
  import opened Wrappers
  import opened Sequences
  import opened Packets
  import opened PacketParsing

  // ---------------------------------------------------------------------------------------------
  // Bodies
  // ---------------------------------------------------------------------------------------------

  /** The fields of a connect flag byte, low to high. */
  lemma FlagFields(f: nat, clean: nat, will: nat, q: nat, r: nat, b: nat, u: nat)
    requires clean <= 1 && will <= 1 && q < 4 && r <= 1 && b <= 1 && u <= 1
    requires f == 2 * (clean + 2 * (will + 2 * (q + 4 * (r + 2 * (b + 2 * u)))))
    ensures f / 2 % 2 == clean && f / 4 % 2 == will
    ensures f / 8 % 4 == q && f / 32 % 2 == r && f / 64 % 2 == b && f / 128 % 2 == u
  {
    assert f / 2 == clean + 2 * (will + 2 * (q + 4 * (r + 2 * (b + 2 * u))));
    assert f / 4 == will + 2 * (q + 4 * (r + 2 * (b + 2 * u)));
    assert f / 8 == q + 4 * (r + 2 * (b + 2 * u));
    assert f / 32 == r + 2 * (b + 2 * u);
    assert f / 64 == b + 2 * u;
    assert f / 128 == u;
  }

  lemma FlagsBack(c: Connect)
    ensures var f := ConnectFlags(c);
      && (f / 2 % 2 == 1 <==> c.clean)
      && (f / 4 % 2 == 0 <==> c.will.None?)
      && (f / 64 % 2 == 1 <==> c.password.Some?)
      && (f / 128 % 2 == 1 <==> SentUsername(c).Some?)
      && (c.will.Some? ==> QoSFrom(f / 8 % 4) == c.will.value.qos && (f / 32 % 2 == 1 <==> c.will.value.retain))
  {
    var b, u := Bit(c.password.Some?), Bit(SentUsername(c).Some?);
    if c.will.Some? {
      var w := c.will.value;
      FlagFields(ConnectFlags(c), Bit(c.clean), 1, w.qos.AsByte(), Bit(w.retain), b, u);
    } else {
      FlagFields(ConnectFlags(c), Bit(c.clean), 0, 0, 0, b, u);
    }
  }

  lemma WillBack(v: Version, c: Connect, t: Bytes)
    requires c.will.Some? ==> ShortText(c.will.value.topic) && Short(c.will.value.payload)
    ensures GetWill(v, ConnectFlags(c), WillBytes(v, c.will) + t) == Ok((c.will, t))
  {
    FlagsBack(c);
    hide ConnectFlags; hide Utf8;
    if c.will.Some? {
      var w := c.will.value;
      var rest := PutString(w.payload) + t;
      assert WillBytes(v, c.will) + t == Props(v) + (PutString(w.topic) + rest);
      PropsBack(v, PutString(w.topic) + rest);
      StringBack(w.topic, rest);
      BinaryBack(w.payload, t);
    } else {
      assert WillBytes(v, c.will) + t == t;
    }
  }

  lemma OptStringBack(s: Option<Bytes>, t: Bytes)
    requires s.Some? ==> Short(s.value)
    ensures GetOptBinary(s.Some?, OptString(s) + t) == Ok((s, t))
    ensures (s.Some? ==> Utf8(s.value)) ==> GetOptString(s.Some?, OptString(s) + t) == Ok((s, t))
  {
    if s.Some? {
      BinaryBack(s.value, t);
    } else {
      assert OptString(s) + t == t;
    }
  }

  lemma ConnectTailBack(v: Version, c: Connect)
    requires Representable(ConnectPacket(c))
    ensures GetConnectTail(v, ConnectFlags(c), c.keepalive,
                           ConnectProps(v, c) +
                             (PutString(c.clientId) + (WillBytes(v, c.will)
                             + (OptString(SentUsername(c)) + OptString(c.password)))))
      == Ok(Normalised(v, ConnectPacket(c)))
  {
    FlagsBack(c);
    hide ConnectFlags; hide Utf8; hide GetWill; hide SkipProps; hide GetString; hide GetOptString;
    hide GetOptBinary; hide ConnectProps;
    var e := OptString(c.password);
    var d := OptString(SentUsername(c)) + e;
    var w := WillBytes(v, c.will) + d;
    ConnectPropsBack(v, c, PutString(c.clientId) + w);
    StringBack(c.clientId, w);
    WillBack(v, c, d);
    NamedBack(c, e);
    OptStringBack(c.password, []);
    assert e + [] == e;
  }

  lemma NamedBack(c: Connect, t: Bytes)
    requires Representable(ConnectPacket(c))
    ensures GetOptString(SentUsername(c).Some?, OptString(SentUsername(c)) + t) == Ok((SentUsername(c), t))
  {
    OptStringBack(SentUsername(c), t);
  }

  lemma NameIsText()
    ensures ShortText(MQTT_NAME)
  {
    assert MQTT_NAME[1..][1..][1..][1..] == [];
  }

  lemma ConnectHeadBack(v: Version, c: Connect, t: Bytes)
    ensures GetConnectHead(v, 0, PutString(MQTT_NAME) + ([Level(v)] + ([ConnectFlags(c)] + (PutU16(c.keepalive) + t))))
      == Ok(((ConnectFlags(c), c.keepalive), t))
  {
    hide ConnectFlags; hide Utf8; hide GetString;
    var s3 := PutU16(c.keepalive) + t;
    var s2 := [ConnectFlags(c)] + s3;
    var s1 := [Level(v)] + s2;
    NameIsText();
    StringBack(MQTT_NAME, s1);
    assert s1[1..] == s2 && s2[1..] == s3;
    U16Back(c.keepalive, t);
  }

  lemma ConnectBack(v: Version, c: Connect)
    requires Representable(ConnectPacket(c))
    ensures ParseConnect(v, 0, ConnectBody(v, c)) == Ok(Normalised(v, ConnectPacket(c)))
  {
    hide ConnectFlags; hide GetConnectHead; hide GetConnectTail; hide PutString; hide WillBytes;
    hide OptString; hide ConnectProps;
    var t := ConnectProps(v, c) +
      (PutString(c.clientId) + (WillBytes(v, c.will) + (OptString(SentUsername(c)) + OptString(c.password))));
    ConnectHeadBack(v, c, t);
    ConnectTailBack(v, c);
    assert ConnectBody(v, c) == PutString(MQTT_NAME) + ([Level(v)] + ([ConnectFlags(c)] + (PutU16(c.keepalive) + t)));
  }

  lemma PublishFlagsBack(p: Publish)
    ensures var flags := PublishHeader(p) % 16;
      flags / 2 % 4 == p.qos.AsByte() && (flags % 2 == 1 <==> p.retain) && (flags / 8 % 2 == 1 <==> p.dup)
  {
  }

  lemma PublishBack(v: Version, p: Publish)
    requires Representable(PublishPacket(p))
    ensures ParsePublish(v, PublishHeader(p) % 16, PublishBody(v, p)) == Ok(PublishPacket(p))
  {
    hide PublishHeader; hide Utf8; hide GetString; hide SkipProps; hide PutU16; hide GetU16; hide PutString; hide Props;
    PublishFlagsBack(p);
    var s3 := p.payload;
    var s2 := Props(v) + s3;
    var s1 := (if p.pid.Some? then PutU16(p.pid.value) else []) + s2;
    assert PublishBody(v, p) == PutString(p.topic) + s1;
    StringBack(p.topic, s1);
    if p.pid.Some? { U16Back(p.pid.value, s2); } else { assert s1 == s2; }
    PropsBack(v, s3);
  }

  lemma AckBack(v: Version, kind: AckKind, pid: u16, reason: byte)
    requires pid != 0
    ensures ParseAck(v, kind, AckBody(v, pid, reason)) == Ok(Normalised(v, Ack(kind, pid, reason)))
  {
    var rest: Bytes := if v == V5 && reason != 0 then [reason, 0] else [];
    U16Back(pid, rest);
    if v == V5 && reason != 0 {
      assert rest[1..] == Props(V5) + [];
      PropsBack(V5, []);
    }
  }

  lemma PidPropsBack(v: Version, pid: u16, t: Bytes)
    requires pid != 0
    ensures GetPidProps(v, PutU16(pid) + Props(v) + t) == Ok((pid, t))
  {
    assert PutU16(pid) + Props(v) + t == PutU16(pid) + (Props(v) + t);
    U16Back(pid, Props(v) + t);
    PropsBack(v, t);
  }

  lemma SubscriptionRoundTrip(v: Version, pkt: Packet)
    requires Representable(pkt) && (pkt.Subscribe? || pkt.SubAck? || pkt.Unsubscribe? || pkt.UnsubAck?)
    ensures EncodeBody(v, pkt).Ok?
    ensures var (header, body) := EncodeBody(v, pkt).value;
      Parse(v, header, body) == Ok(Normalised(v, pkt))
  {
    hide GetPidProps; hide GetFilters; hide GetNames; hide PutU16; hide FilterBytes; hide NameBytes; hide Utf8;
    match pkt
    case Subscribe(pid, filters) => PidPropsBack(v, pid, FilterBytes(filters)); FiltersBack(v, filters);
    case Unsubscribe(pid, names) => PidPropsBack(v, pid, NameBytes(names)); NamesBack(names);
    case SubAck(pid, reasons) => PidPropsBack(v, pid, reasons);
    case UnsubAck(pid, reasons) =>
      var t := if v == V5 then reasons else [];
      PidPropsBack(v, pid, t);
      assert PutU16(pid) + Props(v) + t == PutU16(pid) + if v == V5 then [0] + reasons else [];
  }

  lemma MessageRoundTrip(v: Version, pkt: Packet)
    requires Representable(pkt) && !pkt.Subscribe? && !pkt.SubAck? && !pkt.Unsubscribe? && !pkt.UnsubAck?
    ensures EncodeBody(v, pkt).Ok?
    ensures var (header, body) := EncodeBody(v, pkt).value;
      Parse(v, header, body) == Ok(Normalised(v, pkt))
  {
    hide ParseConnect; hide ParsePublish; hide ParseAck; hide ConnectBody; hide PublishBody; hide AckBody; hide Utf8;
    match pkt
    case ConnectPacket(c) => ConnectBack(v, c);
    case PublishPacket(p) => PublishBack(v, p);
    case Ack(kind, pid, reason) => AckBack(v, kind, pid, reason);
    case _ =>
  }

  /** Every packet within the field rules is parsed back, up to what the version does not carry. */
  lemma BodyRoundTrip(v: Version, pkt: Packet)
    requires Representable(pkt)
    ensures EncodeBody(v, pkt).Ok?
    ensures var (header, body) := EncodeBody(v, pkt).value;
      Parse(v, header, body) == Ok(Normalised(v, pkt))
  {
    hide Representable; hide EncodeBody; hide Parse; hide Normalised;
    if pkt.Subscribe? || pkt.SubAck? || pkt.Unsubscribe? || pkt.UnsubAck? {
      SubscriptionRoundTrip(v, pkt);
    } else {
      MessageRoundTrip(v, pkt);
    }
  }

  // ---------------------------------------------------------------------------------------------
  // Frames
  // ---------------------------------------------------------------------------------------------

  /** One call of the decoder: an answer and the buffer it leaves. */
  function DecodeStep(v: Version, max: nat, buf: Bytes): (r: (Result<Option<Packet>, CodecError>, Bytes))
    ensures r.0.Ok? && r.0.value.Some? ==> |r.1| < |buf|
    ensures r.0 == Ok(None) ==> r.1 == buf
  {
    if |buf| < 2 then (Ok(None), buf)
    else
      match Peek(buf[1..], 0)
      case Err(e) => (Err(e), buf)
      case Ok(None) => (Ok(None), buf)
      case Ok(Some((len, width))) =>
        var total := 1 + width + len;
        if len > max then (Err(PacketTooLarge(len, max)), buf)
        else if |buf| < total then (Ok(None), buf)
        else
          match Parse(v, buf[0], buf[1 + width..total])
          case Err(e) => (Err(e), buf[total..])
          case Ok(pkt) => (Ok(Some(pkt)), buf[total..])
  }

  predicate Fits(v: Version, max: nat, pkt: Packet) {
    && Representable(pkt)
    && EncodeBody(v, pkt).Ok?
    && |EncodeBody(v, pkt).value.1| < MAX_LENGTH
    && |EncodeBody(v, pkt).value.1| <= max
  }

  function FrameOf(v: Version, pkt: Packet): Bytes
    requires Encode(v, pkt).Ok?
  {
    Encode(v, pkt).value
  }

  lemma RawStep(v: Version, max: nat, header: byte, body: Bytes, t: Bytes)
    requires |body| < MAX_LENGTH && |body| <= max
    ensures DecodeStep(v, max, Frame(header, body) + t) ==
      (match Parse(v, header, body) case Err(e) => (Err(e), t) case Ok(pkt) => (Ok(Some(pkt)), t))
  {
    hide Parse; hide PutVarInt; hide Peek;
    var buf := Frame(header, body) + t;
    var len := PutVarInt(|body|);
    VarIntBack(|body|, 0, body + t);
    assert buf[1..] == len + (body + t);
    assert buf[1 + |len|..1 + |len| + |body|] == body;
    assert buf[1 + |len| + |body|..] == t;
  }

  lemma RawPartial(v: Version, max: nat, header: byte, body: Bytes, j: nat)
    requires |body| < MAX_LENGTH && |body| <= max && j < |Frame(header, body)|
    ensures DecodeStep(v, max, Frame(header, body)[..j]) == (Ok(None), Frame(header, body)[..j])
  {
    hide Parse; hide PutVarInt; hide Peek;
    var frame := Frame(header, body);
    var len := PutVarInt(|body|);
    if j >= 2 {
      if j - 1 < |len| {
        assert frame[..j][1..] == len[..j - 1];
        VarIntPartial(|body|, 0, j - 1);
      } else {
        var t := body[..j - 1 - |len|];
        assert frame[..j][1..] == len + t;
        VarIntBack(|body|, 0, t);
      }
    }
  }

  /** A frame followed by anything: the packet comes out and the rest stays. */
  lemma FrameStep(v: Version, max: nat, pkt: Packet, t: Bytes)
    requires Fits(v, max, pkt)
    ensures DecodeStep(v, max, FrameOf(v, pkt) + t) == (Ok(Some(Normalised(v, pkt))), t)
  {
    BodyRoundTrip(v, pkt);
    hide Parse; hide Representable; hide EncodeBody; hide Normalised; hide DecodeStep; hide PutVarInt;
    var (header, body) := EncodeBody(v, pkt).value;
    RawStep(v, max, header, body, t);
  }

  /** A strict prefix of a frame: nothing comes out and the buffer is untouched. */
  lemma FramePartial(v: Version, max: nat, pkt: Packet, j: nat)
    requires Fits(v, max, pkt) && j < |FrameOf(v, pkt)|
    ensures DecodeStep(v, max, FrameOf(v, pkt)[..j]) == (Ok(None), FrameOf(v, pkt)[..j])
  {
    hide Representable; hide EncodeBody; hide DecodeStep; hide PutVarInt;
    var (header, body) := EncodeBody(v, pkt).value;
    RawPartial(v, max, header, body, j);
  }

  lemma NormalisedKeepsRules(v: Version, pkt: Packet)
    requires Representable(Normalised(v, pkt))
    ensures Representable(pkt)
  {
  }

  /**
   Exactly which packets survive: a frame the encoder produces decodes to its packet if and only
   if the packet keeps the field rules and its length fits 28 bits and the receiver's limit.
   */
  lemma SurvivesIff(v: Version, max: nat, pkt: Packet)
    requires EncodeBody(v, pkt).Ok?
    ensures DecodeStep(v, max, FrameOf(v, pkt)) == (Ok(Some(Normalised(v, pkt))), []) <==> Fits(v, max, pkt)
  {
    var frame := FrameOf(v, pkt);
    var (header, body) := EncodeBody(v, pkt).value;
    if Fits(v, max, pkt) {
      FrameStep(v, max, pkt, []);
      assert frame + [] == frame;
    } else {
      NotSurviving(v, max, pkt, header, body);
    }
  }

  lemma NotConnAck(v: Version, pkt: Packet)
    requires EncodeBody(v, pkt).Ok?
    ensures !Normalised(v, pkt).ConnAck?
  {
  }

  lemma NotSurviving(v: Version, max: nat, pkt: Packet, header: byte, body: Bytes)
    requires EncodeBody(v, pkt) == Ok((header, body)) && !Fits(v, max, pkt)
    ensures DecodeStep(v, max, FrameOf(v, pkt)) != (Ok(Some(Normalised(v, pkt))), [])
  {
    hide Parse; hide Representable; hide EncodeBody; hide Normalised; hide PutVarInt; hide Peek;
    var frame, len := FrameOf(v, pkt), PutVarInt(|body|);
    assert frame[1..] == len + body;
    if |body| >= MAX_LENGTH {
      VarIntTooLong(|body|, 0, body);
    } else {
      VarIntBack(|body|, 0, body);
      assert frame[1 + |len|..1 + |len| + |body|] == body;
      ParsedIsRepresentable(v, header, body);
      NotConnAck(v, pkt);
      if Representable(Normalised(v, pkt)) { NormalisedKeepsRules(v, pkt); }
    }
  }

  // ---------------------------------------------------------------------------------------------
  // Streams
  // ---------------------------------------------------------------------------------------------

  predicate AllFit(v: Version, max: nat, pkts: seq<Packet>) {
    forall i :: 0 <= i < |pkts| ==> Fits(v, max, pkts[i])
  }

  function Stream(v: Version, max: nat, pkts: seq<Packet>): Bytes
    requires AllFit(v, max, pkts)
  {
    if pkts == [] then [] else FrameOf(v, pkts[0]) + Stream(v, max, pkts[1..])
  }

  function AllNormalised(v: Version, pkts: seq<Packet>): seq<Packet> {
    if pkts == [] then [] else [Normalised(v, pkts[0])] + AllNormalised(v, pkts[1..])
  }

  /** What repeated decoding leaves: packets in order, the unread bytes, and an error if one stopped it. */
  datatype Drained = Drained(packets: seq<Packet>, rest: Bytes, error: Option<CodecError>)

  /** Decode until nothing more comes out. */
  function Drain(v: Version, max: nat, buf: Bytes): Drained
    decreases |buf|
  {
    match DecodeStep(v, max, buf)
    case (Err(e), rest) => Drained([], rest, Some(e))
    case (Ok(None), rest) => Drained([], rest, None)
    case (Ok(Some(pkt)), rest) =>
      var d := Drain(v, max, rest);
      d.(packets := [pkt] + d.packets)
  }

  /** Feed chunks one by one, draining the buffer after each. */
  function Feed(v: Version, max: nat, buf: Bytes, chunks: seq<Bytes>): Drained
    decreases |chunks|
  {
    if chunks == [] then Drained([], buf, None)
    else
      var d := Drain(v, max, buf + chunks[0]);
      if d.error.Some? then d
      else
        var more := Feed(v, max, d.rest, chunks[1..]);
        more.(packets := d.packets + more.packets)
  }

  function Flatten(chunks: seq<Bytes>): Bytes {
    if chunks == [] then [] else chunks[0] + Flatten(chunks[1..])
  }

  // ---------------------------------------------------------------------------------------------
  // Any bytes, any chunks
  // ---------------------------------------------------------------------------------------------

  /** More bytes do not change a length that was read or refused. */
  lemma {:induction false} PeekStable(s: Bytes, t: Bytes, k: nat)
    ensures Peek(s, k) != Ok(None) ==> Peek(s + t, k) == Peek(s, k)
    decreases |s|
  {
    if s != [] {
      PeekStable(s[1..], t, k + 1);
      assert (s + t)[1..] == s[1..] + t;
    }
  }

  /** More bytes do not change an answer that was given. */
  lemma StepStable(v: Version, max: nat, buf: Bytes, more: Bytes)
    ensures var (r, rest) := DecodeStep(v, max, buf);
      r != Ok(None) ==> DecodeStep(v, max, buf + more) == (r, rest + more)
  {
    hide Parse; hide Peek;
    if |buf| >= 2 {
      PeekStable(buf[1..], more, 0);
      assert (buf + more)[1..] == buf[1..] + more;
      var p := Peek(buf[1..], 0);
      if p.Ok? && p.value.Some? {
        var (len, width) := p.value.value;
        var total := 1 + width + len;
        if total <= |buf| {
          assert (buf + more)[1 + width..total] == buf[1 + width..total];
          assert (buf + more)[total..] == buf[total..] + more;
        }
      }
    }
  }

  /** Draining stops at an error or where the next call gives nothing. */
  lemma {:induction false} DrainStops(v: Version, max: nat, buf: Bytes)
    ensures var d := Drain(v, max, buf); d.error.None? ==> DecodeStep(v, max, d.rest) == (Ok(None), d.rest)
    decreases |buf|
  {
    var (r, rest) := DecodeStep(v, max, buf);
    if r.Ok? && r.value.Some? { DrainStops(v, max, rest); }
  }

  function After(d: Drained, e: Drained): Drained { e.(packets := d.packets + e.packets) }

  /** Draining more bytes continues where draining fewer stopped. */
  lemma {:induction false} DrainMore(v: Version, max: nat, buf: Bytes, more: Bytes)
    ensures var d := Drain(v, max, buf);
      Drain(v, max, buf + more) ==
        if d.error.Some? then d.(rest := d.rest + more) else After(d, Drain(v, max, d.rest + more))
    decreases |buf|
  {
    hide DecodeStep;
    var (r, rest) := DecodeStep(v, max, buf);
    StepStable(v, max, buf, more);
    if r.Ok? && r.value.Some? {
      StepShrinks(v, max, buf);
      StepShrinks(v, max, buf + more);
      DrainMore(v, max, rest, more);
      var d := Drain(v, max, rest);
      if d.error.None? { Associative([r.value.value], d.packets, Drain(v, max, d.rest + more).packets); }
    } else if r == Ok(None) {
      StepShrinks(v, max, buf);
      assert [] + Drain(v, max, buf + more).packets == Drain(v, max, buf + more).packets;
    }
  }

  lemma StepShrinks(v: Version, max: nat, buf: Bytes)
    ensures var (r, rest) := DecodeStep(v, max, buf);
      (r.Ok? && r.value.Some? ==> |rest| < |buf|) && (r == Ok(None) ==> rest == buf)
  {
  }

  lemma {:induction false} FeedIsDrain(v: Version, max: nat, buf: Bytes, chunks: seq<Bytes>)
    requires DecodeStep(v, max, buf) == (Ok(None), buf)
    ensures var f, d := Feed(v, max, buf, chunks), Drain(v, max, buf + Flatten(chunks));
      f.packets == d.packets && f.error == d.error && (d.error.None? ==> f.rest == d.rest)
    decreases |chunks|
  {
    hide DecodeStep;
    if chunks == [] {
      assert buf + [] == buf;
    } else {
      hide Drain;
      var more := Flatten(chunks[1..]);
      Associative(buf, chunks[0], more);
      var d := Drain(v, max, buf + chunks[0]);
      DrainMore(v, max, buf + chunks[0], more);
      DrainStops(v, max, buf + chunks[0]);
      if d.error.None? { FeedIsDrain(v, max, d.rest, chunks[1..]); }
    }
  }

  /**
   Chunking is invisible on every byte stream: however the bytes are cut up, feeding the pieces gives
   the packets and the error that decoding all of them at once gives, and the same unread bytes when
   there is no error.
   */
  lemma ChunkingIsInvisible(v: Version, max: nat, chunks: seq<Bytes>)
    ensures var f, d := Feed(v, max, [], chunks), Drain(v, max, Flatten(chunks));
      f.packets == d.packets && f.error == d.error && (d.error.None? ==> f.rest == d.rest)
  {
    assert [] + Flatten(chunks) == Flatten(chunks);
    FeedIsDrain(v, max, [], chunks);
  }

  lemma {:induction false} DrainStream(v: Version, max: nat, pkts: seq<Packet>)
    requires AllFit(v, max, pkts)
    ensures Drain(v, max, Stream(v, max, pkts)) == Drained(AllNormalised(v, pkts), [], None)
    decreases |pkts|
  {
    hide DecodeStep; hide Representable; hide EncodeBody; hide Normalised; hide PutVarInt;
    if pkts == [] {
      DrainEmpty(v, max);
    } else {
      assert Fits(v, max, pkts[0]);
      var tail := Stream(v, max, pkts[1..]);
      FrameStep(v, max, pkts[0], tail);
      StepShrinks(v, max, FrameOf(v, pkts[0]) + tail);
      DrainStream(v, max, pkts[1..]);
    }
  }

  lemma DrainEmpty(v: Version, max: nat)
    ensures Drain(v, max, []) == Drained([], [], None)
  {
  }

  /** However the bytes of a list of packets are cut up, exactly those packets come out and nothing is left. */
  lemma StreamRoundTrip(v: Version, max: nat, pkts: seq<Packet>, chunks: seq<Bytes>)
    requires AllFit(v, max, pkts) && Flatten(chunks) == Stream(v, max, pkts)
    ensures Feed(v, max, [], chunks) == Drained(AllNormalised(v, pkts), [], None)
  {
    ChunkingIsInvisible(v, max, chunks);
    DrainStream(v, max, pkts);
  }
}
