/**
 Exactly which bytes are which packet: a grammar of bodies as concatenations of fields, written
 without any parser, and the proof that the decoder accepts a body as a packet if and only if the
 grammar does.
 */
module PacketGrammar {
  import opened Wrappers
  import opened Sequences
  import opened Packets
  import opened PacketParsing
  import opened PacketLayout
  import opened PacketStream

  // ---------------------------------------------------------------------------------------------
  // Fields
  // ---------------------------------------------------------------------------------------------

  /** Up to four bytes, all but the last with the high bit set. */
  predicate IsVarInt(b: Bytes) {
    1 <= |b| <= 4 && b[|b| - 1] < 128 && forall i :: 0 <= i < |b| - 1 ==> b[i] >= 128
  }

  /** Seven bits a byte, low bits first. */
  function ValueOf(b: Bytes): nat {
    if b == [] then 0 else b[0] % 128 + 128 * ValueOf(b[1..])
  }

  /** A length and as many bytes. */
  ghost predicate Counted(b: Bytes) {
    exists w :: 1 <= w <= |b| && IsVarInt(b[..w]) && |b| == w + ValueOf(b[..w])
  }

  ghost predicate PropertyBlock(v: Version, b: Bytes) { if v == V3 then b == [] else Counted(b) }

  lemma {:induction false} PeekTook(s: Bytes, k: nat)
    requires k <= 3
    ensures Peek(s, k).Ok? && Peek(s, k).value.Some? ==>
      var (n, w) := Peek(s, k).value.value;
      w <= 4 - k && IsVarInt(s[..w]) && ValueOf(s[..w]) == n
    decreases |s|
  {
    hide ValueOf;
    if s != [] {
      if s[0] < 128 {
        assert s[..1] == [s[0]] + [];
        ValueStep(s[0], []);
      } else if k < 3 {
        PeekTook(s[1..], k + 1);
        var p := Peek(s[1..], k + 1);
        if p.Ok? && p.value.Some? {
          var w := p.value.value.1;
          assert s[..w + 1] == [s[0]] + s[1..][..w];
          ValueStep(s[0], s[1..][..w]);
        }
      }
    }
  }

  lemma ValueStep(b: byte, t: Bytes)
    ensures ValueOf([b] + t) == b % 128 + 128 * ValueOf(t) && (t == [] ==> ValueOf([b] + t) == b % 128)
  {
    assert ([b] + t)[1..] == t;
  }

  lemma {:induction false} PeekBack(b: Bytes, t: Bytes, k: nat)
    requires IsVarInt(b) && |b| + k <= 4
    ensures Peek(b + t, k) == Ok(Some((ValueOf(b), |b|)))
    decreases |b|
  {
    if |b| == 1 {
      assert b[1..] == [];
    } else {
      assert IsVarInt(b[1..]);
      PeekBack(b[1..], t, k + 1);
      assert (b + t)[1..] == b[1..] + t;
    }
  }

  lemma CountedTook(s: Bytes) returns (block: Bytes)
    ensures GetCounted(s).Ok? ==> Counted(block) && s == block + GetCounted(s).value.1
  {
    hide Peek; hide ValueOf; hide IsVarInt;
    PeekTook(s, 0);
    var p := Peek(s, 0);
    block := [];
    if GetCounted(s).Ok? {
      var (n, w) := p.value.value;
      block := s[..w + n];
      assert s[w..][n..] == s[w + n..] && block[..w] == s[..w];
    }
  }

  lemma CountedBack(block: Bytes, t: Bytes)
    requires Counted(block)
    ensures GetCounted(block + t) == Ok(((), t))
  {
    hide Peek; hide ValueOf;
    var w :| 1 <= w <= |block| && IsVarInt(block[..w]) && |block| == w + ValueOf(block[..w]);
    assert block + t == block[..w] + (block[w..] + t);
    PeekBack(block[..w], block[w..] + t, 0);
    var n := ValueOf(block[..w]);
    assert (block + t)[w..] == block[w..] + t && (block[w..] + t)[n..] == t;
  }

  lemma PropsTook(v: Version, s: Bytes) returns (block: Bytes)
    ensures SkipProps(v, s).Ok? ==> PropertyBlock(v, block) && s == block + SkipProps(v, s).value.1
  {
    hide GetVarInt; hide Counted;
    if v == V3 {
      block := [];
      assert [] + s == s;
    } else {
      block := CountedTook(s);
    }
  }

  lemma BlockBack(v: Version, block: Bytes, t: Bytes)
    requires PropertyBlock(v, block)
    ensures SkipProps(v, block + t) == Ok(((), t))
  {
    hide GetVarInt; hide Counted;
    if v == V3 { assert block + t == t; } else { CountedBack(block, t); }
  }

  lemma U16Took(s: Bytes)
    ensures GetU16(s).Ok? ==> s == Two(GetU16(s).value.0) + GetU16(s).value.1
  {
  }

  lemma TwoBack(n: u16, t: Bytes)
    ensures GetU16(Two(n) + t) == Ok((n, t))
  {
    U16Back(n, t);
  }

  lemma BinaryTook(s: Bytes)
    ensures GetBinary(s).Ok? ==> var (x, rest) := GetBinary(s).value; |x| <= 65535 && s == Text(x) + rest
  {
    U16Took(s);
    if GetU16(s).Ok? {
      var (n, rest) := GetU16(s).value;
      if |rest| >= n { assert rest == rest[..n] + rest[n..]; }
    }
  }

  lemma StringTook(s: Bytes)
    ensures GetString(s).Ok? ==> var (x, rest) := GetString(s).value; |x| <= 65535 && Utf8(x) && s == Text(x) + rest
  {
    hide Utf8; hide GetBinary; hide Text;
    BinaryTook(s);
  }

  lemma TextBack(x: Bytes, t: Bytes)
    requires |x| <= 65535
    ensures GetBinary(Text(x) + t) == Ok((x, t)) && (Utf8(x) ==> GetString(Text(x) + t) == Ok((x, t)))
  {
    hide Utf8;
    BinaryBack(x, t);
  }

  // ---------------------------------------------------------------------------------------------
  // PUBLISH and acknowledgements
  // ---------------------------------------------------------------------------------------------

  predicate GoodText(x: Bytes) { |x| <= 65535 && Utf8(x) }

  ghost predicate PublishForm(v: Version, flags: int, body: Bytes, p: Publish) {
    && flags / 2 % 4 == Number(p.qos) && (flags % 2 == 1 <==> p.retain) && (flags / 8 % 2 == 1 <==> p.dup)
    && GoodText(p.topic) && p.topic != [] && (p.qos == AtMostOnce <==> p.pid.None?) && p.pid != Some(0)
    && exists block :: PropertyBlock(v, block)
         && body == Text(p.topic) + (if p.pid.Some? then Two(p.pid.value) else []) + block + p.payload
  }

  lemma PublishTook(v: Version, flags: byte, body: Bytes, p: Publish)
    requires ParsePublish(v, flags, body) == Ok(PublishPacket(p))
    ensures PublishForm(v, flags, body, p)
  {
    hide GetString; hide SkipProps; hide GetU16; hide Utf8; hide PropertyBlock; hide Text; hide Two;
    StringTook(body);
    var s1 := GetString(body).value.1;
    U16Took(s1);
    var s2 := if flags / 2 % 4 == 0 then s1 else GetU16(s1).value.1;
    var block := PropsTook(v, s2);
    var id := if p.pid.Some? then Two(p.pid.value) else [];
    assert s1 == id + s2;
    Associative(Text(p.topic), id, s2);
    Associative(Text(p.topic) + id, block, p.payload);
  }

  lemma PublishBackFrom(v: Version, flags: byte, body: Bytes, p: Publish)
    requires PublishForm(v, flags, body, p)
    ensures ParsePublish(v, flags, body) == Ok(PublishPacket(p))
  {
    hide GetString; hide SkipProps; hide GetU16; hide Utf8; hide PropertyBlock; hide Text; hide Two;
    var id := if p.pid.Some? then Two(p.pid.value) else [];
    var block :| PropertyBlock(v, block) && body == Text(p.topic) + id + block + p.payload;
    Associative(Text(p.topic) + id, block, p.payload);
    Associative(Text(p.topic), id, block + p.payload);
    TextBack(p.topic, id + (block + p.payload));
    if p.pid.Some? {
      TwoBack(p.pid.value, block + p.payload);
    } else {
      assert id + (block + p.payload) == block + p.payload;
    }
    BlockBack(v, block, p.payload);
  }

  ghost predicate AckForm(v: Version, body: Bytes, pid: u16, reason: byte) {
    pid != 0 &&
    if v == V3 then reason == 0 && exists rest :: body == Two(pid) + rest
    else
      || (body == Two(pid) && reason == 0)
      || body == Two(pid) + [reason]
      || exists block, rest :: PropertyBlock(V5, block) && body == Two(pid) + [reason] + block + rest
  }

  lemma AckTook(v: Version, kind: AckKind, body: Bytes, pid: u16, reason: byte)
    requires ParseAck(v, kind, body) == Ok(Ack(kind, pid, reason))
    ensures AckForm(v, body, pid, reason)
  {
    hide SkipProps; hide PropertyBlock; hide Two; hide GetU16;
    U16Took(body);
    var s1 := GetU16(body).value.1;
    if v == V5 && s1 != [] {
      if |s1| == 1 {
        assert s1 == [reason];
      } else {
        var block := PropsTook(V5, s1[1..]);
        var rest := SkipProps(V5, s1[1..]).value.1;
        assert s1 == [reason] + s1[1..];
        Associative(Two(pid), [reason], s1[1..]);
        Associative(Two(pid) + [reason], block, rest);
      }
    } else if v == V5 {
      assert Two(pid) + [] == Two(pid);
    }
  }

  lemma AckBackFrom(v: Version, kind: AckKind, body: Bytes, pid: u16, reason: byte)
    requires AckForm(v, body, pid, reason)
    ensures ParseAck(v, kind, body) == Ok(Ack(kind, pid, reason))
  {
    hide SkipProps; hide PropertyBlock; hide Two; hide GetU16;
    if v == V3 {
      var rest :| body == Two(pid) + rest;
      TwoBack(pid, rest);
    } else if body == Two(pid) && reason == 0 {
      assert Two(pid) + [] == Two(pid);
      TwoBack(pid, []);
    } else if body == Two(pid) + [reason] {
      TwoBack(pid, [reason]);
    } else {
      var block, rest :| PropertyBlock(V5, block) && body == Two(pid) + [reason] + block + rest;
      Associative(Two(pid) + [reason], block, rest);
      Associative(Two(pid), [reason], block + rest);
      TwoBack(pid, [reason] + (block + rest));
      assert ([reason] + (block + rest))[1..] == block + rest;
      BlockNotEmpty(block);
      BlockBack(V5, block, rest);
    }
  }

  lemma BlockNotEmpty(block: Bytes)
    requires PropertyBlock(V5, block)
    ensures block != []
  {
  }

  // ---------------------------------------------------------------------------------------------
  // Subscriptions
  // ---------------------------------------------------------------------------------------------

  /** Text and one option byte for each filter. */
  function Entries(filters: seq<(Bytes, QoS)>, opts: Bytes): Bytes
    requires |filters| == |opts|
  {
    if filters == [] then [] else Text(filters[0].0) + [opts[0]] + Entries(filters[1..], opts[1..])
  }

  /** The low two bits are the QoS, 3 standing for 2; version 3 has no other bits. */
  predicate GoodOption(v: Version, b: byte, q: QoS) {
    && (b % 4 == 0 <==> q == AtMostOnce) && (b % 4 == 1 <==> q == AtLeastOnce) && (v == V3 ==> b < 4)
  }

  predicate GoodEntries(v: Version, filters: seq<(Bytes, QoS)>, opts: Bytes) {
    && |filters| == |opts|
    && forall i :: 0 <= i < |filters| ==> GoodText(filters[i].0) && GoodOption(v, opts[i], filters[i].1)
  }

  lemma {:induction false} FiltersTook(v: Version, s: Bytes) returns (opts: Bytes)
    ensures GetFilters(v, s).Ok? ==>
      var filters := GetFilters(v, s).value; GoodEntries(v, filters, opts) && s == Entries(filters, opts)
    decreases |s|
  {
    hide GetString; hide Utf8; hide Text;
    opts := [];
    if s != [] && GetFilters(v, s).Ok? {
      var all := GetFilters(v, s).value;
      StringTook(s);
      GetStringShrinks(s);
      var (f, rest) := GetString(s).value;
      var left := rest[1..];
      var more := FiltersTook(v, left);
      opts := [rest[0]] + more;
      assert all[1..] == GetFilters(v, left).value && opts[1..] == more;
      assert rest == [rest[0]] + left;
      Associative(Text(f), [rest[0]], left);
    }
  }

  lemma GetStringShrinks(s: Bytes)
    ensures GetString(s).Ok? ==> |GetString(s).value.1| < |s|
  {
  }

  lemma {:induction false} FiltersBackFrom(v: Version, filters: seq<(Bytes, QoS)>, opts: Bytes)
    requires GoodEntries(v, filters, opts)
    ensures GetFilters(v, Entries(filters, opts)) == Ok(filters)
    decreases |filters|
  {
    hide GetString; hide Utf8; hide Text;
    if filters != [] {
      var f, b := filters[0].0, opts[0];
      var tail := Entries(filters[1..], opts[1..]);
      assert GoodEntries(v, filters[1..], opts[1..]);
      FiltersBackFrom(v, filters[1..], opts[1..]);
      Associative(Text(f), [b], tail);
      TextBack(f, [b] + tail);
      assert ([b] + tail)[1..] == tail;
      TextNotEmpty(f);
      assert [filters[0]] + filters[1..] == filters;
    }
  }

  lemma TextNotEmpty(x: Bytes)
    ensures |Text(x)| == 2 + |x|
  {
  }

  function Names(names: seq<Bytes>): Bytes { if names == [] then [] else Text(names[0]) + Names(names[1..]) }

  predicate GoodNames(names: seq<Bytes>) { forall i :: 0 <= i < |names| ==> GoodText(names[i]) }

  lemma {:induction false} NamesTook(s: Bytes)
    ensures GetNames(s).Ok? ==> GoodNames(GetNames(s).value) && s == Names(GetNames(s).value)
    decreases |s|
  {
    hide GetString; hide Utf8; hide Text;
    if s != [] && GetNames(s).Ok? {
      StringTook(s);
      GetStringShrinks(s);
      var rest := GetString(s).value.1;
      NamesTook(rest);
      assert GetNames(s).value[1..] == GetNames(rest).value;
    }
  }

  lemma {:induction false} NamesBackFrom(names: seq<Bytes>)
    requires GoodNames(names)
    ensures GetNames(Names(names)) == Ok(names)
    decreases |names|
  {
    hide GetString; hide Utf8; hide Text;
    if names != [] {
      NamesBackFrom(names[1..]);
      TextBack(names[0], Names(names[1..]));
      TextNotEmpty(names[0]);
      assert [names[0]] + names[1..] == names;
    }
  }

  /** An id, the property block, and what comes after. */
  ghost predicate IdForm(v: Version, body: Bytes, pid: u16, rest: Bytes) {
    pid != 0 && exists block :: PropertyBlock(v, block) && body == Two(pid) + block + rest
  }

  lemma IdIff(v: Version, body: Bytes, pid: u16, rest: Bytes)
    ensures GetPidProps(v, body) == Ok((pid, rest)) <==> IdForm(v, body, pid, rest)
  {
    hide SkipProps; hide PropertyBlock; hide Two; hide GetU16;
    if GetPidProps(v, body) == Ok((pid, rest)) {
      U16Took(body);
      var s1 := GetU16(body).value.1;
      var block := PropsTook(v, s1);
      Associative(Two(pid), block, rest);
    }
    if IdForm(v, body, pid, rest) {
      var block :| PropertyBlock(v, block) && body == Two(pid) + block + rest;
      Associative(Two(pid), block, rest);
      TwoBack(pid, block + rest);
      BlockBack(v, block, rest);
    }
  }

  // ---------------------------------------------------------------------------------------------
  // CONNECT
  // ---------------------------------------------------------------------------------------------

  /** The bits of the flag byte that a CONNECT is read by. */
  predicate ConnectBits(flags: int, c: Connect) {
    && (flags / 2 % 2 == 1 <==> c.clean) && (flags / 4 % 2 == 1 <==> c.will.Some?)
    && (flags / 128 % 2 == 1 <==> c.username.Some?) && (flags / 64 % 2 == 1 <==> c.password.Some?)
    && (c.will.Some? ==>
          && (flags / 8 % 4 == 0 <==> c.will.value.qos == AtMostOnce)
          && (flags / 8 % 4 == 1 <==> c.will.value.qos == AtLeastOnce)
          && (flags / 32 % 2 == 1 <==> c.will.value.retain))
  }

  function WillField(w: Option<Will>, block: Bytes): Bytes {
    if w.None? then [] else block + Text(w.value.topic) + Text(w.value.payload)
  }

  function OptField(x: Option<Bytes>): Bytes { if x.None? then [] else Text(x.value) }

  predicate ConnectTexts(c: Connect) {
    && GoodText(c.clientId) && (c.username.Some? ==> GoodText(c.username.value))
    && (c.password.Some? ==> |c.password.value| <= 65535)
    && (c.will.Some? ==> GoodText(c.will.value.topic) && |c.will.value.payload| <= 65535)
  }

  predicate TailPieces(s: Bytes, c: Connect, block: Bytes, willBlock: Bytes, rest: Bytes) {
    var names := OptField(c.username) + (OptField(c.password) + rest);
    s == block + (Text(c.clientId) + (WillField(c.will, willBlock) + names))
  }

  /** What follows the keepalive; anything may stand at the end. */
  ghost predicate ConnectTailForm(v: Version, flags: int, s: Bytes, c: Connect) {
    && ConnectBits(flags, c) && ConnectTexts(c) && c.sessionExpiry == None
    && exists block, willBlock, rest ::
         PropertyBlock(v, block) && PropertyBlock(v, willBlock) && TailPieces(s, c, block, willBlock, rest)
  }

  predicate HeadPieces(body: Bytes, c: Connect, name: Bytes, level: byte, flags: byte, tail: Bytes) {
    body == Text(name) + ([level] + ([flags] + (Two(c.keepalive) + tail)))
  }

  ghost predicate ConnectForm(v: Version, headerFlags: int, body: Bytes, c: Connect) {
    && (v == V3 ==> headerFlags == 0)
    && exists name: Bytes, level: byte, flags: byte, tail: Bytes ::
         && HeadPieces(body, c, name, level, flags, tail) && ConnectTailForm(v, flags, tail, c)
         && (name == [77, 81, 84, 84] || name == [77, 81, 73, 115, 100, 112]) && 3 <= level <= 5
  }

  lemma EmptyBlock(v: Version) returns (block: Bytes)
    ensures PropertyBlock(v, block)
  {
    block := if v == V3 then [] else [0];
    if v == V5 {
      assert block[..1] == block && IsVarInt(block) && block[1..] == [] && ValueOf(block) == 0;
      assert Counted(block);
    }
  }

  predicate WillBits(flags: int, w: Option<Will>) {
    && (flags / 4 % 2 == 1 <==> w.Some?)
    && (w.Some? ==>
          && (flags / 8 % 4 == 0 <==> w.value.qos == AtMostOnce) && (flags / 8 % 4 == 1 <==> w.value.qos == AtLeastOnce)
          && (flags / 32 % 2 == 1 <==> w.value.retain))
  }

  predicate WillTexts(w: Option<Will>) { w.Some? ==> GoodText(w.value.topic) && |w.value.payload| <= 65535 }

  lemma WillTook(v: Version, flags: byte, s: Bytes) returns (block: Bytes)
    ensures PropertyBlock(v, block)
    ensures GetWill(v, flags, s).Ok? ==>
      var (w, rest) := GetWill(v, flags, s).value;
      WillBits(flags, w) && WillTexts(w) && s == WillField(w, block) + rest
  {
    hide PropertyBlock; hide SkipProps; hide GetString; hide GetBinary; hide Utf8; hide Text;
    block := EmptyBlock(v);
    if flags / 4 % 2 == 0 {
      assert [] + s == s;
    } else if GetWill(v, flags, s).Ok? {
      block := PropsTook(v, s);
      var s1 := SkipProps(v, s).value.1;
      StringTook(s1);
      var (topic, s2) := GetString(s1).value;
      BinaryTook(s2);
      var (payload, s3) := GetBinary(s2).value;
      Associative(block, Text(topic), Text(payload) + s3);
      Associative(block + Text(topic), Text(payload), s3);
    }
  }

  lemma WillBackFrom(v: Version, flags: byte, w: Option<Will>, block: Bytes, t: Bytes)
    requires PropertyBlock(v, block) && WillBits(flags, w) && WillTexts(w)
    ensures GetWill(v, flags, WillField(w, block) + t) == Ok((w, t))
  {
    hide PropertyBlock; hide SkipProps; hide GetString; hide GetBinary; hide Utf8; hide Text;
    if w.None? {
      assert [] + t == t;
    } else {
      var topic, payload := w.value.topic, w.value.payload;
      Associative(block + Text(topic), Text(payload), t);
      Associative(block, Text(topic), Text(payload) + t);
      BlockBack(v, block, Text(topic) + (Text(payload) + t));
      TextBack(topic, Text(payload) + t);
      TextBack(payload, t);
    }
  }

  lemma OptStringIff(present: bool, s: Bytes, x: Option<Bytes>, t: Bytes)
    ensures GetOptString(present, s) == Ok((x, t)) <==>
      (present <==> x.Some?) && (x.Some? ==> GoodText(x.value)) && s == OptField(x) + t
  {
    hide GetString; hide Utf8; hide Text;
    assert [] + t == t;
    StringTook(s);
    if x.Some? && |x.value| <= 65535 { TextBack(x.value, t); }
  }

  lemma OptBinaryIff(present: bool, s: Bytes, x: Option<Bytes>, t: Bytes)
    ensures GetOptBinary(present, s) == Ok((x, t)) <==>
      (present <==> x.Some?) && (x.Some? ==> |x.value| <= 65535) && s == OptField(x) + t
  {
    hide GetBinary; hide Text;
    assert [] + t == t;
    BinaryTook(s);
    if x.Some? && |x.value| <= 65535 { TextBack(x.value, t); }
  }

  lemma ConnectTailTook(v: Version, flags: byte, keepalive: u16, s: Bytes, c: Connect)
    requires GetConnectTail(v, flags, keepalive, s) == Ok(ConnectPacket(c))
    ensures c.keepalive == keepalive && ConnectTailForm(v, flags, s, c)
  {
    hide PropertyBlock; hide SkipProps; hide GetString; hide GetWill; hide GetOptString; hide GetOptBinary; hide Utf8;
    hide Text; hide WillField; hide OptField;
    var block := PropsTook(v, s);
    var s1 := SkipProps(v, s).value.1;
    StringTook(s1);
    var s2 := GetString(s1).value.1;
    var willBlock := WillTook(v, flags, s2);
    var s3 := GetWill(v, flags, s2).value.1;
    var s4 := GetOptString(flags / 128 % 2 == 1, s3).value.1;
    OptStringIff(flags / 128 % 2 == 1, s3, c.username, s4);
    var s5 := GetOptBinary(flags / 64 % 2 == 1, s4).value.1;
    OptBinaryIff(flags / 64 % 2 == 1, s4, c.password, s5);
    assert TailPieces(s, c, block, willBlock, s5);
  }

  lemma ConnectTailFrom(v: Version, flags: byte, s: Bytes, c: Connect)
    requires ConnectTailForm(v, flags, s, c)
    ensures GetConnectTail(v, flags, c.keepalive, s) == Ok(ConnectPacket(c))
  {
    hide PropertyBlock; hide SkipProps; hide GetString; hide GetWill; hide GetOptString; hide GetOptBinary; hide Utf8;
    hide Text; hide WillField; hide OptField;
    var block, willBlock, rest :|
      PropertyBlock(v, block) && PropertyBlock(v, willBlock) && TailPieces(s, c, block, willBlock, rest);
    var s4 := OptField(c.password) + rest;
    var s3 := OptField(c.username) + s4;
    var s2 := WillField(c.will, willBlock) + s3;
    BlockBack(v, block, Text(c.clientId) + s2);
    TextBack(c.clientId, s2);
    WillBackFrom(v, flags, c.will, willBlock, s3);
    OptStringIff(flags / 128 % 2 == 1, s3, c.username, s4);
    OptBinaryIff(flags / 64 % 2 == 1, s4, c.password, rest);
  }

  lemma ConnectIff(v: Version, headerFlags: byte, body: Bytes, c: Connect)
    requires headerFlags < 16
    ensures ParseConnect(v, headerFlags, body) == Ok(ConnectPacket(c)) <==> ConnectForm(v, headerFlags, body, c)
  {
    hide ConnectTailForm; hide GetConnectTail; hide GetConnectHead;
    if ParseConnect(v, headerFlags, body) == Ok(ConnectPacket(c)) {
      var ((flags, keepalive), tail) := GetConnectHead(v, headerFlags, body).value;
      ConnectTailTook(v, flags, keepalive, tail, c);
      var name, level := HeadTook(v, headerFlags, body);
      assert HeadPieces(body, c, name, level, flags, tail);
    }
    if ConnectForm(v, headerFlags, body, c) {
      var name: Bytes, level: byte, flags: byte, tail: Bytes :|
        && HeadPieces(body, c, name, level, flags, tail) && ConnectTailForm(v, flags, tail, c)
        && (name == [77, 81, 84, 84] || name == [77, 81, 73, 115, 100, 112]) && 3 <= level <= 5;
      HeadFrom(v, headerFlags, body, c, name, level, flags, tail);
      ConnectTailFrom(v, flags, tail, c);
    }
  }

  lemma HeadTook(v: Version, headerFlags: byte, body: Bytes) returns (name: Bytes, level: byte)
    requires headerFlags < 16
    ensures GetConnectHead(v, headerFlags, body).Ok? ==>
      var ((flags, keepalive), tail) := GetConnectHead(v, headerFlags, body).value;
      && (v == V3 ==> headerFlags == 0) && 3 <= level <= 5
      && (name == [77, 81, 84, 84] || name == [77, 81, 73, 115, 100, 112])
      && body == Text(name) + ([level] + ([flags] + (Two(keepalive) + tail)))
  {
    hide GetString; hide Utf8; hide Text; hide GetU16; hide Two;
    name, level := [], 0;
    if GetConnectHead(v, headerFlags, body).Ok? {
      StringTook(body);
      var s1;
      name, s1 := GetString(body).value.0, GetString(body).value.1;
      level := s1[0];
      U16Took(s1[1..][1..]);
      assert s1 == [s1[0]] + s1[1..] && s1[1..] == [s1[1..][0]] + s1[1..][1..];
    }
  }

  lemma HeadFrom(
    v: Version, headerFlags: byte, body: Bytes, c: Connect, name: Bytes, level: byte, flags: byte, tail: Bytes)
    requires headerFlags < 16 && (v == V3 ==> headerFlags == 0) && HeadPieces(body, c, name, level, flags, tail)
    requires (name == [77, 81, 84, 84] || name == [77, 81, 73, 115, 100, 112]) && 3 <= level <= 5
    ensures GetConnectHead(v, headerFlags, body) == Ok(((flags, c.keepalive), tail))
  {
    hide GetString; hide Text; hide GetU16; hide Two;
    var s3 := Two(c.keepalive) + tail;
    PlainText(name);
    hide Utf8;
    TextBack(name, [level] + ([flags] + s3));
    assert ([level] + ([flags] + s3))[1..] == [flags] + s3 && ([flags] + s3)[1..] == s3;
    TwoBack(c.keepalive, tail);
  }

  lemma {:induction false} PlainText(s: Bytes)
    requires forall i :: 0 <= i < |s| ==> s[i] < 128
    ensures Utf8(s)
    decreases |s|
  {
    if s != [] { PlainText(s[1..]); }
  }

  // ---------------------------------------------------------------------------------------------
  // CONNACK
  // ---------------------------------------------------------------------------------------------

  /** One property as this decoder lays them out; `x` is the Receive Maximum if it is one. */
  ghost predicate IsProperty(b: Bytes, x: Option<u16>) {
    b != [] &&
    if b[0] in {0x11, 0x13, 0x27} then |b| == 5 && x == None
    else if b[0] in {0x12, 0x1A, 0x1C, 0x1F} then Counted(b[1..]) && x == None
    else if b[0] == 0x21 then |b| == 3 && x.Some? && b[1..] == Two(x.value)
    else if b[0] == 0x22 then |b| == 3 && x == None
    else if b[0] in {0x24, 0x25, 0x28, 0x29, 0x2A} then |b| == 2 && x == None
    else b[0] == 0x26 && x == None && exists k :: 1 <= k <= |b| && Counted(b[1..k]) && Counted(b[k..])
  }

  lemma PropertyTook(s: Bytes) returns (b: Bytes)
    ensures GetProperty(s).Ok? ==> IsProperty(b, GetProperty(s).value.0) && s == b + GetProperty(s).value.1
  {
    hide Counted; hide GetCounted;
    b := [];
    if GetProperty(s).Ok? {
      var s1, rest := s[1..], GetProperty(s).value.1;
      assert s == [s[0]] + s1;
      if s[0] in {0x11, 0x13, 0x27} {
        b := s[..5];
      } else if s[0] in {0x12, 0x1A, 0x1C, 0x1F} {
        var c := CountedTook(s1);
        b := [s[0]] + c;
        assert b[1..] == c;
      } else if s[0] == 0x21 || s[0] == 0x22 {
        b := s[..3];
      } else if s[0] in {0x24, 0x25, 0x28, 0x29, 0x2A} {
        b := s[..2];
      } else {
        var c := CountedTook(s1);
        var d := CountedTook(GetCounted(s1).value.1);
        b := [s[0]] + c + d;
        assert b[1..1 + |c|] == c && b[1 + |c|..] == d;
      }
    }
  }

  lemma PropertyFrom(b: Bytes, x: Option<u16>, t: Bytes)
    requires IsProperty(b, x)
    ensures GetProperty(b + t) == Ok((x, t))
  {
    hide Counted; hide GetCounted;
    var s := b + t;
    assert s[1..] == b[1..] + t;
    if b[0] in {0x11, 0x13, 0x27} {
      assert s[1..][4..] == t;
    } else if b[0] in {0x12, 0x1A, 0x1C, 0x1F} {
      CountedBack(b[1..], t);
    } else if b[0] == 0x21 || b[0] == 0x22 {
      assert s[1..][2..] == t;
    } else if b[0] in {0x24, 0x25, 0x28, 0x29, 0x2A} {
      assert s[1..][1..] == t;
    } else {
      var k :| 1 <= k <= |b| && Counted(b[1..k]) && Counted(b[k..]);
      assert s[1..] == b[1..k] + (b[k..] + t);
      CountedBack(b[1..k], b[k..] + t);
      CountedBack(b[k..], t);
    }
  }

  type Property = (Bytes, Option<u16>)

  function BytesOf(props: seq<Property>): Bytes { if props == [] then [] else props[0].0 + BytesOf(props[1..]) }

  ghost predicate AllProperties(props: seq<Property>) {
    forall i :: 0 <= i < |props| ==> IsProperty(props[i].0, props[i].1)
  }

  /** The Receive Maximum given last, or the one before all of them. */
  function LastMax(props: seq<Property>, x: Option<u16>): Option<u16> {
    if props == [] then x else LastMax(props[1..], if props[0].1.Some? then props[0].1 else x)
  }

  lemma {:induction false} PropertiesTook(s: Bytes, tail: nat, x: Option<u16>) returns (props: seq<Property>)
    ensures GetProperties(s, tail, x).Ok? ==>
      var (r, rest) := GetProperties(s, tail, x).value;
      AllProperties(props) && s == BytesOf(props) + rest && |rest| == tail && r == LastMax(props, x)
    decreases |s|
  {
    hide GetProperty; hide IsProperty;
    props := [];
    if |s| == tail {
      assert [] + s == s;
    } else if |s| > tail && GetProperties(s, tail, x).Ok? {
      PropertyShrinks(s);
      var b := PropertyTook(s);
      var (y, left) := GetProperty(s).value;
      var more := PropertiesTook(left, tail, if y.Some? then y else x);
      props := [(b, y)] + more;
      assert props[1..] == more;
      var rest := GetProperties(s, tail, x).value.1;
      Associative(b, BytesOf(more), rest);
    }
  }

  lemma {:induction false} PropertiesFrom(props: seq<Property>, x: Option<u16>, rest: Bytes)
    requires AllProperties(props)
    ensures GetProperties(BytesOf(props) + rest, |rest|, x) == Ok((LastMax(props, x), rest))
    decreases |props|
  {
    hide GetProperty; hide IsProperty;
    if props == [] {
      assert [] + rest == rest;
    } else {
      var (b, y) := props[0];
      var s := BytesOf(props) + rest;
      Associative(b, BytesOf(props[1..]), rest);
      PropertyFrom(b, y, BytesOf(props[1..]) + rest);
      PropertyShrinks(s);
      PropertiesFrom(props[1..], if y.Some? then y else x, rest);
    }
  }

  ghost predicate ConnAckForm(v: Version, body: Bytes, code: byte, present: bool, x: Option<u16>) {
    if v == V3 then
      x == None && |body| >= 2 && body[1] == code && (present <==> body[0] % 2 == 1)
    else
      !present && exists head, props, rest :: AckPieces(body, code, head, props, rest) && x == LastMax(props, None)
  }

  /** A count, exactly as many bytes of properties, and anything after. */
  ghost predicate AckPieces(body: Bytes, code: byte, head: Bytes, props: seq<Property>, rest: Bytes) {
    && IsVarInt(head) && AllProperties(props) && ValueOf(head) == |BytesOf(props)|
    && body == [code] + (head + (BytesOf(props) + rest))
  }

  lemma ConnAckTook(v: Version, body: Bytes, code: byte, present: bool, x: Option<u16>)
    requires ParseConnAck(v, body) == Ok(ConnAck(code, present, x))
    ensures ConnAckForm(v, body, code, present, x)
  {
    if v == V5 {
      hide GetConnAckProps; hide ValueOf; hide IsVarInt; hide AllProperties; hide BytesOf; hide LastMax;
      var head, props, rest := AckPropsTook(body[1..]);
      assert body == [code] + body[1..];
      assert AckPieces(body, code, head, props, rest);
    }
  }

  lemma AckPropsTook(s: Bytes) returns (head: Bytes, props: seq<Property>, rest: Bytes)
    requires GetConnAckProps(s).Ok?
    ensures IsVarInt(head) && AllProperties(props) && ValueOf(head) == |BytesOf(props)|
    ensures s == head + (BytesOf(props) + rest) && GetConnAckProps(s) == Ok((LastMax(props, None), rest))
  {
    hide Peek; hide GetProperties; hide ValueOf; hide IsVarInt; hide AllProperties; hide BytesOf; hide LastMax;
    PeekTook(s, 0);
    var (block, w) := Peek(s, 0).value.value;
    var left := s[w..];
    head, rest := s[..w], GetProperties(left, |left| - block, None).value.1;
    props := PropertiesTook(left, |left| - block, None);
    assert s == head + left;
  }

  lemma ConnAckFrom(v: Version, body: Bytes, code: byte, present: bool, x: Option<u16>)
    requires ConnAckForm(v, body, code, present, x)
    ensures ParseConnAck(v, body) == Ok(ConnAck(code, present, x))
  {
    if v == V5 {
      hide GetConnAckProps; hide IsVarInt; hide ValueOf; hide AllProperties; hide BytesOf; hide LastMax;
      var head, props, rest :| AckPieces(body, code, head, props, rest) && x == LastMax(props, None);
      assert body[1..] == head + (BytesOf(props) + rest);
      AckPropsFrom(head, props, rest);
    }
  }

  lemma AckPropsFrom(head: Bytes, props: seq<Property>, rest: Bytes)
    requires IsVarInt(head) && AllProperties(props) && ValueOf(head) == |BytesOf(props)|
    ensures GetConnAckProps(head + (BytesOf(props) + rest)) == Ok((LastMax(props, None), rest))
  {
    hide Peek; hide GetProperties; hide ValueOf; hide AllProperties; hide BytesOf; hide LastMax;
    var left := BytesOf(props) + rest;
    PeekBack(head, left, 0);
    assert (head + left)[|head|..] == left;
    PropertiesFrom(props, None, rest);
  }

  // ---------------------------------------------------------------------------------------------
  // Every packet
  // ---------------------------------------------------------------------------------------------

  ghost predicate SubscribeForm(v: Version, flags: int, body: Bytes, pid: u16, filters: seq<(Bytes, QoS)>) {
    flags == 2 && filters != []
    && exists opts :: GoodEntries(v, filters, opts) && IdForm(v, body, pid, Entries(filters, opts))
  }

  lemma SubscribeIff(v: Version, flags: byte, body: Bytes, pid: u16, filters: seq<(Bytes, QoS)>)
    ensures ParseSubscribe(v, flags, body) == Ok(Subscribe(pid, filters)) <==>
      SubscribeForm(v, flags, body, pid, filters)
  {
    hide GetPidProps; hide GetFilters; hide IdForm;
    if ParseSubscribe(v, flags, body) == Ok(Subscribe(pid, filters)) {
      var rest := GetPidProps(v, body).value.1;
      IdIff(v, body, pid, rest);
      var opts := FiltersTook(v, rest);
    }
    if SubscribeForm(v, flags, body, pid, filters) {
      var opts :| GoodEntries(v, filters, opts) && IdForm(v, body, pid, Entries(filters, opts));
      IdIff(v, body, pid, Entries(filters, opts));
      FiltersBackFrom(v, filters, opts);
    }
  }

  ghost predicate UnsubscribeForm(v: Version, flags: int, body: Bytes, pid: u16, names: seq<Bytes>) {
    flags == 2 && GoodNames(names) && IdForm(v, body, pid, Names(names))
  }

  /** Version 3 has no reasons, and ignores what comes after the id. */
  ghost predicate UnsubAckForm(v: Version, body: Bytes, pid: u16, reasons: Bytes) {
    if v == V3 then reasons == [] && exists rest :: IdForm(v, body, pid, rest) else IdForm(v, body, pid, reasons)
  }

  lemma UnsubscribeIff(v: Version, flags: byte, body: Bytes, pid: u16, names: seq<Bytes>)
    ensures ParseUnsubscribe(v, flags, body) == Ok(Unsubscribe(pid, names)) <==>
      UnsubscribeForm(v, flags, body, pid, names)
  {
    hide GetPidProps; hide GetNames; hide IdForm; hide GoodNames;
    if ParseUnsubscribe(v, flags, body) == Ok(Unsubscribe(pid, names)) {
      var rest := GetPidProps(v, body).value.1;
      IdIff(v, body, pid, rest);
      NamesTook(rest);
    }
    if UnsubscribeForm(v, flags, body, pid, names) {
      IdIff(v, body, pid, Names(names));
      NamesBackFrom(names);
    }
  }

  /** The body `body` behind the first byte `16 * kind + flags` is the packet. */
  ghost predicate IsPacket(v: Version, kind: int, flags: int, body: Bytes, pkt: Packet) {
    if kind == 1 then pkt.ConnectPacket? && ConnectForm(v, flags, body, pkt.connect)
    else if kind == 2 then pkt.ConnAck? && ConnAckForm(v, body, pkt.code, pkt.sessionPresent, pkt.receiveMax)
    else if kind == 3 then pkt.PublishPacket? && PublishForm(v, flags, body, pkt.publish)
    else if kind == 4 then IsAck(v, PubAck, body, pkt)
    else if kind == 5 then IsAck(v, PubRec, body, pkt)
    else if kind == 6 then flags == 2 && IsAck(v, PubRel, body, pkt)
    else if kind == 7 then IsAck(v, PubComp, body, pkt)
    else if kind == 8 then pkt.Subscribe? && SubscribeForm(v, flags, body, pkt.pid, pkt.filters)
    else if kind == 9 then pkt.SubAck? && IdForm(v, body, pkt.pid, pkt.reasons)
    else if kind == 10 then pkt.Unsubscribe? && UnsubscribeForm(v, flags, body, pkt.pid, pkt.names)
    else if kind == 11 then pkt.UnsubAck? && UnsubAckForm(v, body, pkt.pid, pkt.reasons)
    else if kind == 12 then pkt == PingReq
    else if kind == 13 then pkt == PingResp
    else kind == 14 && pkt == Disconnect(if v == V5 && body != [] then body[0] else 0)
  }

  ghost predicate IsAck(v: Version, kind: AckKind, body: Bytes, pkt: Packet) {
    pkt.Ack? && pkt.kind == kind && AckForm(v, body, pkt.pid, pkt.reason)
  }

  lemma AckIff(v: Version, kind: AckKind, body: Bytes, pid: u16, reason: byte)
    ensures ParseAck(v, kind, body) == Ok(Ack(kind, pid, reason)) <==> AckForm(v, body, pid, reason)
  {
    hide ParseAck; hide AckForm;
    if ParseAck(v, kind, body) == Ok(Ack(kind, pid, reason)) { AckTook(v, kind, body, pid, reason); }
    if AckForm(v, body, pid, reason) { AckBackFrom(v, kind, body, pid, reason); }
  }

  lemma UnsubAckIff(v: Version, body: Bytes, pid: u16, reasons: Bytes)
    ensures ParseUnsubAck(v, body) == Ok(UnsubAck(pid, reasons)) <==> UnsubAckForm(v, body, pid, reasons)
  {
    hide GetPidProps; hide IdForm;
    IdIff(v, body, pid, reasons);
    if GetPidProps(v, body).Ok? { IdIff(v, body, pid, GetPidProps(v, body).value.1); }
    if rest :| IdForm(v, body, pid, rest) { IdIff(v, body, pid, rest); }
  }

  lemma ConnAckIff(v: Version, body: Bytes, code: byte, present: bool, x: Option<u16>)
    ensures ParseConnAck(v, body) == Ok(ConnAck(code, present, x)) <==> ConnAckForm(v, body, code, present, x)
  {
    hide ParseConnAck; hide ConnAckForm;
    if ParseConnAck(v, body) == Ok(ConnAck(code, present, x)) { ConnAckTook(v, body, code, present, x); }
    if ConnAckForm(v, body, code, present, x) { ConnAckFrom(v, body, code, present, x); }
  }

  lemma PublishIff(v: Version, flags: byte, body: Bytes, p: Publish)
    ensures ParsePublish(v, flags, body) == Ok(PublishPacket(p)) <==> PublishForm(v, flags, body, p)
  {
    hide ParsePublish; hide PublishForm;
    if ParsePublish(v, flags, body) == Ok(PublishPacket(p)) { PublishTook(v, flags, body, p); }
    if PublishForm(v, flags, body, p) { PublishBackFrom(v, flags, body, p); }
  }

  lemma SubAckIff(v: Version, body: Bytes, pid: u16, reasons: Bytes)
    ensures ParseSubAck(v, body) == Ok(SubAck(pid, reasons)) <==> IdForm(v, body, pid, reasons)
  {
    hide GetPidProps; hide IdForm;
    IdIff(v, body, pid, reasons);
  }

  /** Each parser answers with its own kind of packet, when the grammar says so. */
  lemma OneKindIff(v: Version, flags: byte, body: Bytes, pkt: Packet)
    requires flags < 16
    ensures ParseConnect(v, flags, body) == Ok(pkt) <==> pkt.ConnectPacket? && ConnectForm(v, flags, body, pkt.connect)
    ensures ParseConnAck(v, body) == Ok(pkt) <==>
      pkt.ConnAck? && ConnAckForm(v, body, pkt.code, pkt.sessionPresent, pkt.receiveMax)
    ensures ParsePublish(v, flags, body) == Ok(pkt) <==> pkt.PublishPacket? && PublishForm(v, flags, body, pkt.publish)
    ensures forall kind :: ParseAck(v, kind, body) == Ok(pkt) <==> IsAck(v, kind, body, pkt)
  {
    hide ParseConnect; hide ParsePublish; hide ParseAck; hide ParseConnAck;
    hide ConnectForm; hide PublishForm; hide AckForm; hide ConnAckForm;
    OwnKinds(v, flags, body);
    match pkt
    case ConnectPacket(c) => ConnectIff(v, flags, body, c);
    case ConnAck(code, present, x) => ConnAckIff(v, body, code, present, x);
    case PublishPacket(p) => PublishIff(v, flags, body, p);
    case Ack(kind, pid, reason) => AckIff(v, kind, body, pid, reason);
    case _ =>
  }

  lemma OneSubscriptionIff(v: Version, flags: byte, body: Bytes, pkt: Packet)
    ensures ParseSubscribe(v, flags, body) == Ok(pkt) <==>
      pkt.Subscribe? && SubscribeForm(v, flags, body, pkt.pid, pkt.filters)
    ensures ParseSubAck(v, body) == Ok(pkt) <==> pkt.SubAck? && IdForm(v, body, pkt.pid, pkt.reasons)
    ensures ParseUnsubscribe(v, flags, body) == Ok(pkt) <==>
      pkt.Unsubscribe? && UnsubscribeForm(v, flags, body, pkt.pid, pkt.names)
    ensures ParseUnsubAck(v, body) == Ok(pkt) <==> pkt.UnsubAck? && UnsubAckForm(v, body, pkt.pid, pkt.reasons)
  {
    hide ParseSubscribe; hide ParseUnsubscribe; hide ParseSubAck; hide ParseUnsubAck; hide SubscribeForm; hide IdForm;
    hide UnsubscribeForm; hide UnsubAckForm;
    OwnKinds(v, flags, body);
    match pkt
    case Subscribe(pid, filters) => SubscribeIff(v, flags, body, pid, filters);
    case SubAck(pid, reasons) => SubAckIff(v, body, pid, reasons);
    case Unsubscribe(pid, names) => UnsubscribeIff(v, flags, body, pid, names);
    case UnsubAck(pid, reasons) => UnsubAckIff(v, body, pid, reasons);
    case _ =>
  }

  /** The decoder accepts a body as a packet if and only if the grammar does, for all bytes. */
  lemma ParseIff(v: Version, header: byte, body: Bytes, pkt: Packet)
    ensures Parse(v, header, body) == Ok(pkt) <==> IsPacket(v, header / 16, header % 16, body, pkt)
  {
    hide ParseConnect; hide ParsePublish; hide ParseAck; hide ParseSubscribe; hide ParseUnsubscribe; hide ParseSubAck;
    hide ParseConnAck; hide ParseUnsubAck; hide ConnectForm; hide PublishForm; hide IsAck; hide SubscribeForm;
    hide IdForm; hide ConnAckForm; hide UnsubscribeForm; hide UnsubAckForm;
    OneKindIff(v, header % 16, body, pkt);
    OneSubscriptionIff(v, header % 16, body, pkt);
  }

  /** Each parser returns its own kind of packet. */
  lemma OwnKinds(v: Version, flags: byte, body: Bytes)
    ensures
      && (ParseConnect(v, flags, body).Ok? ==> ParseConnect(v, flags, body).value.ConnectPacket?)
      && (ParseConnAck(v, body).Ok? ==> ParseConnAck(v, body).value.ConnAck?)
      && (ParsePublish(v, flags, body).Ok? ==> ParsePublish(v, flags, body).value.PublishPacket?)
      && (ParseSubscribe(v, flags, body).Ok? ==> ParseSubscribe(v, flags, body).value.Subscribe?)
      && (ParseUnsubscribe(v, flags, body).Ok? ==> ParseUnsubscribe(v, flags, body).value.Unsubscribe?)
      && (ParseSubAck(v, body).Ok? ==> ParseSubAck(v, body).value.SubAck?)
      && (ParseUnsubAck(v, body).Ok? ==> ParseUnsubAck(v, body).value.UnsubAck?)
    ensures forall k :: ParseAck(v, k, body).Ok? ==>
      ParseAck(v, k, body).value.Ack? && ParseAck(v, k, body).value.kind == k
  {
    hide GetConnectHead; hide SkipProps; hide GetString; hide GetWill; hide GetPidProps; hide GetFilters; hide GetNames;
    hide GetConnAckProps;
  }

  // ---------------------------------------------------------------------------------------------
  // Frames in a buffer
  // ---------------------------------------------------------------------------------------------

  /** All of the bytes say that another one follows. */
  predicate Continues(b: Bytes) { forall i :: 0 <= i < |b| ==> b[i] >= 128 }

  /** A first byte, a length, and `tail`. */
  predicate Headed(buf: Bytes, head: Bytes, tail: Bytes) {
    buf != [] && IsVarInt(head) && buf == [buf[0]] + (head + tail)
  }

  lemma {:induction false} PeekOpen(s: Bytes, k: nat)
    requires k <= 3
    ensures Peek(s, k) == Ok(None) <==> |s| + k <= 3 && Continues(s)
    ensures Peek(s, k).Err? <==> |s| + k >= 4 && Continues(s[..4 - k])
    ensures Peek(s, k).Err? ==> Peek(s, k) == Err(Malformed)
    decreases |s|
  {
    if s != [] {
      hide Continues;
      assert s == [s[0]] + s[1..];
      ContinuesFrom(s[0], s[1..]);
      if |s| + k >= 4 {
        assert s[..4 - k] == [s[0]] + s[1..][..3 - k];
        ContinuesFrom(s[0], s[1..][..3 - k]);
      }
      if k < 3 { PeekOpen(s[1..], k + 1); } else { ContinuesNothing(s[1..][..0]); }
    } else {
      ContinuesNothing(s);
    }
  }

  lemma ContinuesFrom(b: byte, t: Bytes)
    ensures Continues([b] + t) <==> b >= 128 && Continues(t)
  {
    var s := [b] + t;
    assert s[0] == b && forall i :: 0 <= i < |t| ==> s[i + 1] == t[i];
  }

  lemma ContinuesNothing(s: Bytes)
    requires s == []
    ensures Continues(s)
  {
  }

  /** What the decoder makes of a buffer that starts with a length. */
  lemma DecodeHeaded(v: Version, max: nat, buf: Bytes, head: Bytes, tail: Bytes)
    requires Headed(buf, head, tail)
    ensures var n := ValueOf(head);
      DecodeStep(v, max, buf) ==
        if n > max then (Err(PacketTooLarge(n, max)), buf)
        else if |tail| < n then (Ok(None), buf)
        else
          (match Parse(v, buf[0], tail[..n])
           case Err(e) => Err(e)
           case Ok(pkt) => Ok(Some(pkt)), tail[n..])
  {
    hide Peek; hide Parse; hide ValueOf;
    assert buf[1..] == head + tail;
    PeekBack(head, tail, 0);
    var n := ValueOf(head);
    var w := |head|;
    if |tail| >= n { assert buf[1 + w..1 + w + n] == tail[..n] && buf[1 + w + n..] == tail[n..]; }
  }

  /** Every buffer waits for its length, has an overlong one, or starts with a length. */
  lemma BufferKinds(v: Version, max: nat, buf: Bytes) returns (head: Bytes, tail: Bytes)
    ensures |buf| < 2 || (|buf| <= 4 && Continues(buf[1..])) ==> DecodeStep(v, max, buf) == (Ok(None), buf)
    ensures |buf| >= 5 && Continues(buf[1..5]) ==> DecodeStep(v, max, buf) == (Err(Malformed), buf)
    ensures Headed(buf, head, tail) || |buf| < 2 || (|buf| <= 4 && Continues(buf[1..]))
      || (|buf| >= 5 && Continues(buf[1..5]))
  {
    hide Peek; hide Parse; hide ValueOf; hide IsVarInt; hide Continues;
    head, tail := [], [];
    if |buf| >= 2 {
      var s := buf[1..];
      PeekOpen(s, 0);
      PeekTook(s, 0);
      if |buf| >= 5 { assert s[..4] == buf[1..5]; }
      var p := Peek(s, 0);
      if p.Ok? && p.value.Some? {
        var w := p.value.value.1;
        head, tail := s[..w], s[w..];
        assert s == head + tail && buf == [buf[0]] + s;
      }
    }
  }

  /** A first byte, a length within the limit, as many bytes that are the packet, and the rest. */
  ghost predicate StartsWith(v: Version, max: nat, buf: Bytes, pkt: Packet, rest: Bytes) {
    exists head, tail ::
      && Headed(buf, head, tail) && ValueOf(head) <= max && ValueOf(head) <= |tail|
      && rest == tail[ValueOf(head)..] && IsPacket(v, buf[0] / 16, buf[0] % 16, tail[..ValueOf(head)], pkt)
  }

  /** A decode yields a packet and leaves the rest exactly when the buffer starts with that packet's frame. */
  lemma DecodesIff(v: Version, max: nat, buf: Bytes, pkt: Packet, rest: Bytes)
    ensures DecodeStep(v, max, buf) == (Ok(Some(pkt)), rest) <==> StartsWith(v, max, buf, pkt, rest)
  {
    hide DecodeStep; hide Parse; hide ValueOf; hide IsPacket; hide IsVarInt; hide Continues;
    if DecodeStep(v, max, buf) == (Ok(Some(pkt)), rest) {
      var head, tail := BufferKinds(v, max, buf);
      DecodeHeaded(v, max, buf, head, tail);
      ParseIff(v, buf[0], tail[..ValueOf(head)], pkt);
    }
    if StartsWith(v, max, buf, pkt, rest) {
      var head, tail :|
        && Headed(buf, head, tail) && ValueOf(head) <= max && ValueOf(head) <= |tail|
        && rest == tail[ValueOf(head)..] && IsPacket(v, buf[0] / 16, buf[0] % 16, tail[..ValueOf(head)], pkt);
      DecodeHeaded(v, max, buf, head, tail);
      ParseIff(v, buf[0], tail[..ValueOf(head)], pkt);
    }
  }

  /** It waits exactly when the length is not all there, or it is within the limit and the body is not all there. */
  lemma WaitsIff(v: Version, max: nat, buf: Bytes)
    ensures DecodeStep(v, max, buf) == (Ok(None), buf) <==>
      || |buf| < 2 || (|buf| <= 4 && Continues(buf[1..]))
      || exists head, tail :: Headed(buf, head, tail) && |tail| < ValueOf(head) <= max
  {
    hide DecodeStep; hide Parse; hide ValueOf; hide Headed; hide Continues;
    var head, tail := BufferKinds(v, max, buf);
    if Headed(buf, head, tail) { DecodeHeaded(v, max, buf, head, tail); }
    if head', tail' :| Headed(buf, head', tail') && |tail'| < ValueOf(head') <= max {
      DecodeHeaded(v, max, buf, head', tail');
    }
  }
}
