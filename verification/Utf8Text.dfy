/** UTF-8 text told from the characters it stands for (section 3 of RFC 3629), not from its bytes. */
module Utf8Text {
  import opened Packets

  /** A Unicode character: up to U+10FFFF, surrogates excepted. */
  type Scalar = c: int | 0 <= c < 0x110000 && !(0xD800 <= c < 0xE000)

  /** The shortest form: 7, 11, 16 or 21 bits. */
  function CharBytes(c: Scalar): Bytes {
    if c < 0x80 then [c]
    else if c < 0x800 then [0xC0 + c / 64, 0x80 + c % 64]
    else if c < 0x10000 then [0xE0 + c / 4096, 0x80 + c / 64 % 64, 0x80 + c % 64]
    else [0xF0 + c / 262144, 0x80 + c / 4096 % 64, 0x80 + c / 64 % 64, 0x80 + c % 64]
  }

  function TextBytes(text: seq<Scalar>): Bytes {
    if text == [] then [] else CharBytes(text[0]) + TextBytes(text[1..])
  }

  lemma Narrow(c: Scalar)
    requires 0x80 <= c < 0x800
    ensures 0xC2 <= 0xC0 + c / 64 <= 0xDF
  {
  }

  lemma Middle(c: Scalar)
    requires 0x800 <= c < 0x10000
    ensures var a, b := 0xE0 + c / 4096, 0x80 + c / 64 % 64;
      0xE0 <= a <= 0xEF && (a == 0xE0 ==> b >= 0xA0) && (a == 0xED ==> b <= 0x9F)
  {
    var q := c / 64;
    assert c / 4096 == q / 64;
  }

  lemma Wide(c: Scalar)
    requires c >= 0x10000
    ensures var a, b := 0xF0 + c / 262144, 0x80 + c / 4096 % 64;
      0xF0 <= a <= 0xF4 && (a == 0xF0 ==> b >= 0x90) && (a == 0xF4 ==> b <= 0x8F)
  {
    var q := c / 4096;
    assert c / 262144 == q / 64;
  }

  /** A character at the front does not matter to the rest. */
  lemma CharThenText(c: Scalar, t: Bytes)
    ensures Utf8(CharBytes(c) + t) <==> Utf8(t)
  {
    var s := CharBytes(c) + t;
    assert s[|CharBytes(c)|..] == t;
    if 0x80 <= c < 0x800 { Narrow(c); }
    if 0x800 <= c < 0x10000 { Middle(c); }
    if c >= 0x10000 { Wide(c); }
  }

  /** Accepted bytes start with a character. */
  lemma FirstChar(s: Bytes) returns (c: Scalar)
    requires s != [] && Utf8(s)
    ensures |CharBytes(c)| <= |s| && s == CharBytes(c) + s[|CharBytes(c)|..]
  {
    if s[0] < 0x80 {
      c := s[0];
    } else if s[0] <= 0xDF {
      c := TwoByteChar(s[0], s[1]);
    } else if s[0] <= 0xEF {
      c := ThreeByteChar(s[0], s[1], s[2]);
    } else {
      c := FourByteChar(s[0], s[1], s[2], s[3]);
    }
  }

  lemma TwoByteChar(a: int, b: int) returns (c: Scalar)
    requires 0xC2 <= a <= 0xDF && 0x80 <= b <= 0xBF
    ensures CharBytes(c) == [a, b]
  {
    c := (a - 0xC0) * 64 + (b - 0x80);
  }

  lemma ThreeByteChar(a: int, b: int, d: int) returns (c: Scalar)
    requires 0xE0 <= a <= 0xEF && 0x80 <= b <= 0xBF && 0x80 <= d <= 0xBF
    requires (a == 0xE0 ==> b >= 0xA0) && (a == 0xED ==> b <= 0x9F)
    ensures CharBytes(c) == [a, b, d]
  {
    var high := (a - 0xE0) * 64 + (b - 0x80);
    c := high * 64 + (d - 0x80);
    assert c / 64 == high && c / 4096 == a - 0xE0;
  }

  lemma FourByteChar(a: int, b: int, d: int, e: int) returns (c: Scalar)
    requires 0xF0 <= a <= 0xF4 && 0x80 <= b <= 0xBF && 0x80 <= d <= 0xBF && 0x80 <= e <= 0xBF
    requires (a == 0xF0 ==> b >= 0x90) && (a == 0xF4 ==> b <= 0x8F)
    ensures CharBytes(c) == [a, b, d, e]
  {
    var high := (a - 0xF0) * 64 + (b - 0x80);
    var middle := high * 64 + (d - 0x80);
    c := middle * 64 + (e - 0x80);
    assert c / 64 == middle && c / 4096 == high && c / 262144 == a - 0xF0;
  }

  lemma {:induction false} TextOf(s: Bytes) returns (text: seq<Scalar>)
    requires Utf8(s)
    ensures s == TextBytes(text)
    decreases |s|
  {
    hide Utf8;
    text := [];
    if s != [] {
      var c := FirstChar(s);
      var rest := s[|CharBytes(c)|..];
      CharThenText(c, rest);
      var more := TextOf(rest);
      text := [c] + more;
      assert text[1..] == more;
    }
  }

  lemma {:induction false} TextIsUtf8(text: seq<Scalar>)
    ensures Utf8(TextBytes(text))
    decreases |text|
  {
    if text != [] {
      hide Utf8;
      TextIsUtf8(text[1..]);
      CharThenText(text[0], TextBytes(text[1..]));
    }
  }

  /** Bytes are accepted as text if and only if they are the bytes of some characters. */
  lemma Utf8Iff(s: Bytes)
    ensures Utf8(s) <==> exists text :: s == TextBytes(text)
  {
    hide Utf8; hide TextBytes;
    if Utf8(s) { var text := TextOf(s); }
    if text :| s == TextBytes(text) { TextIsUtf8(text); }
  }
}
