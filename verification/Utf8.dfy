/** UTF-8 (section 3 of RFC 3629), as Python's strict codec encodes and decodes it. */
module Utf8 {
  import opened Basics

  type Byte = b: int | 0 <= b < 256
  type Bytes = seq<Byte>

  function EncodeChar(c: char): (b: Bytes)
    ensures 1 <= |b| <= 4
  {
    var cp := c as int;
    if cp < 0x80 then [cp]
    else if cp < 0x800 then [0xC0 + cp / 0x40, 0x80 + cp % 0x40]
    else if cp < 0x1_0000 then [0xE0 + cp / 0x1000, 0x80 + cp / 0x40 % 0x40, 0x80 + cp % 0x40]
    else [0xF0 + cp / 0x4_0000, 0x80 + cp / 0x1000 % 0x40, 0x80 + cp / 0x40 % 0x40, 0x80 + cp % 0x40]
  }

  function Encode(s: string): Bytes {
    if s == "" then [] else EncodeChar(s[0]) + Encode(s[1..])
  }

  predicate IsTail(b: Byte) {
    0x80 <= b < 0xC0
  }

  predicate IsScalar(cp: int) {
    0 <= cp < 0xD800 || 0xE000 <= cp < 0x11_0000
  }

  /** The value that the tails' six bits each add to `lead`. */
  function Fold2(lead: int, t: Byte): int {
    lead * 0x40 + (t - 0x80)
  }

  /** The first character of `b`, when `b` starts with its shortest encoding. */
  function DecodeChar(b: Bytes): (c: Option<char>)
    requires b != []
  {
    var lead: int := b[0];
    if lead < 0x80 then Some(lead as char)
    else if 0xC2 <= lead < 0xE0 then
      if |b| >= 2 && IsTail(b[1]) then Some(Fold2(lead - 0xC0, b[1]) as char) else None
    else if 0xE0 <= lead < 0xF0 then
      if |b| >= 3 && IsTail(b[1]) && IsTail(b[2]) then
        var cp := Fold2(Fold2(lead - 0xE0, b[1]), b[2]);
        if cp >= 0x800 && IsScalar(cp) then Some(cp as char) else None
      else None
    else if 0xF0 <= lead < 0xF5 then
      if |b| >= 4 && IsTail(b[1]) && IsTail(b[2]) && IsTail(b[3]) then
        var cp := Fold2(Fold2(Fold2(lead - 0xF0, b[1]), b[2]), b[3]);
        if cp >= 0x1_0000 && IsScalar(cp) then Some(cp as char) else None
      else None
    else None
  }

  function Decode(b: Bytes): Option<string> {
    if b == [] then Some("")
    else
      match DecodeChar(b)
      case None => None
      case Some(c) =>
        if |EncodeChar(c)| > |b| then None
        else
          match Decode(b[|EncodeChar(c)|..])
          case None => None
          case Some(rest) => Some([c] + rest)
  }

  lemma DecodeCharOfEncoding(c: char, rest: Bytes)
    ensures DecodeChar(EncodeChar(c) + rest) == Some(c)
  {
    var cp := c as int;
    var e := EncodeChar(c);
    var b := e + rest;
    assert forall i :: 0 <= i < |e| ==> b[i] == e[i];
    assert cp / 0x40 / 0x40 == cp / 0x1000 && cp / 0x1000 / 0x40 == cp / 0x4_0000;
  }

  lemma UnfoldSextet(lead: int, t: Byte)
    requires IsTail(t)
    ensures Fold2(lead, t) / 0x40 == lead && Fold2(lead, t) % 0x40 == t - 0x80
  {
  }

  lemma EncodingOfDecodedChar(b: Bytes)
    requires b != [] && DecodeChar(b).Some?
    ensures EncodeChar(DecodeChar(b).value) <= b
  {
    var cp := DecodeChar(b).value as int;
    var lead: int := b[0];
    assert cp / 0x1000 == cp / 0x40 / 0x40 && cp / 0x4_0000 == cp / 0x1000 / 0x40;
    if lead < 0x80 {
    } else if lead < 0xE0 {
      UnfoldSextet(lead - 0xC0, b[1]);
    } else if lead < 0xF0 {
      var two := Fold2(lead - 0xE0, b[1]);
      UnfoldSextet(lead - 0xE0, b[1]);
      UnfoldSextet(two, b[2]);
    } else {
      var two := Fold2(lead - 0xF0, b[1]);
      var three := Fold2(two, b[2]);
      UnfoldSextet(lead - 0xF0, b[1]);
      UnfoldSextet(two, b[2]);
      UnfoldSextet(three, b[3]);
    }
  }

  /** Decoding gives back every text that was encoded. */
  lemma {:induction false} DecodeOfEncode(s: string)
    ensures Decode(Encode(s)) == Some(s)
  {
    if s != "" {
      var c, b := s[0], Encode(s);
      DecodeCharOfEncoding(c, Encode(s[1..]));
      assert b[|EncodeChar(c)|..] == Encode(s[1..]);
      DecodeOfEncode(s[1..]);
      assert s == [c] + s[1..];
    }
  }

  /** Encoding gives back every byte string that decodes. */
  lemma {:induction false} EncodeOfDecode(b: Bytes)
    requires Decode(b).Some?
    ensures Encode(Decode(b).value) == b
  {
    if b != [] {
      EncodingOfDecodedChar(b);
      var c := DecodeChar(b).value;
      var tail := b[|EncodeChar(c)|..];
      EncodeOfDecode(tail);
      assert b == EncodeChar(c) + tail;
    }
  }

  lemma {:induction false} EncodedLength(s: string)
    ensures |s| <= |Encode(s)| <= 4 * |s|
  {
    if s != "" {
      EncodedLength(s[1..]);
    }
  }

  lemma {:induction false} EncodeConcat(a: string, b: string)
    ensures Encode(a + b) == Encode(a) + Encode(b)
  {
    if a == "" {
      assert a + b == b;
    } else {
      assert (a + b)[1..] == a[1..] + b;
      EncodeConcat(a[1..], b);
      assert EncodeChar(a[0]) + (Encode(a[1..]) + Encode(b)) == Encode(a) + Encode(b);
    }
  }

  /** An ASCII character occurs in a text exactly when its one byte occurs in the encoding. */
  lemma {:induction false} AsciiByte(s: string, c: char)
    requires c as int < 0x80
    ensures c in s <==> (c as int) in Encode(s)
  {
    if s != "" {
      AsciiByte(s[1..], c);
      assert s == [s[0]] + s[1..];
      assert (c as int) in EncodeChar(s[0]) <==> c == s[0];
    }
  }
}
