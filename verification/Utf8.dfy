/**
 Bytes, and the well-formed UTF-8 byte sequences of section 4 of RFC 3629.

 A Rust `String` is a byte sequence that meets this rule, so `Text` models one wherever bytes
 matter: a frame body that was read, and a reply that is about to be written.
 */
module Utf8 {

  type byte = x: int | 0 <= x < 256

  /** `UTF8-tail` of the RFC's grammar. */
  predicate Tail(b: byte) {
    0x80 <= b <= 0xBF
  }

  /** The width of the well-formed character that `s` starts with, or 0 when it starts with none. */
  function LeadWidth(s: seq<byte>): (width: nat)
    requires s != []
    ensures width <= 4 && width <= |s|
  {
    var lead := s[0];
    if lead <= 0x7F then
      1
    else if |s| >= 2 && 0xC2 <= lead <= 0xDF && Tail(s[1]) then
      2
    else if |s| >= 3 && 0xE0 <= lead <= 0xEF && Tail(s[1]) && Tail(s[2])
            && (lead == 0xE0 ==> 0xA0 <= s[1])
            && (lead == 0xED ==> s[1] <= 0x9F) then
      3
    else if |s| >= 4 && 0xF0 <= lead <= 0xF4 && Tail(s[1]) && Tail(s[2]) && Tail(s[3])
            && (lead == 0xF0 ==> 0x90 <= s[1])
            && (lead == 0xF4 ==> s[1] <= 0x8F) then
      4
    else
      0
  }

  predicate IsUtf8(s: seq<byte>) {
    s == [] || (LeadWidth(s) > 0 && IsUtf8(s[LeadWidth(s)..]))
  }

  type Text = s: seq<byte> | IsUtf8(s)

  // ---------------------------------------------------------------------------------------------
  // The rule is checked against an independent definition: the encoding of Unicode scalar values.

  type Scalar = v: int | 0 <= v < 0xD800 || 0xE000 <= v < 0x11_0000

  function EncodeScalar(v: Scalar): seq<byte> {
    if v < 0x80 then
      [v]
    else if v < 0x800 then
      [0xC0 + v / 0x40, 0x80 + v % 0x40]
    else if v < 0x1_0000 then
      [0xE0 + v / 0x1000, 0x80 + v / 0x40 % 0x40, 0x80 + v % 0x40]
    else
      [0xF0 + v / 0x4_0000, 0x80 + v / 0x1000 % 0x40, 0x80 + v / 0x40 % 0x40, 0x80 + v % 0x40]
  }

  function EncodeScalars(vs: seq<Scalar>): seq<byte> {
    if vs == [] then [] else EncodeScalar(vs[0]) + EncodeScalars(vs[1..])
  }

  lemma EncodedScalarLeads(v: Scalar, rest: seq<byte>)
    ensures LeadWidth(EncodeScalar(v) + rest) == |EncodeScalar(v)|
  {
  }

  lemma TwoBytesEncode(a: int, b: int) returns (v: Scalar)
    requires 0xC2 <= a <= 0xDF && 0x80 <= b <= 0xBF
    ensures EncodeScalar(v) == [a, b]
  {
    v := (a - 0xC0) * 0x40 + (b - 0x80);
  }

  lemma ThreeBytesEncode(a: int, b: int, c: int) returns (v: Scalar)
    requires 0xE0 <= a <= 0xEF && 0x80 <= b <= 0xBF && 0x80 <= c <= 0xBF
    requires (a == 0xE0 ==> 0xA0 <= b) && (a == 0xED ==> b <= 0x9F)
    ensures EncodeScalar(v) == [a, b, c]
  {
    var high := (a - 0xE0) * 0x40 + (b - 0x80);
    v := high * 0x40 + (c - 0x80);
    assert v / 0x40 == high;
    assert v / 0x1000 == high / 0x40;
  }

  lemma FourBytesEncode(a: int, b: int, c: int, d: int) returns (v: Scalar)
    requires 0xF0 <= a <= 0xF4 && 0x80 <= b <= 0xBF && 0x80 <= c <= 0xBF && 0x80 <= d <= 0xBF
    requires (a == 0xF0 ==> 0x90 <= b) && (a == 0xF4 ==> b <= 0x8F)
    ensures EncodeScalar(v) == [a, b, c, d]
  {
    var top := (a - 0xF0) * 0x40 + (b - 0x80);
    var high := top * 0x40 + (c - 0x80);
    v := high * 0x40 + (d - 0x80);
    assert v / 0x40 == high;
    assert v / 0x1000 == high / 0x40 == top;
    assert v / 0x4_0000 == top / 0x40;
  }

  /** The scalar value that a leading well-formed character denotes. */
  lemma LeadIsEncoded(s: seq<byte>) returns (v: Scalar)
    requires s != [] && LeadWidth(s) > 0
    ensures s[..LeadWidth(s)] == EncodeScalar(v)
  {
    match LeadWidth(s)
    case 1 => v := s[0];
    case 2 => v := TwoBytesEncode(s[0], s[1]);
    case 3 => v := ThreeBytesEncode(s[0], s[1], s[2]);
    case _ => v := FourBytesEncode(s[0], s[1], s[2], s[3]);
  }

  lemma {:induction false} EncodedScalarsAreUtf8(vs: seq<Scalar>)
    ensures IsUtf8(EncodeScalars(vs))
  {
    if vs == [] {
    } else {
      EncodedScalarsAreUtf8(vs[1..]);
      EncodedScalarLeads(vs[0], EncodeScalars(vs[1..]));
      assert EncodeScalars(vs)[|EncodeScalar(vs[0])|..] == EncodeScalars(vs[1..]);
    }
  }

  lemma {:induction false} Utf8IsEncodedScalars(s: seq<byte>) returns (vs: seq<Scalar>)
    requires IsUtf8(s)
    ensures EncodeScalars(vs) == s
  {
    if s == [] {
      vs := [];
    } else {
      var v := LeadIsEncoded(s);
      var rest := Utf8IsEncodedScalars(s[LeadWidth(s)..]);
      vs := [v] + rest;
      assert vs[1..] == rest;
      assert s == s[..LeadWidth(s)] + s[LeadWidth(s)..];
    }
  }

  /** A byte sequence is accepted exactly when some scalar values encode to it. */
  lemma Utf8ExactlyEncodings(s: seq<byte>)
    ensures IsUtf8(s) <==> exists vs :: EncodeScalars(vs) == s
  {
    if IsUtf8(s) {
      var vs := Utf8IsEncodedScalars(s);
    }
    forall vs | EncodeScalars(vs) == s ensures IsUtf8(s) {
      EncodedScalarsAreUtf8(vs);
    }
  }
}
