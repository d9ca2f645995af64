/** UTF-8 (RFC 3629): str.encode("utf-8") and bytes.decode("utf-8"). */
module Utf8 {
  import opened Wrappers

  type byte = b: int | 0 <= b < 256

  function EncodeChar(c: char): seq<byte> {
    var n := c as int;
    if n < 0x80 then [n]
    else if n < 0x800 then [0xC0 + n / 64, 0x80 + n % 64]
    else if n < 0x1_0000 then [0xE0 + n / 64 / 64, 0x80 + n / 64 % 64, 0x80 + n % 64]
    else [0xF0 + n / 64 / 64 / 64, 0x80 + n / 64 / 64 % 64, 0x80 + n / 64 % 64, 0x80 + n % 64]
  }

  function Encode(s: string): seq<byte> {
    if s == [] then [] else EncodeChar(s[0]) + Encode(s[1..])
  }

  predicate Continuation(b: byte) { 0x80 <= b < 0xC0 }

  predicate Scalar(n: int) { 0 <= n < 0xD800 || 0xE000 <= n < 0x11_0000 }

  /** The first character and how many bytes it takes; None where a strict decoder raises. */
  function DecodeChar(bs: seq<byte>): (r: Option<(char, nat)>)
    requires bs != []
    ensures r.Some? ==> 1 <= r.value.1 <= |bs|
  {
    var b := bs[0];
    if b < 0x80 then Some((b as char, 1))
    else if 0xC2 <= b < 0xE0 && |bs| >= 2 && Continuation(bs[1]) then
      var n: int := (b as int - 0xC0) * 64 + (bs[1] as int - 0x80);
      Some((n as char, 2))
    else if 0xE0 <= b < 0xF0 && |bs| >= 3 && Continuation(bs[1]) && Continuation(bs[2]) then
      var n: int := (b as int - 0xE0) * 4096 + (bs[1] as int - 0x80) * 64 + (bs[2] as int - 0x80);
      if n >= 0x800 && Scalar(n) then Some((n as char, 3)) else None
    else if 0xF0 <= b < 0xF8 && |bs| >= 4
            && Continuation(bs[1]) && Continuation(bs[2]) && Continuation(bs[3]) then
      var n: int := (b as int - 0xF0) * 262144 + (bs[1] as int - 0x80) * 4096
                    + (bs[2] as int - 0x80) * 64 + (bs[3] as int - 0x80);
      if n >= 0x1_0000 && Scalar(n) then Some((n as char, 4)) else None
    else None
  }

  function Decode(bs: seq<byte>): Option<string> {
    if bs == [] then Some([])
    else
      var (c, k) :- DecodeChar(bs);
      var rest :- Decode(bs[k..]);
      Some([c] + rest)
  }

  lemma DecodeThreeBytes(c: char, rest: seq<byte>)
    requires 0x800 <= c as int < 0x1_0000
    ensures DecodeChar(EncodeChar(c) + rest) == Some((c, 3))
  {
    var n := c as int;
    var q := n / 64;
    var bs := EncodeChar(c) + rest;
    assert n == q * 64 + n % 64 && q == q / 64 * 64 + q % 64;
    assert bs[0] == 0xE0 + q / 64 && bs[1] == 0x80 + q % 64 && bs[2] == 0x80 + n % 64;
  }

  lemma DecodeFourBytes(c: char, rest: seq<byte>)
    requires 0x1_0000 <= c as int
    ensures DecodeChar(EncodeChar(c) + rest) == Some((c, 4))
  {
    var n := c as int;
    var q := n / 64;
    var p := q / 64;
    var bs := EncodeChar(c) + rest;
    assert n == q * 64 + n % 64 && q == p * 64 + q % 64 && p == p / 64 * 64 + p % 64;
    assert bs[0] == 0xF0 + p / 64 && bs[1] == 0x80 + p % 64;
    assert bs[2] == 0x80 + q % 64 && bs[3] == 0x80 + n % 64;
  }

  lemma DecodeCharEncodeChar(c: char, rest: seq<byte>)
    ensures DecodeChar(EncodeChar(c) + rest) == Some((c, |EncodeChar(c)|))
  {
    if 0x1_0000 <= c as int {
      DecodeFourBytes(c, rest);
    } else if 0x800 <= c as int {
      DecodeThreeBytes(c, rest);
    } else {
      assert (EncodeChar(c) + rest)[0] == EncodeChar(c)[0];
    }
  }

  /** Decoding undoes encoding, for every string. */
  lemma {:induction false} DecodeEncode(s: string)
    ensures Decode(Encode(s)) == Some(s)
  {
    if s != [] {
      DecodeCharEncodeChar(s[0], Encode(s[1..]));
      DecodeEncode(s[1..]);
      assert Encode(s)[|EncodeChar(s[0])|..] == Encode(s[1..]);
      assert s == [s[0]] + s[1..];
    }
  }

  lemma CharOfTwoBytes(a: nat, b: nat)
    requires 0xC2 <= a < 0xE0 && 0x80 <= b < 0xC0
    ensures EncodeChar(((a - 0xC0) * 64 + (b - 0x80)) as char) == [a, b]
  {
  }

  lemma CharOfThreeBytes(a: nat, b: nat, d: nat)
    requires 0xE0 <= a < 0xF0 && 0x80 <= b < 0xC0 && 0x80 <= d < 0xC0
    ensures var n := (a - 0xE0) * 4096 + (b - 0x80) * 64 + (d - 0x80);
            n >= 0x800 && Scalar(n) ==> EncodeChar(n as char) == [a, b, d]
  {
    var m := (a - 0xE0) * 64 + (b - 0x80);
    var n := m * 64 + (d - 0x80);
    assert n / 64 == m && n % 64 == d - 0x80 && m / 64 == a - 0xE0 && m % 64 == b - 0x80;
  }

  lemma CharOfFourBytes(a: nat, b: nat, d: nat, e: nat)
    requires 0xF0 <= a < 0xF8 && 0x80 <= b < 0xC0 && 0x80 <= d < 0xC0 && 0x80 <= e < 0xC0
    ensures var n := (a - 0xF0) * 262144 + (b - 0x80) * 4096 + (d - 0x80) * 64 + (e - 0x80);
            n >= 0x1_0000 && Scalar(n) ==> EncodeChar(n as char) == [a, b, d, e]
  {
    var l := (a - 0xF0) * 64 + (b - 0x80);
    var m := l * 64 + (d - 0x80);
    var n := m * 64 + (e - 0x80);
    assert n / 64 == m && n % 64 == e - 0x80 && m / 64 == l && m % 64 == d - 0x80;
    assert l / 64 == a - 0xF0 && l % 64 == b - 0x80;
  }

  lemma EncodeCharDecodeChar(bs: seq<byte>)
    requires bs != [] && DecodeChar(bs).Some?
    ensures var (c, k) := DecodeChar(bs).value; EncodeChar(c) == bs[..k]
  {
    hide EncodeChar;
    var k := DecodeChar(bs).value.1;
    if k == 1 {
      CharOfOneByte(bs[0]);
      assert bs[..1] == [bs[0]];
    } else if k == 2 {
      CharOfTwoBytes(bs[0], bs[1]);
      assert bs[..2] == [bs[0], bs[1]];
    } else if k == 3 {
      CharOfThreeBytes(bs[0], bs[1], bs[2]);
      assert bs[..3] == [bs[0], bs[1], bs[2]];
    } else {
      CharOfFourBytes(bs[0], bs[1], bs[2], bs[3]);
      assert bs[..4] == [bs[0], bs[1], bs[2], bs[3]];
    }
  }

  lemma CharOfOneByte(a: nat)
    requires a < 0x80
    ensures EncodeChar(a as char) == [a]
  {
  }

  lemma DecodeStep(bs: seq<byte>, s: string)
    requires bs != [] && Decode(bs) == Some(s)
    ensures s != [] && DecodeChar(bs).Some? && DecodeChar(bs).value.0 == s[0]
    ensures Decode(bs[DecodeChar(bs).value.1..]) == Some(s[1..])
  {
    hide DecodeChar;
    var (c, k) := DecodeChar(bs).value;
    var rest := Decode(bs[k..]).value;
    assert s == [c] + rest;
    assert s[1..] == rest;
  }

  lemma EncodeStep(s: string)
    requires s != []
    ensures Encode(s) == EncodeChar(s[0]) + Encode(s[1..])
  {
  }

  lemma NothingDecoded()
    ensures Decode([]) == Some([]) && Encode([]) == []
  {
  }

  /** Decoding is strict: bytes that decode are the encoding of what they decode to, and no others. */
  lemma {:induction false} EncodeDecode(bs: seq<byte>, s: string)
    requires Decode(bs) == Some(s)
    ensures Encode(s) == bs
    decreases |bs|
  {
    hide *;
    if bs == [] {
      NothingDecoded();
    } else {
      DecodeStep(bs, s);
      EncodeCharDecodeChar(bs);
      var k := DecodeChar(bs).value.1;
      EncodeDecode(bs[k..], s[1..]);
      EncodeStep(s);
      assert bs == bs[..k] + bs[k..];
    }
  }

  /** One character of each length. */
  lemma LengthsSpelledOut()
    ensures EncodeChar('A') == [0x41] && EncodeChar('\U{E9}') == [0xC3, 0xA9]
    ensures EncodeChar('\U{20AC}') == [0xE2, 0x82, 0xAC] && EncodeChar('\U{1F600}') == [0xF0, 0x9F, 0x98, 0x80]
  {
  }

  lemma {:induction false} EncodeConcat(s: string, t: string)
    ensures Encode(s + t) == Encode(s) + Encode(t)
  {
    if s == [] {
      assert s + t == t;
    } else {
      var head := EncodeChar(s[0]);
      EncodeConcat(s[1..], t);
      assert (s + t)[0] == s[0] && (s + t)[1..] == s[1..] + t;
      AppendAssociates(head, Encode(s[1..]), Encode(t));
    }
  }

  lemma AppendAssociates<T>(a: seq<T>, b: seq<T>, c: seq<T>)
    ensures a + (b + c) == a + b + c
  {
  }

  lemma EncodeInjective(s: string, t: string)
    requires Encode(s) == Encode(t)
    ensures s == t
  {
    DecodeEncode(s);
    DecodeEncode(t);
  }
}
