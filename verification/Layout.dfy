/** The bytes of a frame, spelled out: what another implementation has to read and write. */
module Layout {
  import opened Bits
  import opened Json
  import opened Message
  import opened Serialization
  import opened Utf8
  import opened Wire
  import opened Wrappers
  import JsonText

  // ---------------------------------------------------------------- bits in a row

  lemma {:induction false} BytesBitsConcat(a: seq<byte>, b: seq<byte>)
    ensures BytesToBits(a + b) == BytesToBits(a) + BytesToBits(b)
  {
    hide ToBits;
    if a == [] {
      assert a + b == b;
    } else {
      BytesBitsConcat(a[1..], b);
      assert (a + b)[0] == a[0] && (a + b)[1..] == a[1..] + b;
      AppendAssociates(ToBits(a[0], 8), BytesToBits(a[1..]), BytesToBits(b));
    }
  }

  lemma OneByteBits(b: byte)
    ensures BytesToBits([b]) == ToBits(b, 8)
  {
    assert [b][1..] == [];
  }

  // ---------------------------------------------------------------- frames of whole bytes

  function Flag(b: bool): nat { if b then 1 else 0 }

  lemma Snoc(bits: Bits, b: bool)
    ensures FromBits(bits + [b]) == 2 * FromBits(bits) + Flag(b)
  {
    assert (bits + [b])[..|bits|] == bits;
  }

  lemma TwoBits(a: bool, b: bool)
    ensures FromBits([a, b]) == 2 * Flag(a) + Flag(b)
  {
    Snoc([], a);
    Snoc([a], b);
    assert [] + [a] == [a] && [a] + [b] == [a, b];
  }

  lemma AppendTwo(bits: Bits, more: Bits)
    requires |more| == 2
    ensures FromBits(bits + more) == 4 * FromBits(bits) + FromBits(more)
  {
    TwoBits(more[0], more[1]);
    Snoc(bits, more[0]);
    Snoc(bits + [more[0]], more[1]);
    hide FromBits;
    assert more == [more[0], more[1]];
    assert bits + more == bits + [more[0]] + [more[1]];
  }

  lemma AppendFour(bits: Bits, more: Bits)
    requires |more| == 4
    ensures FromBits(bits + more) == 16 * FromBits(bits) + FromBits(more)
  {
    hide FromBits;
    var a, b := more[..2], more[2..];
    AppendTwo(a, b);
    AppendTwo(bits, a);
    AppendTwo(bits + a, b);
    assert more == a + b && bits + more == bits + a + b;
  }

  lemma HeaderNumber(front: Bits, code: Bits, compressed: bool)
    requires |code| == 5
    ensures FromBits(front + (code + [compressed])) == 64 * FromBits(front) + 2 * FromBits(code) + Flag(compressed)
  {
    hide FromBits;
    var a, b := code[..4], code[4];
    AppendFour(front, a);
    Snoc(front + a, b);
    Snoc(a, b);
    Snoc(front + a + [b], compressed);
    assert code == a + [b] && front + (code + [compressed]) == front + a + [b] + [compressed];
  }

  /** Two bits, the code and the flag are one byte. */
  lemma HeaderByte(front: Bits, code: nat, compressed: bool)
    requires |front| == 2 && code < 32
    ensures ToBits(64 * FromBits(front) + 2 * code + Flag(compressed), 8)
         == front + (ToBits(code, 5) + [compressed])
  {
    Pow2Values();
    FromToBits(code, 5);
    HeaderNumber(front, ToBits(code, 5), compressed);
    hide ToBits, FromBits, Pow2;
    ToFromBits(front + (ToBits(code, 5) + [compressed]));
  }

  /** The version 1 and the first of the two header bytes it makes. */
  lemma VersionBytes()
    ensures ToBits(1, 8) == Zeros(6) + [false, true] && ToBits(0xC0, 8) == [true, true] + Zeros(6)
  {
    TwoBits(false, false);
    TwoBits(true, true);
    HeaderByte([false, false], 0, true);
    HeaderByte([true, true], 0, false);
    assert ToBits(0, 5) == [false, false, false, false, false];
    hide ToBits, FromBits;
  }

  lemma PartsBits(front: seq<byte>, m: byte, meta: seq<byte>, payload: seq<byte>)
    ensures BytesToBits(front + ([m] + (meta + payload)))
         == BytesToBits(front) + (ToBits(m, 8) + (BytesToBits(meta) + BytesToBits(payload)))
  {
    hide *;
    BytesBitsConcat(front, [m] + (meta + payload));
    BytesBitsConcat([m], meta + payload);
    BytesBitsConcat(meta, payload);
    OneByteBits(m);
  }

  lemma Inner(a: Bits, b: Bits, c: Bits)
    ensures a + (b + c) == (a + b) + c
  {
  }

  lemma FrameBytes(f: Frame, front: seq<byte>)
    requires Fits(f) && f.code != 12
    requires Unpadded(f) == BytesToBits(front) + (MetaBits(f.meta) + BodyBits(f))
    ensures BitsToBytes(EncodeFrame(f)) == Some(front + ([|f.meta|] + (f.meta + f.payload)))
  {
    PaddingByType(f);
    var m: byte := |f.meta|;
    assert EncodeFrame(f) == Unpadded(f) && BodyBits(f) == [] + BytesToBits(f.payload);
    assert [] + BytesToBits(f.payload) == BytesToBits(f.payload);
    assert MetaBits(f.meta) == ToBits(m, 8) + BytesToBits(f.meta);
    hide *;
    Inner(ToBits(m, 8), BytesToBits(f.meta), BytesToBits(f.payload));
    PartsBits(front, m, f.meta, f.payload);
    BytesBitsBytes(front + ([m] + (f.meta + f.payload)));
  }

  lemma FlatBytes(front: seq<byte>, m: byte, header: seq<byte>, meta: seq<byte>, payload: seq<byte>)
    requires header == front + [m]
    ensures front + ([m] + (meta + payload)) == header + meta + payload
  {
  }

  /**
   Every type but BINARY has a frame of whole bytes: the start bit, no version, the code and whether it is compressed in
   the first; then the length of the metadata, the metadata, the payload.
   */
  lemma ShortFrame(f: Frame)
    requires Fits(f) && f.code != 12 && f.version.None?
    ensures BitsToBytes(EncodeFrame(f)) == Some([0x80 + 2 * f.code + Flag(f.compressed), |f.meta|] + f.meta + f.payload)
  {
    var n: byte, m: byte := 0x80 + 2 * f.code + Flag(f.compressed), |f.meta|;
    TwoBits(true, false);
    HeaderByte([true, false], f.code, f.compressed);
    ShortUnpadded(f);
    OneByteBits(n);
    assert n == 64 * (2 * Flag(true) + Flag(false)) + 2 * f.code + Flag(f.compressed);
    hide *;
    FrameBytes(f, [n]);
    FlatBytes([n], m, [n, m], f.meta, f.payload);
  }

  lemma ShortUnpadded(f: Frame)
    requires f.version.None?
    ensures Unpadded(f) == [true, false] + (ToBits(f.code, 5) + [f.compressed]) + (MetaBits(f.meta) + BodyBits(f))
  {
    hide ToBits, MetaBits, BodyBits;
  }

  lemma VersionedUnpadded(f: Frame)
    requires f.version.Some?
    ensures Unpadded(f) == [true, true] + ToBits(f.version.value, 8) + (ToBits(f.code, 5) + [f.compressed])
                           + (MetaBits(f.meta) + BodyBits(f))
  {
    hide ToBits, MetaBits, BodyBits;
  }

  /** The same with the version, which makes the header two bytes. */
  lemma VersionedFrame(f: Frame)
    requires Fits(f) && f.code != 12 && f.version == Some(1)
    ensures BitsToBytes(EncodeFrame(f))
         == Some([0xC0, 0x40 + 2 * f.code + Flag(f.compressed), |f.meta|] + f.meta + f.payload)
  {
    VersionedFrameAs(f, 0x40 + 2 * f.code + Flag(f.compressed), |f.meta|);
  }

  lemma VersionedFrameAs(f: Frame, n: byte, m: byte)
    requires Fits(f) && f.code != 12 && f.version == Some(1)
    requires n as int == 0x40 + 2 * f.code + Flag(f.compressed) && m as int == |f.meta|
    ensures BitsToBytes(EncodeFrame(f)) == Some([0xC0, n, m] + f.meta + f.payload)
  {
    VersionedUnpadded(f);
    VersionedHeader(f.code, f.compressed, n);
    assert f.code < 32;
    hide *;
    FrameBytes(f, [0xC0, n]);
    FlatBytes([0xC0, n], m, [0xC0, n, m], f.meta, f.payload);
  }

  lemma VersionedHeader(code: nat, compressed: bool, n: byte)
    requires code < 32 && n as int == 0x40 + 2 * code + Flag(compressed)
    ensures [true, true] + ToBits(1, 8) + (ToBits(code, 5) + [compressed]) == BytesToBits([0xC0, n])
  {
    assert n as int == 64 * (2 * Flag(false) + Flag(true)) + 2 * code + Flag(compressed);
    hide *;
    TwoBits(false, true);
    HeaderByte([false, true], code, compressed);
    VersionBytes();
    assert [0xC0] + [n] == [0xC0, n];
    BytesBitsConcat([0xC0], [n]);
    OneByteBits(0xC0);
    OneByteBits(n);
    VersionShifts(ToBits(code, 5) + [compressed]);
  }

  lemma VersionShifts(rest: Bits)
    ensures [true, true] + (Zeros(6) + [false, true]) + rest == ([true, true] + Zeros(6)) + ([false, true] + rest)
  {
  }

  // ---------------------------------------------------------------- BINARY frames, in half bytes

  function Nibbles(bytes: seq<byte>): (r: seq<nat>)
    ensures |r| == 2 * |bytes|
  {
    if bytes == [] then [] else [bytes[0] as int / 16, bytes[0] as int % 16] + Nibbles(bytes[1..])
  }

  function NibbleBits(ns: seq<nat>): Bits {
    if ns == [] then [] else ToBits(ns[0], 4) + NibbleBits(ns[1..])
  }

  lemma ByteNibbles(b: byte)
    ensures ToBits(b, 8) == ToBits(b as int / 16, 4) + ToBits(b as int % 16, 4)
  {
    Pow2Values();
    var hi, lo: nat := b as int / 16, b as int % 16;
    FromToBits(hi, 4);
    FromToBits(lo, 4);
    hide ToBits, FromBits, Pow2;
    AppendFour(ToBits(hi, 4), ToBits(lo, 4));
    ToFromBits(ToBits(hi, 4) + ToBits(lo, 4));
  }

  lemma {:induction false} NibbleBitsConcat(a: seq<nat>, b: seq<nat>)
    ensures NibbleBits(a + b) == NibbleBits(a) + NibbleBits(b)
  {
    hide ToBits;
    if a == [] {
      assert a + b == b;
    } else {
      NibbleBitsConcat(a[1..], b);
      assert (a + b)[0] == a[0] && (a + b)[1..] == a[1..] + b;
      AppendAssociates(ToBits(a[0], 4), NibbleBits(a[1..]), NibbleBits(b));
    }
  }

  /** Half bytes are read high half first. */
  lemma {:induction false} NibblesAreBits(bytes: seq<byte>)
    ensures NibbleBits(Nibbles(bytes)) == BytesToBits(bytes)
  {
    hide ToBits;
    if bytes != [] {
      var hi, lo: nat := bytes[0] as int / 16, bytes[0] as int % 16;
      NibblesAreBits(bytes[1..]);
      ByteNibbles(bytes[0]);
      NibbleBitsConcat([hi, lo], Nibbles(bytes[1..]));
      TwoNibbles(hi, lo);
    }
  }

  lemma TwoNibbles(hi: nat, lo: nat)
    ensures NibbleBits([hi, lo]) == ToBits(hi, 4) + ToBits(lo, 4)
  {
    hide ToBits;
    OneNibble(lo);
    assert [hi, lo][1..] == [lo];
  }

  lemma OneNibble(n: nat)
    ensures NibbleBits([n]) == ToBits(n, 4)
  {
    assert [n][1..] == [];
  }

  /** The start of a BINARY frame: padding, start bit, no version, code 12, compressed or not. */
  lemma BinaryHeader(compressed: bool)
    ensures NibbleBits([0, 9, 8 + Flag(compressed)])
         == [false, false, false, false] + ([true, false] + (ToBits(12, 5) + [compressed]))
  {
    var front, last := [0, 9], [8 + Flag(compressed)];
    assert [0, 9, 8 + Flag(compressed)] == front + last;
    NibbleValues(compressed);
    hide ToBits, NibbleBits;
    NibbleBitsConcat(front, last);
    TwoNibbles(0, 9);
    OneNibble(8 + Flag(compressed));
    TwelveBits(ToBits(0, 4), ToBits(9, 4), ToBits(8 + Flag(compressed), 4), ToBits(12, 5), compressed);
  }

  lemma TwelveBits(a: Bits, b: Bits, d: Bits, code: Bits, compressed: bool)
    requires a == [false, false, false, false] && b == [true, false, false, true]
    requires d == [true, false, false, compressed] && code == [false, true, true, false, false]
    ensures a + b + d == [false, false, false, false] + ([true, false] + (code + [compressed]))
  {
  }

  lemma FourBits(a: bool, b: bool, c: bool, d: bool)
    ensures ToBits(8 * Flag(a) + 4 * Flag(b) + 2 * Flag(c) + Flag(d), 4) == [a, b, c, d]
  {
    TwoBits(a, b);
    TwoBits(c, d);
    hide ToBits, FromBits;
    AppendTwo([a, b], [c, d]);
    assert [a, b] + [c, d] == [a, b, c, d];
    ToFromBits([a, b, c, d]);
  }

  lemma NibbleValues(compressed: bool)
    ensures ToBits(0, 4) == [false, false, false, false] && ToBits(9, 4) == [true, false, false, true]
    ensures ToBits(8 + Flag(compressed), 4) == [true, false, false, compressed]
    ensures ToBits(12, 5) == [false, true, true, false, false]
  {
    hide ToBits;
    FourBits(false, false, false, false);
    FourBits(true, false, false, true);
    FourBits(true, false, false, compressed);
    FourBits(false, true, true, false);
    NextBit(12, 4);
  }

  lemma NextBit(n: nat, width: nat)
    ensures ToBits(n, width + 1) == ToBits(n / 2, width) + [n % 2 == 1]
  {
  }

  lemma BinaryUnpadded(f: Frame)
    requires f.code == 12 && f.version.None?
    ensures EncodeFrame(f) == [false, false, false, false] + ([true, false] + (ToBits(12, 5) + [f.compressed]))
                              + (MetaBits(f.meta) + BodyBits(f))
  {
    PaddingByType(f);
    ShortUnpadded(f);
    assert Zeros(4) == [false, false, false, false];
    hide ToBits, MetaBits, BodyBits;
  }

  lemma NibbleParts(header: seq<nat>, meta: seq<byte>, sub: nat, payload: seq<byte>)
    ensures NibbleBits(header + (Nibbles(meta) + ([sub] + Nibbles(payload))))
         == NibbleBits(header) + (BytesToBits(meta) + (ToBits(sub, 4) + BytesToBits(payload)))
  {
    hide *;
    NibbleBitsConcat(header, Nibbles(meta) + ([sub] + Nibbles(payload)));
    NibbleBitsConcat(Nibbles(meta), [sub] + Nibbles(payload));
    NibbleBitsConcat([sub], Nibbles(payload));
    NibblesAreBits(meta);
    NibblesAreBits(payload);
    OneNibble(sub);
  }

  lemma MetaIsBytes(meta: seq<byte>)
    requires |meta| < 256
    ensures MetaBits(meta) == BytesToBits([|meta|] + meta)
  {
    var m: byte := |meta|;
    BytesBitsConcat([m], meta);
    OneByteBits(m);
    hide ToBits, BytesToBits;
  }

  function BinaryNibbles(compressed: bool, meta: seq<byte>, subtype: nat, payload: seq<byte>): seq<nat>
    requires |meta| < 256
  {
    [0, 9, 8 + Flag(compressed)] + (Nibbles([|meta|] + meta) + ([subtype] + Nibbles(payload)))
  }

  /** A BINARY frame: four bits of padding, which the subtype in front of the payload makes up for. */
  lemma BinaryFrame(f: Frame)
    requires Fits(f) && f.code == 12 && f.version.None?
    ensures EncodeFrame(f) == NibbleBits(BinaryNibbles(f.compressed, f.meta, f.subtype, f.payload))
  {
    BinaryUnpadded(f);
    BinaryHeader(f.compressed);
    MetaIsBytes(f.meta);
    assert BodyBits(f) == ToBits(f.subtype, 4) + BytesToBits(f.payload);
    assert BinaryNibbles(f.compressed, f.meta, f.subtype, f.payload)
        == [0, 9, 8 + Flag(f.compressed)] + (Nibbles([|f.meta|] + f.meta) + ([f.subtype] + Nibbles(f.payload)));
    hide *;
    NibbleParts([0, 9, 8 + Flag(f.compressed)], [|f.meta|] + f.meta, f.subtype, f.payload);
  }

  // ---------------------------------------------------------------- messages

  /** The names of the types in the order of their codes. */
  const NAMES_BY_CODE := ["shake", "bus", "shared_bus", "broadcast", "propagate", "escalate", "hello", "query",
                          "cascade", "ping", "rendezvous", "3rdparty", "bin"]

  /** The name of the type a message goes out under has the message's code; INTERCOM goes out as of unknown kind. */
  lemma CodeByName(t: MsgType)
    ensures Code(t) < 13
    ensures if t.Intercom? then TypeName(t) == "intercom" && NAMES_BY_CODE[Code(t)] == "3rdparty"
            else NAMES_BY_CODE[Code(t)] == TypeName(t)
  {
  }

  /** Serialized metadata as it stands in the frame. */
  function MetaBytes(z: Zlib, hivemeta: Json, compressed: bool): seq<byte> {
    var plain := Encode(JsonText.Dumps(if Truthy(hivemeta) then hivemeta else Obj([]), JsonText.DEFAULT));
    if compressed then z.compress(plain) else plain
  }

  /**
   The bytes of a message whose payload is given as text: a header byte by its type, the length of the metadata,
   the metadata, the text; both compressed if the header says so.
   */
  lemma TextMessageBytes(z: Zlib, t: MsgType, text: string, compressed: bool, hivemeta: Json, binType: nat)
    requires !t.Binary? && (Truthy(hivemeta) ==> hivemeta.Obj?)
    ensures var meta := MetaBytes(z, hivemeta, compressed);
            var payload := if compressed then z.compress(Encode(text)) else Encode(text);
            var bits := Encoded(z, t, TextBody(text), compressed, hivemeta, binType, false);
            && (bits.Some? <==> |meta| < 256)
            && Code(t) < 12
            && (|meta| < 256 ==> bits.Some? && BitsToBytes(bits.value)
                                 == Some([0x80 + 2 * Code(t) + Flag(compressed), |meta|] + meta + payload))
  {
    CodeByName(t);
    TypeOfCodeCode(t);
    var meta := MetaBytes(z, hivemeta, compressed);
    hide Code, JsonText.Dumps, EncodeFrame, Encode;
    var f := FrameOf(z, t, TextBody(text), compressed, hivemeta, binType, false);
    if f.Some? { ShortFrame(f.value); }
  }

  /** A BINARY message, whose content is never compressed; a content type that is not one of the seven goes out as 0. */
  lemma BinaryMessageNibbles(z: Zlib, content: seq<byte>, compressed: bool, hivemeta: Json, binType: nat)
    requires Truthy(hivemeta) ==> hivemeta.Obj?
    ensures var meta := MetaBytes(z, hivemeta, compressed);
            var bits := Encoded(z, Binary, RawBody(content), compressed, hivemeta, binType, false);
            && (bits.Some? <==> |meta| < 256)
            && (|meta| < 256 ==>
                  bits == Some(NibbleBits(BinaryNibbles(compressed, meta, if binType < 7 then binType else 0,
                                                        content))))
  {
    hide JsonText.Dumps, EncodeFrame, Encode;
    var f := FrameOf(z, Binary, RawBody(content), compressed, hivemeta, binType, false);
    if f.Some? { BinaryFrame(f.value); }
    hide NibbleBits, BinaryNibbles;
  }
}
