/** HiveMessages as binary frames: get_bitstring and decode_bitstring. */
module Serialization {
  import opened Bits
  import opened Json
  import opened Message
  import opened Utf8
  import opened Wire
  import opened Wrappers
  import JsonText

  /** Foreign compression (RFC 1950); None where decompression raises. */
  datatype Zlib = Zlib(compress: seq<byte> -> seq<byte>, decompress: seq<byte> -> Option<seq<byte>>)

  ghost predicate Inverse(z: Zlib) { forall bytes :: z.decompress(z.compress(bytes)) == Some(bytes) }

  /** _INT2TYPE turned around, with 11 for the type it does not hold. */
  function Code(t: MsgType): nat {
    match t
    case Handshake => 0
    case Bus => 1
    case SharedBus => 2
    case Broadcast => 3
    case Propagate => 4
    case Escalate => 5
    case Hello => 6
    case Query => 7
    case Cascade => 8
    case Ping => 9
    case Rendezvous => 10
    case ThirdParty => 11
    case Binary => BINARY_CODE
    case Intercom => 11
  }

  const INT2TYPE := [Handshake, Bus, SharedBus, Broadcast, Propagate, Escalate, Hello, Query, Cascade, Ping,
                     Rendezvous, ThirdParty, Binary]

  /** The type of a code; a code without one ends in the constructor's ValueError. */
  function TypeOfCode(code: nat): Option<MsgType> { if code < 13 then Some(INT2TYPE[code]) else None }

  /** The type a message has on the other side. */
  function OnWire(t: MsgType): MsgType { if t.Intercom? then ThirdParty else t }

  lemma TypeOfCodeCode(t: MsgType)
    ensures Code(t) < 13 && TypeOfCode(Code(t)) == Some(OnWire(t))
    ensures Code(t) == BINARY_CODE <==> t.Binary?
  {
  }

  /** HiveMindBinaryPayloadType has the values 0 to 6; any other number counts as 0. */
  function BinaryType(n: nat): nat { if n <= 6 then n else 0 }

  /** A payload to be encoded: serialized text, a dictionary, or raw bytes. */
  datatype Body = TextBody(text: string) | JsonBody(json: Json) | RawBody(bytes: seq<byte>)

  function Cast2Bytes(z: Zlib, body: Body, compressed: bool): Option<seq<byte>> {
    var plain :- match body
      case TextBody(text) => Some(Encode(text))
      case JsonBody(v) => if v.Obj? then Some(Encode(JsonText.Dumps(v, JsonText.DEFAULT))) else None
      case RawBody(bytes) => Some(bytes);
    Some(if compressed then z.compress(plain) else plain)
  }

  function Bytes2Str(z: Zlib, bytes: seq<byte>, compressed: bool): Option<string> {
    var plain :- if compressed then z.decompress(bytes) else Some(bytes);
    Decode(plain)
  }

  /** The fields get_bitstring writes; None where it raises. */
  function FrameOf(z: Zlib, t: MsgType, body: Body, compressed: bool, hivemeta: Json, binType: nat, versioned: bool)
    : Option<Frame>
  {
    var meta :- Cast2Bytes(z, JsonBody(OrEmpty(hivemeta)), compressed);
    if |meta| > 255 then None
    else
      var payload :- if t.Binary? then (if body.RawBody? then Some(body.bytes) else None)
                     else Cast2Bytes(z, body, compressed);
      Some(Frame(if versioned then Some(PROTOCOL_VERSION) else None, Code(t), compressed, meta,
                 if t.Binary? then BinaryType(binType) else 0, payload))
  }

  function Encoded(z: Zlib, t: MsgType, body: Body, compressed: bool, hivemeta: Json, binType: nat, versioned: bool)
    : Option<Bits>
  {
    var f :- FrameOf(z, t, body, compressed, hivemeta, binType, versioned);
    Some(EncodeFrame(f))
  }

  /** The payload field; None where the payload is of no use for the type. */
  function PayloadField(z: Zlib, t: MsgType, body: Body, compressed: bool): Option<seq<byte>> {
    if t.Binary? then (if body.RawBody? then Some(body.bytes) else None) else Cast2Bytes(z, body, compressed)
  }

  /** Appends field after field, then pads on the left. */
  method GetBitstringV1(z: Zlib, t: MsgType, body: Body, compressed: bool, hivemeta: Json, binType: nat,
                        versioned: bool)
    returns (r: Option<Bits>)
    ensures r == Encoded(z, t, body, compressed, hivemeta, binType, versioned)
  {
    hide *;
    var s: Bits := [true];
    s := s + [versioned];
    if versioned { s := s + ToBits(PROTOCOL_VERSION, 8); }
    s := s + ToBits(Code(t), 5);
    s := s + [compressed];
    var meta := Cast2Bytes(z, JsonBody(OrEmpty(hivemeta)), compressed);
    var payload := PayloadField(z, t, body, compressed);
    EncodedAs(z, t, body, compressed, hivemeta, binType, versioned);
    if meta.None? || |meta.value| > 255 { return None; }
    s := s + ToBits(|meta.value|, 8);
    s := s + BytesToBits(meta.value);
    if t.Binary? { s := s + ToBits(BinaryType(binType), 4); }
    if payload.None? { return None; }
    s := s + BytesToBits(payload.value);
    Assembled(versioned, t, compressed, meta.value, BinaryType(binType), payload.value);
    s := Pad(s);
    r := Some(s);
  }

  /** The fields get_bitstring writes. */
  function FieldsOf(versioned: bool, t: MsgType, compressed: bool, meta: seq<byte>, subtype: nat, payload: seq<byte>)
    : Frame
  {
    Frame(if versioned then Some(PROTOCOL_VERSION) else None, Code(t), compressed, meta,
          if t.Binary? then subtype else 0, payload)
  }

  lemma EncodedAs(z: Zlib, t: MsgType, body: Body, compressed: bool, hivemeta: Json, binType: nat, versioned: bool)
    ensures var meta := Cast2Bytes(z, JsonBody(OrEmpty(hivemeta)), compressed);
            var payload := PayloadField(z, t, body, compressed);
            Encoded(z, t, body, compressed, hivemeta, binType, versioned)
            == (if meta.None? || |meta.value| > 255 || payload.None? then None
                else Some(EncodeFrame(FieldsOf(versioned, t, compressed, meta.value, BinaryType(binType),
                                               payload.value))))
  {
    hide Cast2Bytes, EncodeFrame, OrEmpty, Code, BinaryType;
  }

  lemma Assembled(versioned: bool, t: MsgType, compressed: bool, meta: seq<byte>, subtype: nat, payload: seq<byte>)
    ensures var v := [true] + [versioned];
            var w := if versioned then v + ToBits(PROTOCOL_VERSION, 8) else v;
            var x := w + ToBits(Code(t), 5) + [compressed] + ToBits(|meta|, 8) + BytesToBits(meta);
            var y := if t.Binary? then x + ToBits(subtype, 4) else x;
            var s := y + BytesToBits(payload);
            Zeros(Padding(|s|)) + s == EncodeFrame(FieldsOf(versioned, t, compressed, meta, subtype, payload))
  {
    hide *;
    var f := FieldsOf(versioned, t, compressed, meta, subtype, payload);
    FrameParts(versioned, t, compressed, meta, subtype, payload);
    InOrder(VersionBits(f.version), ToBits(Code(t), 5), [compressed], ToBits(|meta|, 8), BytesToBits(meta),
            SubtypeBits(f), BytesToBits(payload));
  }

  lemma FrameParts(versioned: bool, t: MsgType, compressed: bool, meta: seq<byte>, subtype: nat, payload: seq<byte>)
    ensures var f := FieldsOf(versioned, t, compressed, meta, subtype, payload);
            var v := [true] + [versioned];
            var u := [true] + (VersionBits(f.version) + (ToBits(Code(t), 5) + ([compressed]
                     + ((ToBits(|meta|, 8) + BytesToBits(meta)) + (SubtypeBits(f) + BytesToBits(payload))))));
            && EncodeFrame(f) == Zeros(Padding(|u|)) + u
            && [true] + VersionBits(f.version) == (if versioned then v + ToBits(PROTOCOL_VERSION, 8) else v)
            && SubtypeBits(f) == (if t.Binary? then ToBits(subtype, 4) else [])
  {
    hide ToBits, BytesToBits, Code, Padding, Zeros;
    TypeOfCodeCode(t);
  }

  lemma InOrder(v: Bits, code: Bits, flag: Bits, length: Bits, meta: Bits, sub: Bits, payload: Bits)
    ensures [true] + v + code + flag + length + meta + sub + payload
         == [true] + (v + (code + (flag + ((length + meta) + (sub + payload)))))
  {
  }

  /** get_bitstring: versions above 1 are refused; without a choice the shorter of the two forms is taken. */
  method GetBitstring(z: Zlib, t: MsgType, body: Body, compressed: Option<bool>, hivemeta: Json, binType: nat,
                      protoVersion: nat, versioned: bool) returns (r: Option<Bits>)
    ensures r == (if protoVersion > 1 then None
                  else if compressed.Some? then Encoded(z, t, body, compressed.value, hivemeta, binType, versioned)
                  else Auto(z, t, body, hivemeta, binType, versioned))
  {
    if protoVersion > 1 { return None; }
    hide Encoded;
    if compressed.None? {
      var unc := GetBitstringV1(z, t, body, false, hivemeta, binType, versioned);
      if unc.None? { return None; }
      var comp := GetBitstringV1(z, t, body, true, hivemeta, binType, versioned);
      if comp.None? { return None; }
      if |unc.value| <= |comp.value| { return unc; }
      return comp;
    }
    r := GetBitstringV1(z, t, body, compressed.value, hivemeta, binType, versioned);
  }

  function Shorter(unc: Option<Bits>, comp: Option<Bits>): Option<Bits> {
    if unc.None? || comp.None? then None else if |unc.value| <= |comp.value| then unc else comp
  }

  function Auto(z: Zlib, t: MsgType, body: Body, hivemeta: Json, binType: nat, versioned: bool): Option<Bits> {
    Shorter(Encoded(z, t, body, false, hivemeta, binType, versioned),
            Encoded(z, t, body, true, hivemeta, binType, versioned))
  }

  // ---------------------------------------------------------------- reading

  /** The message a frame stands for; None where decoding or the constructor raises. */
  function Interpret(z: Zlib, f: Frame): Option<HiveMsg> {
    var metaText :- Bytes2Str(z, f.meta, f.compressed);
    var meta :- JsonText.Loads(metaText);
    if f.code == BINARY_CODE then
      Make(TypeName(Binary), FromBytes(f.payload), meta, Null, Null, Null, Null, Null, Null, BinaryType(f.subtype))
    else
      var text :- Bytes2Str(z, f.payload, f.compressed);
      var t :- TypeOfCode(f.code);
      Make(TypeName(t), FromText(text), meta, Null, Null, Null, Null, Null, Null, 0)
  }

  method DecodeBitstring(z: Zlib, bytes: seq<byte>) returns (r: Result<HiveMsg, WireError>)
    ensures r == Decoded(z, bytes)
  {
    var frame := DecodeFrame(BytesToBits(bytes));
    if frame.Err? { return Err(frame.error); }
    r := Required(Interpret(z, frame.value));
  }

  function Decoded(z: Zlib, bytes: seq<byte>): Result<HiveMsg, WireError> {
    var f :- Parse(BytesToBits(bytes));
    Required(Interpret(z, f))
  }

  // ---------------------------------------------------------------- round trip

  /** What a body says once read as JSON. */
  function Content(body: Body): Option<Json> {
    match body
    case TextBody(text) => JsonText.Loads(text)
    case JsonBody(v) => Some(v)
    case RawBody(bytes) =>
      var text :- Decode(bytes);
      JsonText.Loads(text)
  }

  function Received(t: MsgType, stored: Stored, meta: Json, binType: nat): HiveMsg {
    HiveMsg(t, stored, meta, Arr([]), Null, Null, Null, Null, Arr([]), binType)
  }

  lemma CastAndBack(z: Zlib, body: Body, compressed: bool)
    requires Inverse(z) && Cast2Bytes(z, body, compressed).Some?
    ensures var r := Bytes2Str(z, Cast2Bytes(z, body, compressed).value, compressed);
            && (body.TextBody? ==> r == Some(body.text))
            && (body.JsonBody? ==> r == Some(JsonText.Dumps(body.json, JsonText.DEFAULT)))
            && (body.RawBody? ==> r == Decode(body.bytes))
  {
    match body
    case TextBody(text) => DecodeEncode(text);
    case JsonBody(v) => DecodeEncode(JsonText.Dumps(v, JsonText.DEFAULT));
    case RawBody(_) =>
  }

  lemma FrameFits(z: Zlib, t: MsgType, body: Body, compressed: bool, hivemeta: Json, binType: nat, versioned: bool)
    requires FrameOf(z, t, body, compressed, hivemeta, binType, versioned).Some?
    ensures var f := FrameOf(z, t, body, compressed, hivemeta, binType, versioned).value;
            Fits(f) && (f.version.Some? ==> f.version.value <= 1)
  {
    TypeOfCodeCode(t);
    hide Cast2Bytes, Code;
  }

  lemma EncodedBytes(f: Frame)
    requires Fits(f) && (f.version.Some? ==> f.version.value <= 1)
    ensures BitsToBytes(EncodeFrame(f)).Some?
    ensures Parse(BytesToBits(BitsToBytes(EncodeFrame(f)).value)) == Ok(f)
  {
    hide EncodeFrame, Parse, BytesToBits, BitsToBytes, Zeros, Fits;
    PaddingByType(f);
    BitsBytesBits(EncodeFrame(f));
    ParseEncode(f, 0);
    NoZeros(EncodeFrame(f));
  }

  lemma NoZeros(bits: Bits)
    ensures Zeros(0) + bits == bits
  {
  }

  lemma MetaReadsBack(z: Zlib, hivemeta: Json, compressed: bool)
    requires Inverse(z) && OrEmpty(hivemeta).Obj?
    ensures var cast := Cast2Bytes(z, JsonBody(OrEmpty(hivemeta)), compressed);
            cast.Some?
            && Bytes2Str(z, cast.value, compressed) == Some(JsonText.Dumps(OrEmpty(hivemeta), JsonText.DEFAULT))
            && JsonText.Loads(JsonText.Dumps(OrEmpty(hivemeta), JsonText.DEFAULT)) == Some(OrEmpty(hivemeta))
  {
    hide Bytes2Str, JsonText.Dumps, JsonText.Loads, Inverse, OrEmpty;
    CastAndBack(z, JsonBody(OrEmpty(hivemeta)), compressed);
    JsonText.LoadsDumps(OrEmpty(hivemeta), JsonText.DEFAULT);
  }

  lemma ContentReadsBack(z: Zlib, body: Body, compressed: bool)
    requires Inverse(z) && Cast2Bytes(z, body, compressed).Some? && Content(body).Some?
    ensures var text := Bytes2Str(z, Cast2Bytes(z, body, compressed).value, compressed);
            text.Some? && JsonText.Loads(text.value) == Content(body)
  {
    CastAndBack(z, body, compressed);
    hide Bytes2Str, JsonText.Dumps, JsonText.Loads, Inverse, Cast2Bytes, Decode;
    if body.JsonBody? { JsonText.LoadsDumps(body.json, JsonText.DEFAULT); }
  }

  lemma MadeFromText(t: MsgType, text: string, v: Json, meta: Json)
    requires !t.Binary? && JsonText.Loads(text) == Some(v) && OrEmpty(meta) == meta
    ensures Make(TypeName(t), FromText(text), meta, Null, Null, Null, Null, Null, Null, 0)
         == Some(Received(t, Value(OrEmpty(v)), meta, 0))
  {
    TypeNamesKnown(t);
    hide TypeName, TypeOf, JsonText.Loads;
  }

  lemma MadeFromBytes(bytes: seq<byte>, meta: Json, binType: nat)
    requires bytes != [] && OrEmpty(meta) == meta
    ensures Make(TypeName(Binary), FromBytes(bytes), meta, Null, Null, Null, Null, Null, Null, binType)
         == Some(Received(Binary, Raw(bytes), meta, binType))
  {
    TypeNamesKnown(Binary);
    hide TypeName, TypeOf;
  }

  lemma InterpretFrame(z: Zlib, t: MsgType, body: Body, compressed: bool, hivemeta: Json, binType: nat, versioned: bool)
    requires Inverse(z) && OrEmpty(hivemeta).Obj?
    requires FrameOf(z, t, body, compressed, hivemeta, binType, versioned).Some?
    requires if t.Binary? then body.RawBody? && body.bytes != [] else Content(body).Some?
    ensures Interpret(z, FrameOf(z, t, body, compressed, hivemeta, binType, versioned).value)
         == Some(if t.Binary? then Received(Binary, Raw(body.bytes), OrEmpty(hivemeta), BinaryType(binType))
                 else Received(OnWire(t), Value(OrEmpty(Content(body).value)), OrEmpty(hivemeta), 0))
  {
    hide Cast2Bytes, Bytes2Str, JsonText.Dumps, JsonText.Loads, TypeName, TypeOf, Code, Inverse, Decode, Make, Content,
         TypeOfCode, Received;
    var meta := OrEmpty(hivemeta);
    MetaReadsBack(z, hivemeta, compressed);
    TypeOfCodeCode(t);
    assert OrEmpty(meta) == meta;
    if t.Binary? {
      MadeFromBytes(body.bytes, meta, BinaryType(binType));
    } else {
      var text := Bytes2Str(z, Cast2Bytes(z, body, compressed).value, compressed);
      ContentReadsBack(z, body, compressed);
      MadeFromText(OnWire(t), text.value, Content(body).value, meta);
    }
  }

  /**
   Every message that can be encoded is decoded with its type, metadata, subtype and payload: versioned or
   not, compressed or not. INTERCOM has no code of its own and arrives as THIRDPRTY.
   */
  lemma RoundTrip(z: Zlib, t: MsgType, body: Body, compressed: bool, hivemeta: Json, binType: nat, versioned: bool)
    requires Inverse(z) && OrEmpty(hivemeta).Obj?
    requires Encoded(z, t, body, compressed, hivemeta, binType, versioned).Some?
    requires if t.Binary? then body.RawBody? && body.bytes != [] else Content(body).Some?
    ensures var bytes := BitsToBytes(Encoded(z, t, body, compressed, hivemeta, binType, versioned).value);
            bytes.Some? && Decoded(z, bytes.value)
            == Ok(if t.Binary? then Received(Binary, Raw(body.bytes), OrEmpty(hivemeta), BinaryType(binType))
                  else Received(OnWire(t), Value(OrEmpty(Content(body).value)), OrEmpty(hivemeta), 0))
  {
    hide FrameOf, Interpret, Parse, EncodeFrame, BytesToBits, BitsToBytes, Content, Inverse, OrEmpty, OnWire,
         BinaryType, Fits,
         Received;
    var f := FrameOf(z, t, body, compressed, hivemeta, binType, versioned).value;
    FrameFits(z, t, body, compressed, hivemeta, binType, versioned);
    EncodedBytes(f);
    InterpretFrame(z, t, body, compressed, hivemeta, binType, versioned);
  }

  /** When a message of a given type, payload kind and metadata can be encoded at all. */
  lemma EncodableWhen(z: Zlib, t: MsgType, body: Body, compressed: bool, hivemeta: Json, binType: nat, versioned: bool)
    requires OrEmpty(hivemeta).Obj?
    ensures Encoded(z, t, body, compressed, hivemeta, binType, versioned).Some? <==>
            && |Cast2Bytes(z, JsonBody(OrEmpty(hivemeta)), compressed).value| <= 255
            && (if t.Binary? then body.RawBody? else body.JsonBody? ==> body.json.Obj?)
  {
    hide EncodeFrame, JsonText.Dumps, Encode;
  }

  /**
   Automatic choice: the result is one of the two forms and no longer than either, the uncompressed one if both are
   as long; it decodes to the same message as both, and it exists exactly when both forms do.
   */
  lemma AutoIsOptimalAndTransparent(z: Zlib, t: MsgType, body: Body, hivemeta: Json, binType: nat, versioned: bool)
    requires Inverse(z) && OrEmpty(hivemeta).Obj?
    requires if t.Binary? then body.RawBody? && body.bytes != [] else Content(body).Some?
    ensures var unc := Encoded(z, t, body, false, hivemeta, binType, versioned);
            var comp := Encoded(z, t, body, true, hivemeta, binType, versioned);
            var auto := Auto(z, t, body, hivemeta, binType, versioned);
            && (auto.Some? <==> unc.Some? && comp.Some?)
            && (auto.Some? ==>
                  && (auto == unc || auto == comp) && (|unc.value| == |comp.value| ==> auto == unc)
                  && |auto.value| <= |unc.value| && |auto.value| <= |comp.value|
                  && BitsToBytes(auto.value).Some? && BitsToBytes(unc.value).Some? && BitsToBytes(comp.value).Some?
                  && Decoded(z, BitsToBytes(auto.value).value) == Decoded(z, BitsToBytes(unc.value).value)
                  && Decoded(z, BitsToBytes(auto.value).value) == Decoded(z, BitsToBytes(comp.value).value))
  {
    hide Encoded, Decoded, BitsToBytes, Content, Inverse, OrEmpty, Received;
    if Encoded(z, t, body, false, hivemeta, binType, versioned).Some? {
      RoundTrip(z, t, body, false, hivemeta, binType, versioned);
    }
    if Encoded(z, t, body, true, hivemeta, binType, versioned).Some? {
      RoundTrip(z, t, body, true, hivemeta, binType, versioned);
    }
  }

  /**
   Converse, for defined type and subtype codes and a version the encoder writes: encoding the fields that
   were decoded gives the input back without its leading zero bytes.
   */
  lemma ReencodesDecodedFields(bytes: seq<byte>)
    requires Parse(BytesToBits(bytes)).Ok?
    requires var f := Parse(BytesToBits(bytes)).value;
             f.code < 13 && f.subtype <= 6 && f.version != Some(0)
    ensures var f := Parse(BytesToBits(bytes)).value;
            var t := TypeOfCode(f.code).value;
            var z := ZeroRun(BytesToBits(bytes)).value;
            && z / 8 <= |bytes| && (forall i | 0 <= i < z / 8 :: bytes[i] == 0)
            && z % 8 == (if t.Binary? then 4 else 0)
            && EncodeFrame(FieldsOf(f.version.Some?, t, f.compressed, f.meta, BinaryType(f.subtype), f.payload))
               == BytesToBits(bytes[z / 8..])
  {
    hide *;
    EncodeParse(bytes);
    var f := Parse(BytesToBits(bytes)).value;
    CodeOfTypeOfCode(f.code);
    FieldsAgain(f);
  }

  /** The fields of a frame with defined codes are those that its type, subtype and version stand for. */
  lemma FieldsAgain(f: Frame)
    requires f.code < 13 && f.subtype <= 6 && f.version != Some(0)
    requires Fits(f) && (f.version.Some? ==> f.version.value <= 1)
    ensures FieldsOf(f.version.Some?, TypeOfCode(f.code).value, f.compressed, f.meta, BinaryType(f.subtype), f.payload)
            == f
  {
  }

  lemma CodeOfTypeOfCode(code: nat)
    requires code < 13
    ensures Code(TypeOfCode(code).value) == code && (TypeOfCode(code).value.Binary? <==> code == BINARY_CODE)
  {
  }
}
