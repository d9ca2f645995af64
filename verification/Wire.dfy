/** The binary frame as a bit string: an unaligned sequence of fields, padded on the left to whole bytes. */
module Wire {
  import opened Bits
  import opened Utf8
  import opened Wrappers

  const PROTOCOL_VERSION: nat := 1
  const BINARY_CODE: nat := 12

  /** The fields of a frame as numbers and bytes. */
  datatype Frame = Frame(version: Option<nat>, code: nat, compressed: bool, meta: seq<byte>, subtype: nat,
                         payload: seq<byte>)

  /** Fields that fit their widths; the subtype field exists in BINARY frames only. */
  predicate Fits(f: Frame) {
    && (f.version.Some? ==> f.version.value < 256)
    && f.code < 32 && |f.meta| < 256 && f.subtype < 16
    && (f.code != BINARY_CODE ==> f.subtype == 0)
  }

  datatype WireError = Unsupported | Malformed

  // ---------------------------------------------------------------- writing

  function VersionBits(version: Option<nat>): Bits {
    if version.Some? then [true] + ToBits(version.value, 8) else [false]
  }

  function SubtypeBits(f: Frame): Bits { if f.code == BINARY_CODE then ToBits(f.subtype, 4) else [] }

  function MetaBits(meta: seq<byte>): Bits { ToBits(|meta|, 8) + BytesToBits(meta) }

  function BodyBits(f: Frame): Bits { SubtypeBits(f) + BytesToBits(f.payload) }

  /** What follows the start bit and the version. */
  function Fields(f: Frame): Bits {
    ToBits(f.code, 5) + ([f.compressed] + (MetaBits(f.meta) + BodyBits(f)))
  }

  /** The frame before padding: the start bit, the version, the fields. */
  function Unpadded(f: Frame): Bits { [true] + (VersionBits(f.version) + Fields(f)) }

  function Zeros(n: nat): (r: Bits)
    ensures |r| == n && forall i | 0 <= i < n :: !r[i]
  {
    seq(n, i => false)
  }

  /** Zeros needed in front for whole bytes. */
  function Padding(n: nat): nat { (8 - n % 8) % 8 }

  function EncodeFrame(f: Frame): Bits { Zeros(Padding(|Unpadded(f)|)) + Unpadded(f) }

  lemma FieldsLength(f: Frame)
    ensures |Fields(f)| == 14 + 8 * |f.meta| + (if f.code == BINARY_CODE then 4 else 0) + 8 * |f.payload|
  {
    hide ToBits, BytesToBits;
  }

  /** Four bits of padding for BINARY, none for every other type, whatever the contents. */
  lemma PaddingByType(f: Frame)
    ensures Padding(|Unpadded(f)|) == if f.code == BINARY_CODE then 4 else 0
    ensures |EncodeFrame(f)| % 8 == 0
  {
    hide Fields, ToBits;
    FieldsLength(f);
    assert |VersionBits(f.version)| == if f.version.Some? then 9 else 1;
    var k := (if f.version.Some? then 1 else 0) + |f.meta| + |f.payload|;
    assert |Unpadded(f)| == 8 * (k + 2) + (if f.code == BINARY_CODE then 4 else 0);
  }

  /** The padding loop. */
  method Pad(bits: Bits) returns (s: Bits)
    ensures s == Zeros(Padding(|bits|)) + bits
  {
    s := bits;
    ghost var n := 0;
    while |s| % 8 != 0
      invariant s == Zeros(n) + bits && n <= Padding(|bits|)
      decreases Padding(|bits|) - n
    {
      s := [false] + s;
      n := n + 1;
      assert Zeros(n) == [false] + Zeros(n - 1);
    }
  }

  // ---------------------------------------------------------------- reading

  /** How many zeros come before the first one; None when there is no one. */
  function ZeroRun(bits: Bits): (r: Option<nat>)
    ensures r.Some? ==> r.value < |bits| && bits[r.value] && forall i | 0 <= i < r.value :: !bits[i]
    ensures r.None? ==> forall i | 0 <= i < |bits| :: !bits[i]
  {
    if bits == [] then None
    else if bits[0] then Some(0)
    else
      var n :- ZeroRun(bits[1..]);
      Some(n + 1)
  }

  function ParseMeta(bits: Bits): Option<(seq<byte>, Bits)> {
    var (metaLength, rest) :- Split(bits, 8);
    var (metaBits, body) :- Split(rest, FromBits(metaLength) * 8);
    var meta :- BitsToBytes(metaBits);
    Some((meta, body))
  }

  function ParseBody(code: nat, bits: Bits): Option<(nat, seq<byte>)> {
    if code == BINARY_CODE then
      var (subtype, rest) :- Split(bits, 4);
      var payload :- BitsToBytes(rest);
      Some((FromBits(subtype), payload))
    else
      var payload :- BitsToBytes(bits);
      Some((0, payload))
  }

  /** Reads the fields of a frame from the bits that follow the version. */
  function ParseFields(version: Option<nat>, bits: Bits): Option<Frame> {
    var (code, afterCode) :- Split(bits, 5);
    var (compressed, afterFlag) :- Split(afterCode, 1);
    var (meta, body) :- ParseMeta(afterFlag);
    var (subtype, payload) :- ParseBody(FromBits(code), body);
    Some(Frame(version, FromBits(code), compressed[0], meta, subtype, payload))
  }

  /** The fields after the start bit: the version, which must be one we know, then the others. */
  function ParseVersion(bits: Bits): Result<Frame, WireError> {
    var (versioned, rest) :- Required(Split(bits, 1));
    if versioned[0] then
      var (v, fields) :- Required(Split(rest, 8));
      if FromBits(v) > 1 then Err(Unsupported) else Required(ParseFields(Some(FromBits(v)), fields))
    else Required(ParseFields(None, rest))
  }

  function Required<T>(o: Option<T>): Result<T, WireError> {
    match o
    case Some(x) => Ok(x)
    case None => Err(Malformed)
  }

  function Parse(bits: Bits): Result<Frame, WireError> {
    var z :- Required(ZeroRun(bits));
    ParseVersion(bits[z + 1..])
  }

  /** The decoder: a cursor moving over the stream. */
  method DecodeFrame(bits: Bits) returns (r: Result<Frame, WireError>)
    ensures r == Parse(bits)
  {
    var s := new BitStream(bits);
    var pad := false;
    while !pad
      invariant s.Valid() && s.bits == bits
      invariant !pad ==> forall i | 0 <= i < s.pos :: !bits[i]
      invariant pad ==> s.pos > 0 && ZeroRun(bits) == Some(s.pos - 1)
      decreases |bits| - s.pos, !pad
    {
      var bit := s.Read(1);
      if bit.None? {
        assert ZeroRun(bits).None?;
        return Err(Malformed);
      }
      pad := bit.value[0];
    }
    assert s.Rest() == bits[s.pos..];
    r := ReadVersion(s);
  }

  method ReadVersion(s: BitStream) returns (r: Result<Frame, WireError>)
    requires s.Valid()
    modifies s
    ensures r == ParseVersion(old(s.Rest()))
  {
    hide ParseFields, FromBits;
    var versioned := s.Read(1);
    if versioned.None? { return Err(Malformed); }
    var version := None;
    if versioned.value[0] {
      var v := s.Read(8);
      if v.None? { return Err(Malformed); }
      version := Some(FromBits(v.value));
    }
    if version.Some? && version.value > 1 { return Err(Unsupported); }
    r := ReadFields(s, version);
  }

  method ReadFields(s: BitStream, version: Option<nat>) returns (r: Result<Frame, WireError>)
    requires s.Valid()
    modifies s
    ensures r == Required(ParseFields(version, old(s.Rest())))
  {
    hide ParseMeta, ParseBody, FromBits;
    var code := s.Read(5);
    if code.None? { return Err(Malformed); }
    var compressed := s.Read(1);
    if compressed.None? { return Err(Malformed); }
    var meta := ReadMeta(s);
    if meta.None? { return Err(Malformed); }
    var body := ReadBody(s, FromBits(code.value));
    if body.None? { return Err(Malformed); }
    r := Ok(Frame(version, FromBits(code.value), compressed.value[0], meta.value, body.value.0, body.value.1));
  }

  method ReadMeta(s: BitStream) returns (r: Option<seq<byte>>)
    requires s.Valid()
    modifies s
    ensures s.Valid()
    ensures var p := ParseMeta(old(s.Rest()));
            if p.Some? then r == Some(p.value.0) && s.Rest() == p.value.1 else r == None
  {
    hide FromBits;
    var metaLength := s.Read(8);
    if metaLength.None? { return None; }
    var metaBits := s.Read(FromBits(metaLength.value) * 8);
    if metaBits.None? { return None; }
    r := BitsToBytes(metaBits.value);
  }

  method ReadBody(s: BitStream, code: nat) returns (r: Option<(nat, seq<byte>)>)
    requires s.Valid()
    modifies s
    ensures r == ParseBody(code, old(s.Rest()))
  {
    hide FromBits;
    var subtype := 0;
    if code == BINARY_CODE {
      var sub := s.Read(4);
      if sub.None? { return None; }
      subtype := FromBits(sub.value);
    }
    ghost var rest := s.Rest();
    var payloadBits := s.Read(|s.bits| - s.pos);
    assert rest[..|rest|] == rest;
    var payload := BitsToBytes(payloadBits.value);
    if payload.None? { return None; }
    r := Some((subtype, payload.value));
  }

  // ---------------------------------------------------------------- round trip

  lemma ParseMetaOf(meta: seq<byte>, rest: Bits)
    requires |meta| < 256
    ensures ParseMeta(MetaBits(meta) + rest) == Some((meta, rest))
  {
    Pow2Values();
    FromToBits(|meta|, 8);
    BytesBitsBytes(meta);
    hide ToBits, FromBits, BytesToBits, BitsToBytes, Split;
    assert MetaBits(meta) + rest == ToBits(|meta|, 8) + (BytesToBits(meta) + rest);
    SplitPrefix(ToBits(|meta|, 8), BytesToBits(meta) + rest);
    SplitPrefix(BytesToBits(meta), rest);
  }

  lemma ParseBodyOf(f: Frame)
    requires Fits(f)
    ensures ParseBody(f.code, BodyBits(f)) == Some((f.subtype, f.payload))
  {
    Pow2Values();
    FromToBits(f.subtype, 4);
    BytesBitsBytes(f.payload);
    hide ToBits, FromBits, BytesToBits, BitsToBytes, Split;
    if f.code == BINARY_CODE {
      SplitPrefix(ToBits(f.subtype, 4), BytesToBits(f.payload));
    } else {
      assert BodyBits(f) == BytesToBits(f.payload);
    }
  }

  lemma ParseFieldsOf(f: Frame)
    requires Fits(f)
    ensures ParseFields(f.version, Fields(f)) == Some(f)
  {
    Pow2Values();
    FromToBits(f.code, 5);
    ParseMetaOf(f.meta, BodyBits(f));
    ParseBodyOf(f);
    hide ToBits, FromBits, MetaBits, BodyBits, ParseMeta, ParseBody, Split;
    SplitPrefix(ToBits(f.code, 5), [f.compressed] + (MetaBits(f.meta) + BodyBits(f)));
    SplitPrefix([f.compressed], MetaBits(f.meta) + BodyBits(f));
  }

  lemma ParseVersioned(v: Bits, fields: Bits)
    requires |v| == 8 && FromBits(v) <= 1
    ensures ParseVersion([true] + (v + fields)) == Required(ParseFields(Some(FromBits(v)), fields))
  {
    hide ParseFields, Split, FromBits;
    SplitPrefix([true], v + fields);
    SplitPrefix(v, fields);
  }

  lemma ParseUnversioned(fields: Bits)
    ensures ParseVersion([false] + fields) == Required(ParseFields(None, fields))
  {
    hide ParseFields, Split, FromBits;
    SplitPrefix([false], fields);
  }

  lemma VersionField(version: nat, fields: Bits)
    requires version < 256
    ensures var v := ToBits(version, 8);
            && |v| == 8 && FromBits(v) == version
            && VersionBits(Some(version)) + fields == [true] + (v + fields)
  {
    Pow2Values();
    FromToBits(version, 8);
    hide ToBits, FromBits;
    assert [true] + ToBits(version, 8) + fields == [true] + (ToBits(version, 8) + fields);
  }

  lemma NoVersionField(fields: Bits)
    ensures VersionBits(None) + fields == [false] + fields
  {
  }

  lemma ParseVersionOf(f: Frame)
    requires Fits(f) && (f.version.Some? ==> f.version.value <= 1)
    ensures ParseVersion(VersionBits(f.version) + Fields(f)) == Ok(f)
  {
    hide Fits, Fields, ParseFields, ParseVersion, ToBits, FromBits, VersionBits;
    ParseFieldsOf(f);
    match f.version
    case Some(version) =>
      VersionField(version, Fields(f));
      ParseVersioned(ToBits(version, 8), Fields(f));
    case None =>
      NoVersionField(Fields(f));
      ParseUnversioned(Fields(f));
  }

  lemma {:induction false} ZeroRunOfZeros(n: nat, tail: Bits)
    requires tail != [] && tail[0]
    ensures ZeroRun(Zeros(n) + tail) == Some(n)
  {
    if n == 0 {
      assert Zeros(0) + tail == tail;
    } else {
      ZeroRunOfZeros(n - 1, tail);
      assert (Zeros(n) + tail)[1..] == Zeros(n - 1) + tail;
    }
  }

  lemma ParseAt(bits: Bits, z: nat)
    requires ZeroRun(bits) == Some(z)
    ensures Parse(bits) == ParseVersion(bits[z + 1..])
  {
    hide ZeroRun, ParseVersion;
  }

  lemma DropStart(z: nat, tail: Bits)
    ensures (Zeros(z) + ([true] + tail))[z + 1..] == tail
    ensures ZeroRun(Zeros(z) + ([true] + tail)) == Some(z)
  {
    ZeroRunOfZeros(z, [true] + tail);
  }

  lemma ZerosAdd(m: nat, n: nat, tail: Bits)
    ensures Zeros(m) + (Zeros(n) + tail) == Zeros(m + n) + tail
  {
  }

  /** Decoding an encoded frame gives the frame back, also behind any further zeros. */
  lemma ParseEncode(f: Frame, extra: nat)
    requires Fits(f) && (f.version.Some? ==> f.version.value <= 1)
    ensures Parse(Zeros(extra) + EncodeFrame(f)) == Ok(f)
  {
    hide Parse, ParseVersion, VersionBits, Fields, Zeros, ZeroRun, Padding, Fits;
    var p := Padding(|Unpadded(f)|);
    ParseVersionOf(f);
    ZerosAdd(extra, p, Unpadded(f));
    DropStart(extra + p, VersionBits(f.version) + Fields(f));
    ParseAt(Zeros(extra) + EncodeFrame(f), extra + p);
  }

  // ---------------------------------------------------------------- converse

  lemma MetaOfParse(bits: Bits)
    requires ParseMeta(bits).Some?
    ensures var (meta, rest) := ParseMeta(bits).value;
            |meta| < 256 && MetaBits(meta) + rest == bits
  {
    var (metaLength, after) := Split(bits, 8).value;
    var (metaBits, rest) := Split(after, FromBits(metaLength) * 8).value;
    Pow2Values();
    FromBitsBound(metaLength);
    ToFromBits(metaLength);
    BitsBytesBits(metaBits);
    hide ToBits, FromBits, BytesToBits, BitsToBytes;
  }

  lemma BodyOfParse(f: Frame, bits: Bits)
    requires ParseBody(f.code, bits) == Some((f.subtype, f.payload))
    ensures f.subtype < 16 && (f.code != BINARY_CODE ==> f.subtype == 0)
    ensures BodyBits(f) == bits
  {
    if f.code == BINARY_CODE {
      var (subtype, rest) := Split(bits, 4).value;
      Pow2Values();
      FromBitsBound(subtype);
      ToFromBits(subtype);
      BitsBytesBits(rest);
    } else {
      BitsBytesBits(bits);
    }
    hide ToBits, FromBits, BytesToBits, BitsToBytes;
  }

  lemma FieldsOfParse(version: Option<nat>, bits: Bits)
    requires ParseFields(version, bits).Some?
    requires version.Some? ==> version.value < 256
    ensures var f := ParseFields(version, bits).value;
            Fits(f) && f.version == version && Fields(f) == bits
  {
    var f := ParseFields(version, bits).value;
    var (code, afterCode) := Split(bits, 5).value;
    var (flag, afterFlag) := Split(afterCode, 1).value;
    Pow2Values();
    FromBitsBound(code);
    ToFromBits(code);
    hide ToBits, FromBits, MetaBits, BodyBits, ParseMeta, ParseBody;
    MetaOfParse(afterFlag);
    BodyOfParse(f, ParseMeta(afterFlag).value.1);
    assert flag == [f.compressed];
  }

  lemma VersionedOfParse(v: Bits, fields: Bits)
    requires |v| == 8 && FromBits(v) <= 1 && ParseFields(Some(FromBits(v)), fields).Some?
    ensures var f := ParseFields(Some(FromBits(v)), fields).value;
            Fits(f) && f.version == Some(FromBits(v)) && VersionBits(f.version) + Fields(f) == [true] + (v + fields)
  {
    hide *;
    FieldsOfParse(Some(FromBits(v)), fields);
    VersionBitsOf(v);
    assert [true] + v + fields == [true] + (v + fields);
  }

  lemma VersionBitsOf(v: Bits)
    requires |v| == 8
    ensures VersionBits(Some(FromBits(v))) == [true] + v
  {
    ToFromBits(v);
  }

  lemma UnpaddedOfParse(bits: Bits)
    requires ParseVersion(bits).Ok?
    ensures var f := ParseVersion(bits).value;
            Fits(f) && (f.version.Some? ==> f.version.value <= 1) && VersionBits(f.version) + Fields(f) == bits
  {
    hide Fields, ParseFields, ToBits, FromBits, Fits;
    var (versioned, rest) := Split(bits, 1).value;
    assert versioned == [versioned[0]];
    if versioned[0] {
      var (v, fields) := Split(rest, 8).value;
      VersionedOfParse(v, fields);
    } else {
      FieldsOfParse(None, rest);
    }
  }

  /**
   Whole bytes decode only when the zeros in front of the start bit number 4 mod 8 for BINARY and 0 mod 8 for
   the other types, and encoding what was decoded gives the input back without its leading zero bytes.
   */
  lemma EncodeParse(bytes: seq<byte>)
    requires Parse(BytesToBits(bytes)).Ok?
    ensures var f := Parse(BytesToBits(bytes)).value;
            var z := ZeroRun(BytesToBits(bytes)).value;
            && Fits(f) && (f.version.Some? ==> f.version.value <= 1)
            && z % 8 == (if f.code == BINARY_CODE then 4 else 0)
            && z / 8 <= |bytes|
            && BytesToBits(bytes[z / 8..]) == EncodeFrame(f)
            && forall i | 0 <= i < z / 8 :: bytes[i] == 0
  {
    hide *;
    var f, z := BitsOfParse(BytesToBits(bytes));
    PaddedFromBytes(bytes, f, z);
  }

  lemma PaddedFromBytes(bytes: seq<byte>, f: Frame, z: nat)
    requires BytesToBits(bytes) == Zeros(z) + Unpadded(f)
    ensures z % 8 == (if f.code == BINARY_CODE then 4 else 0) && z / 8 <= |bytes|
    ensures BytesToBits(bytes[z / 8..]) == EncodeFrame(f)
    ensures forall i | 0 <= i < z / 8 :: bytes[i] == 0
  {
    hide Unpadded, BytesToBits, Zeros, Padding;
    UnpaddedStarts(f);
    PaddingByType(f);
    WholeBytes(|bytes|, z, |Unpadded(f)|);
    var n := z / 8 * 8;
    DropZeros(BytesToBits(bytes), z, Unpadded(f), n);
    LeadingZeroBytes(bytes, z / 8);
    assert z - n == Padding(|Unpadded(f)|);
  }

  lemma UnpaddedStarts(f: Frame)
    ensures |Unpadded(f)| > 0
  {
  }

  lemma WholeBytes(n: nat, z: nat, rest: nat)
    requires 8 * n == z + rest && rest > 0
    ensures z % 8 == Padding(rest) && z / 8 <= n && z / 8 * 8 <= z
  {
  }

  lemma DropZeros(bits: Bits, z: nat, tail: Bits, n: nat)
    requires bits == Zeros(z) + tail && n <= z
    ensures bits[n..] == Zeros(z - n) + tail && forall i | 0 <= i < n :: !bits[i]
  {
  }

  /** What was decoded, unpadded, is the input from its first one on. */
  lemma BitsOfParse(bits: Bits) returns (f: Frame, z: nat)
    requires Parse(bits).Ok?
    ensures Parse(bits) == Ok(f) && ZeroRun(bits) == Some(z)
    ensures Fits(f) && (f.version.Some? ==> f.version.value <= 1)
    ensures bits == Zeros(z) + Unpadded(f)
  {
    hide ParseVersion, Fields, VersionBits, ZeroRun, Zeros, Fits;
    f, z := Parse(bits).value, ZeroRun(bits).value;
    var tail := bits[z + 1..];
    UnpaddedOfParse(tail);
    SplitAtOne(bits, z);
    assert Zeros(z) + [true] + tail == Zeros(z) + ([true] + tail);
  }

  lemma SplitAtOne(bits: Bits, z: nat)
    requires z < |bits| && bits[z] && forall i | 0 <= i < z :: !bits[i]
    ensures bits == Zeros(z) + [true] + bits[z + 1..]
  {
  }

  /** Dropping k zero bytes drops 8k zero bits. */
  lemma {:induction false} LeadingZeroBytes(bytes: seq<byte>, k: nat)
    requires 8 * k <= 8 * |bytes| && forall i | 0 <= i < 8 * k :: !BytesToBits(bytes)[i]
    ensures BytesToBits(bytes[k..]) == BytesToBits(bytes)[8 * k..]
    ensures forall i | 0 <= i < k :: bytes[i] == 0
  {
    if k > 0 {
      var bits, rest := BytesToBits(bytes), BytesToBits(bytes[1..]);
      assert bits == ToBits(bytes[0], 8) + rest;
      assert ToBits(bytes[0], 8) == bits[..8] == Zeros(8);
      ZeroBits(bytes[0]);
      hide ToBits, BytesToBits;
      assert forall i | 0 <= i < 8 * (k - 1) :: rest[i] == bits[8 + i];
      LeadingZeroBytes(bytes[1..], k - 1);
      assert bytes[1..][k - 1..] == bytes[k..];
      assert bits[8 * k..] == rest[8 * (k - 1)..];
      assert forall i | 1 <= i < k :: bytes[i] == bytes[1..][i - 1];
    }
  }

  lemma ZeroBits(b: byte)
    requires ToBits(b, 8) == Zeros(8)
    ensures b == 0
  {
    Pow2Values();
    FromToBits(b, 8);
    FromToBits(0, 8);
    assert ToBits(0, 8) == Zeros(8) by { ZerosAreZero(8); }
  }

  lemma {:induction false} ZerosAreZero(n: nat)
    ensures ToBits(0, n) == Zeros(n)
  {
    if n > 0 { ZerosAreZero(n - 1); }
  }
}
