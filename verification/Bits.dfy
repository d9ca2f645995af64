/** Bit strings, most significant bit first, and their packing into bytes. */
module Bits {
  import opened Utf8
  import opened Wrappers

  type Bits = seq<bool>

  /** uint:width=n */
  function ToBits(n: nat, width: nat): (r: Bits)
    ensures |r| == width
  {
    if width == 0 then [] else ToBits(n / 2, width - 1) + [n % 2 == 1]
  }

  /** .uint */
  function FromBits(bits: Bits): nat {
    if bits == [] then 0 else 2 * FromBits(bits[..|bits| - 1]) + (if bits[|bits| - 1] then 1 else 0)
  }

  function Pow2(n: nat): nat { if n == 0 then 1 else 2 * Pow2(n - 1) }

  lemma {:induction false} FromToBits(n: nat, width: nat)
    requires n < Pow2(width)
    ensures FromBits(ToBits(n, width)) == n
  {
    if width > 0 {
      FromToBits(n / 2, width - 1);
      assert ToBits(n, width)[..width - 1] == ToBits(n / 2, width - 1);
    }
  }

  lemma {:induction false} FromBitsBound(bits: Bits)
    ensures FromBits(bits) < Pow2(|bits|)
  {
    if bits != [] { FromBitsBound(bits[..|bits| - 1]); }
  }

  lemma {:induction false} ToFromBits(bits: Bits)
    ensures ToBits(FromBits(bits), |bits|) == bits
  {
    if bits != [] { ToFromBits(bits[..|bits| - 1]); }
  }

  lemma Pow2Values()
    ensures Pow2(1) == 2 && Pow2(4) == 16 && Pow2(5) == 32 && Pow2(8) == 256
  {
    assert Pow2(2) == 4 && Pow2(3) == 8 && Pow2(6) == 64;
  }

  function FromByte(bits: Bits): byte
    requires |bits| == 8
  {
    FromBitsBound(bits);
    Pow2Values();
    FromBits(bits)
  }

  function BytesToBits(bytes: seq<byte>): (r: Bits)
    ensures |r| == 8 * |bytes|
  {
    if bytes == [] then [] else ToBits(bytes[0], 8) + BytesToBits(bytes[1..])
  }

  /** .bytes; None where the length is no multiple of eight. */
  function BitsToBytes(bits: Bits): (r: Option<seq<byte>>)
    ensures r.Some? <==> |bits| % 8 == 0
    ensures r.Some? ==> |bits| == 8 * |r.value|
  {
    if bits == [] then Some([])
    else if |bits| < 8 then None
    else
      var rest :- BitsToBytes(bits[8..]);
      Some([FromByte(bits[..8])] + rest)
  }

  lemma ByteBits(b: byte)
    ensures FromByte(ToBits(b, 8)) == b
  {
    Pow2Values();
    FromToBits(b, 8);
  }

  lemma {:induction false} BytesBitsBytes(bytes: seq<byte>)
    ensures BitsToBytes(BytesToBits(bytes)) == Some(bytes)
  {
    hide ToBits, FromByte;
    if bytes != [] {
      var bits := BytesToBits(bytes);
      BytesBitsBytes(bytes[1..]);
      ByteBits(bytes[0]);
      assert bits[..8] == ToBits(bytes[0], 8) && bits[8..] == BytesToBits(bytes[1..]);
      assert [bytes[0]] + bytes[1..] == bytes;
    }
  }

  lemma {:induction false} BitsBytesBits(bits: Bits)
    requires |bits| % 8 == 0
    ensures BytesToBits(BitsToBytes(bits).value) == bits
  {
    if bits != [] {
      BitsBytesBits(bits[8..]);
      ToFromBits(bits[..8]);
      assert bits == bits[..8] + bits[8..];
    }
  }

  /** A bit stream with a read cursor. */
  class BitStream {
    const bits: Bits
    var pos: nat

    predicate Valid()
      reads this
    {
      pos <= |bits|
    }

    /** What has not been read yet. */
    function Rest(): Bits
      requires Valid()
      reads this
    {
      bits[pos..]
    }

    constructor (bits: Bits)
      ensures Valid() && this.bits == bits && pos == 0
    {
      this.bits, pos := bits, 0;
    }

    /** None is the ReadError of reading past the end, which leaves the cursor alone. */
    method Read(n: nat) returns (r: Option<Bits>)
      requires Valid()
      modifies this`pos
      ensures Valid()
      ensures r == Take(old(Rest()), n)
      ensures Split(old(Rest()), n) == if r.Some? then Some((r.value, Rest())) else None
      ensures pos == (if r.Some? then old(pos) + n else old(pos))
    {
      if |bits| - pos < n { return None; }
      r := Some(bits[pos..pos + n]);
      assert bits[pos..][..n] == bits[pos..pos + n] && bits[pos..][n..] == bits[pos + n..];
      pos := pos + n;
    }
  }

  function Take(bits: Bits, n: nat): (r: Option<Bits>)
    ensures r.Some? <==> n <= |bits|
    ensures r.Some? ==> |r.value| == n
  {
    if |bits| < n then None else Some(bits[..n])
  }

  /** The first n bits and what follows them. */
  function Split(bits: Bits, n: nat): (r: Option<(Bits, Bits)>)
    ensures r.Some? <==> n <= |bits|
    ensures r.Some? ==> |r.value.0| == n && bits == r.value.0 + r.value.1
  {
    if |bits| < n then None else Some((bits[..n], bits[n..]))
  }

  lemma SplitPrefix(a: Bits, b: Bits)
    ensures Split(a + b, |a|) == Some((a, b))
  {
    assert (a + b)[..|a|] == a && (a + b)[|a|..] == b;
  }
}
