/**
 * The byte formats behind the `put_*` and `get_*` calls of the readers and
 * writers: fixed-width integers in big-endian (network) byte order, most
 * significant byte first, signed ones in two's complement; a bool as one
 * byte.
 */
module Wire {
  import opened Primitives

  /** The `width` bytes of the unsigned number `u`, most significant first. */
  function ToBigEndian(u: nat, width: nat): (bs: seq<byte>)
    requires u < Pow256(width)
    ensures |bs| == width
  {
    if width == 0 then []
    else
      assert u / 256 < Pow256(width - 1);
      ToBigEndian(u / 256, width - 1) + [u % 256]
  }

  /** The unsigned number that the bytes spell, most significant first. */
  function FromBigEndian(bs: seq<byte>): (u: nat)
    ensures u < Pow256(|bs|)
  {
    if bs == [] then 0
    else
      var high := FromBigEndian(bs[..|bs| - 1]);
      assert high * 256 + bs[|bs| - 1] < Pow256(|bs|) by {
        assert high <= Pow256(|bs| - 1) - 1;
        assert high * 256 <= (Pow256(|bs| - 1) - 1) * 256;
      }
      high * 256 + bs[|bs| - 1]
  }

  /** Reading back the bytes of a number gives the number. */
  lemma {:induction false} FromToBigEndian(u: nat, width: nat)
    requires u < Pow256(width)
    ensures FromBigEndian(ToBigEndian(u, width)) == u
    decreases width
  {
    if width > 0 {
      var bs := ToBigEndian(u, width);
      assert bs[..|bs| - 1] == ToBigEndian(u / 256, width - 1);
      FromToBigEndian(u / 256, width - 1);
    }
  }

  /** Spelling out the number that some bytes spell gives those bytes. */
  lemma {:induction false} ToFromBigEndian(bs: seq<byte>)
    ensures ToBigEndian(FromBigEndian(bs), |bs|) == bs
    decreases |bs|
  {
    if bs != [] {
      var init, last := bs[..|bs| - 1], bs[|bs| - 1];
      var u := FromBigEndian(bs);
      assert u / 256 == FromBigEndian(init) && u % 256 == last;
      ToFromBigEndian(init);
    }
  }

  /** The top bit of the first byte is the top bit of the number. */
  lemma {:induction false} LeadingByteTopBit(u: nat, width: nat)
    requires width > 0 && u < Pow256(width)
    ensures ToBigEndian(u, width)[0] >= 128 <==> u >= 128 * Pow256(width - 1)
    decreases width
  {
    if width > 1 {
      LeadingByteTopBit(u / 256, width - 1);
    }
  }

  /** The two's-complement bit pattern of a value of type `k`, as an
      unsigned number of the same width. */
  function ToUnsigned(k: IntKind, x: int): (u: nat)
    requires InRange(k, x)
    ensures u < k.Modulus()
  {
    if x < 0 then x + k.Modulus() else x
  }

  /** The value of type `k` with a given bit pattern: patterns with the top
      bit set are negative for signed types. */
  function FromUnsigned(k: IntKind, u: nat): (x: int)
    requires u < k.Modulus()
    ensures InRange(k, x)
  {
    if k.Signed() && u >= k.Half() then u - k.Modulus() else u
  }

  lemma FromToUnsigned(k: IntKind, x: int)
    requires InRange(k, x)
    ensures FromUnsigned(k, ToUnsigned(k, x)) == x
  {
  }

  lemma ToFromUnsigned(k: IntKind, u: nat)
    requires u < k.Modulus()
    ensures ToUnsigned(k, FromUnsigned(k, u)) == u
  {
  }

  /** `put_i8` … `put_u128`: the bytes of a value of type `k`. */
  function Encode(k: IntKind, x: int): (bs: seq<byte>)
    requires InRange(k, x)
    ensures |bs| == k.Bytes()
  {
    KindPowers(k);
    ToBigEndian(ToUnsigned(k, x), k.Bytes())
  }

  /** `get_i8` … `get_u128`: the value of type `k` that `k.Bytes()` bytes
      spell. */
  function Decode(k: IntKind, bs: seq<byte>): (x: int)
    requires |bs| == k.Bytes()
    ensures InRange(k, x)
  {
    KindPowers(k);
    FromUnsigned(k, FromBigEndian(bs))
  }

  /** Decoding what was encoded gives the value back. */
  lemma DecodeEncode(k: IntKind, x: int)
    requires InRange(k, x)
    ensures Decode(k, Encode(k, x)) == x
  {
    KindPowers(k);
    FromToBigEndian(ToUnsigned(k, x), k.Bytes());
    FromToUnsigned(k, x);
  }

  /** Encoding what was decoded gives the bytes back: every byte pattern of
      the right width is the encoding of exactly one value. */
  lemma EncodeDecode(k: IntKind, bs: seq<byte>)
    requires |bs| == k.Bytes()
    ensures Encode(k, Decode(k, bs)) == bs
  {
    KindPowers(k);
    ToFromUnsigned(k, FromBigEndian(bs));
    ToFromBigEndian(bs);
  }

  /** Two's complement: the first byte of a signed value's encoding has its
      top bit set exactly when the value is negative. */
  lemma SignInLeadingByte(k: IntKind, x: int)
    requires k.Signed() && InRange(k, x)
    ensures x < 0 <==> Encode(k, x)[0] >= 128
  {
    KindPowers(k);
    LeadingByteTopBit(ToUnsigned(k, x), k.Bytes());
  }

  /** `put_u8(b as u8)`: `true` is the byte 1, `false` the byte 0. */
  function EncodeBool(b: bool): (bs: seq<byte>)
    ensures |bs| == 1 && (bs[0] == 1 <==> b) && (bs[0] == 0 <==> !b)
  {
    [if b then 1 else 0]
  }

  /** `get_u8() != 0`: every byte but 0 reads as `true`. */
  function DecodeBool(bs: seq<byte>): (b: bool)
    requires |bs| == 1
  {
    bs[0] != 0
  }

  /** A bool survives being written and read back. */
  lemma DecodeEncodeBool(b: bool)
    ensures DecodeBool(EncodeBool(b)) == b
  {
  }

  /** Reading a bool and writing it again normalises the byte: 0 stays 0,
      every other byte becomes 1. */
  lemma EncodeDecodeBool(bs: seq<byte>)
    requires |bs| == 1
    ensures EncodeBool(DecodeBool(bs)) == (if bs[0] == 0 then bs else [1])
  {
  }

  /** So the bool encoding is not onto: the byte 2 does not survive. */
  lemma BoolReencodeChanges()
    ensures EncodeBool(DecodeBool([2])) != [2]
  {
  }

  /** `00 02 AB 98` reads as the `u32` 175000. */
  lemma DecodeU32Example()
    ensures Decode(U32, [0x00, 0x02, 0xAB, 0x98]) == 175000
  {
    assert Encode(U32, 175000) == [0x00, 0x02, 0xAB, 0x98];
    DecodeEncode(U32, 175000);
  }

  /** -2 as an `i16` is `FF FE`. */
  lemma EncodeI16Example()
    ensures Encode(I16, -2) == [0xFF, 0xFE]
  {
  }
}
