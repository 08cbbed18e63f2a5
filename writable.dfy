/**
 * `Writable::write_to`: each impl appends a value's bytes to a growable
 * byte buffer (a `bytes::BufMut` such as `Vec<u8>`) through one `put_*`
 * call and returns `Ok(())`.
 */
module Writable {
  import opened Primitives
  import opened Wire
  import opened Sizes

  /** The writer: the bytes put so far. */
  class Buffer {
    var bytes: seq<byte>

    constructor()
      ensures bytes == []
    {
      bytes := [];
    }
  }

  /** The primitives with a `Writable` impl: the integers and `bool`. */
  predicate HasWritable(s: Scalar)
  {
    s.IntV? || s.BoolV?
  }

  /** The bytes `write_to` puts for a primitive value: its big-endian
      encoding, or one byte for a bool; as many as the type's
      `size_of`. */
  function Encoding(s: Scalar): (bs: seq<byte>)
    requires HasWritable(s) && ValidScalar(s)
    ensures |bs| == Width(PrimOf(s))
  {
    match s
    case IntV(k, x) => Encode(k, x)
    case BoolV(b) => EncodeBool(b)
  }

  /** Every value of the sequence has a `Writable` impl and lies in its
      type's range. */
  predicate AllWritable(xs: seq<Scalar>)
  {
    forall i :: 0 <= i < |xs| ==> HasWritable(xs[i]) && ValidScalar(xs[i])
  }

  /** The bytes of several values written one after the other. */
  function Encodings(xs: seq<Scalar>): seq<byte>
    requires AllWritable(xs)
  {
    if xs == [] then [] else Encoding(xs[0]) + Encodings(xs[1..])
  }

  /** A concatenation of writable sequences is writable. */
  lemma AllWritableAppend(xs: seq<Scalar>, ys: seq<Scalar>)
    requires AllWritable(xs) && AllWritable(ys)
    ensures AllWritable(xs + ys)
  {
    forall i | 0 <= i < |xs + ys|
      ensures HasWritable((xs + ys)[i]) && ValidScalar((xs + ys)[i])
    {
      if i >= |xs| {
        assert (xs + ys)[i] == ys[i - |xs|];
      }
    }
  }

  /** The bytes of a concatenation are the bytes of its parts, in order. */
  lemma {:induction false} EncodingsAppend(xs: seq<Scalar>, ys: seq<Scalar>)
    requires AllWritable(xs) && AllWritable(ys)
    ensures AllWritable(xs + ys)
    ensures Encodings(xs + ys) == Encodings(xs) + Encodings(ys)
    decreases |xs|
  {
    AllWritableAppend(xs, ys);
    if xs == [] {
      assert xs + ys == ys;
    } else {
      var zs := xs + ys;
      assert zs[0] == xs[0];
      assert zs[1..] == xs[1..] + ys;
      EncodingsAppend(xs[1..], ys);
    }
  }

  /** `put_i8` … `put_u128`: appends the big-endian bytes of an integer. */
  method WriteInt(k: IntKind, x: int, writer: Buffer) returns (ok: bool)
    requires InRange(k, x)
    modifies writer
    ensures ok
    ensures writer.bytes == old(writer.bytes) + Encode(k, x)
  {
    writer.bytes := writer.bytes + Encode(k, x);
    ok := true;
  }

  /** `put_u8(b as u8)`: appends 1 for `true`, 0 for `false`. */
  method WriteBool(b: bool, writer: Buffer) returns (ok: bool)
    modifies writer
    ensures ok
    ensures writer.bytes == old(writer.bytes) + EncodeBool(b)
  {
    writer.bytes := writer.bytes + EncodeBool(b);
    ok := true;
  }

  /** `put_slice(s.as_bytes())` for `&str` and `String`: appends the UTF-8
      bytes as they are, with no length and no terminator. */
  method WriteStr(utf8: seq<byte>, writer: Buffer) returns (ok: bool)
    modifies writer
    ensures ok
    ensures writer.bytes == old(writer.bytes) + utf8
  {
    writer.bytes := writer.bytes + utf8;
    ok := true;
  }

  /** `write_to` for any primitive with a `Writable` impl. */
  method WriteScalar(s: Scalar, writer: Buffer) returns (ok: bool)
    requires HasWritable(s) && ValidScalar(s)
    modifies writer
    ensures ok
    ensures writer.bytes == old(writer.bytes) + Encoding(s)
  {
    match s
    case IntV(k, x) =>
      ok := WriteInt(k, x, writer);
    case BoolV(b) =>
      ok := WriteBool(b, writer);
  }

  /** Each integer write puts as many bytes as the type's width: 1, 2, 4, 8
      or 16. */
  lemma IntWidths(k: IntKind, x: int)
    requires InRange(k, x)
    ensures |Encode(k, x)| == (if k in {I8, U8} then 1
                               else if k in {I16, U16} then 2
                               else if k in {I32, U32} then 4
                               else if k in {I64, U64} then 8
                               else 16)
  {
  }

  /** For every primitive with both a `Writable` and a `DataSize` impl (the
      integers up to 64 bits and `bool`), the bytes written are as many as
      `data_size()` says. */
  lemma WrittenIsDataSize(s: Scalar)
    requires HasWritable(s) && ValidScalar(s) && HasSizeImpl(PrimOf(s))
    ensures WellFormed(PrimT(PrimOf(s))) && HasType(PrimV(s), PrimT(PrimOf(s)))
    ensures |Encoding(s)| == DataSize(PrimV(s), PrimT(PrimOf(s)))
  {
    PrimitiveSize(s);
  }

  /** A string writes as many bytes as its `data_size()`. */
  lemma WrittenStrIsDataSize(utf8: seq<byte>)
    ensures |utf8| == DataSize(StrV(utf8), StrT)
  {
    StrDataSize(utf8);
  }
}
