/**
 * `Readable::read_from`: each impl takes a value off the front of a byte
 * cursor (a `bytes::Buf`) through one `get_*` call and returns it in `Ok`.
 * `get_*` panics when fewer bytes remain than it needs, so every read
 * requires that many.
 */
module Readable {
  import opened Primitives
  import opened Wire

  /** The reader: a byte sequence and the position of the next byte. */
  class Cursor {
    var data: seq<byte>
    var pos: nat

    constructor(data: seq<byte>)
      ensures this.data == data && pos == 0
      ensures Valid() && Remaining() == data
    {
      this.data := data;
      pos := 0;
    }

    predicate Valid()
      reads this
    {
      pos <= |data|
    }

    /** The bytes not read yet: what `Buf::remaining()` counts, and what
        `Buf::chunk()` returns for a contiguous buffer such as `&[u8]`. */
    function Remaining(): (r: seq<byte>)
      requires Valid()
      reads this
      ensures |r| == |data| - pos
    {
      data[pos..]
    }
  }

  /** `get_i8` … `get_u128`: takes the type's width off the front of the
      cursor and decodes it as a big-endian, two's-complement integer. */
  method ReadInt(k: IntKind, reader: Cursor) returns (x: int)
    requires reader.Valid() && |reader.Remaining()| >= k.Bytes()
    modifies reader
    ensures reader.Valid() && reader.data == old(reader.data)
    ensures reader.pos == old(reader.pos) + k.Bytes()
    ensures x == Decode(k, old(reader.Remaining())[..k.Bytes()])
    ensures reader.Remaining() == old(reader.Remaining())[k.Bytes()..]
    ensures InRange(k, x)
  {
    assert reader.data[reader.pos..reader.pos + k.Bytes()] == reader.Remaining()[..k.Bytes()];
    x := Decode(k, reader.data[reader.pos..reader.pos + k.Bytes()]);
    reader.pos := reader.pos + k.Bytes();
  }

  /** `get_u8() != 0`: takes one byte; any byte but 0 is `true`. */
  method ReadBool(reader: Cursor) returns (b: bool)
    requires reader.Valid() && |reader.Remaining()| >= 1
    modifies reader
    ensures reader.Valid() && reader.data == old(reader.data)
    ensures reader.pos == old(reader.pos) + 1
    ensures b == DecodeBool(old(reader.Remaining())[..1])
    ensures b <==> old(reader.data[reader.pos]) != 0
    ensures reader.Remaining() == old(reader.Remaining())[1..]
  {
    b := DecodeBool(reader.data[reader.pos..reader.pos + 1]);
    reader.pos := reader.pos + 1;
  }

  /** The value of primitive type `p` that `Width(p)` bytes spell: an
      integer of that type, or a bool. */
  function DecodeScalar(p: Prim, bs: seq<byte>): (s: Scalar)
    requires p.Int? || p.Bool?
    requires |bs| == Width(p)
    ensures PrimOf(s) == p && ValidScalar(s)
  {
    if p.Bool? then BoolV(DecodeBool(bs)) else IntV(p.kind, Decode(p.kind, bs))
  }

  /** `T::read_from` for a primitive `T` with a `Readable` impl (an integer
      type or `bool`): the read its type selects. */
  method ReadScalar(p: Prim, reader: Cursor) returns (s: Scalar)
    requires p.Int? || p.Bool?
    requires reader.Valid() && |reader.Remaining()| >= Width(p)
    modifies reader
    ensures reader.Valid() && reader.data == old(reader.data)
    ensures reader.Remaining() == old(reader.Remaining())[Width(p)..]
    ensures s == DecodeScalar(p, old(reader.Remaining())[..Width(p)])
  {
    if p.Bool? {
      var b := ReadBool(reader);
      s := BoolV(b);
    } else {
      var x := ReadInt(p.kind, reader);
      s := IntV(p.kind, x);
    }
  }
}
