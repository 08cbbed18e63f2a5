/**
 * Writers and readers together: what `write_to` puts into a buffer,
 * `read_from` takes back out of a cursor over that buffer.
 */
module RoundTrip {
  import opened Primitives
  import opened Wire
  import opened Writable
  import opened Readable

  /** Writing an integer and reading it back as the same type gives the
      integer, and consumes every byte that was written. */
  method IntRoundTrip(k: IntKind, x: int) returns (y: int, rest: seq<byte>)
    requires InRange(k, x)
    ensures y == x && rest == []
  {
    var encoded := Encode(k, x);
    var writer := new Buffer();
    var _ := WriteInt(k, x, writer);
    assert writer.bytes == encoded;
    var reader := new Cursor(writer.bytes);
    assert reader.Remaining()[..k.Bytes()] == encoded;
    y := ReadInt(k, reader);
    assert y == Decode(k, encoded);
    rest := reader.Remaining();
    DecodeEncode(k, x);
  }

  /** Writing a bool and reading it back gives the bool. */
  method BoolRoundTrip(b: bool) returns (c: bool, rest: seq<byte>)
    ensures c == b && rest == []
  {
    var writer := new Buffer();
    var _ := WriteBool(b, writer);
    var reader := new Cursor(writer.bytes);
    c := ReadBool(reader);
    rest := reader.Remaining();
  }

  /** Decoding a value's bytes by its type gives the value back. */
  lemma DecodeScalarEncoding(s: Scalar)
    requires HasWritable(s) && ValidScalar(s)
    ensures DecodeScalar(PrimOf(s), Encoding(s)) == s
  {
    if s.IntV? {
      DecodeEncode(s.kind, s.x);
    }
  }

  /** The bytes of the values from index `i` on are those of value `i`
      followed by those of the rest. */
  lemma EncodingsFrom(xs: seq<Scalar>, i: nat)
    requires AllWritable(xs) && i < |xs|
    ensures AllWritable(xs[i..]) && AllWritable(xs[i + 1..])
    ensures Encodings(xs[i..]) == Encoding(xs[i]) + Encodings(xs[i + 1..])
  {
    assert xs[i..][0] == xs[i] && xs[i..][1..] == xs[i + 1..];
  }

  /** The bytes of the values up to and including index `i` are those of the
      values before it followed by those of value `i`. */
  lemma EncodingsUpTo(xs: seq<Scalar>, i: nat)
    requires AllWritable(xs) && i < |xs|
    ensures AllWritable(xs[..i]) && AllWritable(xs[..i + 1])
    ensures Encodings(xs[..i + 1]) == Encodings(xs[..i]) + Encoding(xs[i])
  {
    assert xs[..i + 1] == xs[..i] + [xs[i]];
    assert AllWritable([xs[i]]);
    assert Encodings([xs[i]]) == Encoding(xs[i]) + Encodings([]);
    EncodingsAppend(xs[..i], [xs[i]]);
  }

  /** Writes the values one after the other. */
  method WriteAll(xs: seq<Scalar>, writer: Buffer)
    requires AllWritable(xs)
    modifies writer
    ensures writer.bytes == old(writer.bytes) + Encodings(xs)
  {
    for i := 0 to |xs|
      invariant writer.bytes == old(writer.bytes) + Encodings(xs[..i])
    {
      EncodingsUpTo(xs, i);
      var _ := WriteScalar(xs[i], writer);
    }
    assert xs[..|xs|] == xs;
  }

  /** Reads back, by the types of `xs`, values whose bytes are next in the
      cursor. */
  method ReadAll(xs: seq<Scalar>, reader: Cursor) returns (ys: seq<Scalar>)
    requires AllWritable(xs) && reader.Valid()
    requires reader.Remaining() == Encodings(xs)
    modifies reader
    ensures reader.Valid() && reader.Remaining() == []
    ensures ys == xs
  {
    ys := [];
    assert xs[0..] == xs;
    for i := 0 to |xs|
      invariant reader.Valid() && ys == xs[..i]
      invariant reader.Remaining() == Encodings(xs[i..])
    {
      EncodingsFrom(xs, i);
      DecodeScalarEncoding(xs[i]);
      var e, tail := Encoding(xs[i]), Encodings(xs[i + 1..]);
      assert (e + tail)[..|e|] == e && (e + tail)[|e|..] == tail;
      var s := ReadScalar(PrimOf(xs[i]), reader);
      assert xs[..i + 1] == xs[..i] + [xs[i]];
      ys := ys + [s];
    }
    assert xs[|xs|..] == [];
  }

  /** Values written one after the other are read back in the same order,
      each by the read its type selects, and every byte is consumed. */
  method SequenceRoundTrip(xs: seq<Scalar>) returns (ys: seq<Scalar>, rest: seq<byte>)
    requires AllWritable(xs)
    ensures ys == xs && rest == []
  {
    var writer := new Buffer();
    WriteAll(xs, writer);
    var reader := new Cursor(writer.bytes);
    ys := ReadAll(xs, reader);
    rest := reader.Remaining();
  }

  /** Reading `k.Bytes()` bytes as an integer and writing the integer again
      gives the same bytes. */
  method IntReencode(k: IntKind, bs: seq<byte>) returns (out: seq<byte>)
    requires |bs| == k.Bytes()
    ensures out == bs
  {
    var reader := new Cursor(bs);
    var x := ReadInt(k, reader);
    var writer := new Buffer();
    var _ := WriteInt(k, x, writer);
    out := writer.bytes;
    assert bs[..k.Bytes()] == bs;
    EncodeDecode(k, bs);
  }

  /** Reading a bool byte and writing the bool again gives 0 for 0 and 1
      for every other byte. */
  method BoolReencode(byte0: byte) returns (out: seq<byte>)
    ensures out == [if byte0 == 0 then 0 else 1]
    ensures byte0 > 1 ==> out != [byte0]
  {
    var reader := new Cursor([byte0]);
    var b := ReadBool(reader);
    var writer := new Buffer();
    var _ := WriteBool(b, writer);
    out := writer.bytes;
  }
}
