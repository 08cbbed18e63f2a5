/**
 * The primitive types of the library: their kinds, their fixed byte widths
 * (`std::mem::size_of`) and their values.
 */
module Primitives {

  /** A byte of a buffer. */
  type byte = x: int | 0 <= x < 256

  /** 256^n, the number of distinct values of n bytes. */
  function Pow256(n: nat): (r: nat)
    ensures r >= 1
  {
    if n == 0 then 1 else 256 * Pow256(n - 1)
  }

  /** The fixed-width integer types `i8` … `i128` and `u8` … `u128`. */
  datatype IntKind = I8 | I16 | I32 | I64 | I128 | U8 | U16 | U32 | U64 | U128
  {
    /** The number in the type's name. */
    function Bits(): nat
    {
      match this
      case I8 | U8 => 8
      case I16 | U16 => 16
      case I32 | U32 => 32
      case I64 | U64 => 64
      case I128 | U128 => 128
    }

    /** Signed types use two's complement. */
    predicate Signed()
    {
      I8? || I16? || I32? || I64? || I128?
    }

    /** The number of bytes of the type. */
    function Bytes(): (n: nat)
      ensures n >= 1 && 8 * n == Bits()
    {
      match this
      case I8 | U8 => 1
      case I16 | U16 => 2
      case I32 | U32 => 4
      case I64 | U64 => 8
      case I128 | U128 => 16
    }

    /** 2^Bits(), the number of values of the type. */
    function Modulus(): (m: nat)
      ensures m >= 256
    {
      match this
      case I8 | U8 => 0x100
      case I16 | U16 => 0x1_0000
      case I32 | U32 => 0x1_0000_0000
      case I64 | U64 => 0x1_0000_0000_0000_0000
      case I128 | U128 => 0x1_0000_0000_0000_0000_0000_0000_0000_0000
    }

    /** 2^(Bits() - 1), the bound of a signed type's range. */
    function Half(): (h: nat)
      ensures 2 * h == Modulus()
    {
      match this
      case I8 | U8 => 0x80
      case I16 | U16 => 0x8000
      case I32 | U32 => 0x8000_0000
      case I64 | U64 => 0x8000_0000_0000_0000
      case I128 | U128 => 0x8000_0000_0000_0000_0000_0000_0000_0000
    }
  }

  /** The range bounds are the powers of 256 that the byte width gives. */
  lemma KindPowers(k: IntKind)
    ensures k.Modulus() == Pow256(k.Bytes())
    ensures k.Half() == 128 * Pow256(k.Bytes() - 1)
  {
    assert Pow256(2) == 0x1_0000;
    assert Pow256(4) == 0x1_0000_0000;
    assert Pow256(8) == 0x1_0000_0000_0000_0000;
    assert Pow256(16) == 0x1_0000_0000_0000_0000_0000_0000_0000_0000;
  }

  /** True when `x` is a value of the integer type `k`. */
  predicate InRange(k: IntKind, x: int)
  {
    if k.Signed() then -(k.Half() as int) <= x < k.Half() else 0 <= x < k.Modulus()
  }

  /** The primitive types that have a size: the scalars of the builder and
      of the `static_type_size!` list. */
  datatype Prim = Bool | Char | Usize | F32 | F64 | Int(kind: IntKind)

  /** `std::mem::size_of` of a primitive type; `usize` is fixed at 8 bytes. */
  function Width(p: Prim): (w: nat)
    ensures p.Int? ==> 8 * w == p.kind.Bits()
    ensures p.Bool? ==> w == 1
  {
    match p
    case Bool => 1
    case Char => 4
    case Usize => 8
    case F32 => 4
    case F64 => 8
    case Int(k) => k.Bytes()
  }

  /** The primitives that `static_type_size!` gives a `StaticDataSize` and a
      `DataSize`: every primitive except the 128-bit integers. */
  predicate HasSizeImpl(p: Prim)
  {
    !(p == Int(I128) || p == Int(U128))
  }

  /** A value of a primitive type. Floats are kept as their raw bits. */
  datatype Scalar =
    | BoolV(b: bool)
    | CharV(c: char)
    | UsizeV(n: int)
    | F32V(bits32: bv32)
    | F64V(bits64: bv64)
    | IntV(kind: IntKind, x: int)

  /** The primitive type of a value. */
  function PrimOf(s: Scalar): Prim
  {
    match s
    case BoolV(_) => Bool
    case CharV(_) => Char
    case UsizeV(_) => Usize
    case F32V(_) => F32
    case F64V(_) => F64
    case IntV(k, _) => Int(k)
  }

  /** Integers lie in the range of their type. */
  predicate ValidScalar(s: Scalar)
  {
    match s
    case UsizeV(n) => 0 <= n < 0x1_0000_0000_0000_0000
    case IntV(k, x) => InRange(k, x)
    case _ => true
  }
}
