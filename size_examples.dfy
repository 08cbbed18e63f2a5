/**
 * The sizes the test suite expects of its example types, computed by the
 * model.
 */
module SizeExamples {
  import opened Primitives
  import opened DeriveSizes
  import opened Sizes

  function Zero(k: IntKind): Value
  {
    PrimV(IntV(k, 0))
  }

  /** `enum TestSizedEnum { Unit, Tuple(u16), Struct { field1: u32, field2: i8 } }`,
      deriving `StaticDataSize`. */
  const TestSizedEnum: Ty :=
    DerivedT(Enum([Fields(Unit, []),
                   Fields(Unnamed, [PrimT(Int(U16))]),
                   Fields(Named, [PrimT(Int(U32)), PrimT(Int(I8))])]),
             DeriveStaticDataSize)

  /** `struct TestSizedStruct { value: u32, wrapper: Option<i64>, enum_value: TestSizedEnum }`,
      deriving `StaticDataSize`. */
  const TestSizedStruct: Ty :=
    DerivedT(Struct(Fields(Named, [PrimT(Int(U32)), OptionT(PrimT(Int(I64))), TestSizedEnum])),
             DeriveStaticDataSize)

  /** `enum TestDynamicEnum { Unit, Tuple(Vec<u8>), Struct { field1: u32, field2: Vec<i16> } }`,
      deriving `DataSize`. */
  const TestDynamicEnum: Ty :=
    DerivedT(Enum([Fields(Unit, []),
                   Fields(Unnamed, [VecT(PrimT(Int(U8)))]),
                   Fields(Named, [PrimT(Int(U32)), VecT(PrimT(Int(I16)))])]),
             DeriveDataSize)

  /** `struct TestDynamicStruct { value: u32, wrapper: Option<Vec<i32>>, enum_value: Vec<TestSizedEnum> }`,
      deriving `DataSize`. */
  const TestDynamicStruct: Ty :=
    DerivedT(Struct(Fields(Named, [PrimT(Int(U32)), OptionT(VecT(PrimT(Int(I32)))), VecT(TestSizedEnum)])),
             DeriveDataSize)

  /** The variants of `TestSizedEnum`, each as a struct of its fields:
      the tuple variant has static size 2, the struct variant 4 + 1. */
  lemma TestSizedTupleVariant()
    ensures WellFormed(DerivedT(Struct(Fields(Unnamed, [PrimT(Int(U16))])), DeriveStaticDataSize))
    ensures StaticDataSize(DerivedT(Struct(Fields(Unnamed, [PrimT(Int(U16))])), DeriveStaticDataSize)) == 2
  {
    ZeroHasType(U16);
    StaticStructOfOne(Unnamed, PrimT(Int(U16)));
  }

  lemma TestSizedStructVariant()
    ensures WellFormed(DerivedT(Struct(Fields(Named, [PrimT(Int(U32)), PrimT(Int(I8))])), DeriveStaticDataSize))
    ensures StaticDataSize(DerivedT(Struct(Fields(Named, [PrimT(Int(U32)), PrimT(Int(I8))])), DeriveStaticDataSize)) == 5
  {
    ZeroHasType(U32);
    ZeroHasType(I8);
    StaticStructOfTwo(Named, PrimT(Int(U32)), PrimT(Int(I8)));
  }

  lemma TestSizedEnumWellFormed()
    ensures WellFormed(TestSizedEnum)
  {
    ZeroHasType(U16);
    ZeroHasType(U32);
    ZeroHasType(I8);
  }

  /** Every variant of the statically sized enum has the size of the largest
      variant, 5. */
  lemma TestSizedEnumSizes()
    ensures WellFormed(TestSizedEnum) && StaticDataSize(TestSizedEnum) == 5
  {
    TestSizedEnumWellFormed();
    TestSizedTupleVariant();
    TestSizedStructVariant();
    EnumStaticIsLargestVariant(TestSizedEnum.data.variants);
  }

  /** Every value of the statically sized enum, unit variant included, has
      size 5. */
  lemma TestSizedEnumValue(v: Value)
    requires HasType(v, TestSizedEnum)
    ensures DataSize(v, TestSizedEnum) == 5
  {
    TestSizedEnumSizes();
    StaticMatchesDynamic(v, TestSizedEnum);
  }

  lemma TestSizedEnumTyped()
    ensures HasType(EnumV(0, []), TestSizedEnum)
    ensures HasType(EnumV(1, [Zero(U16)]), TestSizedEnum)
    ensures HasType(EnumV(2, [Zero(U32), Zero(I8)]), TestSizedEnum)
  {
    ZeroHasType(U16);
    ZeroHasType(U32);
    ZeroHasType(I8);
    var vs := TestSizedEnum.data.variants;
    EnumValueTyped(0, [], vs, DeriveStaticDataSize);
    EnumValueTyped(1, [Zero(U16)], vs, DeriveStaticDataSize);
    EnumValueTyped(2, [Zero(U32), Zero(I8)], vs, DeriveStaticDataSize);
  }

  lemma EnumValueTyped(i: nat, fs: seq<Value>, vs: seq<Fields<Ty>>, k: DeriveKind)
    requires i < |vs| && FieldsHaveTypes(fs, vs[i].items)
    ensures HasType(EnumV(i, fs), DerivedT(Enum(vs), k))
  {
  }

  lemma StructValueTyped(fs: seq<Value>, fl: Fields<Ty>, k: DeriveKind)
    requires FieldsHaveTypes(fs, fl.items)
    ensures HasType(StructV(fs), DerivedT(Struct(fl), k))
  {
  }

  /** Three values of three types are fields of those types. */
  lemma ThreeFieldsTyped(a: Ty, b: Ty, c: Ty, x: Value, y: Value, z: Value)
    requires HasType(x, a) && HasType(y, b) && HasType(z, c)
    ensures FieldsHaveTypes([x, y, z], [a, b, c])
  {
  }

  /** A struct of one statically sized field, deriving `StaticDataSize`. */
  lemma StaticStructOfOne(style: Style, a: Ty)
    requires style != Unit
    requires WellFormed(a) && HasStatic(a)
    ensures WellFormed(DerivedT(Struct(Fields(style, [a])), DeriveStaticDataSize))
    ensures StaticDataSize(DerivedT(Struct(Fields(style, [a])), DeriveStaticDataSize)) == StaticDataSize(a)
  {
    var n := TypesStatic([a]);
    assert |n| == 1 && n[..0] == [];
    assert Sum(n) == n[0];
  }

  /** A struct of two statically sized fields, deriving `StaticDataSize`. */
  lemma StaticStructOfTwo(style: Style, a: Ty, b: Ty)
    requires style != Unit
    requires WellFormed(a) && HasStatic(a) && WellFormed(b) && HasStatic(b)
    ensures WellFormed(DerivedT(Struct(Fields(style, [a, b])), DeriveStaticDataSize))
    ensures StaticDataSize(DerivedT(Struct(Fields(style, [a, b])), DeriveStaticDataSize))
         == StaticDataSize(a) + StaticDataSize(b)
  {
    var n := TypesStatic([a, b]);
    assert |n| == 2 && n[..1][..0] == [];
    assert Sum(n[..1]) == n[0];
  }

  /** A struct of three statically sized fields, deriving `StaticDataSize`. */
  lemma StaticStructOfThree(style: Style, a: Ty, b: Ty, c: Ty)
    requires style != Unit
    requires WellFormed(a) && HasStatic(a) && WellFormed(b) && HasStatic(b) && WellFormed(c) && HasStatic(c)
    ensures WellFormed(DerivedT(Struct(Fields(style, [a, b, c])), DeriveStaticDataSize))
    ensures StaticDataSize(DerivedT(Struct(Fields(style, [a, b, c])), DeriveStaticDataSize))
         == StaticDataSize(a) + StaticDataSize(b) + StaticDataSize(c)
  {
    var n := TypesStatic([a, b, c]);
    assert |n| == 3;
    assert n[..2][..1][..0] == [];
    assert Sum(n[..2][..1]) == n[0];
    assert Sum(n[..2]) == n[0] + n[1];
    assert Sum(n) == n[0] + n[1] + n[2];
  }

  /** A struct `{ value: u32, wrapper: Option<i64>, enum_value: E }` has
      static size 4 + 8 plus that of `E`. */
  lemma SizedStructShape(e: Ty)
    requires WellFormed(e) && HasStatic(e)
    ensures WellFormed(DerivedT(Struct(Fields(Named, [PrimT(Int(U32)), OptionT(PrimT(Int(I64))), e])), DeriveStaticDataSize))
    ensures StaticDataSize(DerivedT(Struct(Fields(Named, [PrimT(Int(U32)), OptionT(PrimT(Int(I64))), e])), DeriveStaticDataSize))
         == 12 + StaticDataSize(e)
  {
    ZeroHasType(U32);
    ZeroHasType(I64);
    StaticStructOfThree(Named, PrimT(Int(U32)), OptionT(PrimT(Int(I64))), e);
  }

  /** A value of that struct with `wrapper` set to `None` has the struct's
      static size. */
  lemma SizedStructValue(e: Ty, n: int, ev: Value)
    requires WellFormed(e) && HasStatic(e) && HasType(ev, e) && InRange(U32, n)
    ensures WellFormed(DerivedT(Struct(Fields(Named, [PrimT(Int(U32)), OptionT(PrimT(Int(I64))), e])), DeriveStaticDataSize))
    ensures HasType(StructV([PrimV(IntV(U32, n)), NoneV, ev]),
                    DerivedT(Struct(Fields(Named, [PrimT(Int(U32)), OptionT(PrimT(Int(I64))), e])), DeriveStaticDataSize))
    ensures DataSize(StructV([PrimV(IntV(U32, n)), NoneV, ev]),
                     DerivedT(Struct(Fields(Named, [PrimT(Int(U32)), OptionT(PrimT(Int(I64))), e])), DeriveStaticDataSize))
         == 12 + StaticDataSize(e)
  {
    SizedStructShape(e);
    var a, b := PrimT(Int(U32)), OptionT(PrimT(Int(I64)));
    var x, y := PrimV(IntV(U32, n)), NoneV;
    assert HasType(x, a) && HasType(y, b);
    ThreeFieldsTyped(a, b, e, x, y, ev);
    var t := DerivedT(Struct(Fields(Named, [a, b, e])), DeriveStaticDataSize);
    StructValueTyped([x, y, ev], t.data.fields, DeriveStaticDataSize);
    StaticMatchesDynamic(StructV([x, y, ev]), t);
  }

  /** 4 + 8 + 5: the `Option<i64>` field counts 8 even though it is `None`. */
  lemma TestSizedStructStatic()
    ensures WellFormed(TestSizedStruct) && StaticDataSize(TestSizedStruct) == 17
  {
    TestSizedEnumSizes();
    SizedStructShape(TestSizedEnum);
  }

  /** A value of the struct: its size is the static 17 whatever the
      `u32` and the enum value, and with `wrapper` set to `None`. */
  lemma TestSizedStructSize(n: int, e: Value)
    requires InRange(U32, n) && HasType(e, TestSizedEnum)
    ensures WellFormed(TestSizedStruct)
    ensures HasType(StructV([PrimV(IntV(U32, n)), NoneV, e]), TestSizedStruct)
      && DataSize(StructV([PrimV(IntV(U32, n)), NoneV, e]), TestSizedStruct) == 17
  {
    TestSizedEnumSizes();
    SizedStructValue(TestSizedEnum, n, e);
  }

  /** A struct of one field, deriving `DataSize`, has that field's size. */
  lemma DataStructOfOne(style: Style, a: Ty, x: Value)
    requires style != Unit
    requires WellFormed(a) && HasType(x, a)
    ensures WellFormed(DerivedT(Struct(Fields(style, [a])), DeriveDataSize))
    ensures HasType(StructV([x]), DerivedT(Struct(Fields(style, [a])), DeriveDataSize))
    ensures DataSize(StructV([x]), DerivedT(Struct(Fields(style, [a])), DeriveDataSize)) == DataSize(x, a)
  {
    var n := FieldSizes([x], [a]);
    assert |n| == 1 && n[..0] == [];
    assert Sum(n) == n[0];
  }

  /** A struct of two fields, deriving `DataSize`, adds up their sizes. */
  lemma DataStructOfTwo(style: Style, a: Ty, b: Ty, x: Value, y: Value)
    requires style != Unit
    requires WellFormed(a) && HasType(x, a) && WellFormed(b) && HasType(y, b)
    ensures WellFormed(DerivedT(Struct(Fields(style, [a, b])), DeriveDataSize))
    ensures HasType(StructV([x, y]), DerivedT(Struct(Fields(style, [a, b])), DeriveDataSize))
    ensures DataSize(StructV([x, y]), DerivedT(Struct(Fields(style, [a, b])), DeriveDataSize))
         == DataSize(x, a) + DataSize(y, b)
  {
    var n := FieldSizes([x, y], [a, b]);
    assert |n| == 2;
    assert n[..1][..0] == [];
    assert Sum(n[..1]) == n[0];
  }

  /** A struct of three fields, deriving `DataSize`, adds up their sizes. */
  lemma DataStructOfThree(style: Style, a: Ty, b: Ty, c: Ty, x: Value, y: Value, z: Value)
    requires style != Unit
    requires WellFormed(a) && HasType(x, a) && WellFormed(b) && HasType(y, b) && WellFormed(c) && HasType(z, c)
    ensures WellFormed(DerivedT(Struct(Fields(style, [a, b, c])), DeriveDataSize))
    ensures HasType(StructV([x, y, z]), DerivedT(Struct(Fields(style, [a, b, c])), DeriveDataSize))
    ensures DataSize(StructV([x, y, z]), DerivedT(Struct(Fields(style, [a, b, c])), DeriveDataSize))
         == DataSize(x, a) + DataSize(y, b) + DataSize(z, c)
  {
    var n := FieldSizes([x, y, z], [a, b, c]);
    assert |n| == 3;
    assert n[..2][..1][..0] == [];
    assert Sum(n[..2][..1]) == n[0];
    assert Sum(n[..2]) == n[0] + n[1];
  }

  lemma TestDynamicEnumWellFormed()
    ensures WellFormed(TestDynamicEnum)
  {
    ZeroHasType(U8);
    ZeroHasType(U32);
    ZeroHasType(I16);
    var vs := TestDynamicEnum.data.variants;
    assert TypesWellFormed(vs[1].items, DeriveDataSize);
    assert TypesWellFormed(vs[2].items, DeriveDataSize);
  }

  /** The unit variant of the dynamically sized enum counts 1. */
  lemma TestDynamicEnumUnit()
    ensures WellFormed(TestDynamicEnum)
    ensures HasType(EnumV(0, []), TestDynamicEnum) && DataSize(EnumV(0, []), TestDynamicEnum) == 1
  {
    TestDynamicEnumWellFormed();
    var vs := TestDynamicEnum.data.variants;
    EnumValueTyped(0, [], vs, DeriveDataSize);
    EnumActiveVariant(0, [], vs);
  }

  /** The tuple variant holding two `u8`s counts 2. */
  lemma TestDynamicEnumTuple()
    ensures WellFormed(TestDynamicEnum)
    ensures HasType(EnumV(1, [SeqV([Zero(U8), Zero(U8)])]), TestDynamicEnum)
      && DataSize(EnumV(1, [SeqV([Zero(U8), Zero(U8)])]), TestDynamicEnum) == 2
  {
    TestDynamicEnumWellFormed();
    ZeroHasType(U8);
    var vs := TestDynamicEnum.data.variants;
    var bytes := SeqV([Zero(U8), Zero(U8)]);
    VecOfStatic(bytes.elems, PrimT(Int(U8)));
    DataStructOfOne(Unnamed, VecT(PrimT(Int(U8))), bytes);
    EnumValueTyped(1, [bytes], vs, DeriveDataSize);
    EnumActiveVariant(1, [bytes], vs);
  }

  /** The struct variant holding a `u32` and three `i16`s counts 4 + 3 * 2,
      whatever the numbers. */
  lemma TestDynamicEnumStruct(n: int, shorts: seq<Value>)
    requires InRange(U32, n)
    requires |shorts| == 3 && forall i :: 0 <= i < 3 ==> HasType(shorts[i], PrimT(Int(I16)))
    ensures WellFormed(TestDynamicEnum)
    ensures HasType(EnumV(2, [PrimV(IntV(U32, n)), SeqV(shorts)]), TestDynamicEnum)
      && DataSize(EnumV(2, [PrimV(IntV(U32, n)), SeqV(shorts)]), TestDynamicEnum) == 10
  {
    TestDynamicEnumWellFormed();
    ZeroHasType(U32);
    ZeroHasType(I16);
    var vs := TestDynamicEnum.data.variants;
    var x := PrimV(IntV(U32, n));
    VecOfStatic(shorts, PrimT(Int(I16)));
    DataStructOfTwo(Named, PrimT(Int(U32)), VecT(PrimT(Int(I16))), x, SeqV(shorts));
    EnumValueTyped(2, [x, SeqV(shorts)], vs, DeriveDataSize);
    EnumActiveVariant(2, [x, SeqV(shorts)], vs);
  }

  /** A `Vec<TestSizedEnum>` counts 5 per element. */
  lemma TestSizedEnumVec(es: seq<Value>)
    requires forall i :: 0 <= i < |es| ==> HasType(es[i], TestSizedEnum)
    ensures WellFormed(TestSizedEnum) && HasStatic(TestSizedEnum)
    ensures DataSize(SeqV(es), VecT(TestSizedEnum)) == 5 * |es|
  {
    TestSizedEnumSizes();
    VecOfStatic(es, TestSizedEnum);
  }

  /** `{ value: u32, wrapper: Option<Vec<i32>>, enum_value: Vec<E> }` adds up
      4, 4 per `i32` inside `Some` and the `Vec<E>`, for any `E` with a
      `DataSize` impl. */
  lemma DynamicStructShape(e: Ty, n: int, ints: seq<Value>, es: seq<Value>)
    requires WellFormed(e) && forall i :: 0 <= i < |es| ==> HasType(es[i], e)
    requires InRange(U32, n) && forall i :: 0 <= i < |ints| ==> HasType(ints[i], PrimT(Int(I32)))
    ensures WellFormed(DerivedT(Struct(Fields(Named, [PrimT(Int(U32)), OptionT(VecT(PrimT(Int(I32)))), VecT(e)])), DeriveDataSize))
    ensures HasType(StructV([PrimV(IntV(U32, n)), SomeV(SeqV(ints)), SeqV(es)]),
                    DerivedT(Struct(Fields(Named, [PrimT(Int(U32)), OptionT(VecT(PrimT(Int(I32)))), VecT(e)])), DeriveDataSize))
    ensures DataSize(StructV([PrimV(IntV(U32, n)), SomeV(SeqV(ints)), SeqV(es)]),
                     DerivedT(Struct(Fields(Named, [PrimT(Int(U32)), OptionT(VecT(PrimT(Int(I32)))), VecT(e)])), DeriveDataSize))
         == 4 + 4 * |ints| + DataSize(SeqV(es), VecT(e))
  {
    SomeVecI32(ints);
    ZeroHasType(U32);
    DataStructOfThree(Named, PrimT(Int(U32)), OptionT(VecT(PrimT(Int(I32)))), VecT(e),
                      PrimV(IntV(U32, n)), SomeV(SeqV(ints)), SeqV(es));
  }

  /** `Some(vec)` of `i32`s counts 4 per element: `Vec<i32>` has no static
      size, so the generic `Option` rule applies. */
  lemma SomeVecI32(ints: seq<Value>)
    requires forall i :: 0 <= i < |ints| ==> HasType(ints[i], PrimT(Int(I32)))
    ensures WellFormed(OptionT(VecT(PrimT(Int(I32)))))
    ensures HasType(SomeV(SeqV(ints)), OptionT(VecT(PrimT(Int(I32)))))
    ensures DataSize(SomeV(SeqV(ints)), OptionT(VecT(PrimT(Int(I32))))) == 4 * |ints|
  {
    ZeroHasType(I32);
    VecOfStatic(ints, PrimT(Int(I32)));
    OptionGenericRule(SomeV(SeqV(ints)), VecT(PrimT(Int(I32))));
  }

  /** 4 + 2 * 4 + 5: sizes compose through `Option<Vec<i32>>` and
      `Vec<TestSizedEnum>`. */
  lemma TestDynamicStructSize(n: int, ints: seq<Value>, es: seq<Value>)
    requires InRange(U32, n)
    requires |ints| == 2 && forall i :: 0 <= i < |ints| ==> HasType(ints[i], PrimT(Int(I32)))
    requires |es| == 1 && forall i :: 0 <= i < |es| ==> HasType(es[i], TestSizedEnum)
    ensures WellFormed(TestDynamicStruct)
    ensures HasType(StructV([PrimV(IntV(U32, n)), SomeV(SeqV(ints)), SeqV(es)]), TestDynamicStruct)
      && DataSize(StructV([PrimV(IntV(U32, n)), SomeV(SeqV(ints)), SeqV(es)]), TestDynamicStruct) == 17
  {
    TestSizedEnumVec(es);
    DynamicStructShape(TestSizedEnum, n, ints, es);
  }

  /** `T::default()` is a value of every integer type with a size impl. */
  lemma ZeroHasType(k: IntKind)
    requires HasSizeImpl(Int(k))
    ensures WellFormed(PrimT(Int(k))) && HasStatic(PrimT(Int(k)))
    ensures HasType(Zero(k), PrimT(Int(k)))
    ensures DataSize(Zero(k), PrimT(Int(k))) == StaticDataSize(PrimT(Int(k))) == k.Bytes()
  {
  }

  /** `vec![i16::default(); 100]` has size 200: any 100 `i16`s do. */
  lemma HundredI16(es: seq<Value>)
    requires |es| == 100 && forall i :: 0 <= i < |es| ==> HasType(es[i], PrimT(Int(I16)))
    ensures WellFormed(VecT(PrimT(Int(I16))))
    ensures HasType(SeqV(es), VecT(PrimT(Int(I16)))) && DataSize(SeqV(es), VecT(PrimT(Int(I16)))) == 200
  {
    ZeroHasType(I16);
    VecOfStatic(es, PrimT(Int(I16)));
  }

  /** `None: Option<u64>` has size 8. */
  lemma OptionNoneExample()
    ensures WellFormed(OptionT(PrimT(Int(U64)))) && HasType(NoneV, OptionT(PrimT(Int(U64))))
      && DataSize(NoneV, OptionT(PrimT(Int(U64)))) == 8
  {
    ZeroHasType(U64);
    OptionStaticRule(NoneV, PrimT(Int(U64)));
  }

  /** `Some(vec![i64::default(); 10])` has size 80: any ten `i64`s do. */
  lemma OptionSomeExample(es: seq<Value>)
    requires |es| == 10 && forall i :: 0 <= i < |es| ==> HasType(es[i], PrimT(Int(I64)))
    ensures WellFormed(OptionT(VecT(PrimT(Int(I64)))))
    ensures HasType(SomeV(SeqV(es)), OptionT(VecT(PrimT(Int(I64)))))
      && DataSize(SomeV(SeqV(es)), OptionT(VecT(PrimT(Int(I64))))) == 80
  {
    ZeroHasType(I64);
    VecOfStatic(es, PrimT(Int(I64)));
    OptionGenericRule(SomeV(SeqV(es)), VecT(PrimT(Int(I64))));
  }
}
