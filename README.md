# cornflakes size, wire and builder core in Dafny

cornflakes is a Rust library for the X11 wire protocol. This project models five parts of it:

- **Size accounting.** The `DataSize` and `StaticDataSize` traits give the number of bytes a value takes once written. The model covers:
  - the implementations for primitives (`static_type_size!`), `Vec<T>`, `[T]`, `&[T]`, `&str` and `Option<T>`;
  - the size arithmetic emitted by the two derive macros for structs and enums. A struct adds up its fields. An enum takes its active variant when it derives `DataSize`, and its largest variant when it derives `StaticDataSize`. Deriving either on a union makes the generator panic.
- **Writing.** `Writable::write_to` for the integers, `bool`, `&str` and `String`. Each impl appends its bytes to a growable buffer.
- **Reading.** `Readable::read_from` for the integers and `bool`. Each impl takes bytes off the front of a cursor.
- **The wire format behind these.** Fixed-width integers are big-endian and two's complement. A `bool` is one byte.
- **The `Rw` builder.** Each push wraps the chain built so far in a node struct that holds the pushed value.

How the source's forms are carried over:

| Source | Model |
|---|---|
| A Rust type | a `Sizes.Ty` |
| A Rust value | a `Sizes.Value` |
| Trait resolution, including the specialised `Option<T>` rule | `DataSize` and `StaticDataSize` dispatch on the type |
| The derive macros | functions over field lists (module `DeriveSizes`) |
| The writer (`impl BufMut`) | class `Writable.Buffer`, which holds the bytes put so far |
| The reader (`impl Buf`) | class `Readable.Cursor`, which holds the bytes and a read position |
| Each `write_to` / `read_from` | a method that updates one of these objects |
| The `[T]` / `&[T]` accumulation loop | a method with a loop |
| The builder | a value datatype, because its push methods consume `self` and return a new node |

Module layout:

| File | Module | Contents |
|---|---|---|
| `primitives.dfy` | `Primitives` | integer kinds, widths, scalar values |
| `derive_sizes.dfy` | `DeriveSizes` | the derive macros' arithmetic |
| `sizes.dfy` | `Sizes` | types, values, the size functions and their laws |
| `size_examples.dfy` | `SizeExamples` | the sizes that the test suite expects |
| `wire.dfy` | `Wire` | big-endian and two's-complement encoding |
| `writable.dfy` | `Writable` | the writers |
| `readable.dfy` | `Readable` | the readers |
| `roundtrip.dfy` | `RoundTrip` | writers and readers used together |
| `builder.dfy` | `Builder` | the `Rw` builder |

## Model

| member | source | states |
|---|---|---|
| Primitives.IntKind.Bytes | src/writable.rs:23-34 | The width of every integer type is at least one byte and is its bit count divided by 8. |
| Primitives.IntKind.Half | src/readable.rs:17-28 | A signed type's bound is half of the number of bit patterns of its width. |
| Primitives.KindPowers | src/readable.rs:17-28 | An integer type has 256^width bit patterns, and the signed bound is 128 * 256^(width-1). |
| Primitives.Width | src/datasize.rs:25-38 | `size_of` of each primitive: `bool` is 1 and an integer type is its bit count / 8. |
| Primitives.HasSizeImpl | src/datasize.rs:40-52 | Definition of the `static_type_size!` list: every primitive except `u128` and `i128`. Its consequences are stated by `Sizes.PrimitiveSize` and `Writable.WrittenIsDataSize`. |
| DeriveSizes.MaxFold | datasize_macro/src/impl_data_sizes.rs:116-120 | The fold `max(max(0, x0), x1) …` is no smaller than any element, is one of the elements, and is 0 for no elements. |
| DeriveSizes.Sum | datasize_macro/src/impl_data_sizes.rs:86-87 | Definition of the `0usize + x0 + x1 + …` chain, added from the left. Its laws are `DeriveSizes.SumAppend` (additive over concatenation) and `DeriveSizes.SumConstant` (n equal terms). |
| DeriveSizes.StructDataSize | datasize_macro/src/impl_data_sizes.rs:76-103 | Definition: a unit struct is 0, any other struct is the sum of its fields' sizes. What it means for a struct value is stated by `Sizes.StructFieldAdds`. |
| DeriveSizes.VariantDataSize | datasize_macro/src/impl_data_sizes.rs:35-61 | Definition of the match arm for the active variant: 1 for a unit variant, otherwise the sum of its fields. Stated for enum values by `Sizes.EnumActiveVariant`. |
| DeriveSizes.VariantStaticSize | datasize_macro/src/impl_data_sizes.rs:109-114 | Definition of one variant's term in the static fold: the sum of its fields' static sizes, 0 for a unit variant. Used by `DeriveSizes.EnumStaticDataSize`, whose contract bounds the fold by these terms. |
| DeriveSizes.StructStaticDataSize | datasize_macro/src/impl_data_sizes.rs:123-134 | Definition: the sum of the fields' static sizes. Stated for struct types by `Sizes.StructStaticFieldAdds`. |
| DeriveSizes.EnumStaticDataSize | datasize_macro/src/impl_data_sizes.rs:105-121 | The static size of an enum is at least every variant's sum of static field sizes, is 0 without variants, and otherwise equals some variant's sum. |
| DeriveSizes.SumAppend | datasize_macro/src/impl_data_sizes.rs:86-88 | The `0usize + …` sum of a concatenated field list is the sum of the parts. |
| DeriveSizes.SumConstant | src/datasize.rs:54-61 | A sum of n equal terms w is n * w. |
| Sizes.Derive | datasize_macro/src/impl_data_sizes.rs:9-27 | Deriving panics with the union message exactly when the input is a union. Otherwise it yields an impl for the type, which has a static size exactly when `StaticDataSize` was derived. |
| Sizes.DeriveWellFormed | datasize_macro/src/impl_data_sizes.rs:9-27 | Links the union panic to well-formedness: a well-formed derived type comes from a derive that succeeded, and a derive that panics yields no well-formed type. |
| Sizes.HasStatic | src/datasize.rs:25-38 | Definition of which types implement `StaticDataSize`: the listed primitives, `Option<T>` of such a `T` (lines 103-108), and types deriving it. Its meaning for sizes is stated by `Sizes.StaticMatchesDynamic`. |
| Sizes.WellFormed | src/datasize.rs:40-102 | Definition of which types implement `DataSize`: the primitives of the `static_type_size!` list (so not `u128`/`i128`), `Vec`, slices and `Option` of such a type (the `T: DataSize` bounds), `&str`, and derived structs and enums whose fields have the impl, never a union (impl_data_sizes.rs:13-15). Its meaning is stated by `Sizes.DeriveWellFormed`, `Sizes.StaticMatchesDynamic` and `Writable.WrittenIsDataSize`. |
| Sizes.StaticDataSize | src/datasize.rs:25-38 | Definition of `static_data_size()` per type: `size_of` for primitives, `T`'s for `Option<T>` (lines 103-108), the field sum for a struct, and the largest variant for an enum. Stated by `Sizes.PrimitiveSize`, `Sizes.OptionStaticRule`, `Sizes.EmptyStruct`, `Sizes.StructStaticFieldAdds` and `Sizes.EnumStaticIsLargestVariant`. |
| Sizes.DataSize | src/datasize.rs:32-102 | Definition of `data_size()` per type, with specialisation picking the static `Option` rule. Stated by `Sizes.StaticMatchesDynamic`, `Sizes.VecDataSizeConcat`, `Sizes.VecSingleton`, `Sizes.VecOfStatic`, `Sizes.StrDataSize`, `Sizes.OptionGenericRule`, `Sizes.OptionStaticRule`, `Sizes.EmptyStruct`, `Sizes.StructFieldAdds` and `Sizes.EnumActiveVariant`. |
| Sizes.SliceDataSize | src/datasize.rs:63-80 | The accumulation loop over a slice returns the same size as the `Vec<T>` fold. |
| Sizes.StaticMatchesDynamic | datasize_macro/src/lib.rs:65-69 | For a type with a static size, every value's `data_size()` equals `static_data_size()`. This covers primitives, `Option` of a static type, and types that derive `StaticDataSize`. |
| Sizes.PrimitiveSize | src/datasize.rs:40-52 | Every value of a listed primitive has `data_size()` == `static_data_size()` == `size_of`. |
| Sizes.VecDataSizeConcat | src/datasize.rs:54-61 | An empty `Vec` has size 0, and the size of a concatenation is the sum of its parts. With `Sizes.VecSingleton` this makes a `Vec`'s size the sum of its elements' sizes, whatever the element type. |
| Sizes.VecSingleton | src/datasize.rs:54-61 | A one-element `Vec` has its element's size, for any element type with a `DataSize` impl. |
| Sizes.VecOfStatic | src/datasize.rs:54-61 | A `Vec` of n values of a statically sized type has size n times that type's static size. |
| Sizes.StrDataSize | src/datasize.rs:82-86 | A `&str` has its UTF-8 byte length as its size. |
| Sizes.OptionGenericRule | src/datasize.rs:88-96 | For `T` without a static size, `None` has size 0 and `Some(v)` has the size of `v`. |
| Sizes.OptionStaticRule | src/datasize.rs:97-108 | For statically sized `T`, `None` and `Some` both have `T`'s static size, and so does `Option<T>`. No tag byte is counted. |
| Sizes.EmptyStruct | datasize_macro/src/impl_data_sizes.rs:86-101 | A struct with no fields has size 0 under either derive, whether it is written `struct S;`, `struct S {}` or `struct S();`. |
| Sizes.StructFieldAdds | datasize_macro/src/impl_data_sizes.rs:76-103 | Appending a field to a named or tuple struct adds that field's `data_size()`. With `Sizes.EmptyStruct` as the start, this makes a struct's size the sum of its fields' sizes. |
| Sizes.StructStaticFieldAdds | datasize_macro/src/impl_data_sizes.rs:123-134 | Appending a field to a named or tuple struct adds that field's static size. With `Sizes.EmptyStruct` as the start, this makes the static size the sum of the fields' static sizes. |
| Sizes.EnumActiveVariant | datasize_macro/src/impl_data_sizes.rs:29-74 | An enum value has the size of its active variant only: 1 for a unit variant, otherwise the sum of the variant's fields, as for a struct. |
| Sizes.EnumStaticIsLargestVariant | datasize_macro/src/impl_data_sizes.rs:105-121 | A static enum is at least as large as each variant taken as a struct, equals one of them, and is 0 without variants. |
| Sizes.EnumStaticReorder | datasize_macro/src/impl_data_sizes.rs:116-120 | Reordering the variants does not change the static size of an enum. |
| SizeExamples.TestSizedTupleVariant | tests/datasize_test.rs:12 | `Tuple(u16)` taken as a struct has static size 2. |
| SizeExamples.TestSizedStructVariant | tests/datasize_test.rs:13 | `Struct { u32, i8 }` taken as a struct has static size 5. |
| SizeExamples.TestSizedEnumWellFormed | tests/datasize_test.rs:9-14 | `TestSizedEnum` has its size impls. |
| SizeExamples.TestSizedEnumSizes | tests/datasize_test.rs:9-14 | `TestSizedEnum` has static size 5. |
| SizeExamples.TestSizedEnumValue | tests/datasize_test.rs:42-61 | Every `TestSizedEnum` value has `data_size()` 5, the unit variant included. |
| SizeExamples.TestSizedEnumTyped | tests/datasize_test.rs:42-61 | The three values built in the tests are values of `TestSizedEnum`. |
| SizeExamples.SizedStructShape | tests/datasize_test.rs:16-22 | A struct `{ u32, Option<i64>, E }` has static size 12 plus the static size of `E`. |
| SizeExamples.SizedStructValue | tests/datasize_test.rs:63-71 | Every value of that struct whose wrapper is `None` has the static size. |
| SizeExamples.TestSizedStructStatic | tests/datasize_test.rs:16-22 | `TestSizedStruct` has static size 17. |
| SizeExamples.TestSizedStructSize | tests/datasize_test.rs:63-71 | The test's struct value has size 17, whatever the `u32` and the enum value. |
| SizeExamples.TestDynamicEnumWellFormed | tests/datasize_test.rs:26-31 | `TestDynamicEnum` has its size impls. |
| SizeExamples.TestDynamicEnumUnit | datasize_macro/src/impl_data_sizes.rs:58-61 | The unit variant of `TestDynamicEnum` has size 1, as the code is written. The test expects 0. |
| SizeExamples.TestDynamicEnumTuple | tests/datasize_test.rs:79-83 | `Tuple(vec![0u8, 0u8])` has size 2. |
| SizeExamples.TestDynamicEnumStruct | tests/datasize_test.rs:85-92 | `Struct { u32, three i16 }` has size 10. |
| SizeExamples.TestSizedEnumVec | tests/datasize_test.rs:39 | A `Vec<TestSizedEnum>` counts 5 bytes per element. |
| SizeExamples.DynamicStructShape | tests/datasize_test.rs:33-40 | `{ u32, Some(Vec<i32>), Vec<E> }` has size 4, plus 4 per `i32`, plus the size of the `Vec<E>`, for any `E` with a `DataSize` impl. |
| SizeExamples.SomeVecI32 | src/datasize.rs:88-96 | `Some` of a `Vec<i32>` takes 4 bytes per element and no tag, by the generic `Option` rule. |
| SizeExamples.TestDynamicStructSize | tests/datasize_test.rs:94-102 | The test's struct value, with two `i32`s and one enum value, has size 17. |
| SizeExamples.ZeroHasType | tests/datasize_test.rs:50 | `T::default()` is a value of every sized integer type, with size equal to the type's width. |
| SizeExamples.HundredI16 | src/datasize.rs:114-118 | 100 `i16`s have size 200. |
| SizeExamples.OptionNoneExample | src/datasize.rs:120-124 | `None: Option<u64>` has size 8. |
| SizeExamples.OptionSomeExample | src/datasize.rs:126-130 | `Some` of ten `i64`s has size 80. |
| SizeExamples.DataStructOfThree | datasize_macro/src/impl_data_sizes.rs:86-87 | A three-field struct deriving `DataSize` has the sum of its fields' sizes. |
| SizeExamples.StaticStructOfThree | datasize_macro/src/impl_data_sizes.rs:123-134 | A three-field struct deriving `StaticDataSize` has the sum of its fields' static sizes. |
| Wire.ToBigEndian | src/writable.rs:23-34 | The big-endian spelling of a number has exactly the requested width. |
| Wire.FromBigEndian | src/readable.rs:17-28 | The number spelled by n bytes is below 256^n. |
| Wire.FromToBigEndian | src/readable.rs:17-28 | Reading back the big-endian bytes of a number gives the number. |
| Wire.ToFromBigEndian | src/writable.rs:23-34 | Spelling out the number that some bytes spell gives those bytes back. |
| Wire.LeadingByteTopBit | src/writable.rs:23-34 | The first byte has its top bit set exactly when the number is at least 2^(8·width−1). |
| Wire.ToUnsigned | src/writable.rs:24-28 | The two's-complement bit pattern of a value is a number below 2^bits. |
| Wire.FromUnsigned | src/readable.rs:17-21 | Every bit pattern decodes to a value in the type's range. |
| Wire.FromToUnsigned | src/readable.rs:17-28 | Decoding a value's bit pattern gives the value back. |
| Wire.ToFromUnsigned | src/writable.rs:23-34 | The bit pattern of a decoded pattern is that pattern. |
| Wire.Encode | src/writable.rs:23-34 | `put_i8` … `put_u128` put exactly the type's width in bytes. |
| Wire.Decode | src/readable.rs:17-28 | `get_i8` … `get_u128` always give a value in the type's range. |
| Wire.DecodeEncode | src/readable.rs:17-28 | Decoding the encoding of a value gives the value back, for every integer type. |
| Wire.EncodeDecode | src/writable.rs:23-34 | Encoding the decoded value gives the same bytes back, so the integer encoding is a bijection. |
| Wire.SignInLeadingByte | src/writable.rs:24-28 | For a signed value, the first byte's top bit is set exactly when the value is negative. |
| Wire.EncodeBool | src/writable.rs:36 | `b as u8` is one byte: 1 for `true`, 0 for `false`. |
| Wire.DecodeBool | src/readable.rs:30 | Definition: `get_u8() != 0`. Its partner lemmas are `Wire.DecodeEncodeBool` and `Wire.EncodeDecodeBool`. |
| Wire.DecodeEncodeBool | src/readable.rs:30 | Reading back a written bool gives the bool. |
| Wire.EncodeDecodeBool | src/readable.rs:30 | Reading a bool and writing it again keeps 0 and turns every other byte into 1. |
| Wire.BoolReencodeChanges | src/readable.rs:30 | The byte 2 does not survive a read followed by a write. |
| Wire.DecodeU32Example | tests/readable_derive_test.rs:160-168 | `00 02 AB 98` read as a `u32` is 175000. |
| Wire.EncodeI16Example | src/writable.rs:25 | -2 as an `i16` is `FF FE`. |
| Writable.Buffer.constructor | src/writable.rs:9-16 | A new writer holds no bytes. |
| Writable.HasWritable | src/writable.rs:23-36 | Definition of the primitives with a `Writable` impl: the ten integer types and `bool`. Its meaning is stated by `Writable.WrittenIsDataSize` and `RoundTrip.SequenceRoundTrip`. |
| Writable.Encoding | src/writable.rs:23-36 | The bytes of a value have the type's width (`size_of`); `RoundTrip.DecodeScalarEncoding` states that they read back as the value. |
| Writable.EncodingsAppend | src/writable.rs:9-16 | The bytes of values written one after the other are the bytes of the first part followed by those of the second. |
| Writable.WriteInt | src/writable.rs:23-34 | Appends exactly the value's encoding, leaves the earlier bytes unchanged, and returns `Ok`. |
| Writable.WriteBool | src/writable.rs:36 | Appends the one bool byte and returns `Ok`. |
| Writable.WriteStr | src/writable.rs:38-39 | Appends the UTF-8 bytes as they are, with no length prefix, and returns `Ok`. |
| Writable.WriteScalar | src/writable.rs:9-16 | Any integer or bool write appends that value's encoding. |
| Writable.IntWidths | src/writable.rs:23-34 | Integer writes put 1, 2, 4, 8 or 16 bytes, for 8- to 128-bit types. |
| Writable.WrittenIsDataSize | src/datasize.rs:9-12 | For each primitive that both writes and has a size, the number of bytes written equals `data_size()`. |
| Writable.WrittenStrIsDataSize | src/datasize.rs:82-86 | A string writes as many bytes as its `data_size()`. |
| Readable.Cursor.constructor | src/readable.rs:9-10 | A new reader is at the start of its bytes. |
| Readable.Cursor.Remaining | src/readable.rs:9-10 | The unread bytes are the ones after the read position. |
| Readable.ReadInt | src/readable.rs:17-28 | Takes exactly the type's width off the front, decodes it, leaves the rest for later reads, and returns a value in range. |
| Readable.ReadBool | src/readable.rs:30 | Takes one byte, which reads as `true` exactly when it is nonzero. |
| Readable.DecodeScalar | src/readable.rs:17-30 | The value decoded from a primitive's bytes has that primitive type and lies in its range. |
| Readable.ReadScalar | src/readable.rs:9-10 | `T::read_from` for an integer type or `bool` takes exactly `size_of::<T>()` bytes off the front, returns a value of type `T` in range decoded from those bytes, and leaves the rest for later reads. |
| RoundTrip.IntRoundTrip | src/writable.rs:23-34 | An integer written and then read back as the same type comes back unchanged, with no bytes left over. |
| RoundTrip.BoolRoundTrip | src/readable.rs:30 | A bool written and then read comes back unchanged, with no bytes left over. |
| RoundTrip.SequenceRoundTrip | src/readable.rs:9-10 | Any sequence of integers and bools written one after another is read back, by the reads their types select, as the same sequence in the same order, and every byte is consumed. |
| RoundTrip.DecodeScalarEncoding | src/readable.rs:17-30 | Decoding a value's written bytes by the value's own type gives the value back, for every integer type and `bool`. |
| RoundTrip.EncodingsFrom | src/readable.rs:9-10 | The bytes that remain before reading value `i` start with that value's bytes and continue with the bytes of the values after it. |
| RoundTrip.EncodingsUpTo | src/writable.rs:9-16 | Writing value `i` after values 0 to i-1 gives the bytes of values 0 to i. |
| RoundTrip.WriteAll | src/writable.rs:9-16 | A loop of `write_to` calls appends the values' bytes in order after what the buffer already held. |
| RoundTrip.ReadAll | src/readable.rs:9-10 | A loop of `read_from` calls over bytes written for `xs` gives back `xs` and consumes every byte. |
| RoundTrip.IntReencode | src/readable.rs:17-28 | Reading an integer and writing it again gives the same bytes. |
| RoundTrip.BoolReencode | src/readable.rs:30 | Reading a bool byte and writing it again gives 0 or 1, and differs from every byte above 1. |
| Builder.Values | src/builder.rs:54-67 | Lists one value per node, with the outermost node's value last. |
| Builder.New | src/builder.rs:47-49 | `new(rw, value)` keeps both, adds one node, and adds the value at the end of the chain's values. |
| Builder.Push | src/builder.rs:5-14 | `self.$ty(val)` is `$Name::new(self, val)`, with the node named after the value's type. It keeps a chain valid. |
| Builder.PushBool | src/builder.rs:17 | `bool(b)` makes a `Bool` node over the chain that holds `b`. |
| Builder.PushChar | src/builder.rs:18 | `char(c)` makes a `Char` node over the chain that holds `c`. |
| Builder.PushInt | src/builder.rs:20-30 | `u8(x)` … `i128(x)` make the matching integer node over the chain. |
| Builder.PushAll | src/builder.rs:16-31 | Definition of a series of pushes, each on the chain the previous one returned. Stated by `Builder.PushAllValues`, `Builder.PushAllValid`, `Builder.PushAllAppend` and `Builder.Rebuild`. |
| Builder.PushAllValues | src/builder.rs:16-31 | A sequence of pushes adds one node per value and lists the values in push order. |
| Builder.Pushable | src/builder.rs:16-31 | Definition of the values a push method exists for: `bool`, `char` and the ten integer types, each in its type's range. Its meaning is stated by `Builder.ValidValues` and `Builder.PushAllValid`. |
| Builder.ValidValues | src/builder.rs:33-52 | A chain is valid exactly when every value in it is of a pushable type and in range. |
| Builder.PushAllValid | src/builder.rs:16-31 | Pushing only pushable values keeps a chain valid. |
| Builder.PushAllAppend | src/builder.rs:16-31 | Pushing xs and then ys is the same as pushing xs ++ ys. |
| Builder.Rebuild | src/builder.rs:33-52 | Every chain is rebuilt by pushing its values, in order, onto the root. |
| Builder.ValuesDetermineChain | src/builder.rs:33-52 | Two chains with the same values are the same chain. |
| Builder.ChainExample | src/builder.rs:17-29 | `u8(1).bool(true).i32(-5)` has three nodes, the `I32` node outermost, and its values in push order. |

## Left out

- SizeExamples.TestDynamicEnumUnit follows the code, not the test. A unit variant of an enum deriving `DataSize` counts 1 (datasize_macro/src/impl_data_sizes.rs:58-61), while tests/datasize_test.rs:73-77 expects 0.
- Proc-macro plumbing is not modelled: token streams, `syn` parsing, identifier generation, generics handling and `replace_type_syntax`. Only the arithmetic that the generated code performs is modelled.
- Rust specialisation, which chooses between the two `Option<T>` impls, is modelled as a dispatch on whether `T` has a static size.
- Float values are carried as raw bits. Only their widths (4 and 8) are used.
- `usize` is fixed at 8 bytes, as on 64-bit targets.
- Size sums are unbounded naturals. `usize` overflow of a sum is not modelled.
- `u128` and `i128` have no size impl in the source. The model's well-formedness rejects them in sized types.
- `Vec<T>`, `[T]` and `&[T]` share one type in the model, because they share one size rule.
- `&str` and `String` share one write method. `String` has no `DataSize` impl in the source, so none is modelled.
- Named and unnamed fields share one rule, because their generated sums are the same.
- `WriteError` and `ReadError` are not modelled. Every `write_to` and `read_from` here returns `Ok`, and the writers return `ok == true`.
- A `get_*` call panics when too few bytes remain. The readers require enough bytes instead of modelling the panic.
- `BufMut` is modelled as a growable buffer. Capacity panics of fixed-size buffers are not modelled.
- The `bytes` crate itself is not modelled. Its `put_*` and `get_*` are specified by the big-endian and two's-complement format in `Wire`.
- The derived `Readable` and `Writable` impls for user types are not part of this model, and neither is `ContextualReadable`. The traits in src/lib.rs are interface only.
- The builder's `Root` stands for the value that the first push is made on. The node structs in src/builder.rs do not implement `Rw` themselves. The model lets a push be made on any chain, as it can once a node type implements `Rw`, whose methods all have default bodies.
