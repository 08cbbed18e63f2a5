/**
 * `DataSize` and `StaticDataSize`: the byte footprint of a value when it is
 * written, per instance and per type. Rust picks an implementation by the
 * type of the value; here a type is a `Ty`, a value a `Value`, and the two
 * size functions dispatch on the type the way trait resolution does
 * (including the specialised `Option<T>` rule for statically sized `T`).
 */
module Sizes {
  import opened Primitives
  import opened DeriveSizes

  /** Which derive a user-defined struct or enum carries. */
  datatype DeriveKind = DeriveDataSize | DeriveStaticDataSize

  /** The types that have a size. `VecT` stands for `Vec<T>`, `[T]` and
      `&[T]`, which share their size rule; `StrT` for `&str`. */
  datatype Ty =
    | PrimT(prim: Prim)
    | VecT(elem: Ty)
    | StrT
    | OptionT(inner: Ty)
    | DerivedT(data: Data<Ty>, derive: DeriveKind)

  /** Values. A struct value lists its fields in declared order; an enum
      value names its active variant by index and lists that variant's
      fields. A string is its UTF-8 bytes. */
  datatype Value =
    | PrimV(scalar: Scalar)
    | SeqV(elems: seq<Value>)
    | StrV(utf8: seq<byte>)
    | NoneV
    | SomeV(some: Value)
    | StructV(fields: seq<Value>)
    | EnumV(variant: nat, fields: seq<Value>)

  /** True when `T: StaticDataSize`: a primitive of the `static_type_size!`
      list, an `Option` of such a type, or a type deriving `StaticDataSize`. */
  predicate HasStatic(t: Ty)
  {
    match t
    case PrimT(p) => HasSizeImpl(p)
    case OptionT(e) => HasStatic(e)
    case DerivedT(_, k) => k == DeriveStaticDataSize
    case _ => false
  }

  /** True when the size impls of `t` exist, which is what the Rust compiler
      checks: every primitive inside has a size impl, no union was derived,
      and a type deriving `StaticDataSize` has statically sized fields. */
  predicate WellFormed(t: Ty)
    decreases t
  {
    match t
    case PrimT(p) => HasSizeImpl(p)
    case VecT(e) => WellFormed(e)
    case StrT => true
    case OptionT(e) => WellFormed(e)
    case DerivedT(data, k) =>
      match data
      case Struct(fl) => fl.Valid() && TypesWellFormed(fl.items, k)
      case Enum(vs) => forall i :: 0 <= i < |vs| ==> vs[i].Valid() && TypesWellFormed(vs[i].items, k)
      case Union(_) => false
  }

  predicate TypesWellFormed(ts: seq<Ty>, k: DeriveKind)
    decreases ts
  {
    forall i :: 0 <= i < |ts| ==> WellFormed(ts[i]) && (k == DeriveStaticDataSize ==> HasStatic(ts[i]))
  }

  /** True when `v` is a value of type `t`. */
  predicate HasType(v: Value, t: Ty)
    decreases v
  {
    match t
    case PrimT(p) => v.PrimV? && PrimOf(v.scalar) == p && ValidScalar(v.scalar)
    case VecT(e) => v.SeqV? && forall i :: 0 <= i < |v.elems| ==> HasType(v.elems[i], e)
    case StrT => v.StrV?
    case OptionT(e) => v.NoneV? || (v.SomeV? && HasType(v.some, e))
    case DerivedT(data, _) =>
      match data
      case Struct(fl) => v.StructV? && FieldsHaveTypes(v.fields, fl.items)
      case Enum(vs) => v.EnumV? && v.variant < |vs| && FieldsHaveTypes(v.fields, vs[v.variant].items)
      case Union(_) => false
  }

  predicate FieldsHaveTypes(vs: seq<Value>, ts: seq<Ty>)
    decreases vs
  {
    |vs| == |ts| && forall i :: 0 <= i < |vs| ==> HasType(vs[i], ts[i])
  }

  /** `static_data_size()`: the size of every value of a statically sized
      type. An `Option<T>` takes `T`'s size (no tag byte); a struct adds its
      fields' static sizes; an enum takes its largest variant. */
  function StaticDataSize(t: Ty): nat
    requires WellFormed(t) && HasStatic(t)
    decreases t
  {
    match t
    case PrimT(p) => Width(p)
    case OptionT(e) => StaticDataSize(e)
    case DerivedT(data, _) =>
      match data
      case Struct(fl) => StructStaticDataSize(FieldsStatic(fl))
      case Enum(vs) =>
        EnumStaticDataSize(seq(|vs|, i requires 0 <= i < |vs| && TypesWellFormed(vs[i].items, DeriveStaticDataSize) => FieldsStatic(vs[i])))
  }

  /** The static sizes of a field list's types. */
  function FieldsStatic(fl: Fields<Ty>): (r: Fields<nat>)
    requires TypesWellFormed(fl.items, DeriveStaticDataSize)
    ensures r.style == fl.style && |r.items| == |fl.items|
    ensures forall i :: 0 <= i < |fl.items| ==> r.items[i] == StaticDataSize(fl.items[i])
    decreases fl
  {
    fl.Relabel(TypesStatic(fl.items))
  }

  function TypesStatic(ts: seq<Ty>): (r: seq<nat>)
    requires TypesWellFormed(ts, DeriveStaticDataSize)
    ensures |r| == |ts|
    ensures forall i :: 0 <= i < |ts| ==> r[i] == StaticDataSize(ts[i])
    decreases ts
  {
    seq(|ts|, i requires 0 <= i < |ts| => StaticDataSize(ts[i]))
  }

  /** `data_size()`: the size of one value. A primitive, a statically sized
      `Option` and a type deriving `StaticDataSize` return their static size;
      a sequence adds up its elements; a string counts its bytes; the
      generic `Option` rule is 0 for `None` and the payload's size for
      `Some`; a struct adds up its fields; an enum takes its active variant,
      where a unit variant counts 1. */
  function DataSize(v: Value, t: Ty): nat
    requires WellFormed(t) && HasType(v, t)
    decreases v
  {
    match t
    case PrimT(_) => StaticDataSize(t)
    case VecT(e) => Sum(ElemSizes(v.elems, e))
    case StrT => |v.utf8|
    case OptionT(e) =>
      if HasStatic(e) then StaticDataSize(t)
      else if v.NoneV? then 0
      else DataSize(v.some, e)
    case DerivedT(data, k) =>
      if k == DeriveStaticDataSize then StaticDataSize(t)
      else
        assert k == DeriveDataSize;
        match data
        case Struct(fl) => StructDataSize(fl.Relabel(FieldSizes(v.fields, fl.items)))
        case Enum(vs) =>
          var active := vs[v.variant];
          VariantDataSize(active.Relabel(FieldSizes(v.fields, active.items)))
  }

  /** `.map(|v| v.data_size())` over the elements of a sequence. */
  function ElemSizes(es: seq<Value>, e: Ty): (r: seq<nat>)
    requires WellFormed(e)
    requires forall i :: 0 <= i < |es| ==> HasType(es[i], e)
    ensures |r| == |es|
    ensures forall i :: 0 <= i < |es| ==> r[i] == DataSize(es[i], e)
    decreases es
  {
    seq(|es|, i requires 0 <= i < |es| => DataSize(es[i], e))
  }

  /** The instance sizes of a struct's or a variant's fields. */
  function FieldSizes(vs: seq<Value>, ts: seq<Ty>): (r: seq<nat>)
    requires FieldsHaveTypes(vs, ts) && TypesWellFormed(ts, DeriveDataSize)
    ensures |r| == |vs|
    ensures forall i :: 0 <= i < |vs| ==> r[i] == DataSize(vs[i], ts[i])
    decreases vs
  {
    seq(|vs|, i requires 0 <= i < |vs| => DataSize(vs[i], ts[i]))
  }

  /** The outcome of a derive: an impl for the type, or a compile-time panic. */
  datatype Derived = Impl(ty: Ty) | Panic(message: string)

  const UnionMessage := "Unions are used for C bindings, you probably don't need this trait for it"

  /** `impl_datasize` / `impl_static_data_size`: a struct or an enum gets the
      derived impl, a union makes the generator panic. */
  function Derive(data: Data<Ty>, k: DeriveKind): (r: Derived)
    ensures r.Panic? <==> data.Union?
    ensures r.Panic? ==> r.message == UnionMessage
    ensures r.Impl? ==> r.ty == DerivedT(data, k) && (HasStatic(r.ty) <==> k == DeriveStaticDataSize)
  {
    if data.Union? then Panic(UnionMessage) else Impl(DerivedT(data, k))
  }

  /** A well-formed derived type is never a union, so the derive that
      produced it succeeded; a derive that panics leaves no well-formed
      type. */
  lemma DeriveWellFormed(data: Data<Ty>, k: DeriveKind)
    ensures WellFormed(DerivedT(data, k)) ==> Derive(data, k) == Impl(DerivedT(data, k))
    ensures Derive(data, k).Panic? ==> !WellFormed(DerivedT(data, k))
  {
  }

  /** The `[T]` and `&[T]` impls: a loop adds each element's size to an
      accumulator; the result is the `Vec<T>` fold. */
  method SliceDataSize(elems: seq<Value>, e: Ty) returns (size: nat)
    requires WellFormed(e)
    requires forall i :: 0 <= i < |elems| ==> HasType(elems[i], e)
    ensures size == DataSize(SeqV(elems), VecT(e))
  {
    size := 0;
    for i := 0 to |elems|
      invariant size == Sum(ElemSizes(elems[..i], e))
    {
      var before, after := ElemSizes(elems[..i], e), ElemSizes(elems[..i + 1], e);
      assert after[..i] == before;
      size := size + after[i];
    }
    assert elems[..|elems|] == elems;
  }

  /** A type with a static size gives every one of its values that size:
      the primitives (`static_type_size!`), `Option<T>` of a statically sized
      `T`, and every type deriving `StaticDataSize`. */
  lemma StaticMatchesDynamic(v: Value, t: Ty)
    requires WellFormed(t) && HasStatic(t) && HasType(v, t)
    ensures DataSize(v, t) == StaticDataSize(t)
  {
  }

  /** A primitive's size is its fixed width, whatever the value. */
  lemma PrimitiveSize(s: Scalar)
    requires ValidScalar(s) && HasSizeImpl(PrimOf(s))
    ensures DataSize(PrimV(s), PrimT(PrimOf(s))) == StaticDataSize(PrimT(PrimOf(s))) == Width(PrimOf(s))
  {
  }

  /** The size of a sequence is additive: an empty one has size 0 and a
      concatenation has the sum of its parts' sizes. */
  lemma VecDataSizeConcat(xs: seq<Value>, ys: seq<Value>, e: Ty)
    requires WellFormed(e)
    requires forall i :: 0 <= i < |xs| ==> HasType(xs[i], e)
    requires forall i :: 0 <= i < |ys| ==> HasType(ys[i], e)
    ensures DataSize(SeqV([]), VecT(e)) == 0
    ensures DataSize(SeqV(xs + ys), VecT(e)) == DataSize(SeqV(xs), VecT(e)) + DataSize(SeqV(ys), VecT(e))
  {
    assert ElemSizes([], e) == [];
    assert ElemSizes(xs + ys, e) == ElemSizes(xs, e) + ElemSizes(ys, e);
    SumAppend(ElemSizes(xs, e), ElemSizes(ys, e));
  }

  /** A one-element sequence has its element's size; with
      `VecDataSizeConcat` this makes a sequence's size the sum of its
      elements' sizes. */
  lemma VecSingleton(x: Value, e: Ty)
    requires WellFormed(e) && HasType(x, e)
    ensures HasType(SeqV([x]), VecT(e))
    ensures DataSize(SeqV([x]), VecT(e)) == DataSize(x, e)
  {
    var n := ElemSizes([x], e);
    assert |n| == 1 && n[..0] == [] && n[0] == DataSize(x, e);
    assert Sum(n) == Sum(n[..0]) + n[0];
  }

  /** A sequence of n values of a statically sized type has n times that
      size. */
  lemma VecOfStatic(es: seq<Value>, e: Ty)
    requires WellFormed(e) && HasStatic(e)
    requires forall i :: 0 <= i < |es| ==> HasType(es[i], e)
    ensures DataSize(SeqV(es), VecT(e)) == |es| * StaticDataSize(e)
  {
    var sizes := ElemSizes(es, e);
    forall i | 0 <= i < |es|
      ensures sizes[i] == StaticDataSize(e)
    {
      StaticMatchesDynamic(es[i], e);
    }
    SumConstant(sizes, StaticDataSize(e));
  }

  /** `&str`: the size is the byte length. */
  lemma StrDataSize(utf8: seq<byte>)
    ensures DataSize(StrV(utf8), StrT) == |utf8|
  {
  }

  /** The generic `Option<T>` rule, for `T` without a static size: `None`
      is 0 and `Some(v)` is the size of `v`. */
  lemma OptionGenericRule(o: Value, e: Ty)
    requires WellFormed(e) && !HasStatic(e) && HasType(o, OptionT(e))
    ensures o.NoneV? ==> DataSize(o, OptionT(e)) == 0
    ensures o.SomeV? ==> DataSize(o, OptionT(e)) == DataSize(o.some, e)
  {
  }

  /** The specialised `Option<T>` rule, for statically sized `T`: `None` and
      `Some` both take `T`'s static size, which is also the static size of
      `Option<T>`; no tag byte is counted. */
  lemma OptionStaticRule(o: Value, e: Ty)
    requires WellFormed(e) && HasStatic(e) && HasType(o, OptionT(e))
    ensures DataSize(o, OptionT(e)) == StaticDataSize(OptionT(e)) == StaticDataSize(e)
  {
  }

  /** A struct with no fields, of any style (`struct S;`, `struct S {}`,
      `struct S();`), has size 0 under either derive. */
  lemma EmptyStruct(style: Style)
    ensures WellFormed(DerivedT(Struct(Fields(style, [])), DeriveDataSize))
    ensures HasType(StructV([]), DerivedT(Struct(Fields(style, [])), DeriveDataSize))
    ensures DataSize(StructV([]), DerivedT(Struct(Fields(style, [])), DeriveDataSize)) == 0
    ensures WellFormed(DerivedT(Struct(Fields(style, [])), DeriveStaticDataSize))
    ensures StaticDataSize(DerivedT(Struct(Fields(style, [])), DeriveStaticDataSize)) == 0
  {
  }

  /** A struct deriving `DataSize` adds up its fields: one more field adds
      that field's size; `EmptyStruct` gives the starting point. */
  lemma StructFieldAdds(fs: seq<Value>, x: Value, style: Style, ts: seq<Ty>, tx: Ty)
    requires style != Unit
    requires WellFormed(DerivedT(Struct(Fields(style, ts)), DeriveDataSize))
    requires HasType(StructV(fs), DerivedT(Struct(Fields(style, ts)), DeriveDataSize))
    requires WellFormed(tx) && HasType(x, tx)
    ensures WellFormed(DerivedT(Struct(Fields(style, ts + [tx])), DeriveDataSize))
    ensures HasType(StructV(fs + [x]), DerivedT(Struct(Fields(style, ts + [tx])), DeriveDataSize))
    ensures DataSize(StructV(fs + [x]), DerivedT(Struct(Fields(style, ts + [tx])), DeriveDataSize))
         == DataSize(StructV(fs), DerivedT(Struct(Fields(style, ts)), DeriveDataSize)) + DataSize(x, tx)
  {
    assert forall i :: 0 <= i < |ts| ==> (ts + [tx])[i] == ts[i];
    assert forall i :: 0 <= i < |fs| ==> (fs + [x])[i] == fs[i];
    var whole := FieldSizes(fs + [x], ts + [tx]);
    assert whole[..|whole| - 1] == FieldSizes(fs, ts);
  }

  /** A struct deriving `StaticDataSize` adds up its fields' static sizes:
      one more field adds that field's static size; `EmptyStruct` gives the
      starting point. */
  lemma StructStaticFieldAdds(style: Style, ts: seq<Ty>, tx: Ty)
    requires style != Unit
    requires WellFormed(DerivedT(Struct(Fields(style, ts)), DeriveStaticDataSize))
    requires WellFormed(tx) && HasStatic(tx)
    ensures WellFormed(DerivedT(Struct(Fields(style, ts + [tx])), DeriveStaticDataSize))
    ensures StaticDataSize(DerivedT(Struct(Fields(style, ts + [tx])), DeriveStaticDataSize))
         == StaticDataSize(DerivedT(Struct(Fields(style, ts)), DeriveStaticDataSize)) + StaticDataSize(tx)
  {
    assert forall i :: 0 <= i < |ts| ==> (ts + [tx])[i] == ts[i];
    var whole := TypesStatic(ts + [tx]);
    assert whole[..|whole| - 1] == TypesStatic(ts);
  }

  /** An enum deriving `DataSize` takes the size of its active variant only:
      1 for a unit variant, otherwise the size of a struct with that
      variant's fields. */
  lemma EnumActiveVariant(i: nat, fs: seq<Value>, vs: seq<Fields<Ty>>)
    requires WellFormed(DerivedT(Enum(vs), DeriveDataSize))
    requires HasType(EnumV(i, fs), DerivedT(Enum(vs), DeriveDataSize))
    ensures vs[i].style == Unit ==> DataSize(EnumV(i, fs), DerivedT(Enum(vs), DeriveDataSize)) == 1
    ensures vs[i].style != Unit ==>
      && WellFormed(DerivedT(Struct(vs[i]), DeriveDataSize))
      && HasType(StructV(fs), DerivedT(Struct(vs[i]), DeriveDataSize))
      && DataSize(EnumV(i, fs), DerivedT(Enum(vs), DeriveDataSize))
         == DataSize(StructV(fs), DerivedT(Struct(vs[i]), DeriveDataSize))
  {
  }

  /** An enum deriving `StaticDataSize` is as large as its largest variant,
      where a variant counts as a struct of its fields (a unit variant as 0):
      no smaller than any variant, equal to one of them, 0 without variants. */
  lemma EnumStaticIsLargestVariant(vs: seq<Fields<Ty>>)
    requires WellFormed(DerivedT(Enum(vs), DeriveStaticDataSize))
    ensures forall i :: 0 <= i < |vs| ==>
      && WellFormed(DerivedT(Struct(vs[i]), DeriveStaticDataSize))
      && StaticDataSize(DerivedT(Struct(vs[i]), DeriveStaticDataSize)) <= StaticDataSize(DerivedT(Enum(vs), DeriveStaticDataSize))
    ensures vs == [] ==> StaticDataSize(DerivedT(Enum(vs), DeriveStaticDataSize)) == 0
    ensures vs != [] ==> exists i :: (0 <= i < |vs|
      && WellFormed(DerivedT(Struct(vs[i]), DeriveStaticDataSize))
      && StaticDataSize(DerivedT(Struct(vs[i]), DeriveStaticDataSize)) == StaticDataSize(DerivedT(Enum(vs), DeriveStaticDataSize)))
  {
    var sv := seq(|vs|, i requires 0 <= i < |vs| && TypesWellFormed(vs[i].items, DeriveStaticDataSize) => FieldsStatic(vs[i]));
    forall i | 0 <= i < |vs|
      ensures WellFormed(DerivedT(Struct(vs[i]), DeriveStaticDataSize))
      ensures StaticDataSize(DerivedT(Struct(vs[i]), DeriveStaticDataSize)) == VariantStaticSize(sv[i])
    {
    }
    if vs != [] {
      var i :| 0 <= i < |sv| && EnumStaticDataSize(sv) == VariantStaticSize(sv[i]);
      assert StaticDataSize(DerivedT(Struct(vs[i]), DeriveStaticDataSize)) == StaticDataSize(DerivedT(Enum(vs), DeriveStaticDataSize));
    }
  }

  /** The static size of an enum does not depend on the order of its variants. */
  lemma EnumStaticReorder(vs: seq<Fields<Ty>>, ws: seq<Fields<Ty>>)
    requires multiset(vs) == multiset(ws)
    requires WellFormed(DerivedT(Enum(vs), DeriveStaticDataSize))
    requires WellFormed(DerivedT(Enum(ws), DeriveStaticDataSize))
    ensures StaticDataSize(DerivedT(Enum(vs), DeriveStaticDataSize)) == StaticDataSize(DerivedT(Enum(ws), DeriveStaticDataSize))
  {
    EnumStaticIsLargestVariant(vs);
    EnumStaticIsLargestVariant(ws);
    if vs != [] {
      var i :| 0 <= i < |vs| && StaticDataSize(DerivedT(Struct(vs[i]), DeriveStaticDataSize)) == StaticDataSize(DerivedT(Enum(vs), DeriveStaticDataSize));
      assert vs[i] in multiset(ws);
      var i' :| 0 <= i' < |ws| && ws[i'] == vs[i];
      var j :| 0 <= j < |ws| && StaticDataSize(DerivedT(Struct(ws[j]), DeriveStaticDataSize)) == StaticDataSize(DerivedT(Enum(ws), DeriveStaticDataSize));
      assert ws[j] in multiset(vs);
      var j' :| 0 <= j' < |vs| && vs[j'] == ws[j];
    } else {
      assert |ws| == |multiset(ws)| == 0;
    }
  }
}
