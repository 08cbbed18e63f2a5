/**
 * The size arithmetic that the `DataSize` and `StaticDataSize` derive macros
 * emit for structs and enums. The field lists carry, in place of the
 * field types, the sizes the generated code adds up: the instance sizes
 * (`field.data_size()`) for `DataSize`, the static sizes
 * (`<Field>::static_data_size()`) for `StaticDataSize`.
 */
module DeriveSizes {

  /** How the fields of a struct or of an enum variant are written: with
      names (`{ a: A }`), by position (`(A, B)`), or not at all (a unit). */
  datatype Style = Named | Unnamed | Unit

  /** The fields of a struct or of an enum variant, in declared order. A
      unit has no fields. */
  datatype Fields<T> = Fields(style: Style, items: seq<T>)
  {
    predicate Valid()
    {
      style == Unit ==> items == []
    }

    /** The same fields with other items in place of these. */
    function Relabel<U>(xs: seq<U>): (r: Fields<U>)
      requires |xs| == |items|
      ensures r.style == style && r.items == xs
    {
      Fields(style, xs)
    }
  }

  /** The shape of a type given to a derive macro. */
  datatype Data<T> =
    | Struct(fields: Fields<T>)
    | Enum(variants: seq<Fields<T>>)
    | Union(members: seq<T>)

  /** `0usize + x0 + x1 + …`, added from the left. */
  function Sum(xs: seq<nat>): nat
  {
    if xs == [] then 0 else Sum(xs[..|xs| - 1]) + xs[|xs| - 1]
  }

  /** The fold `max(max(max(0, x0), x1), …)` of the static enum size. */
  function MaxFold(xs: seq<nat>): (m: nat)
    ensures forall i :: 0 <= i < |xs| ==> xs[i] <= m
    ensures xs == [] ==> m == 0
    ensures xs != [] ==> m in xs
  {
    if xs == [] then 0
    else
      var m' := MaxFold(xs[..|xs| - 1]);
      if m' < xs[|xs| - 1] then xs[|xs| - 1] else m'
  }

  /** The instance size of a struct from its fields' instance sizes. */
  function StructDataSize(fields: Fields<nat>): nat
  {
    if fields.style == Unit then 0 else Sum(fields.items)
  }

  /** The match arm of an enum's instance size for the active variant, from
      that variant's fields' instance sizes: a unit variant counts 1. */
  function VariantDataSize(active: Fields<nat>): nat
  {
    if active.style == Unit then 1 else Sum(active.items)
  }

  /** One variant's term of the static enum size: its fields' static sizes
      added up (none, so 0, for a unit variant). */
  function VariantStaticSize(variant: Fields<nat>): nat
  {
    Sum(variant.items)
  }

  /** Each variant's static size, in declared order. */
  function VariantStaticSizes(variants: seq<Fields<nat>>): (r: seq<nat>)
    ensures |r| == |variants|
    ensures forall i :: 0 <= i < |r| ==> r[i] == VariantStaticSize(variants[i])
  {
    seq(|variants|, i requires 0 <= i < |variants| => VariantStaticSize(variants[i]))
  }

  /** The static size of an enum: the largest variant, no discriminant. */
  function EnumStaticDataSize(variants: seq<Fields<nat>>): (n: nat)
    ensures forall i :: 0 <= i < |variants| ==> VariantStaticSize(variants[i]) <= n
    ensures variants == [] ==> n == 0
    ensures variants != [] ==> exists i :: 0 <= i < |variants| && n == VariantStaticSize(variants[i])
  {
    var sums := VariantStaticSizes(variants);
    var n := MaxFold(sums);
    assert variants != [] ==> exists i :: 0 <= i < |sums| && sums[i] == n;
    n
  }

  /** The static size of a struct: its fields' static sizes added up. */
  function StructStaticDataSize(fields: Fields<nat>): nat
  {
    Sum(fields.items)
  }

  /** Adding up a concatenation adds up the parts. */
  lemma {:induction false} SumAppend(xs: seq<nat>, ys: seq<nat>)
    ensures Sum(xs + ys) == Sum(xs) + Sum(ys)
    decreases |ys|
  {
    if ys == [] {
      assert xs + ys == xs;
    } else {
      var last := |ys| - 1;
      assert (xs + ys)[..|xs + ys| - 1] == xs + ys[..last];
      SumAppend(xs, ys[..last]);
    }
  }

  /** A sum of n copies of w is n * w. */
  lemma {:induction false} SumConstant(xs: seq<nat>, w: nat)
    requires forall i :: 0 <= i < |xs| ==> xs[i] == w
    ensures Sum(xs) == |xs| * w
    decreases |xs|
  {
    if xs != [] {
      SumConstant(xs[..|xs| - 1], w);
    }
  }
}
