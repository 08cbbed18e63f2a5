/**
 * The field-chain builder: each push method of `Rw` takes the chain so far
 * by value and wraps it in a new node holding the pushed value, so the most
 * recently pushed field is the outermost node. The chain is a cons-list
 * nested to the right; `Root` stands for the value the first push is made
 * on, which is not part of this model's source.
 */
module Builder {
  import opened Primitives

  /** A node is `$Name { rw, value }`; its name is the primitive type of
      `value` (`Bool`, `Char`, `U8` … `I128`). */
  datatype Chain = Root | Node(rw: Chain, value: Scalar)

  /** The primitives with a push method: `bool`, `char` and the ten integer
      types, with values in range. */
  predicate Pushable(s: Scalar)
  {
    (s.BoolV? || s.CharV? || s.IntV?) && ValidScalar(s)
  }

  /** Every node holds a pushable value. */
  predicate Valid(c: Chain)
  {
    c.Node? ==> Pushable(c.value) && Valid(c.rw)
  }

  /** The node struct's name, `$Name`, of an outermost node. */
  function NodeName(c: Chain): Prim
    requires c.Node?
  {
    PrimOf(c.value)
  }

  /** The number of nodes. */
  function Depth(c: Chain): nat
  {
    if c.Root? then 0 else Depth(c.rw) + 1
  }

  /** The values of a chain, innermost (first pushed) first. */
  function Values(c: Chain): (vs: seq<Scalar>)
    ensures |vs| == Depth(c)
    ensures c.Node? ==> vs[|vs| - 1] == c.value
  {
    if c.Root? then [] else Values(c.rw) + [c.value]
  }

  /** `$Name::new(rw, value)`: a node over the previous chain, holding the
      value, both unchanged. */
  function New(rw: Chain, value: Scalar): (r: Chain)
    ensures r.Node? && r.rw == rw && r.value == value
    ensures Depth(r) == Depth(rw) + 1
    ensures Values(r) == Values(rw) + [value]
  {
    Node(rw, value)
  }

  /** The `fnd!` push methods: `self.$ty(val)` is `$Name::new(self, val)`,
      the node named after the value's type. */
  function Push(self: Chain, val: Scalar): (r: Chain)
    requires Pushable(val)
    ensures r == New(self, val) && NodeName(r) == PrimOf(val)
    ensures Valid(self) ==> Valid(r)
  {
    New(self, val)
  }

  /** `self.bool(b)` makes a `Bool` node. */
  function PushBool(self: Chain, b: bool): (r: Chain)
    ensures r.Node? && r.rw == self && NodeName(r) == Bool && r.value == BoolV(b)
  {
    Push(self, BoolV(b))
  }

  /** `self.char(c)` makes a `Char` node. */
  function PushChar(self: Chain, c: char): (r: Chain)
    ensures r.Node? && r.rw == self && NodeName(r) == Char && r.value == CharV(c)
  {
    Push(self, CharV(c))
  }

  /** `self.u8(x)` … `self.i128(x)` make a `U8` … `I128` node. */
  function PushInt(self: Chain, k: IntKind, x: int): (r: Chain)
    requires InRange(k, x)
    ensures r.Node? && r.rw == self && NodeName(r) == Int(k) && r.value == IntV(k, x)
  {
    Push(self, IntV(k, x))
  }

  /** Pushing several values in order, each one on the chain the previous
      push returned. */
  function PushAll(c: Chain, vs: seq<Scalar>): Chain
    decreases |vs|
  {
    if vs == [] then c else PushAll(New(c, vs[0]), vs[1..])
  }

  /** Each push adds one node, and flattening innermost-first lists the
      values in the order they were pushed. */
  lemma {:induction false} PushAllValues(c: Chain, vs: seq<Scalar>)
    ensures Values(PushAll(c, vs)) == Values(c) + vs
    ensures Depth(PushAll(c, vs)) == Depth(c) + |vs|
    decreases |vs|
  {
    if vs != [] {
      PushAllValues(Node(c, vs[0]), vs[1..]);
      assert Values(c) + [vs[0]] + vs[1..] == Values(c) + vs;
    }
  }

  /** A chain is valid exactly when every value in it is pushable. */
  lemma {:induction false} ValidValues(c: Chain)
    ensures Valid(c) <==> forall i :: 0 <= i < |Values(c)| ==> Pushable(Values(c)[i])
  {
    if c.Node? {
      ValidValues(c.rw);
      assert Valid(c.rw) ==> forall j :: 0 <= j < |Values(c.rw)| ==> Pushable(Values(c.rw)[j]);
      var vs, all := Values(c.rw), Values(c);
      assert all == vs + [c.value];
      assert forall i :: 0 <= i < |vs| ==> all[i] == vs[i];
      if forall i :: 0 <= i < |all| ==> Pushable(all[i]) {
        assert all[|vs|] == c.value;
        assert forall i :: 0 <= i < |vs| ==> Pushable(vs[i]) by {
          forall i | 0 <= i < |vs| ensures Pushable(vs[i]) {
            assert all[i] == vs[i];
          }
        }
      } else {
        var i :| 0 <= i < |all| && !Pushable(all[i]);
        if i < |vs| {
          assert all[i] == vs[i];
        } else {
          assert all[i] == c.value;
        }
      }
    } else {
      assert Values(c) == [];
    }
  }

  /** Pushing only pushable values keeps a chain valid. */
  lemma {:induction false} PushAllValid(c: Chain, vs: seq<Scalar>)
    requires forall i :: 0 <= i < |vs| ==> Pushable(vs[i])
    requires Valid(c)
    ensures Valid(PushAll(c, vs))
    decreases |vs|
  {
    if vs != [] {
      assert Pushable(vs[0]);
      PushAllValid(Push(c, vs[0]), vs[1..]);
    }
  }

  /** Pushing a concatenation is pushing one part after the other. */
  lemma {:induction false} PushAllAppend(c: Chain, xs: seq<Scalar>, ys: seq<Scalar>)
    ensures PushAll(c, xs + ys) == PushAll(PushAll(c, xs), ys)
    decreases |xs|
  {
    if xs != [] {
      assert (xs + ys)[0] == xs[0] && (xs + ys)[1..] == xs[1..] + ys;
      PushAllAppend(New(c, xs[0]), xs[1..], ys);
    } else {
      assert xs + ys == ys;
    }
  }

  /** Every chain is built by pushing its values, in order, on the root. */
  lemma {:induction false} Rebuild(c: Chain)
    ensures PushAll(Root, Values(c)) == c
  {
    if c.Node? {
      Rebuild(c.rw);
      var vs := Values(c.rw);
      assert Values(c) == vs + [c.value];
      PushAllAppend(Root, vs, [c.value]);
      assert PushAll(c.rw, [c.value]) == PushAll(New(c.rw, c.value), []);
    }
  }

  /** So a chain is determined by its values: two chains with the same values
      are the same chain. */
  lemma ValuesDetermineChain(c: Chain, d: Chain)
    requires Values(c) == Values(d)
    ensures c == d
  {
    Rebuild(c);
    Rebuild(d);
  }

  /** `u8(1).bool(true).i32(-5)` on the root: three nodes, the `I32` node
      outermost, the values in push order. */
  lemma ChainExample()
    ensures var c := PushInt(PushBool(PushInt(Root, U8, 1), true), I32, -5);
      && Depth(c) == 3
      && NodeName(c) == Int(I32) && NodeName(c.rw) == Bool && NodeName(c.rw.rw) == Int(U8)
      && Values(c) == [IntV(U8, 1), BoolV(true), IntV(I32, -5)]
  {
  }
}
