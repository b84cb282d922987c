/** Decoding what the encoder wrote. */
module CodecRoundTrip {
  import opened CodecModel

  // ---------- values of a described type ----------

  /** The values that the C++ type can hold. */
  predicate Fits(k: Kind, c: Cell) {
    match k
    case Bool => c.Flag?
    case Int8 => c.Num? && -128 <= c.n < 128
    case Int16 => c.Num? && -0x8000 <= c.n < 0x8000
    case Int32 => c.Num? && -TWO31 <= c.n < TWO31
    case Int64 => c.Num? && -TWO63 <= c.n < TWO63
    case UInt8 => c.Num? && 0 <= c.n < 256
    case UInt16 => c.Num? && 0 <= c.n < 0x1_0000
    case UInt32 => c.Num? && 0 <= c.n < TWO32
    case UInt64 => c.Num? && 0 <= c.n < 2 * TWO63
    case Float => c.Bits?
    case Double => c.Bits?
    case String => c.Text?
  }

  /** `v` is a value of the type that `t` describes. A string that is not in an
      array has no NUL. */
  predicate ValueOf(t: Node, v: Node)
    decreases v, 1
  {
    match t
    case Leaf(name, k, _) =>
      v.Leaf? && v.name == name && v.kind == k && Fits(k, v.value) && (k.String? ==> '\0' !in v.value.s)
    case Complex(name, children) =>
      v.Complex? && v.name == name && ValuesOf(children, v.children)
    case Arr(name, proto, _) =>
      v.Arr? && v.name == name && v.proto == proto && forall i :: 0 <= i < |v.items| ==> ItemOf(proto, v.items[i])
  }

  predicate ValuesOf(ts: seq<Node>, vs: seq<Node>)
    decreases vs, 0
  {
    |ts| == |vs| && forall i :: 0 <= i < |vs| ==> ValueOf(ts[i], vs[i])
  }

  predicate ItemOf(proto: Node, v: Node)
    decreases v, 2
  {
    if proto.Leaf? then v.Leaf? && v.name == proto.name && v.kind == proto.kind && Fits(v.kind, v.value)
    else ValueOf(proto, v)
  }

  /** What decoding `v` into `t` is meant to give: leaves replaced, and the
      elements of arrays appended to those that `t` has. */
  function Appended(t: Node, v: Node): Node
    requires ValueOf(t, v)
    decreases v, 1
  {
    match t
    case Leaf(_, _, _) => v
    case Complex(_, children) => t.(children := AllAppended(children, v.children))
    case Arr(_, _, items) => v.(items := items + v.items)
  }

  function AllAppended(ts: seq<Node>, vs: seq<Node>): (r: seq<Node>)
    requires ValuesOf(ts, vs)
    ensures |r| == |vs| && forall i :: 0 <= i < |vs| ==> r[i] == Appended(ts[i], vs[i])
    decreases vs, 0
  {
    seq(|vs|, i requires 0 <= i < |vs| => Appended(ts[i], vs[i]))
  }

  /** A freshly constructed target: its arrays are empty. */
  predicate Blank(t: Node) {
    match t
    case Leaf(_, _, _) => true
    case Complex(_, children) => forall i :: 0 <= i < |children| ==> Blank(children[i])
    case Arr(_, _, items) => items == []
  }

  /** New elements of every array in `t`, at any depth, are blank. */
  predicate NewElementsBlank(t: Node) {
    match t
    case Leaf(_, _, _) => true
    case Complex(_, children) => forall i :: 0 <= i < |children| ==> NewElementsBlank(children[i])
    case Arr(_, proto, _) => Blank(proto) && NewElementsBlank(proto)
  }

  /** The values that come back as they were. A 64-bit unsigned scalar must fit in
      32 bits. Of an array of 64-bit signed integers, the first must fit in 32
      bits and the others must all be its sign extension. A string in an array
      must have no NUL. */
  predicate Survives(v: Node) {
    match v
    case Leaf(_, k, c) => k.UInt64? && c.Num? ==> c.n < TWO32
    case Complex(_, children) => forall i :: 0 <= i < |children| ==> Survives(children[i])
    case Arr(_, proto, items) =>
      if !proto.Leaf? then forall i :: 0 <= i < |items| ==> Survives(items[i])
      else forall i :: 0 <= i < |items| ==> PrimitiveSurvives(proto.kind, items, i)
  }

  /** ... for one element of an array of primitives. */
  predicate PrimitiveSurvives(k: Kind, items: seq<Node>, i: nat)
    requires i < |items|
  {
    items[0].Leaf? && items[i].Leaf? &&
    var first, c := items[0].value, items[i].value;
    match k
    case Int64 =>
      first.Num? && c.Num?
      && (if i == 0 then -TWO31 <= c.n < TWO31 else c.n == if first.n < 0 then -1 else 0)
    case String => c.Text? && '\0' !in c.s
    case _ => true
  }

  // ---------- what decoding an encoded value gives ----------

  /** The decoded form of the encoding of `v`, in a target `t`. */
  function Merge(t: Node, v: Node): Node
    requires ValueOf(t, v)
    decreases v, 1
  {
    match t
    case Leaf(_, k, _) => v.(value := LoadScalar(k, StoreScalar(k, v.value)))
    case Complex(_, children) => t.(children := MergeAll(children, v.children))
    case Arr(_, proto, items) => v.(items := items + MergeItems(proto, v.items))
  }

  function MergeAll(ts: seq<Node>, vs: seq<Node>): (r: seq<Node>)
    requires ValuesOf(ts, vs)
    ensures |r| == |vs| && forall i :: 0 <= i < |vs| ==> r[i] == Merge(ts[i], vs[i])
    decreases vs, 0
  {
    seq(|vs|, i requires 0 <= i < |vs| => Merge(ts[i], vs[i]))
  }

  function MergeItems(proto: Node, vs: seq<Node>): (r: seq<Node>)
    requires forall i :: 0 <= i < |vs| ==> ItemOf(proto, vs[i])
    ensures |r| == |vs| && forall i :: 0 <= i < |vs| ==> r[i] == MergeItem(proto, vs, i)
    decreases vs, 1
  {
    seq(|vs|, i requires 0 <= i < |vs| => MergeItem(proto, vs, i))
  }

  function MergeItem(proto: Node, vs: seq<Node>, i: nat): Node
    requires i < |vs| && ItemOf(proto, vs[i])
    decreases vs, 0
  {
    if proto.Leaf? then proto.(value := LoadElement(proto.kind, EncodeItems(vs), i)) else Merge(proto, vs[i])
  }

  lemma {:induction false} EncodedItem(vs: seq<Node>, i: nat)
    requires i < |vs|
    ensures EncodeItems(vs)[i] == EncodeItem(vs[i])
  {
    if i < |vs| - 1 {
      EncodedItem(vs[..|vs| - 1], i);
    }
  }

  /** Wherever the encoding of `v` stands in a list, the decoder reads it from
      there and stops behind it. */
  lemma {:induction false} DecodeEncoded(t: Node, v: Node, pre: seq<Variant>, post: seq<Variant>)
    requires ValueOf(t, v)
    ensures Decode(t, pre + Encode(v) + post, |pre|) == Good((Merge(t, v), |pre| + |Encode(v)|))
    decreases v, 1
  {
    var vs := pre + Encode(v) + post;
    match t
    case Leaf(_, k, _) =>
      assert vs[|pre|] == Encode(v)[0];
    case Complex(_, children) =>
      DecodeAllEncoded(children, v.children, pre, post);
    case Arr(_, proto, _) =>
      assert vs[|pre|] == Encode(v)[0];
      DecodeArrayEncoded(t, v);
  }

  lemma {:induction false} DecodeAllEncoded(ts: seq<Node>, ns: seq<Node>, pre: seq<Variant>, post: seq<Variant>)
    requires ValuesOf(ts, ns)
    ensures DecodeAll(ts, pre + EncodeAll(ns) + post, |pre|) == Good((MergeAll(ts, ns), |pre| + |EncodeAll(ns)|))
    decreases ns, 0
  {
    if ns == [] {
      assert MergeAll(ts, ns) == [];
    } else {
      var n := |ns| - 1;
      var a, b := EncodeAll(ns[..n]), Encode(ns[n]);
      MergeAllSnoc(ts, ns);
      EncodedSplit(pre, a, b, post);
      DecodeAllEncoded(ts[..n], ns[..n], pre, b + post);
      DecodeEncoded(ts[n], ns[n], pre + a, post);
      EncodeAllSnoc(ns);
      DecodeAllSnoc(ts, pre + (a + b) + post, |pre|);
    }
  }

  lemma EncodeAllSnoc(ns: seq<Node>)
    requires ns != []
    ensures EncodeAll(ns) == EncodeAll(ns[..|ns| - 1]) + Encode(ns[|ns| - 1])
  {
  }

  lemma EncodedSplit(pre: seq<Variant>, a: seq<Variant>, b: seq<Variant>, post: seq<Variant>)
    ensures pre + (a + b) + post == pre + a + (b + post) == (pre + a) + b + post
  {
  }

  lemma MergeAllSnoc(ts: seq<Node>, ns: seq<Node>)
    requires ValuesOf(ts, ns) && ns != []
    ensures var n := |ns| - 1;
      ValuesOf(ts[..n], ns[..n]) && ValueOf(ts[n], ns[n])
      && MergeAll(ts, ns) == MergeAll(ts[..n], ns[..n]) + [Merge(ts[n], ns[n])]
  {
    assert ValueOf(ts[|ns| - 1], ns[|ns| - 1]);
  }

  lemma DecodeAllSnoc(ts: seq<Node>, vs: seq<Variant>, pos: nat)
    requires ts != [] && DecodeAll(ts[..|ts| - 1], vs, pos).Good?
    requires Decode(ts[|ts| - 1], vs, DecodeAll(ts[..|ts| - 1], vs, pos).value.1).Good?
    ensures var (front, mid) := DecodeAll(ts[..|ts| - 1], vs, pos).value;
      var (last, next) := Decode(ts[|ts| - 1], vs, mid).value;
      DecodeAll(ts, vs, pos) == Good((front + [last], next))
  {
  }

  lemma {:induction false} DecodeArrayEncoded(t: Node, v: Node)
    requires t.Arr? && ValueOf(t, v)
    ensures DecodeArray(t, EncodeArray(v.proto, v.items)) == Good(Merge(t, v))
    decreases v, 0
  {
    DecodeItemsEncoded(t.proto, v.items, |v.items|);
    assert MergeItems(t.proto, v.items)[..|v.items|] == MergeItems(t.proto, v.items);
  }

  lemma {:induction false} DecodeItemsEncoded(proto: Node, vs: seq<Node>, count: nat)
    requires count <= |vs| && forall i :: 0 <= i < |vs| ==> ItemOf(proto, vs[i])
    ensures DecodeItems(proto, EncodeArray(proto, vs), count) == Good(MergeItems(proto, vs)[..count])
    decreases vs, 2, count
  {
    if count > 0 {
      DecodeItemsEncoded(proto, vs, count - 1);
      DecodeItemEncoded(proto, vs, count - 1);
      var r := MergeItems(proto, vs);
      assert r[..count] == r[..count - 1] + [r[count - 1]];
    } else {
      assert MergeItems(proto, vs)[..count] == [];
    }
  }

  lemma {:induction false} DecodeItemEncoded(proto: Node, vs: seq<Node>, i: nat)
    requires i < |vs| && forall j :: 0 <= j < |vs| ==> ItemOf(proto, vs[j])
    ensures DecodeItem(proto, EncodeArray(proto, vs), i) == Good(MergeItems(proto, vs)[i])
    decreases vs, 1
  {
    assert ItemOf(proto, vs[i]);
    EncodedItem(vs, i);
    match proto
    case Leaf(_, k, _) =>
      ReadTypesAgree(k);
    case Complex(_, _) =>
      assert ItemOf(proto, vs[0]);
      EncodedItem(vs, 0);
      DecodeNested(proto, vs, i);
    case Arr(_, _, _) =>
      DecodeArrayEncoded(proto, vs[i]);
  }

  lemma ReadTypesAgree(k: Kind)
    ensures ElementReadType(k) == ElementType(Leaf("", k, Num(0)))
    ensures ScalarReadType(k) == ScalarType(k)
  {
    match k
    case _ =>
  }

  lemma {:induction false} DecodeNested(proto: Node, vs: seq<Node>, i: nat)
    requires i < |vs| && proto.Complex? && ValueOf(proto, vs[0]) && ValueOf(proto, vs[i])
    requires EncodeItems(vs)[0] == EncodeItem(vs[0]) && EncodeItems(vs)[i] == EncodeItem(vs[i])
    ensures DecodeItem(proto, EncodeArray(proto, vs), i) == Good(Merge(proto, vs[i]))
    decreases vs, 0
  {
    var v := EncodeArray(proto, vs);
    var inner := Encode(vs[i]);
    assert Unwrap(Wrap(inner)) == inner;
    assert InnerVariants(v, i) == Good(inner);
    DecodeEncoded(proto, vs[i], [], []);
    assert [] + inner + [] == inner;
  }

  // ---------- when the value comes back ----------

  /** What comes back is the value itself exactly when it survives. */
  lemma {:induction false} MergeExact(t: Node, v: Node)
    requires ValueOf(t, v) && NewElementsBlank(t)
    ensures Merge(t, v) == Appended(t, v) <==> Survives(v)
    decreases v, 1
  {
    match t
    case Leaf(_, k, _) => ScalarExact(k, v.value);
    case Complex(_, children) =>
      forall i | 0 <= i < |v.children|
        ensures MergeAll(children, v.children)[i] == AllAppended(children, v.children)[i] <==> Survives(v.children[i])
      {
        MergeExact(children[i], v.children[i]);
      }
      assert MergeAll(children, v.children) == AllAppended(children, v.children)
        <==> forall i :: 0 <= i < |v.children| ==> Survives(v.children[i]);
    case Arr(_, proto, items) =>
      var merged := MergeItems(proto, v.items);
      assert (items + merged)[|items|..] == merged && (items + v.items)[|items|..] == v.items;
      if proto.Leaf? {
        LeafItemsExact(proto, v.items);
      } else {
        ItemsExact(proto, v.items);
      }
  }

  lemma ScalarExact(k: Kind, c: Cell)
    requires Fits(k, c)
    ensures LoadScalar(k, StoreScalar(k, c)) == c <==> (k.UInt64? && c.Num? ==> c.n < TWO32)
  {
    match k
    case _ =>
  }

  lemma {:induction false} ItemsExact(proto: Node, vs: seq<Node>)
    requires !proto.Leaf? && Blank(proto) && NewElementsBlank(proto)
    requires forall i :: 0 <= i < |vs| ==> ItemOf(proto, vs[i])
    ensures MergeItems(proto, vs) == vs <==> forall i :: 0 <= i < |vs| ==> Survives(vs[i])
    decreases vs, 0
  {
    forall i | 0 <= i < |vs| ensures MergeItems(proto, vs)[i] == vs[i] <==> Survives(vs[i]) {
      assert ItemOf(proto, vs[i]);
      BlankItem(proto, vs[i]);
      MergeExact(proto, vs[i]);
    }
    assert MergeItems(proto, vs) == vs <==> forall i :: 0 <= i < |vs| ==> MergeItems(proto, vs)[i] == vs[i];
  }

  /** An array of primitives comes back when each of its elements does. */
  lemma {:induction false} LeafItemsExact(proto: Node, vs: seq<Node>)
    requires proto.Leaf? && forall i :: 0 <= i < |vs| ==> ItemOf(proto, vs[i])
    ensures MergeItems(proto, vs) == vs
      <==> forall i :: 0 <= i < |vs| ==> PrimitiveSurvives(proto.kind, vs, i)
  {
    if forall i :: 0 <= i < |vs| ==> PrimitiveSurvives(proto.kind, vs, i) {
      forall i | 0 <= i < |vs| ensures MergeItems(proto, vs)[i] == vs[i] {
        ElementExact(proto, vs, i);
      }
      assert MergeItems(proto, vs) == vs;
    }
    if MergeItems(proto, vs) == vs {
      forall i | 0 <= i < |vs| ensures PrimitiveSurvives(proto.kind, vs, i) {
        SurvivedElement(proto, vs, i);
      }
    }
  }

  /** A stored element, read back. */
  lemma ElementExact(proto: Node, vs: seq<Node>, i: nat)
    requires proto.Leaf? && i < |vs| && forall j :: 0 <= j < |vs| ==> ItemOf(proto, vs[j])
    requires PrimitiveSurvives(proto.kind, vs, i)
    requires PrimitiveSurvives(proto.kind, vs, i / 2) && PrimitiveSurvives(proto.kind, vs, 0)
    ensures LoadElement(proto.kind, EncodeItems(vs), i) == vs[i].value
  {
    EncodedItem(vs, i);
    EncodedItem(vs, i / 2);
    assert ItemOf(proto, vs[i]) && ItemOf(proto, vs[i / 2]) && ItemOf(proto, vs[0]);
    if proto.kind.Int64? {
      HalfExact(vs[0].value.n, vs[i / 2].value.n, vs[i].value.n, i);
    } else {
      CellExact(proto.kind, vs[i].value);
    }
  }

  lemma HalfExact(first: int, half: int, n: int, i: nat)
    requires -TWO31 <= first < TWO31
    requires half == if i / 2 == 0 then first else if first < 0 then -1 else 0
    requires n == if i == 0 then first else if first < 0 then -1 else 0
    ensures n == if i % 2 == 0 then LowHalf(half) else HighHalf(half)
  {
    if i == 0 {
    } else if i == 1 {
    } else {
      assert i / 2 > 0;
    }
  }

  lemma CellExact(k: Kind, c: Cell)
    requires !k.Int64? && Fits(k, c) && (k.String? ==> '\0' !in c.s)
    ensures (if k == Int8 then FromByte(StoreElement(k, c)) else StoreElement(k, c)) == c
  {
    match k
    case _ =>
  }

  /** Conversely: an array that comes back as it was. By induction on the index,
      since element i is read from element i / 2. */
  lemma {:induction false} SurvivedElement(proto: Node, vs: seq<Node>, i: nat)
    requires proto.Leaf? && i < |vs| && forall j :: 0 <= j < |vs| ==> ItemOf(proto, vs[j])
    requires MergeItems(proto, vs) == vs
    ensures PrimitiveSurvives(proto.kind, vs, i)
    decreases i
  {
    EncodedItem(vs, i);
    EncodedItem(vs, i / 2);
    assert ItemOf(proto, vs[i]) && ItemOf(proto, vs[i / 2]) && ItemOf(proto, vs[0]);
    assert MergeItem(proto, vs, i) == vs[i];
    if i > 0 {
      SurvivedElement(proto, vs, i / 2);
    }
  }

  lemma {:induction false} BlankItem(proto: Node, v: Node)
    requires Blank(proto) && ValueOf(proto, v)
    ensures Appended(proto, v) == v
    decreases v
  {
    match proto
    case Leaf(_, _, _) =>
    case Complex(_, children) =>
      forall i | 0 <= i < |children| ensures AllAppended(children, v.children)[i] == v.children[i] {
        assert ValueOf(children[i], v.children[i]);
        BlankItem(children[i], v.children[i]);
      }
      assert AllAppended(children, v.children) == v.children;
    case Arr(_, _, items) =>
      assert items + v.items == v.items;
  }

  /** An encoded value is read back from any place in a list of variants: the
      leaves of the target are replaced and the elements of arrays appended,
      exactly when the value survives. */
  lemma RoundTrip(t: Node, v: Node, pre: seq<Variant>, post: seq<Variant>)
    requires ValueOf(t, v) && NewElementsBlank(t)
    ensures var r := Decode(t, pre + Encode(v) + post, |pre|);
      r.Good? && r.value.1 == |pre| + |Encode(v)| && (r.value.0 == Appended(t, v) <==> Survives(v))
  {
    DecodeEncoded(t, v, pre, post);
    MergeExact(t, v);
  }

  /** Into a fresh object, this gives the value itself. */
  lemma FreshRoundTrip(t: Node, v: Node)
    requires ValueOf(t, v) && NewElementsBlank(t) && Blank(t)
    ensures Decode(t, Encode(v), 0) == Good((v, |Encode(v)|)) <==> Survives(v)
  {
    var vs := Encode(v);
    assert [] + vs + [] == vs;
    DecodeEncoded(t, v, [], []);
    MergeExact(t, v);
    BlankItem(t, v);
  }

  /** A large counter, and an array of two small integers, that do not come back. */
  lemma LostValues()
    ensures Decode(Leaf("n", UInt64, Num(0)), Encode(Leaf("n", UInt64, Num(TWO32))), 0)
         == Good((Leaf("n", UInt64, Num(0)), 1))
    ensures var el := Leaf("", Int64, Num(0));
      Decode(Arr("a", el, []), Encode(Arr("a", el, [el.(value := Num(1)), el.(value := Num(2))])), 0)
         == Good((Arr("a", el, [el.(value := Num(1)), el]), 1))
  {
    var el := Leaf("", Int64, Num(0));
    var items := [el.(value := Num(1)), el.(value := Num(2))];
    var v := Arr("a", el, items);
    DecodeEncoded(Arr("a", el, []), v, [], []);
    assert [] + Encode(v) + [] == Encode(v);
    EncodedItem(items, 0);
    assert MergeItem(el, items, 0) == items[0] && MergeItem(el, items, 1) == el;
    assert [] + MergeItems(el, items) == [items[0], el];
  }
}
