/** What a declared signature promises about the variants that are sent, down to
    the elements of nested arrays. */
module CodecSchema {
  import opened CodecModel
  import opened CodecRoundTrip
  import opened CodecAlignment

  /** A value that the OPC UA type can hold. */
  predicate Representable(tag: TypeIndex, c: Cell) {
    if tag == BOOLEAN then c.Flag?
    else if tag == BYTE then c.Num? && 0 <= c.n < 256
    else if tag == INT16 then c.Num? && -0x8000 <= c.n < 0x8000
    else if tag == UINT16 then c.Num? && 0 <= c.n < 0x1_0000
    else if tag == INT32 then c.Num? && -TWO31 <= c.n < TWO31
    else if tag == UINT32 then c.Num? && 0 <= c.n < TWO32
    else if tag == INT64 then c.Num? && -TWO63 <= c.n < TWO63
    else if tag == UINT64 then c.Num? && 0 <= c.n < 2 * TWO63
    else if tag == FLOAT || tag == DOUBLE then c.Bits?
    else tag == STRING && c.Text?
  }

  /** The list has exactly the variants that the description declares. */
  predicate Conforms(t: Node, vs: seq<Variant>)
    decreases t, 1
  {
    match t
    case Leaf(_, k, _) => |vs| == 1 && vs[0].Scalar? && vs[0].tag == ArgumentType(k) && Representable(vs[0].tag, vs[0].cell)
    case Complex(_, children) => AllConform(children, vs)
    case Arr(_, proto, _) => |vs| == 1 && ArrayConforms(proto, vs[0])
  }

  predicate AllConform(ts: seq<Node>, vs: seq<Variant>)
    decreases ts, 0
  {
    if ts == [] then vs == []
    else
      var front, last := ts[..|ts| - 1], ts[|ts| - 1];
      var w := |ArgumentsOfAll(front)|;
      w <= |vs| && AllConform(front, vs[..w]) && Conforms(last, vs[w..])
  }

  predicate ArrayConforms(proto: Node, v: Variant)
    decreases proto, 3
  {
    v.Array? && v.tag == IndexedType(proto) && v.dims == [|v.cells|]
    && forall i :: 0 <= i < |v.cells| ==> CellConforms(proto, v.cells[i])
  }

  /** An element of complex type is a list of its own, an element that is an array
      an array of its own. */
  predicate CellConforms(proto: Node, c: Cell)
    decreases proto, 2
  {
    match proto
    case Leaf(_, k, _) => Representable(IndexedType(proto), c)
    case Complex(_, _) =>
      c.Inner? && c.v.Array? && c.v.tag == VARIANT && c.v.dims == [|c.v.cells|]
      && (forall i :: 0 <= i < |c.v.cells| ==> c.v.cells[i].Inner?)
      && Conforms(proto, Unwrap(c.v.cells))
    case Arr(_, inner, _) => c.Inner? && ArrayConforms(inner, c.v)
  }

  // ---------- the encoder keeps the declaration ----------

  lemma {:induction false} EncodedConforms(t: Node, v: Node)
    requires ValueOf(t, v)
    ensures Conforms(t, Encode(v))
    decreases v, 1
  {
    match t
    case Leaf(_, k, _) => StoredScalar(k, v.value);
    case Complex(_, children) => AllEncodedConform(children, v.children);
    case Arr(_, proto, _) => EncodedArrayConforms(proto, v.items);
  }

  lemma {:induction false} AllEncodedConform(ts: seq<Node>, vs: seq<Node>)
    requires ValuesOf(ts, vs)
    ensures AllConform(ts, EncodeAll(vs))
    decreases vs, 0
  {
    if vs != [] {
      var n := |vs| - 1;
      assert ValueOf(ts[n], vs[n]);
      AllEncodedConform(ts[..n], vs[..n]);
      EncodedConforms(ts[n], vs[n]);
      SignaturesAgree(ts[..n], vs[..n]);
      var w := |ArgumentsOfAll(ts[..n])|;
      assert EncodeAll(vs)[..w] == EncodeAll(vs[..n]) && EncodeAll(vs)[w..] == Encode(vs[n]);
    }
  }

  lemma {:induction false} EncodedArrayConforms(proto: Node, items: seq<Node>)
    requires forall i :: 0 <= i < |items| ==> ItemOf(proto, items[i])
    ensures ArrayConforms(proto, EncodeArray(proto, items))
    decreases items, 0
  {
    DeclaredTypesAgree(proto);
    forall i | 0 <= i < |items| ensures CellConforms(proto, EncodeItems(items)[i]) {
      assert ItemOf(proto, items[i]);
      EncodedItem(items, i);
      match proto
      case Leaf(_, k, _) =>
        StoredElement(k, items[i].value);
      case Complex(_, _) =>
        EncodedConforms(proto, items[i]);
        assert Unwrap(Wrap(Encode(items[i]))) == Encode(items[i]);
      case Arr(_, inner, _) =>
        assert ValueOf(proto, items[i]);
        EncodedArrayConforms(inner, items[i].items);
    }
  }

  lemma StoredScalar(k: Kind, c: Cell)
    requires Fits(k, c)
    ensures ScalarType(k) == ArgumentType(k) && Representable(ArgumentType(k), StoreScalar(k, c))
  {
    match k
    case _ =>
  }

  lemma StoredElement(k: Kind, c: Cell)
    requires Fits(k, c)
    ensures Representable(ArgumentType(k), StoreElement(k, c))
    ensures IndexedType(Leaf("", k, c)) == ArgumentType(k)
  {
    match k
    case _ =>
  }

  // ---------- the decoder accepts what is declared ----------

  /** A list that keeps the declaration is read to its end, without a fault. */
  lemma {:induction false} ConformingDecodes(t: Node, pre: seq<Variant>, vs: seq<Variant>, post: seq<Variant>)
    requires Conforms(t, vs)
    ensures var r := Decode(t, pre + vs + post, |pre|); r.Good? && r.value.1 == |pre| + |vs|
    decreases t, 1
  {
    match t
    case Leaf(_, k, _) =>
      assert (pre + vs + post)[|pre|] == vs[0];
    case Complex(_, children) =>
      AllConformingDecode(children, pre, vs, post);
    case Arr(_, proto, _) =>
      assert (pre + vs + post)[|pre|] == vs[0];
      ConformingItemsDecode(proto, vs[0], |vs[0].cells|);
  }

  lemma {:induction false} AllConformingDecode(ts: seq<Node>, pre: seq<Variant>, vs: seq<Variant>, post: seq<Variant>)
    requires AllConform(ts, vs)
    ensures var r := DecodeAll(ts, pre + vs + post, |pre|); r.Good? && r.value.1 == |pre| + |vs|
    decreases ts, 0
  {
    if ts != [] {
      var n := |ts| - 1;
      var w := |ArgumentsOfAll(ts[..n])|;
      assert pre + vs + post == pre + vs[..w] + (vs[w..] + post);
      AllConformingDecode(ts[..n], pre, vs[..w], vs[w..] + post);
      assert pre + vs + post == (pre + vs[..w]) + vs[w..] + post;
      ConformingDecodes(ts[n], pre + vs[..w], vs[w..], post);
    }
  }

  lemma {:induction false} ConformingItemsDecode(proto: Node, v: Variant, count: nat)
    requires ArrayConforms(proto, v) && count <= |v.cells|
    ensures DecodeItems(proto, v, count).Good?
    decreases proto, 3, count
  {
    if count > 0 {
      ConformingItemsDecode(proto, v, count - 1);
      ConformingItemDecodes(proto, v, count - 1);
    }
  }

  lemma {:induction false} ConformingItemDecodes(proto: Node, v: Variant, i: nat)
    requires ArrayConforms(proto, v) && i < |v.cells|
    ensures DecodeItem(proto, v, i).Good?
    decreases proto, 2
  {
    assert CellConforms(proto, v.cells[i]) && CellConforms(proto, v.cells[0]);
    match proto
    case Leaf(_, k, _) =>
      ReadTypesAgree(k);
      DeclaredTypesAgree(proto);
    case Complex(_, _) =>
      var vs := Unwrap(v.cells[i].v.cells);
      assert InnerVariants(v, i) == Good(vs);
      ConformingDecodes(proto, [], vs, []);
      assert [] + vs + [] == vs;
    case Arr(_, inner, _) =>
      ConformingItemsDecode(inner, v.cells[i].v, |v.cells[i].v.cells|);
  }
}
