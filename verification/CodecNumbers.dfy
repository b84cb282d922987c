/** What is declared, sent and read back, in numbers: the type numbers of OPC UA, the
    value ranks, and the integers that come back. */
module CodecNumbers {
  import opened CodecModel
  import opened CodecRoundTrip
  import opened CodecAlignment

  const BASE: int := 4294967296 // 2^32

  // ---------- types and ranks ----------

  /** Numbers of the types, as in the table of open62541. */
  function Number(k: Kind): int {
    match k
    case Bool => 0
    case Int8 => 2
    case UInt8 => 2
    case Int16 => 3
    case UInt16 => 4
    case Int32 => 5
    case UInt32 => 6
    case Int64 => 7
    case UInt64 => 8
    case Float => 9
    case Double => 10
    case String => 11
  }

  /** ... of the elements of an array: all that are not primitive are variants. */
  function ElementNumber(proto: Node): int { if proto.Leaf? then Number(proto.kind) else 23 }

  function LeafNumber(leaf: Node): int
    requires !leaf.Complex?
  {
    if leaf.Arr? then ElementNumber(leaf.proto) else Number(leaf.kind)
  }

  lemma NumbersAgree(proto: Node)
    ensures IndexedType(proto) as int == ElementType(proto) as int == ElementNumber(proto)
    ensures proto.Leaf? ==> ArgumentType(proto.kind) as int == ScalarReadType(proto.kind) as int == Number(proto.kind)
    ensures proto.Leaf? ==> ElementReadType(proto.kind) as int == Number(proto.kind)
  {
    if proto.Leaf? {
      match proto.kind
      case _ =>
    }
  }

  /** An argument of the signature: the name of its leaf, the number of its type, and
      rank -1 for a scalar and 1 for an array. */
  predicate Declares(a: Argument, leaf: Node) {
    && !leaf.Complex? && a.name == leaf.name
    && a.dataType as int == LeafNumber(leaf)
    && a.rank == if leaf.Arr? then 1 else -1
  }

  predicate DeclareAll(args: seq<Argument>, leaves: seq<Node>) {
    |args| == |leaves| && forall k :: 0 <= k < |args| ==> Declares(args[k], leaves[k])
  }

  /** Every description declares its leaves, in order. */
  lemma {:induction false} Declared(t: Node)
    ensures DeclareAll(Arguments(t), Leaves(t))
    decreases t, 1
  {
    match t
    case Leaf(_, _, _) => NumbersAgree(t);
    case Complex(_, children) => AllDeclared(children);
    case Arr(_, proto, _) => NumbersAgree(proto);
  }

  lemma {:induction false} AllDeclared(ts: seq<Node>)
    ensures DeclareAll(ArgumentsOfAll(ts), LeavesOfAll(ts))
    decreases ts, 0
  {
    if ts != [] {
      AllDeclared(ts[..|ts| - 1]);
      Declared(ts[|ts| - 1]);
    }
  }

  /** What is sent for a leaf: a scalar or an array of the declared type. */
  predicate SentFor(leaf: Node, v: Variant) {
    && !leaf.Complex? && (if leaf.Arr? then v.Array? && v.dims == [|v.cells|] else v.Scalar?)
    && v.tag as int == LeafNumber(leaf)
  }

  lemma SentTypes(t: Node, v: Node, k: nat)
    requires ValueOf(t, v) && k < |Encode(v)|
    ensures |Leaves(t)| == |Encode(v)| && SentFor(Leaves(t)[k], Encode(v)[k])
  {
    SignatureAgrees(t, v);
    Declared(t);
    assert Match(Arguments(t)[k], Leaves(t)[k], Encode(v)[k]);
    assert Declares(Arguments(t)[k], Leaves(t)[k]);
  }

  // ---------- values that are sent ----------

  /** Signed bytes are sent as unsigned ones, and all else as it is; but a string in
      an array ends before its first NUL. */
  predicate SentAs(k: Kind, c: Cell, x: Cell, inArray: bool) {
    if k.Int8? then c.Num? && x.Num? && 0 <= x.n < 256 && (x.n - c.n) % 256 == 0
    else if k.String? && inArray then c.Text? && x.Text? && UpToNul(c.s, x.s)
    else x == c
  }

  predicate UpToNul(s: string, r: string) {
    r <= s && '\0' !in r && (r != s ==> s[|r|] == '\0')
  }

  lemma {:induction false} CStringEnds(s: string)
    ensures UpToNul(s, CString(s))
  {
    if s != [] && s[0] != '\0' {
      CStringEnds(s[1..]);
      assert s == [s[0]] + s[1..];
    }
  }

  lemma ScalarSent(v: Node)
    requires v.Leaf? && Fits(v.kind, v.value)
    ensures Encode(v)[0].Scalar? && SentAs(v.kind, v.value, Encode(v)[0].cell, false)
  {
  }

  lemma ElementSent(proto: Node, vs: seq<Node>, i: nat)
    requires proto.Leaf? && i < |vs| && ItemOf(proto, vs[i])
    ensures SentAs(proto.kind, vs[i].value, EncodeItems(vs)[i], true)
  {
    EncodedItem(vs, i);
    if proto.kind.String? { CStringEnds(vs[i].value.s); }
  }

  // ---------- values that are read ----------

  /** A byte is read as a signed one, and an unsigned 64-bit integer as its low half. */
  predicate ReadAs(k: Kind, c: Cell, x: Cell) {
    if k.Int8? && c.Num? then x.Num? && -128 <= x.n < 128 && (x.n - c.n) % 256 == 0
    else if k.UInt64? && c.Num? then x.Num? && 0 <= x.n < BASE && (x.n - c.n) % BASE == 0
    else x == c
  }

  lemma LoadedScalar(k: Kind, c: Cell)
    ensures ReadAs(k, c, LoadScalar(k, c))
  {
    if k.UInt64? && c.Num? { LowPart(c.n); }
  }

  lemma LowPart(n: int)
    ensures 0 <= n % BASE < BASE && (n % BASE - n) % BASE == 0
  {
    assert n % BASE - n == BASE * -(n / BASE);
    Multiple(-(n / BASE));
  }

  lemma Multiple(q: int)
    ensures (BASE * q) % BASE == 0
  {
  }

  /** A primitive, read from anything at all: without a variant it fails; a scalar of
      its type is its value; of an array of its type the first element is, and there
      must be one; and anything else leaves it as it is. */
  lemma PrimitiveReads(n: Node, vs: seq<Variant>, pos: nat)
    requires n.Leaf?
    ensures var d := Decode(n, vs, pos);
      if pos >= |vs| then d == Bad(Missing)
      else
        var v := vs[pos];
        if v.Null? || v.tag as int != Number(n.kind) then d == Good((n, pos + 1))
        else if v.Array? && v.cells == [] then d == Bad(Unreadable)
        else
          var c := if v.Scalar? then v.cell else v.cells[0];
          d.Good? && d.value.0.Leaf? && d == Good((n.(value := d.value.0.value), pos + 1)) && ReadAs(n.kind, c, d.value.0.value)
  {
    NumbersAgree(n);
    if pos < |vs| {
      match vs[pos]
      case Null =>
      case Scalar(_, c) => LoadedScalar(n.kind, c);
      case Array(_, cells, _) => if cells != [] { LoadedScalar(n.kind, cells[0]); }
    }
  }

  // ---------- arrays of 64-bit integers ----------

  /** The stored integers, cut into 32-bit ones: of the first half of `cells`, each
      gives its low half and, at the next place, its high half. */
  predicate Halves(cells: seq<Cell>, r: seq<Node>) {
    && |r| == |cells|
    && (forall i :: 0 <= i < |r| ==> r[i].Leaf? && r[i].value.Num? && -2147483648 <= r[i].value.n < 2147483648)
    && (forall k :: 0 <= k < |cells| && 2 * k < |r| ==> cells[k].Num? && (r[2 * k].value.n - cells[k].n) % BASE == 0)
    && (forall k :: 0 <= k < |cells| && 2 * k + 1 < |r| ==>
          cells[k].Num? && r[2 * k].value.n % BASE + BASE * r[2 * k + 1].value.n == cells[k].n)
  }

  lemma HalvesOf(n: int)
    requires -TWO63 <= n < TWO63
    ensures -2147483648 <= LowHalf(n) < 2147483648 && -2147483648 <= HighHalf(n) < 2147483648
    ensures (LowHalf(n) - n) % BASE == 0 && LowHalf(n) % BASE + BASE * HighHalf(n) == n
  {
    LowPart(n);
    assert n == BASE * (n / BASE) + n % BASE;
    if n % BASE >= TWO31 {
      assert LowHalf(n) - n == BASE * (-(n / BASE) - 1);
      Multiple(-(n / BASE) - 1);
    }
  }

  ghost predicate Wide(cells: seq<Cell>) {
    forall k :: 0 <= k < |cells| ==> cells[k].Num? && -TWO63 <= cells[k].n < TWO63
  }

  lemma CutInHalves(cells: seq<Cell>, r: seq<Node>)
    requires Wide(cells) && |r| == |cells|
    requires forall i :: 0 <= i < |r| ==> r[i].Leaf? && r[i].value == LoadElement(Int64, cells, i)
    ensures Halves(cells, r)
  {
    forall i | 0 <= i < |r| ensures r[i].value.Num? && -2147483648 <= r[i].value.n < 2147483648 {
      HalvesOf(cells[i / 2].n);
    }
    forall k | 0 <= k < |cells| && 2 * k < |r| ensures (r[2 * k].value.n - cells[k].n) % BASE == 0 {
      HalvesOf(cells[k].n);
      assert 2 * k / 2 == k;
    }
    forall k | 0 <= k < |cells| && 2 * k + 1 < |r|
      ensures r[2 * k].value.n % BASE + BASE * r[2 * k + 1].value.n == cells[k].n
    {
      HalvesOf(cells[k].n);
      assert 2 * k / 2 == k && (2 * k + 1) / 2 == k && (2 * k + 1) % 2 == 1;
    }
  }

  function ValuesIn(items: seq<Node>): (r: seq<Cell>)
    requires forall i :: 0 <= i < |items| ==> items[i].Leaf?
    ensures |r| == |items| && forall i :: 0 <= i < |r| ==> r[i] == items[i].value
  {
    seq(|items|, i requires 0 <= i < |items| => items[i].value)
  }

  /** An array of signed 64-bit integers, sent and read back: what comes back are the
      halves of its first half. */
  lemma WideArrayReturns(t: Node, v: Node)
    requires t.Arr? && t.proto.Leaf? && t.proto.kind.Int64? && t.items == [] && ValueOf(t, v)
    ensures (forall i :: 0 <= i < |v.items| ==> v.items[i].Leaf?)
      && var d := Decode(t, Encode(v), 0);
         d.Good? && d.value.1 == 1 && d.value.0.Arr? && Halves(ValuesIn(v.items), d.value.0.items)
  {
    forall i | 0 <= i < |v.items| ensures v.items[i].Leaf? && Fits(Int64, v.items[i].value) {
      assert ItemOf(t.proto, v.items[i]);
    }
    DecodeEncoded(t, v, [], []);
    assert [] + Encode(v) + [] == Encode(v);
    var cells, r := ValuesIn(v.items), MergeItems(t.proto, v.items);
    assert [] + r == r;
    assert EncodeItems(v.items) == cells by {
      forall i | 0 <= i < |cells| ensures EncodeItems(v.items)[i] == cells[i] { EncodedItem(v.items, i); }
    }
    CutInHalves(cells, r);
  }

  // ---------- arrays of anything ----------

  /** Elements are read one by one; the first that cannot be read is the fault of
      all. */
  ghost predicate ReadInTurn(proto: Node, v: Variant, count: nat, d: Decoded<seq<Node>>)
    requires count <= Length(v)
  {
    match d
    case Good(items) => |items| == count && forall i :: 0 <= i < count ==> DecodeItem(proto, v, i) == Good(items[i])
    case Bad(e) => exists i :: 0 <= i < count && FirstFault(proto, v, i, e)
  }

  ghost predicate FirstFault(proto: Node, v: Variant, i: nat, e: Fault)
    requires i < Length(v)
  {
    DecodeItem(proto, v, i) == Bad(e) && forall j :: 0 <= j < i ==> DecodeItem(proto, v, j).Good?
  }

  lemma {:induction false} ItemsReadInTurn(proto: Node, v: Variant, count: nat)
    requires count <= Length(v)
    ensures ReadInTurn(proto, v, count, DecodeItems(proto, v, count))
  {
    if count > 0 {
      ItemsReadInTurn(proto, v, count - 1);
      var front, last := DecodeItems(proto, v, count - 1), DecodeItem(proto, v, count - 1);
      if front.Good? && last.Bad? {
        assert FirstFault(proto, v, count - 1, last.fault);
      }
    }
  }

  /** What an array is read from: elements are appended; nothing is appended from a
      scalar, from an empty variant, or from an array without elements, whatever its
      type; and otherwise the type must be that of the elements. */
  lemma ArrayReads(t: Node, v: Variant)
    requires t.Arr?
    ensures var d := DecodeArray(t, v);
      && (Length(v) == 0 ==> d == Good(t))
      && (Length(v) > 0 && v.tag as int != ElementNumber(t.proto) ==> d == Bad(WrongElementType))
      && (d.Good? ==> d.value.Arr? && t.items <= d.value.items && d.value == t.(items := d.value.items))
      && (d.Good? ==> ReadInTurn(t.proto, v, Length(v), Good(d.value.items[|t.items|..])))
      && (d.Bad? ==> ReadInTurn(t.proto, v, Length(v), Bad(d.fault)))
  {
    ItemsReadInTurn(t.proto, v, Length(v));
    NumbersAgree(t.proto);
    var items := DecodeItems(t.proto, v, Length(v));
    if items.Good? {
      assert (t.items + items.value)[|t.items|..] == items.value;
      assert Length(v) == 0 ==> t.items + items.value == t.items;
    }
    if Length(v) > 0 && v.tag as int != ElementNumber(t.proto) { WrongTypes(t.proto, v); }
  }

  lemma WrongTypes(proto: Node, v: Variant)
    requires Length(v) > 0 && v.tag as int != ElementNumber(proto)
    ensures DecodeItems(proto, v, Length(v)) == Bad(WrongElementType)
  {
    NumbersAgree(proto);
    ItemsReadInTurn(proto, v, Length(v));
    forall i | 0 <= i < Length(v) ensures DecodeItem(proto, v, i) == Bad(WrongElementType) {}
    assert DecodeItem(proto, v, 0) == Bad(WrongElementType);
  }

  /** A primitive element of the right type. */
  lemma PrimitiveElementReads(proto: Node, v: Variant, i: nat)
    requires proto.Leaf? && !proto.kind.Int64? && i < Length(v) && v.tag as int == Number(proto.kind)
    ensures var d := DecodeItem(proto, v, i);
      d.Good? && d.value.Leaf? && d.value == proto.(value := d.value.value)
      && (if proto.kind.Int8? then ReadAs(Int8, v.cells[i], d.value.value) else d.value.value == v.cells[i])
  {
    NumbersAgree(proto);
  }

  /** A complex element: the stored list must be an array of one dimension for the
      first element, whichever is read, and is then decoded on its own. */
  lemma ComplexElementReads(proto: Node, v: Variant, i: nat, xs: seq<Variant>, dims: seq<nat>)
    requires proto.Complex? && i < Length(v) && v.tag as int == 23
    ensures var first := v.cells[0];
      !(first.Inner? && first.v.Array? && |first.v.dims| == 1) ==> DecodeItem(proto, v, i) == Bad(WrongElementType)
    ensures var first := v.cells[0];
      first.Inner? && first.v.Array? && |first.v.dims| == 1 && v.cells[i] == Inner(Array(VARIANT, Wrap(xs), dims)) ==>
        DecodeItem(proto, v, i) == match Decode(proto, xs, 0) case Good((r, _)) => Good(r) case Bad(e) => Bad(e)
  {
    assert Unwrap(Wrap(xs)) == xs;
  }
}
