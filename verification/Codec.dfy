/** The visitors that convert between communication objects and variants. Each of
    them walks the description with fields that it updates; its contract says
    which value of CodecModel it computes. */
module Codec {
  import opened CodecModel
  import opened Names

  lemma PrefixStep<T>(s: seq<T>, i: nat)
    requires i < |s|
    ensures s[..i + 1][..i] == s[..i] && s[..i + 1][i] == s[i] && |s[..i + 1]| == i + 1
  {
  }

  // ---------- encoding ----------

  /** Collects the variants of a description in a list. */
  class ToUaVariantArrayVisitor {
    var variants: seq<Variant>

    constructor ()
      ensures variants == []
    {
      variants := [];
    }

    method Visit(n: Node)
      modifies this
      ensures variants == old(variants) + Encode(n)
      decreases n, 1
    {
      match n
      case Leaf(_, k, c) =>
        variants := variants + [Scalar(ScalarType(k), StoreScalar(k, c))];
      case Complex(_, children) =>
        for i := 0 to |children|
          invariant variants == old(variants) + EncodeAll(children[..i])
        {
          Visit(children[i]);
          PrefixStep(children, i);
        }
        assert children[..|children|] == children;
      case Arr(_, proto, items) =>
        var converter := new CommObjArrayToValue(proto, items);
        variants := variants + [converter.Value()];
    }
  }

  /** Converts an array to one variant, in a buffer filled slot by slot. */
  class CommObjArrayToValue {
    var tag: TypeIndex
    var data: array<Cell>
    var dims: seq<nat>

    constructor (proto: Node, items: seq<Node>)
      ensures fresh(data)
      ensures Value() == EncodeArray(proto, items)
      decreases items, 1
    {
      tag := ElementType(proto);
      data := new Cell[|items|];
      dims := [|items|];
      new;
      for i := 0 to |items|
        invariant fresh(data) && data.Length == |items|
        invariant tag == ElementType(proto) && dims == [|items|]
        invariant data[..i] == EncodeItems(items[..i])
      {
        SetElement(i, items[i]);
        PrefixStep(items, i);
        assert data[..i + 1] == data[..i] + [data[i]];
      }
      assert items[..|items|] == items && data[..] == data[..|items|];
    }

    function Value(): Variant
      reads this, data
    {
      Array(tag, data[..], dims)
    }

    method SetElement(index: nat, item: Node)
      requires index < data.Length
      modifies data
      ensures data[..] == old(data[..])[index := EncodeItem(item)]
      decreases item, 3
    {
      match item
      case Leaf(_, k, c) =>
        data[index] := StoreElement(k, c);
      case Complex(_, _) =>
        var variants := CommObjectToUaVariantArray(item);
        data[index] := Inner(Array(VARIANT, Wrap(variants[..]), [variants.Length]));
      case Arr(_, proto, items) =>
        var inner := new CommObjArrayToValue(proto, items);
        data[index] := Inner(inner.Value());
    }
  }

  /** The encoder: collects the variants and copies them to an array. */
  method CommObjectToUaVariantArray(n: Node) returns (result: array<Variant>)
    ensures fresh(result) && result[..] == Encode(n)
    decreases n, 2
  {
    var visitor := new ToUaVariantArrayVisitor();
    visitor.Visit(n);
    var list := visitor.variants;
    result := new Variant[|list|];
    for index := 0 to |list|
      invariant result[..index] == list[..index]
    {
      result[index] := list[index];
    }
  }

  // ---------- decoding ----------

  /** The description of a vector: it works on a copy and writes that back. */
  class ArrayOf {
    const proto: Node
    /** The vector in the described object. */
    var source: seq<Node>
    /** The copy. */
    var vec: seq<Node>

    constructor (proto: Node, source: seq<Node>)
      ensures this.proto == proto && this.source == source && vec == source
    {
      this.proto := proto;
      this.source := source;
      vec := source;
    }

    method PushBack(item: Node)
      modifies `vec
      ensures vec == old(vec) + [item]
    {
      vec := vec + [item];
    }

    method SetVector()
      modifies `source
      ensures source == vec
    {
      source := vec;
    }
  }

  /** Reads the elements of one array, by index, from one variant. */
  class ToCommObjArrayVisitor {
    const variant: Variant
    var index: nat

    constructor (variant: Variant)
      ensures this.variant == variant
    {
      this.variant := variant;
      index := 0;
    }

    /** On a fault the described vector is not written. */
    method Fill(arr: ArrayOf) returns (fault: Option<Fault>)
      modifies arr, this
      ensures match DecodeItems(arr.proto, variant, Length(variant))
        case Good(items) => fault == None && arr.source == old(arr.vec) + items && arr.vec == arr.source
        case Bad(e) => fault == Some(e) && arr.source == old(arr.source)
      decreases arr.proto, 3
    {
      index := 0;
      ghost var items: seq<Node> := [];
      while index < Length(variant)
        invariant index <= Length(variant)
        invariant DecodeItems(arr.proto, variant, index) == Good(items)
        invariant arr.vec == old(arr.vec) + items && arr.source == old(arr.source)
        decreases Length(variant) - index
      {
        var item := Visit(arr.proto);
        match item {
          case Bad(e) =>
            FaultStays(arr.proto, variant, index + 1, Length(variant));
            return Some(e);
          case Good(element) =>
            arr.PushBack(element);
            items := items + [element];
        }
        index := index + 1;
      }
      arr.SetVector();
      fault := None;
    }

    method Visit(element: Node) returns (r: Decoded<Node>)
      requires index < Length(variant)
      ensures r == DecodeItem(element, variant, index)
      decreases element, 2
    {
      match element
      case Leaf(_, k, _) =>
        if variant.tag != ElementReadType(k) {
          return Bad(WrongElementType);
        }
        r := Good(element.(value := LoadElement(k, variant.cells, index)));
      case Complex(_, _) =>
        match InnerVariants(variant, index) {
          case Bad(e) =>
            r := Bad(e);
          case Good(variants) =>
            var visitor := new ToCommObjectVisitor(variants);
            r := visitor.Visit(element);
        }
      case Arr(_, _, _) =>
        if variant.tag != VARIANT {
          return Bad(WrongElementType);
        }
        var inner := if variant.cells[index].Inner? then variant.cells[index].v else Null;
        r := VariantToCommObjArray(element, inner);
    }
  }

  lemma {:induction false} FaultStays(proto: Node, v: Variant, m: nat, n: nat)
    requires m <= n <= Length(v) && DecodeItems(proto, v, m).Bad?
    ensures DecodeItems(proto, v, n) == DecodeItems(proto, v, m)
    decreases n
  {
    if m < n {
      FaultStays(proto, v, m, n - 1);
    }
  }

  /** Decodes one variant into an array element. */
  method VariantToCommObjArray(n: Node, v: Variant) returns (r: Decoded<Node>)
    requires n.Arr?
    ensures r == DecodeArray(n, v)
    decreases n, 0
  {
    var arr := new ArrayOf(n.proto, n.items);
    var visitor := new ToCommObjArrayVisitor(v);
    var fault := visitor.Fill(arr);
    match fault
    case Some(e) => r := Bad(e);
    case None => r := Good(n.(items := arr.source));
  }

  /** Reads an object from a list of variants with a cursor. */
  class ToCommObjectVisitor {
    const srcVariants: seq<Variant>
    var nextIndex: nat

    constructor (srcVariants: seq<Variant>)
      ensures this.srcVariants == srcVariants && nextIndex == 0
    {
      this.srcVariants := srcVariants;
      nextIndex := 0;
    }

    method Visit(n: Node) returns (r: Decoded<Node>)
      modifies this
      ensures match Decode(n, srcVariants, old(nextIndex))
        case Good((decoded, next)) => r == Good(decoded) && nextIndex == next
        case Bad(e) => r == Bad(e)
      decreases n, 1
    {
      match n
      case Leaf(_, _, _) =>
        if nextIndex >= |srcVariants| {
          return Bad(Missing);
        }
        var nextData := srcVariants[nextIndex];
        nextIndex := nextIndex + 1;
        r := DecodeLeaf(n, nextData);
      case Complex(_, children) =>
        var decoded: seq<Node> := [];
        for i := 0 to |children|
          invariant DecodeAll(children[..i], srcVariants, old(nextIndex)) == Good((decoded, nextIndex))
        {
          var element := Visit(children[i]);
          PrefixStep(children, i);
          match element {
            case Bad(e) =>
              FaultStaysInAll(children, srcVariants, old(nextIndex), i + 1, |children|);
              assert children[..|children|] == children;
              return Bad(e);
            case Good(child) =>
              decoded := decoded + [child];
          }
        }
        assert children[..|children|] == children;
        r := Good(n.(children := decoded));
      case Arr(_, _, _) =>
        if nextIndex >= |srcVariants| {
          return Bad(Missing);
        }
        r := VariantToCommObjArray(n, srcVariants[nextIndex]);
        nextIndex := nextIndex + 1;
    }
  }

  lemma {:induction false} FaultStaysInAll(ns: seq<Node>, vs: seq<Variant>, pos: nat, m: nat, k: nat)
    requires m <= k <= |ns| && DecodeAll(ns[..m], vs, pos).Bad?
    ensures DecodeAll(ns[..k], vs, pos) == DecodeAll(ns[..m], vs, pos)
    decreases k
  {
    if m < k {
      FaultStaysInAll(ns, vs, pos, m, k - 1);
      assert ns[..k][..k - 1] == ns[..k - 1];
    }
  }

  // ---------- leaves and arguments ----------

  method CommObjectToListOfPrimitivDescriptions(n: Node) returns (list: seq<Node>)
    ensures list == Leaves(n)
    decreases n
  {
    list := [];
    if n.Complex? {
      for i := 0 to |n.children|
        invariant list == LeavesOfAll(n.children[..i])
      {
        var elements := CommObjectToListOfPrimitivDescriptions(n.children[i]);
        list := list + elements;
        PrefixStep(n.children, i);
      }
      assert n.children[..|n.children|] == n.children;
    } else {
      list := list + [n];
    }
  }

  /** Finds the declared element type of an array from one of its elements. */
  class ToIndexVisitor {
    var id: TypeIndex

    constructor () {
      id := BOOLEAN;
    }

    method Visit(n: Node)
      modifies this
      ensures id == IndexedType(n)
    {
      match n
      case Complex(_, _) => id := VARIANT;
      case Arr(_, _, _) => id := VARIANT;
      case Leaf(_, k, _) =>
        match k {
          case Bool => id := BOOLEAN;
          case Int8 => id := BYTE;
          case Int16 => id := INT16;
          case Int32 => id := INT32;
          case Int64 => id := INT64;
          case UInt8 => id := BYTE;
          case UInt16 => id := UINT16;
          case UInt32 => id := UINT32;
          case UInt64 => id := UINT64;
          case Float => id := FLOAT;
          case Double => id := DOUBLE;
          case String => id := STRING;
        }
    }
  }

  /** Collects the arguments of a description in a list. */
  class ToUaArgumentArrayVisitor {
    var arguments: seq<Argument>

    constructor ()
      ensures arguments == []
    {
      arguments := [];
    }

    method Visit(n: Node)
      modifies this
      ensures arguments == old(arguments) + Arguments(n)
      decreases n
    {
      match n
      case Leaf(name, k, _) =>
        arguments := arguments + [Argument(name, ArgumentType(k), SCALAR_RANK)];
      case Complex(_, children) =>
        for i := 0 to |children|
          invariant arguments == old(arguments) + ArgumentsOfAll(children[..i])
        {
          Visit(children[i]);
          PrefixStep(children, i);
        }
        assert children[..|children|] == children;
      case Arr(name, proto, _) =>
        var typeIndex := new ToIndexVisitor();
        typeIndex.Visit(proto);
        arguments := arguments + [Argument(name, typeIndex.id, ARRAY_RANK)];
    }
  }

  method CommObjectToUaArgumentArray(n: Node) returns (result: array<Argument>)
    ensures fresh(result) && result[..] == Arguments(n)
  {
    var visitor := new ToUaArgumentArrayVisitor();
    visitor.Visit(n);
    var list := visitor.arguments;
    result := new Argument[|list|];
    for index := 0 to |list|
      invariant result[..index] == list[..index]
    {
      result[index] := list[index];
    }
  }
}
